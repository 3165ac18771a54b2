/** The commit-graph core of `dependency_visualizer.py`: listing the commits that touched a file,
    looking up a commit's subject, emitting one node per commit and one edge per parent, and
    the guards of `main`.

    `git` and the filesystem are oracles held in an `Environment`: each `git` run either fails
    (`CalledProcessError`) or yields its standard output. The graphviz `Digraph` is modelled by
    the ordered list of statements added to its body; how graphviz merges or lays them out is
    not part of this model. */
module DependencyVisualizer {
  import opened PyText

  datatype Option<T> = None | Some(value: T)

  datatype Result<T, E> = Ok(value: T) | Err(error: E)

  /** What one `git` run yields: its standard output when it exits with status 0, otherwise a failure. */
  datatype ToolResult = Output(stdout: string) | Failed

  /** The world outside the program, as oracles. */
  datatype Environment = Environment(
    isDirectory: string -> bool,                // os.path.isdir(repo_path)
    fileLog: (string, string) -> ToolResult,    // git -C <repo> log --pretty=format:%H -- <file>
    subjectLog: (string, string) -> ToolResult, // git -C <repo> log -n 1 --pretty=format:%s <commit>
    parentLog: (string, string) -> ToolResult)  // git -C <repo> log -n 1 --pretty=format:%P <commit>

  /** One run of `git`, as recorded in the trace of a run. */
  datatype Invocation =
    | FileLog(repo: string, file: string)
    | SubjectLog(repo: string, commit: string)
    | ParentLog(repo: string, commit: string)

  /** A statement added to the graph's body: `dot.node(key, label)` (the label kept as `caption`)
      or `dot.edge(tail, head)`. */
  datatype Statement = Node(key: string, caption: string) | Edge(tail: string, head: string)

  /** The `ValueError` that `get_commit_history` raises. */
  datatype HistoryError = InvalidRepository(path: string)

  /** The length of the short hash that keys a node. */
  const ShortLength: nat := 7

  /** The subject used when the subject lookup fails. */
  const NoCommitMessage: string := "No commit message"

  /** `commit[:7]`: the first seven characters, or the whole hash when it is shorter. */
  function ShortHash(commit: string): (r: string)
    ensures r <= commit
    ensures |r| == if |commit| < ShortLength then |commit| else ShortLength
  {
    if |commit| <= ShortLength then commit else commit[..ShortLength]
  }

  /** `get_commit_history(repo, file)`: an error when `repo` is not a directory, no commits when
      `git log` fails, and otherwise one hash per line of its output. */
  function CommitHistory(env: Environment, repo: string, file: string): (r: Result<seq<string>, HistoryError>)
    ensures r.Err? <==> !env.isDirectory(repo)
    ensures r.Err? ==> r.error == InvalidRepository(repo)
    ensures r.Ok? && env.fileLog(repo, file).Failed? ==> r.value == []
    ensures r.Ok? && env.fileLog(repo, file).Output? ==> (r.value == [] <==> env.fileLog(repo, file).stdout == [])
    ensures r.Ok? ==> forall k :: 0 <= k < |r.value| ==> NoLineBreak(r.value[k])
  {
    if !env.isDirectory(repo) then Err(InvalidRepository(repo))
    else
      match env.fileLog(repo, file)
      case Failed => Ok([])
      case Output(out) => Ok(SplitLines(out))
  }

  /** `get_commit_message(repo, commit)`: the subject line with its surrounding whitespace
      removed, or the placeholder when the lookup fails. */
  function CommitMessage(env: Environment, repo: string, commit: string): (r: string)
    ensures env.subjectLog(repo, commit).Failed? ==> r == NoCommitMessage
    ensures env.subjectLog(repo, commit).Output? ==>
      && |r| <= |env.subjectLog(repo, commit).stdout|
      && (r == [] <==> AllSpace(env.subjectLog(repo, commit).stdout))
      && Trimmed(r)
  {
    match env.subjectLog(repo, commit)
    case Failed => NoCommitMessage
    case Output(out) => Strip(out)
  }

  /** A subject that was looked up is its output with the surrounding whitespace removed, and
      nothing else removed. */
  lemma CommitMessageStripped(env: Environment, repo: string, commit: string)
    requires env.subjectLog(repo, commit).Output?
    ensures StrippedOf(env.subjectLog(repo, commit).stdout, CommitMessage(env, repo, commit))
  {
    StripRemovesOnlySpace(env.subjectLog(repo, commit).stdout);
  }

  /** The parents the edge pass visits for `commit`: none when the lookup fails, otherwise the
      whitespace-separated tokens of its output, which are none exactly when the output is only
      whitespace (a root commit). */
  function ParentHashes(env: Environment, repo: string, commit: string): (r: seq<string>)
    ensures env.parentLog(repo, commit).Failed? ==> r == []
    ensures env.parentLog(repo, commit).Output? ==> (r == [] <==> AllSpace(env.parentLog(repo, commit).stdout))
    ensures forall k :: 0 <= k < |r| ==> r[k] != [] && NoSpace(r[k])
  {
    match env.parentLog(repo, commit)
    case Failed => []
    case Output(out) => Split(out)
  }

  /** The node statement the first pass adds for `commit`. */
  function NodeFor(env: Environment, repo: string, commit: string): Statement {
    var key := ShortHash(commit);
    Node(key, key + ": " + CommitMessage(env, repo, commit))
  }

  /** The node statements of the first pass, one per commit, in input order. */
  function NodeStatements(env: Environment, repo: string, commits: seq<string>): (r: seq<Statement>)
    ensures |r| == |commits|
    ensures forall i :: 0 <= i < |commits| ==> r[i] == NodeFor(env, repo, commits[i])
  {
    if commits == [] then []
    else
      var init := commits[..|commits| - 1];
      var r := NodeStatements(env, repo, init) + [NodeFor(env, repo, commits[|commits| - 1])];
      assert forall i :: 0 <= i < |commits| ==> r[i] == NodeFor(env, repo, commits[i]) by {
        forall i | 0 <= i < |commits| ensures r[i] == NodeFor(env, repo, commits[i]) {
          if i < |init| { assert commits[i] == init[i]; }
        }
      }
      r
  }

  /** The edge statements from `child` to each of `parents`, in order. */
  function EdgesFrom(child: string, parents: seq<string>): (r: seq<Statement>)
    ensures |r| == |parents|
    ensures forall k :: 0 <= k < |parents| ==> r[k] == Edge(ShortHash(child), ShortHash(parents[k]))
  {
    if parents == [] then []
    else EdgesFrom(child, parents[..|parents| - 1]) + [Edge(ShortHash(child), ShortHash(parents[|parents| - 1]))]
  }

  /** The edge statements of the second pass: each commit's edges, commit after commit. */
  function EdgeStatements(env: Environment, repo: string, commits: seq<string>): (r: seq<Statement>)
    ensures forall j :: 0 <= j < |r| ==> r[j].Edge?
  {
    if commits == [] then []
    else
      var last := commits[|commits| - 1];
      var before := EdgeStatements(env, repo, commits[..|commits| - 1]);
      var own := EdgesFrom(last, ParentHashes(env, repo, last));
      assert forall j :: 0 <= j < |before + own| ==> (before + own)[j].Edge? by {
        forall j | 0 <= j < |before + own| ensures (before + own)[j].Edge? {
          if j >= |before| { assert (before + own)[j] == own[j - |before|]; }
        }
      }
      before + own
  }

  /** The body of the graph `build_dependency_graph` returns. */
  function GraphBody(env: Environment, repo: string, commits: seq<string>): seq<Statement> {
    NodeStatements(env, repo, commits) + EdgeStatements(env, repo, commits)
  }

  /** The subject lookups of the first pass, one per commit, in input order. */
  function SubjectLookups(repo: string, commits: seq<string>): (r: seq<Invocation>)
    ensures |r| == |commits|
    ensures forall i :: 0 <= i < |commits| ==> r[i] == SubjectLog(repo, commits[i])
  {
    if commits == [] then []
    else SubjectLookups(repo, commits[..|commits| - 1]) + [SubjectLog(repo, commits[|commits| - 1])]
  }

  /** The parent lookups of the second pass, one per commit, in input order. */
  function ParentLookups(repo: string, commits: seq<string>): (r: seq<Invocation>)
    ensures |r| == |commits|
    ensures forall i :: 0 <= i < |commits| ==> r[i] == ParentLog(repo, commits[i])
  {
    if commits == [] then []
    else ParentLookups(repo, commits[..|commits| - 1]) + [ParentLog(repo, commits[|commits| - 1])]
  }

  /** The `git` runs `build_dependency_graph` makes: one subject lookup per commit, then one
      parent lookup per commit. */
  function GraphCalls(repo: string, commits: seq<string>): (r: seq<Invocation>)
    ensures |r| == 2 * |commits|
    ensures forall i :: 0 <= i < |commits| ==>
      r[i] == SubjectLog(repo, commits[i]) && r[|commits| + i] == ParentLog(repo, commits[i])
  {
    SubjectLookups(repo, commits) + ParentLookups(repo, commits)
  }

  /** `build_dependency_graph(repo, commits)`: a first pass adds one node per commit, a second
      pass adds one edge per parent of each commit whose parent lookup succeeds. */
  method BuildDependencyGraph(env: Environment, repo: string, commits: seq<string>)
    returns (body: seq<Statement>, calls: seq<Invocation>)
    ensures body == GraphBody(env, repo, commits)
    ensures |body| >= |commits|
    ensures forall i :: 0 <= i < |commits| ==> body[i] == NodeFor(env, repo, commits[i])
    ensures forall j :: |commits| <= j < |body| ==> body[j].Edge?
    ensures calls == GraphCalls(repo, commits)
  {
    body, calls := [], [];
    for i := 0 to |commits|
      invariant body == NodeStatements(env, repo, commits[..i])
      invariant calls == SubjectLookups(repo, commits[..i])
    {
      var commit := commits[i];
      var message := CommitMessage(env, repo, commit);
      calls := calls + [SubjectLog(repo, commit)];
      var key := ShortHash(commit);
      body := body + [Node(key, key + ": " + message)];
      NodeStatementsStep(env, repo, commits, i);
      SubjectLookupsStep(repo, commits, i);
    }
    TakeAll(commits);
    ghost var nodes, subjects := body, calls;
    for i := 0 to |commits|
      invariant body == nodes + EdgeStatements(env, repo, commits[..i])
      invariant calls == subjects + ParentLookups(repo, commits[..i])
    {
      var child := commits[i];
      calls := calls + [ParentLog(repo, child)];
      ParentLookupsStep(subjects, repo, commits, i);
      var edges := ParentEdges(env, repo, child);
      body := body + edges;
      EdgeStatementsStep(nodes, env, repo, commits, i);
    }
    TakeAll(commits);
  }

  /** The second pass's work for one commit: ask git for its parents; on failure or an output
      that strips to nothing, no edge is added, otherwise the stripped output is split on
      whitespace and each parent gets an edge. */
  method ParentEdges(env: Environment, repo: string, child: string) returns (edges: seq<Statement>)
    ensures edges == EdgesFrom(child, ParentHashes(env, repo, child))
  {
    edges := [];
    var result := env.parentLog(repo, child);
    if result.Output? {
      var parentCommit := Strip(result.stdout);
      if parentCommit != [] {
        var parents := Split(parentCommit);
        SplitStrip(result.stdout);
        edges := EdgesToParents(child, parents);
      }
    }
  }

  /** The innermost loop: one edge from `child` to each of `parents`, in order. */
  method EdgesToParents(child: string, parents: seq<string>) returns (edges: seq<Statement>)
    ensures edges == EdgesFrom(child, parents)
  {
    edges := [];
    for k := 0 to |parents|
      invariant edges == EdgesFrom(child, parents[..k])
    {
      edges := edges + [Edge(ShortHash(child), ShortHash(parents[k]))];
      EdgesFromStep(child, parents, k);
    }
    TakeAll(parents);
  }

  // One-iteration facts for the loops above, each stated for the body built so far.

  lemma NodeStatementsStep(env: Environment, repo: string, commits: seq<string>, i: nat)
    requires i < |commits|
    ensures NodeStatements(env, repo, commits[..i + 1])
         == NodeStatements(env, repo, commits[..i]) + [NodeFor(env, repo, commits[i])]
  {
    assert commits[..i + 1][..i] == commits[..i];
  }

  lemma EdgeStatementsStep(nodes: seq<Statement>, env: Environment, repo: string, commits: seq<string>, i: nat)
    requires i < |commits|
    ensures nodes + EdgeStatements(env, repo, commits[..i + 1])
         == nodes + EdgeStatements(env, repo, commits[..i]) + EdgesFrom(commits[i], ParentHashes(env, repo, commits[i]))
  {
    assert commits[..i + 1][..i] == commits[..i];
  }

  lemma EdgesFromStep(child: string, parents: seq<string>, k: nat)
    requires k < |parents|
    ensures EdgesFrom(child, parents[..k + 1])
         == EdgesFrom(child, parents[..k]) + [Edge(ShortHash(child), ShortHash(parents[k]))]
  {
    assert parents[..k + 1][..k] == parents[..k];
  }

  lemma SubjectLookupsStep(repo: string, commits: seq<string>, i: nat)
    requires i < |commits|
    ensures SubjectLookups(repo, commits[..i + 1]) == SubjectLookups(repo, commits[..i]) + [SubjectLog(repo, commits[i])]
  {
    assert commits[..i + 1][..i] == commits[..i];
  }

  lemma ParentLookupsStep(subjects: seq<Invocation>, repo: string, commits: seq<string>, i: nat)
    requires i < |commits|
    ensures subjects + ParentLookups(repo, commits[..i + 1])
         == subjects + ParentLookups(repo, commits[..i]) + [ParentLog(repo, commits[i])]
  {
    assert commits[..i + 1][..i] == commits[..i];
  }

  /** The three keys `main` reads with `config.get`: `None` when a key is absent or null. */
  datatype Config = Config(repoPath: Option<string>, outputPath: Option<string>, targetFileHash: Option<string>)

  /** The settings `main` goes on with once its guard has passed. */
  datatype Settings = Settings(repo: string, output: string, file: string)

  /** Python truthiness of a `config.get` value: present and not the empty string. */
  predicate Given(v: Option<string>) {
    v.Some? && v.value != []
  }

  /** The guard of `main`: the settings when all three fields are given, `None` when any is not. */
  function RequiredFields(config: Config): (r: Option<Settings>)
    ensures r.Some? <==> Given(config.repoPath) && Given(config.outputPath) && Given(config.targetFileHash)
    ensures r.Some? ==> r.value.repo != [] && r.value.output != [] && r.value.file != []
    ensures r.Some? ==> r.value == Settings(config.repoPath.value, config.outputPath.value, config.targetFileHash.value)
  {
    if Given(config.repoPath) && Given(config.outputPath) && Given(config.targetFileHash) then
      Some(Settings(config.repoPath.value, config.outputPath.value, config.targetFileHash.value))
    else None
  }

  /** How a run of `main` ends. */
  datatype Outcome =
    | MissingFields                                     // "Config file is missing required fields."
    | Raised(error: HistoryError)                       // the ValueError leaves main
    | NoCommits                                         // "No commits found for the specified file."
    | Rendered(outputPath: string, body: seq<Statement>) // the graph handed to save_graph

  /** `main` once the configuration is loaded, with the `git` runs it makes. */
  method Run(env: Environment, config: Config) returns (outcome: Outcome, calls: seq<Invocation>)
    ensures outcome.MissingFields? <==> RequiredFields(config).None?
    ensures outcome.MissingFields? || outcome.Raised? ==> calls == []
    ensures RequiredFields(config).Some? ==>
      var s := RequiredFields(config).value;
      var history := CommitHistory(env, s.repo, s.file);
      && (outcome.Raised? <==> history.Err?)
      && (outcome.Raised? ==> outcome.error == InvalidRepository(s.repo))
      && (outcome.NoCommits? <==> history == Ok([]))
      && (outcome.NoCommits? ==> calls == [FileLog(s.repo, s.file)])
      && (outcome.Rendered? <==> history.Ok? && history.value != [])
      && (outcome.Rendered? ==>
            && outcome == Rendered(s.output, GraphBody(env, s.repo, history.value))
            && calls == [FileLog(s.repo, s.file)] + GraphCalls(s.repo, history.value)
            && |calls| == 2 * |history.value| + 1)
  {
    var fields := RequiredFields(config);
    if fields.None? {
      return MissingFields, [];
    }
    var repo, output, file := fields.value.repo, fields.value.output, fields.value.file;
    var history := CommitHistory(env, repo, file);
    if history.Err? {
      return Raised(history.error), [];
    }
    calls := [FileLog(repo, file)];
    var commits := history.value;
    if commits == [] {
      return NoCommits, calls;
    }
    var body, graphCalls := BuildDependencyGraph(env, repo, commits);
    outcome := Rendered(output, body);
    calls := calls + graphCalls;
  }
}
