/** Properties of the statements `build_dependency_graph` emits, stated over the whole input
    rather than one loop iteration, and round trips between what `git` prints and what the
    model reads from it. */
module GraphProperties {
  import opened PyText
  import opened DependencyVisualizer

  /** The number of parent hashes the edge pass visits, summed over `commits` from the front:
      an independent count of the edges to expect. */
  function ParentTotal(env: Environment, repo: string, commits: seq<string>): nat {
    if commits == [] then 0
    else |ParentHashes(env, repo, commits[0])| + ParentTotal(env, repo, commits[1..])
  }

  /** The number of node statements in a graph body. */
  function NodeCount(body: seq<Statement>): nat {
    if body == [] then 0
    else (if body[0].Node? then 1 else 0) + NodeCount(body[1..])
  }

  /** `e` is one of the edges the second pass adds for `child`. */
  predicate IsParentEdge(env: Environment, repo: string, child: string, e: Statement) {
    exists k :: 0 <= k < |ParentHashes(env, repo, child)|
      && e == Edge(ShortHash(child), ShortHash(ParentHashes(env, repo, child)[k]))
  }

  /** The edge pass over a concatenation is the edge pass over each part, one after the other. */
  lemma {:induction false} EdgeStatementsAppend(env: Environment, repo: string, a: seq<string>, b: seq<string>)
    ensures EdgeStatements(env, repo, a + b) == EdgeStatements(env, repo, a) + EdgeStatements(env, repo, b)
    decreases |b|
  {
    if b == [] {
      assert a + b == a;
    } else {
      var init, last := b[..|b| - 1], b[|b| - 1];
      DropLastAppend(a, b);
      EdgeStatementsLast(env, repo, a + b);
      EdgeStatementsLast(env, repo, b);
      EdgeStatementsAppend(env, repo, a, init);
      AppendAssoc(EdgeStatements(env, repo, a), EdgeStatements(env, repo, init),
                  EdgesFrom(last, ParentHashes(env, repo, last)));
    }
  }

  /** One step of the edge pass: the last commit's edges come after those of the others. */
  lemma EdgeStatementsLast(env: Environment, repo: string, commits: seq<string>)
    requires commits != []
    ensures EdgeStatements(env, repo, commits)
         == EdgeStatements(env, repo, commits[..|commits| - 1])
          + EdgesFrom(commits[|commits| - 1], ParentHashes(env, repo, commits[|commits| - 1]))
  {
  }

  lemma DropLastAppend<T>(a: seq<T>, b: seq<T>)
    requires b != []
    ensures (a + b)[..|a + b| - 1] == a + b[..|b| - 1] && (a + b)[|a + b| - 1] == b[|b| - 1]
  {
  }

  lemma AppendAssoc<T>(x: seq<T>, y: seq<T>, z: seq<T>)
    ensures x + y + z == x + (y + z)
  {
  }

  /** The edge pass over a single commit is that commit's parent edges. */
  lemma EdgeStatementsSingle(env: Environment, repo: string, c: string)
    ensures EdgeStatements(env, repo, [c]) == EdgesFrom(c, ParentHashes(env, repo, c))
  {
    assert [c][..0] == [];
  }

  /** Total edges equal the sum of the parent counts of the commits. */
  lemma {:induction false} EdgeCount(env: Environment, repo: string, commits: seq<string>)
    ensures |EdgeStatements(env, repo, commits)| == ParentTotal(env, repo, commits)
    decreases |commits|
  {
    if commits != [] {
      HeadTail(commits);
      EdgeStatementsAppend(env, repo, [commits[0]], commits[1..]);
      EdgeStatementsSingle(env, repo, commits[0]);
      EdgeCount(env, repo, commits[1..]);
    }
  }

  /** The body holds one statement per commit and one per parent hash visited. */
  lemma GraphBodySize(env: Environment, repo: string, commits: seq<string>)
    ensures |GraphBody(env, repo, commits)| == |commits| + ParentTotal(env, repo, commits)
  {
    EdgeCount(env, repo, commits);
  }

  lemma {:induction false} NodeCountAppend(a: seq<Statement>, b: seq<Statement>)
    ensures NodeCount(a + b) == NodeCount(a) + NodeCount(b)
    decreases |a|
  {
    if a == [] {
      assert a + b == b;
    } else {
      assert (a + b)[0] == a[0];
      assert (a + b)[1..] == a[1..] + b;
      NodeCountAppend(a[1..], b);
    }
  }

  /** A body made of edges only holds no node. */
  lemma {:induction false} NodeCountOfEdges(body: seq<Statement>)
    requires forall j :: 0 <= j < |body| ==> body[j].Edge?
    ensures NodeCount(body) == 0
    decreases |body|
  {
    if body != [] {
      assert forall j :: 0 <= j < |body| - 1 ==> body[1..][j] == body[j + 1];
      NodeCountOfEdges(body[1..]);
    }
  }

  lemma {:induction false} NodeCountOfNodes(env: Environment, repo: string, commits: seq<string>)
    ensures NodeCount(NodeStatements(env, repo, commits)) == |commits|
    decreases |commits|
  {
    if commits != [] {
      var init := commits[..|commits| - 1];
      NodeCountOfNodes(env, repo, init);
      NodeCountAppend(NodeStatements(env, repo, init), [NodeFor(env, repo, commits[|commits| - 1])]);
      assert [NodeFor(env, repo, commits[|commits| - 1])][1..] == [];
    }
  }

  /** Exactly one node statement per input commit: repeated commits are not merged, and the
      edge pass adds no nodes. */
  lemma OneNodePerCommit(env: Environment, repo: string, commits: seq<string>)
    ensures NodeCount(GraphBody(env, repo, commits)) == |commits|
  {
    NodeCountOfNodes(env, repo, commits);
    NodeCountOfEdges(EdgeStatements(env, repo, commits));
    NodeCountAppend(NodeStatements(env, repo, commits), EdgeStatements(env, repo, commits));
  }

  /** A commit listed twice gets two identical node statements, and still one per listing. */
  lemma RepeatedCommitNodes(env: Environment, repo: string, commits: seq<string>, i: nat, j: nat)
    requires i < j < |commits| && commits[i] == commits[j]
    ensures var body := GraphBody(env, repo, commits);
      body[i] == body[j] == NodeFor(env, repo, commits[i]) && NodeCount(body) == |commits|
  {
    OneNodePerCommit(env, repo, commits);
  }

  /** `e` is among the edges exactly when it joins some commit's short hash to the short hash
      of one of that commit's parents. */
  lemma {:induction false} EdgeMembership(env: Environment, repo: string, commits: seq<string>, e: Statement)
    ensures e in EdgeStatements(env, repo, commits)
        <==> exists i :: 0 <= i < |commits| && IsParentEdge(env, repo, commits[i], e)
    decreases |commits|
  {
    if commits != [] {
      var init, last := commits[..|commits| - 1], commits[|commits| - 1];
      EdgeStatementsLast(env, repo, commits);
      EdgeMembership(env, repo, init, e);
      OwnEdgeMembership(env, repo, last, e);
      HeadTail(commits);
      ExistsSnoc(init, last, c => IsParentEdge(env, repo, c, e));
    }
  }

  lemma ExistsSnoc<T>(init: seq<T>, x: T, p: T -> bool)
    ensures (exists i :: 0 <= i < |init + [x]| && p((init + [x])[i]))
        <==> ((exists i :: 0 <= i < |init| && p(init[i])) || p(x))
  {
    if i :| 0 <= i < |init + [x]| && p((init + [x])[i]) {
      if i < |init| {
        assert (init + [x])[i] == init[i];
      }
    }
    if i :| 0 <= i < |init| && p(init[i]) {
      assert (init + [x])[i] == init[i];
    }
    assert (init + [x])[|init|] == x;
  }

  lemma OwnEdgeMembership(env: Environment, repo: string, child: string, e: Statement)
    ensures e in EdgesFrom(child, ParentHashes(env, repo, child)) <==> IsParentEdge(env, repo, child, e)
  {
    var edges := EdgesFrom(child, ParentHashes(env, repo, child));
    if e in edges {
      var k :| 0 <= k < |edges| && edges[k] == e;
    }
  }

  /** A commit whose parent lookup fails, or prints only whitespace (a root commit), adds no
      edge, wherever it stands among the commits. */
  lemma SkippedCommit(env: Environment, repo: string, before: seq<string>, c: string, after: seq<string>)
    requires env.parentLog(repo, c).Failed? || AllSpace(env.parentLog(repo, c).stdout)
    ensures EdgeStatements(env, repo, before + [c] + after) == EdgeStatements(env, repo, before + after)
  {
    NoParents(env, repo, c);
    EdgeStatementsSingle(env, repo, c);
    EdgeStatementsAppend(env, repo, before + [c], after);
    EdgeStatementsAppend(env, repo, before, [c]);
    EdgeStatementsAppend(env, repo, before, after);
    assert EdgeStatements(env, repo, before) + [] == EdgeStatements(env, repo, before);
  }

  /** A failed parent lookup, or one that prints only whitespace, yields no parents. */
  lemma NoParents(env: Environment, repo: string, c: string)
    requires env.parentLog(repo, c).Failed? || AllSpace(env.parentLog(repo, c).stdout)
    ensures ParentHashes(env, repo, c) == []
  {
  }

  /** Reading parents back: when `git` prints hashes separated by single blanks, the edge pass
      visits exactly those hashes, in order. */
  lemma ParentHashesOfJoin(env: Environment, repo: string, c: string, parents: seq<string>)
    requires forall k :: 0 <= k < |parents| ==> parents[k] != [] && NoSpace(parents[k])
    requires env.parentLog(repo, c) == Output(Join(parents, ' '))
    ensures ParentHashes(env, repo, c) == parents
  {
    SplitJoin(parents);
  }

  /** An edge goes to every parent hash printed, whether or not that parent is one of the
      commits that were given nodes. */
  lemma UncheckedParentEdge(env: Environment, repo: string, commits: seq<string>, i: nat, parent: string)
    requires i < |commits|
    requires parent != [] && NoSpace(parent)
    requires env.parentLog(repo, commits[i]) == Output(parent)
    ensures Edge(ShortHash(commits[i]), ShortHash(parent)) in GraphBody(env, repo, commits)
  {
    ParentHashesOfJoin(env, repo, commits[i], [parent]);
    var e := Edge(ShortHash(commits[i]), ShortHash(parent));
    assert IsParentEdge(env, repo, commits[i], e) by {
      assert ParentHashes(env, repo, commits[i])[0] == parent;
    }
    EdgeMembership(env, repo, commits, e);
  }

  /** The subject read back from `git`: whitespace around a subject with non-space ends is
      removed, and the node label is the short hash, a colon and a blank, then that subject. */
  lemma CommitMessageOfPadded(env: Environment, repo: string, c: string, pre: string, subject: string, post: string)
    requires AllSpace(pre) && AllSpace(post)
    requires Trimmed(subject)
    requires env.subjectLog(repo, c) == Output(pre + subject + post)
    ensures CommitMessage(env, repo, c) == subject
    ensures NodeFor(env, repo, c) == Node(ShortHash(c), ShortHash(c) + ": " + subject)
  {
    StripPadding(pre, subject, post);
  }

  /** Reading the history back: when `git log` prints one hash per line, `get_commit_history`
      returns exactly those hashes, in order. */
  lemma CommitHistoryOfLog(env: Environment, repo: string, file: string, hashes: seq<string>)
    requires env.isDirectory(repo)
    requires hashes != [] && hashes[|hashes| - 1] != []
    requires forall k :: 0 <= k < |hashes| ==> NoLineBreak(hashes[k])
    requires env.fileLog(repo, file) == Output(Join(hashes, '\n'))
    ensures CommitHistory(env, repo, file) == Ok(hashes)
  {
    SplitLinesJoin(hashes);
  }

  /** A merge commit, whose parent line names two hashes separated by a blank, has those two
      parents, in that order (so `EdgesFrom` gives it an edge to each). */
  lemma MergeCommitParents(env: Environment, repo: string, merge: string, first: string, second: string)
    requires first != [] && NoSpace(first) && second != [] && NoSpace(second)
    requires env.parentLog(repo, merge) == Output(first + " " + second)
    ensures ParentHashes(env, repo, merge) == [first, second]
  {
    assert Join([first, second], ' ') == first + " " + second;
    ParentHashesOfJoin(env, repo, merge, [first, second]);
  }

  /** A commit whose parent line is a single hash has exactly that parent. */
  lemma SingleParent(env: Environment, repo: string, c: string, parent: string)
    requires parent != [] && NoSpace(parent)
    requires env.parentLog(repo, c) == Output(parent)
    ensures ParentHashes(env, repo, c) == [parent]
  {
    ParentHashesOfJoin(env, repo, c, [parent]);
  }

  /** A file changed in three commits, a root commit and two updates, listed newest first:
      three nodes and two edges, from each update to the commit before it. */
  lemma LinearHistoryScenario(env: Environment, repo: string, newest: string, middle: string, root: string)
    requires middle != [] && NoSpace(middle) && root != [] && NoSpace(root)
    requires env.parentLog(repo, newest) == Output(middle)
    requires env.parentLog(repo, middle) == Output(root)
    requires env.parentLog(repo, root) == Output("")
    ensures |EdgeStatements(env, repo, [newest, middle, root])| == 2
    ensures NodeCount(GraphBody(env, repo, [newest, middle, root])) == 3
    ensures |GraphBody(env, repo, [newest, middle, root])| == 5
  {
    var commits := [newest, middle, root];
    SingleParent(env, repo, newest, middle);
    SingleParent(env, repo, middle, root);
    NoParents(env, repo, root);
    assert commits[1..] == [middle, root] && commits[1..][1..] == [root] && [root][1..] == [];
    assert ParentTotal(env, repo, [root]) == 0;
    assert ParentTotal(env, repo, [middle, root]) == 1;
    assert ParentTotal(env, repo, commits) == 2;
    EdgeCount(env, repo, commits);
    OneNodePerCommit(env, repo, commits);
  }

  /** The two edges of that history: each update points at the commit before it. */
  lemma LinearHistoryEdges(env: Environment, repo: string, newest: string, middle: string, root: string)
    requires middle != [] && NoSpace(middle) && root != [] && NoSpace(root)
    requires env.parentLog(repo, newest) == Output(middle)
    requires env.parentLog(repo, middle) == Output(root)
    ensures Edge(ShortHash(newest), ShortHash(middle)) in GraphBody(env, repo, [newest, middle, root])
    ensures Edge(ShortHash(middle), ShortHash(root)) in GraphBody(env, repo, [newest, middle, root])
  {
    UncheckedParentEdge(env, repo, [newest, middle, root], 0, middle);
    UncheckedParentEdge(env, repo, [newest, middle, root], 1, root);
  }
}
