# Commit dependency visualizer: a Dafny model

`dependency_visualizer.py` reads a configuration and lists the commits that touched one
file of a git repository. It then builds a graphviz `Digraph` with two passes over those
commits:

- one node per commit, keyed by its 7-character short hash and labelled with its subject;
- one edge from the commit to each of its parents.

This project models that core in Dafny and proves what it emits.

- `py_text.dfy` (module `PyText`): the Python `str` operations the program relies on, over `seq<char>`.
  - `str.isspace` uses Python's full whitespace set.
  - `str.strip()` and `str.split()` with no separator cut at exactly those characters.
  - `str.splitlines()` ends lines at Python's line boundaries and treats `\r\n` as one boundary.
  - Lemmas relate these operations to each other and to `join`.
- `dependency_visualizer.dfy` (module `DependencyVisualizer`): the program.
  - `git` and `os.path.isdir` are oracles in an `Environment`. Each `git` run either fails (`CalledProcessError`) or returns its standard output.
  - The `Digraph` is modelled by the ordered list of `Node`/`Edge` statements added to its body.
  - `build_dependency_graph` is a method with one loop per pass. The inner per-parent loop is its own method. The method returns the body and the trace of `git` runs it made, and is proved equal to the specification functions `GraphBody` and `GraphCalls`.
  - `get_commit_history`, `get_commit_message` and the guard of `main` are functions.
  - `main` after `load_config` is the method `Run`.
- `graph_properties.dfy` (module `GraphProperties`): lemmas about the emitted graph.
  - Node and edge counts.
  - Edge membership.
  - Skipped commits.
  - Read-back of `git` output.
  - A worked example: a linear history of three commits.

Two behaviours of the code are worth stating outright.

- **Repeated commits.** The code calls `dot.node` once per input commit (`dependency_visualizer.py:54-57`), so a repeated commit yields two identical node statements. graphviz merges nodes with the same key only when rendering, which is not modelled. `GraphProperties.OneNodePerCommit` and `GraphProperties.RepeatedCommitNodes` state the code's behaviour.
- **Dangling edges.** An edge goes to every parent hash printed, even one outside the file's history (`GraphProperties.UncheckedParentEdge`).
- **Non-empty input, non-empty body.** `test_dependency_visualizer.py:48` expects a non-empty graph body for a non-empty history. This follows from `|body| >= |commits|` in `DependencyVisualizer.BuildDependencyGraph`.

## Model

| member | source | states |
|---|---|---|
| PyText.Strip | dependency_visualizer.py:42 | `str.strip()`: the result is no longer than its input, has no whitespace at either end, and is empty exactly when the input is all whitespace |
| PyText.StripRemovesOnlySpace | dependency_visualizer.py:42 | `strip()` keeps a contiguous middle part of its input and removes only whitespace before and after it |
| PyText.StripPadding | dependency_visualizer.py:42 | `strip()` undoes padding: whitespace around a string with non-space ends is removed and nothing else |
| PyText.TrimStart | dependency_visualizer.py:42 | the leading half of `strip()`: the result is a suffix of the input, everything cut off is whitespace, and the result does not start with whitespace |
| PyText.TrimEnd | dependency_visualizer.py:42 | the trailing half of `strip()`: the result is a prefix of the input, everything cut off is whitespace, and the result does not end with whitespace |
| PyText.TrimStartIdempotent | dependency_visualizer.py:42 | removing leading whitespace twice removes nothing more |
| PyText.Split | dependency_visualizer.py:68 | `str.split()`: every token is non-empty and holds no whitespace, and there are no tokens exactly when the input is all whitespace |
| PyText.SplitJoin | dependency_visualizer.py:68 | `" ".join(ws).split() == ws` for non-empty tokens without whitespace |
| PyText.SplitStrip | dependency_visualizer.py:63-68 | `s.strip().split() == s.split()`: splitting the stripped parent line gives the tokens of the raw output |
| PyText.SplitTrimEnd | dependency_visualizer.py:63-68 | trailing whitespace does not change `split()` |
| PyText.SplitLines | dependency_visualizer.py:32 | `str.splitlines()`: no line holds a line boundary, and there are no lines exactly when the input is empty |
| PyText.SplitLinesJoin | dependency_visualizer.py:32 | `"\n".join(ls).splitlines() == ls` for lines without boundaries whose last one is non-empty |
| DependencyVisualizer.ShortHash | dependency_visualizer.py:56-57 | `commit[:7]` is a prefix of the hash: the first 7 characters, or the whole hash when it is shorter |
| DependencyVisualizer.CommitHistory | dependency_visualizer.py:18-32 | `InvalidRepository(repo)` exactly when the path is not a directory; no commits when `git log` fails; otherwise lines without boundaries, none exactly when the output is empty |
| DependencyVisualizer.CommitMessage | dependency_visualizer.py:35-44 | the literal `"No commit message"` when the subject lookup fails; otherwise a result no longer than the output, with no whitespace at either end, empty exactly when the output is all whitespace |
| DependencyVisualizer.CommitMessageStripped | dependency_visualizer.py:39-42 | a subject that was looked up is the output with only its surrounding whitespace removed |
| DependencyVisualizer.ParentHashes | dependency_visualizer.py:60-68 | the parents visited: none when the lookup fails; none exactly when the output is all whitespace (a root commit); otherwise non-empty whitespace-free tokens |
| DependencyVisualizer.NodeStatements | dependency_visualizer.py:54-57 | one node statement per input commit, in input order: key `commit[:7]`, label short hash, `": "`, then the subject |
| DependencyVisualizer.EdgesFrom | dependency_visualizer.py:69-71 | one edge per parent token, in token order, from `child[:7]` to `parent[:7]` |
| DependencyVisualizer.EdgeStatements | dependency_visualizer.py:59-71 | the second pass adds only edge statements |
| DependencyVisualizer.GraphCalls | dependency_visualizer.py:54-63 | `2n` `git` runs: the subject lookup of each commit in order, then the parent lookup of each commit in order |
| DependencyVisualizer.BuildDependencyGraph | dependency_visualizer.py:47-73 | the body built by the two loops is the node pass followed by the edge pass; its first `|commits|` statements are the nodes in input order and all later ones are edges; the `git` runs are exactly `GraphCalls` |
| DependencyVisualizer.ParentEdges | dependency_visualizer.py:61-71 | for one child: no edge on a failed lookup (the `continue`) or an output that strips to nothing, otherwise one edge per token of the stripped output, which are the parents `ParentHashes` names |
| DependencyVisualizer.EdgesToParents | dependency_visualizer.py:69-71 | the innermost loop adds exactly `EdgesFrom(child, parents)` |
| DependencyVisualizer.RequiredFields | dependency_visualizer.py:90-96 | settings exactly when all three fields are present and non-empty, holding those fields unchanged |
| DependencyVisualizer.Run | dependency_visualizer.py:87-108 | among the modelled outcomes: stops with no `git` run when a field is missing; raises exactly when the repository is not a directory; stops after the one history run exactly when no commits are found; otherwise hands `GraphBody` of the history to the renderer after `2n + 1` `git` runs |
| GraphProperties.EdgeStatementsAppend | dependency_visualizer.py:60-71 | the edge pass over `a + b` is the edge pass over `a` followed by that over `b` |
| GraphProperties.EdgeCount | dependency_visualizer.py:60-71 | total edges equal the sum of the parent counts of the commits |
| GraphProperties.GraphBodySize | dependency_visualizer.py:54-71 | the body holds `|commits|` node statements plus one edge per parent visited |
| GraphProperties.NodeCountOfEdges | dependency_visualizer.py:59-71 | a body of edges only holds no node statement |
| GraphProperties.OneNodePerCommit | dependency_visualizer.py:54-57 | exactly one node statement per input commit, repeated commits included |
| GraphProperties.RepeatedCommitNodes | dependency_visualizer.py:54-57 | a commit listed twice gets two equal node statements, and the node count stays `|commits|` |
| GraphProperties.EdgeMembership | dependency_visualizer.py:60-71 | an edge is emitted exactly when it joins some input commit's short hash to the short hash of one of its parents |
| GraphProperties.SkippedCommit | dependency_visualizer.py:62-67 | a commit whose parent lookup fails or prints only whitespace contributes no edges; the pass goes on with the next commit |
| GraphProperties.NoParents | dependency_visualizer.py:62-67 | a failed or all-whitespace parent lookup yields no parents |
| GraphProperties.ParentHashesOfJoin | dependency_visualizer.py:63-68 | when `git` prints parent hashes separated by blanks, the edge pass visits exactly those hashes |
| GraphProperties.MergeCommitParents | dependency_visualizer.py:63-68 | a merge commit whose parent line is `first second` has the parents `[first, second]`, in that order |
| GraphProperties.SingleParent | dependency_visualizer.py:63-68 | a commit whose parent line is one hash has that single parent |
| GraphProperties.UncheckedParentEdge | dependency_visualizer.py:69-71 | an edge to a printed parent is emitted whether or not the parent is among the input commits |
| GraphProperties.CommitMessageOfPadded | dependency_visualizer.py:39-44 | a subject with non-space ends, padded with whitespace by `git`, comes back unchanged, and the commit's node label is its short hash, `": "`, then that subject |
| GraphProperties.CommitHistoryOfLog | dependency_visualizer.py:25-32 | when `git log` prints one hash per line, the history is exactly those hashes in printed order |
| GraphProperties.LinearHistoryScenario | dependency_visualizer.py:47-73 | a root commit and two updates, listed newest first, give 3 node statements and 2 edge statements |
| GraphProperties.LinearHistoryEdges | dependency_visualizer.py:60-71 | in that history each update has an edge to the commit before it |

## Left out

- `load_config` and YAML parsing (`dependency_visualizer.py:7-15`) involve file I/O and a foreign parser. `Run` starts from the loaded configuration's three values, and a missing key or a null value is `None`.
- Non-string YAML values (numbers, lists) for the three fields are not modelled; each field is an optional string.
- The `git` processes and `os.path.isdir` (`dependency_visualizer.py:22, 25-27, 39-41, 61-63`) are oracles of the `Environment`. Each run yields its output or a failure. What `git` prints for a real repository is not modelled.
- The diagnostics printed on failure (`dependency_visualizer.py:29, 95, 101`) are console output. The outcome of `Run` records which message path was taken.
- The graphviz `Digraph` object, layout, and `save_graph` rendering to PNG (`dependency_visualizer.py:51, 76-84`) belong to a foreign library and disk output. Renderer semantics such as merging nodes with the same key are not modelled.
- The command-line entry point and its catch-all exception printing (`dependency_visualizer.py:111-119`) are argument handling and console I/O.
- `test_dependency_visualizer.py` needs a real repository and the filesystem. It is cited only for its non-empty-body expectation (`test_dependency_visualizer.py:48`).
- Exceptions other than `CalledProcessError` and the `ValueError` for a missing directory are not modelled. Two examples: `FileNotFoundError` when `git` cannot be started, and `UnicodeDecodeError` when its output cannot be decoded (`dependency_visualizer.py:27, 41, 63`). Neither is caught by the `except` clauses, so either one ends `main` and only the command-line catch-all (`dependency_visualizer.py:116-119`) stops it. `ToolResult` has no such outcome, so `Run`'s if-and-only-if outcomes and the rule that a failed lookup never aborts node construction hold among the modelled outcomes only.
- The `AttributeError` that `config.get` (`dependency_visualizer.py:90-92`) raises on an empty YAML document or one that is not a mapping is not modelled: `Run` starts from a loaded mapping.
- DependencyVisualizer.Run: its outcomes are the four the code reaches without an uncaught exception other than the `ValueError`; a run that ends in one of the exceptions above has no `Outcome`.
- Python strings are modelled as sequences of characters. Dafny's `char` has no surrogate code points, which Python strings may hold.
- A three-commit history that contains a merge is not modelled as a scenario lemma. The merge parent line is covered by `GraphProperties.MergeCommitParents` and edge emission by `GraphProperties.EdgeMembership`.
