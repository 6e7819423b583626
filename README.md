# Dependency trust analysis, modelled in Dafny

A model of the core of **vscode-js-dep-analysis**. This VS Code extension shows an npm
project's dependency tree and rates each dependency's GitHub repository as `high`, `low` or
`indeterminate` trust. The core has three parts:

- **`src/analyze.ts`**: `Analyze(node, cache)` turns a tree node into an assessment.
  - It reads the repository URL from the node's `package.json`.
  - It parses the URL with `REPO_REGEX` and keeps only `github.com` URLs that name an owner
    and a repository.
  - It looks up `github/<owner>/<repo>` in a persistent cache. An entry is reused for one
    day; otherwise the repository is fetched from the GitHub API and the response cached.
  - It classifies the repository:
    - `high` with 500 or more forks or stars;
    - `low` with no forks, no stars, or a `0.x` version;
    - `indeterminate` otherwise.
- **`src/treeAnalyzer.ts`**: `TreeAnalyzer` keeps a map from nodes to analyses.
  - Its `analyze(nodes, onAnalyzed)` batch walks the nodes in order.
  - It analyses each node that has no non-null analysis yet and stores the result.
  - It reports `progress(done, total)` before the first node and after each node.
  - `children` lists the targets of a node's production edges.
- **`src/depsTree.ts`**: the tree-view provider.
  - `getChildren` gives the production-edge targets of a node, or of the root.
  - `getTreeItem` makes the row of a node. A node with no out-edges gets a leaf row, whose
    click command opens the package on npm. Any other node gets a collapsed row.

How the model is organised:

- **Modules.** There is one module per part: `RepoUrl` and `RepoAnalysis` for
  `analyze.ts`, `TreeAnalysis` for `treeAnalyzer.ts`, `DepsTree` for `depsTree.ts`.
  `Arborist` holds the graph types of the npm tree loader and the shared production-edge
  filter. `Wrappers` holds `Option`.
- **The regular expression.** `RepoUrl` models `REPO_REGEX` explicitly.
  - A match is a `Cut`: the indices where the five groups begin and end.
  - `Exec` returns the first match in the order a backtracking matcher tries them.
  - It is proved sound, complete, first in that order, and unique.
  - Spelling plain groups and matching the result gives the groups back.
- **Impure code.** `getRepoData` and `Analyze` change the cache and call the network, so
  they are methods on a `Cache` class. Each is proved equal to a pure function of the
  starting cache contents (`RepoDataRun`, `AnalyzeRun`).
  - That function also returns a trace of cache reads, fetches and cache writes.
  - The cache behaviour is proved on that function.
- **The batch loop.** The `analyze` loop is a method on the `TreeAnalyzer` class and is
  proved to compute the pure function `Batch`. The two callbacks are modelled as the list
  of events they receive.
- **The tree view.** `depsTree.ts` is pure and is modelled by functions.

Two parts of the code differ from a plain reading, and the model follows the code:

- **Failed fetch.** A failed GitHub fetch is not caught (the source carries a TODO for
  it). The exception rejects `getRepoData`, `Analyze` and the whole `analyze` batch.
  Nothing is stored for that node, and no later node is processed.
- **`matched !== url.toLowerCase()`.** The pattern is anchored, so for a non-empty URL this
  test fails exactly when the pattern does not match. For the empty URL there is no match, but
  `"" !== ""` is false, so the host test rejects the URL instead. The result is the same.

## Model

| member | source | states |
|---|---|---|
| Arborist.ProdTargets | src/treeAnalyzer.ts:26-28 | The `filter(type === "prod").map(to)` over a node's edges: no longer than the edge list, contains the target of every production edge and only such targets, and is empty when no edge is a production edge |
| Arborist.ProdTargetsAppend | src/depsTree.ts:18-20 | The filter distributes over concatenation of edge lists, so edge order is kept |
| Arborist.ProdTargetsSingle | src/depsTree.ts:19-20 | One edge contributes its target exactly when its type is `prod` |
| Arborist.ProdTargetsAllProd | src/treeAnalyzer.ts:26-28 | When every edge is a production edge, the i-th child is the i-th edge's target |
| RepoUrl.SplitPath | src/analyze.ts:50 | The greedy `(.*)\/(.*)\/(.*)` settles on two slashes with no '/' after the first except the second, and no line terminator in the span |
| RepoUrl.MatchAfterScheme | src/analyze.ts:50 | A result matches `([^@]*@)?(.*)\/(.*)\/(.*)` after the scheme, with '/'-free owner and repository groups |
| RepoUrl.Scan | src/analyze.ts:50 | Trying "://" positions from the last one down yields only whole-pattern matches at or before the start position |
| RepoUrl.Exec | src/analyze.ts:50 | `REPO_REGEX.exec`: any result is a match of the whole anchored pattern whose owner and repository groups hold no '/' |
| RepoUrl.ExecFindsFirst | src/analyze.ts:50 | Completeness: whenever the pattern matches a string at all, `Exec` finds a match that comes first in backtracking order (greedy scheme, user group before its omission, greedy host, greedy owner) |
| RepoUrl.CutsAgree | src/analyze.ts:50 | Two matches that each come no later than the other are equal, so the match `exec` returns is unique |
| RepoUrl.ExecIs | src/analyze.ts:50 | A match is exactly `Exec`'s result when three things hold. No later position of the string can end `^(.*):\/\/`. It takes the user group, unless no '@' comes before the host's closing slash. Owner and repository are '/'-free |
| RepoUrl.GroupsSpellUrl | src/analyze.ts:42-50 | The captured groups, rejoined with the literal parts of the pattern, spell the matched URL again |
| RepoUrl.PartsMatch | src/analyze.ts:50 | Groups each of which its part of the pattern accepts, once spelled out, are matched with exactly those groups |
| RepoUrl.ExecSpell | src/analyze.ts:50 | Round trip: for plain groups, `Exec` of the spelled URL is the cut of those groups, and it captures the groups back |
| RepoUrl.Lower | src/analyze.ts:104 | Lower-casing keeps the length, lowers each character on its own, and leaves no upper-case letter |
| RepoUrl.Locate | src/analyze.ts:103-117 | The parsing half of `getRepoData`; its contract is `LocateSpec` |
| RepoUrl.LocateSpec | src/analyze.ts:103-117 | A URL names a repository iff the pattern matches, the lower-cased host is `github.com`, and owner and repository are non-empty. The reference is then the lower-cased owner and repository, non-empty, '/'-free and lower-case |
| RepoUrl.ValidUpToCase | src/analyze.ts:103-104 | Whether an index decomposition is a match does not depend on letter case, given the case-sensitive `git` suffix |
| RepoUrl.ExecUpToCase | src/analyze.ts:103-104 | Two matching URLs equal up to case are matched at the same indices |
| RepoUrl.LocateIgnoresCase | src/analyze.ts:103-117 | Two matching URLs equal up to case name the same repository, or are both rejected |
| RepoUrl.LocateOf | src/analyze.ts:110-117 | Once the match is known, a URL is accepted exactly when the lower-cased host is `github.com` and owner and repository are non-empty |
| RepoUrl.LocateSpell | src/analyze.ts:103-117 | What parsing makes of a URL spelled from plain groups, in terms of the groups alone |
| RepoUrl.UpperCaseSuffixRejected | src/analyze.ts:50 | `…/bar.GIT` is rejected: the pattern's `git` is case-sensitive although the host is compared lower-cased |
| RepoUrl.PlainHttpsUrl | src/analyze.ts:103-117 | `https://github.com/foo/bar.git` names foo/bar |
| RepoUrl.UnescapedDot | src/analyze.ts:50 | `https://github.com/foo/bar_git` also names foo/bar: the `.` before `git` is unescaped and matches any character |
| RepoUrl.UserAndUpperCaseUrl | src/analyze.ts:103-110 | `git://x@GITHUB.COM/Foo/Bar.git` names foo/bar: the user part is skipped and host, owner and repository are lower-cased |
| RepoUrl.OtherHostRejected | src/analyze.ts:110-113 | Example: `https://gitlab.com/foo/bar.git` matches the pattern but fails the host test. The general rule is `LocateSpec` |
| RepoUrl.EmptyRepoRejected | src/analyze.ts:114-117 | Example: `https://github.com/foo/.git` matches the pattern but fails the test for an empty repository name. The general rule is `LocateSpec` |
| RepoUrl.LowerKeepsLowered | src/analyze.ts:104 | Lower-casing a lower-case string changes nothing |
| RepoAnalysis.DeclaredVersion | src/analyze.ts:82 | The package's version, or "0.0.0" when it declares none |
| RepoAnalysis.CacheKey | src/analyze.ts:120 | The key is `github/`, the owner, `/` and the repository, in that order. That it is injective is `CacheKeyInjective` |
| RepoAnalysis.IsFresh | src/analyze.ts:122 | Freshness test of a cache entry; its contract is `ReuseWindow` |
| RepoAnalysis.MajorComponent | src/analyze.ts:83 | `version.split(".")[0]` is the prefix of the version up to, and not including, its first '.' |
| RepoAnalysis.Classify | src/analyze.ts:76-93 | Trust is high iff forks or stars are at least 500. It is low iff it is not high and forks or stars are 0 or the major version is "0" |
| RepoAnalysis.ExtractRepoData | src/analyze.ts:144-154 | The record takes url, owner and repository from GitHub's clone URL, owner login and name, as GitHub spells them, not the lower-cased parsed URL. Forks and stars come from the response, the version from the node (default "0.0.0"), and the dependency count from the node's out-edges |
| RepoAnalysis.RepoDataRun | src/analyze.ts:98-141 | `getRepoData` resolves to null exactly when the URL is rejected, and then has no effects. A rejection leaves the cache unchanged. A record carries the node's version and edge count |
| RepoAnalysis.AnalyzeRun | src/analyze.ts:61-94 | `Analyze` as a function of the starting cache; its contract is `NoUrlNoAnalysis` and `AssessmentOfRecord` |
| RepoAnalysis.RepositoryUrl | src/analyze.ts:66-69 | A node has a URL exactly when its package declares a non-empty `repository.url`, and then it is that URL |
| RepoAnalysis.Cache.Get | src/analyze.ts:16 | `get` finds exactly the stored keys and returns the stored entry |
| RepoAnalysis.Cache.Update | src/analyze.ts:17 | `update` stores the entry under the key and keeps every other entry |
| RepoAnalysis.GetRepoData | src/analyze.ts:98-141 | The method's result, new cache contents and effects are those of `RepoDataRun` on the cache it starts from |
| RepoAnalysis.Analyze | src/analyze.ts:61-94 | The method's result, new cache contents and effects are those of `AnalyzeRun` on the cache it starts from |
| RepoAnalysis.ClassifyMonotone | src/analyze.ts:76-93 | More forks and stars never lower the trust |
| RepoAnalysis.MissingVersionIsLow | src/analyze.ts:82-88 | A package without a version counts as 0.x, so an unpopular repository gets low trust |
| RepoAnalysis.MajorComponentExamples | src/analyze.ts:83 | "0.9.1" is 0.x; "10.0.0", "01" and "" are not |
| RepoAnalysis.ExtractKeepsNodeFacts | src/analyze.ts:151-152 | The record's version and dependency count do not depend on GitHub's answer. The count includes non-production edges, so it is at least the number of production children |
| RepoAnalysis.ReuseWindow | src/analyze.ts:36-40 | One day is 86,400,000 ms, and an entry is fresh for exactly that long after its timestamp |
| RepoAnalysis.CacheKeyInjective | src/analyze.ts:120 | Distinct repositories with '/'-free owners never share a `github/owner/repo` key |
| RepoAnalysis.RejectedUrlHasNoEffects | src/analyze.ts:103-117 | A rejected URL resolves to null before the cache or the network is touched |
| RepoAnalysis.FreshEntryReused | src/analyze.ts:119-125 | A fresh entry is used as it is: one read, no fetch, no write, and the record extracted from the cached response |
| RepoAnalysis.StaleEntryRefetched | src/analyze.ts:121-140 | For a missing or stale entry, the whole trace is: read, then fetch. A successful fetch adds one write of the same key with the later clock reading and the response, and returns the extracted record. A failed fetch writes nothing and rejects |
| RepoAnalysis.OtherKeysUntouched | src/analyze.ts:120-138 | A lookup changes at most the key of the repository it was asked for |
| RepoAnalysis.CaseInsensitiveKey | src/analyze.ts:103-120 | `https://github.com/foo/bar.git` and `git://x@GITHUB.COM/Foo/Bar.git` share the key `github/foo/bar` |
| RepoAnalysis.NoUrlNoAnalysis | src/analyze.ts:62-69 | A missing node, or a node without a non-empty repository URL, is analysed as null with no effects |
| RepoAnalysis.AssessmentOfRecord | src/analyze.ts:71-93 | `Analyze` has the effects and final cache of its `getRepoData` call. It throws exactly when that call does, and then leaves the cache as it was. It is null exactly when the record is null; otherwise it classifies the record by the record's version |
| TreeAnalysis.BatchFrom | src/treeAnalyzer.ts:43-51 | The loop from the i-th node on stops between i and n; it completes exactly when it reaches n |
| TreeAnalysis.Batch | src/treeAnalyzer.ts:37-52 | A batch reports `progress(0, n)` first and completes exactly when it processes all n nodes |
| TreeAnalysis.TreeAnalyzer.constructor | src/treeAnalyzer.ts:10-16 | A new analyzer has an empty analysis map |
| TreeAnalysis.TreeAnalyzer.Get | src/treeAnalyzer.ts:19-21 | `get` is null exactly when the node has no entry or a null one, and is the stored analysis otherwise |
| TreeAnalysis.TreeAnalyzer.Children | src/treeAnalyzer.ts:25-33 | `children` contains the target of every production edge of the node and nothing else. Order and repetitions are those of the edges (`Arborist.ProdTargetsAppend`) |
| TreeAnalysis.TreeAnalyzer.Analyze | src/treeAnalyzer.ts:37-52 | The loop leaves the analysis map, the cache, the reported events and the completion flag exactly as `Batch` specifies for the real `Analyze` |
| TreeAnalysis.TreeAnalyzer.AnalyzeWith | src/treeAnalyzer.ts:38-51 | The same loop, proved against `Batch` for any analyzer that agrees with `AnalyzeRun` |
| TreeAnalysis.TreeAnalyzer.Visit | src/treeAnalyzer.ts:44-48 | One iteration: it skips a resolved node, or analyses, stores and reports it, or stops the batch on a rejection, exactly as one step of `Batch` |
| TreeAnalysis.ProgressReported | src/treeAnalyzer.ts:42-50 | `progress` is called with 0, 1, …, k out of n in order, where k is the number of nodes processed, skipped nodes included. A completed batch makes n + 1 calls |
| TreeAnalysis.AnalyzedBeforeItsProgress | src/treeAnalyzer.ts:47-50 | Each `onAnalyzed(node)` is immediately followed by the progress call for that node's position |
| TreeAnalysis.BatchChanges | src/treeAnalyzer.ts:44-47 | A node with a non-null analysis keeps it and is not reported. Nodes outside the processed prefix keep their entry or its absence. `onAnalyzed` is called only for processed nodes that were unresolved, and no entry is removed |
| TreeAnalysis.BatchCovers | src/treeAnalyzer.ts:43-47 | Every processed node has an entry afterwards; after a completed batch, every input node does |
| TreeAnalysis.AnalyzerOfKeepsCache | src/analyze.ts:127-138 | `Analyze` throws only when the fetch fails, before the cache is written, so it leaves the cache as it found it |
| TreeAnalysis.BatchStopsAtFailure | src/treeAnalyzer.ts:45 | An incomplete batch stopped at the first unprocessed node. That node is still unresolved, its analysis threw on the cache as the batch left it, and progress was reported only for the nodes before it |
| TreeAnalysis.AllResolvedIsQuiet | src/treeAnalyzer.ts:44 | A batch over nodes that all have a non-null analysis changes neither map nor cache and reports only progress 0..n |
| TreeAnalysis.Reaching | src/treeAnalyzer.ts:43-48 | The memo and cache with which the loop reaches the j-th node. No entry is removed on the way |
| TreeAnalysis.UnresolvedNodeAnalysed | src/treeAnalyzer.ts:44-50 | Take an input node with no analysis or a null one, at its first position j, in a batch that gets past j. It is analysed there, with the cache as the batch left it, and its analysis returns. `onAnalyzed(node)` is called, directly followed by `progress(j + 1, n)`. Unless the node comes again later, its stored entry afterwards is that result |
| TreeAnalysis.NullAnalysisRetried | src/treeAnalyzer.ts:44-47 | In a one-node batch, a node whose stored analysis is null is analysed again. Its result is stored and the node reported; a throw stores nothing and stops. The general case is `UnresolvedNodeAnalysed` |
| TreeAnalysis.SecondRunRetriesOnlyNulls | src/treeAnalyzer.ts:44 | After a completed batch, a second batch over the same nodes reports only nodes the first left with a null analysis |
| DepsTree.NewDependency | src/depsTree.ts:44-62 | The item keeps label, version, state and command. Its tooltip is the label, a dash and the version; its description is the version; its context value is `dependency` |
| DepsTree.ShownVersion | src/depsTree.ts:25 | The row shows the declared version, or "" when there is none |
| DepsTree.ArboristProvider.GetChildren | src/depsTree.ts:16-21 | The children of the element, or of the root without one: no more than its out-edges, containing every production-edge target and nothing else |
| DepsTree.ArboristProvider.GetTreeItem | src/depsTree.ts:24-36 | The label is the name, tooltip `name-version`, description the version, and `contextValue` "dependency". A node without out-edges is a leaf row whose command is `extension.openPackageOnNpm` with the name as argument; otherwise the row is collapsed and has no command |
| DepsTree.ArboristProvider.IntendedTreeItem | src/depsTree.ts:24-36 | The corrected row: it is a leaf, with the `extension.openPackageOnNpm` command on the node's name, exactly when the node has no children to show |
| DepsTree.RootIsDefault | src/depsTree.ts:17 | `getChildren()` is `getChildren(root)` |
| DepsTree.SameChildrenAsAnalyzer | src/depsTree.ts:18-20 | The tree view and `TreeAnalyzer.children` expand a node to the same list |
| DepsTree.ChildrenInEdgeOrder | src/depsTree.ts:18-20 | Children are listed in edge order: splitting the edges anywhere splits the children the same way |
| DepsTree.LeafHasNoChildren | src/depsTree.ts:27-33 | A leaf row expands to nothing |
| DepsTree.AllProdRowsAgree | src/depsTree.ts:27-35 | When every out-edge is a production edge, the row as written and the corrected row coincide |
| DepsTree.CollapsedRowWithoutChildren | src/depsTree.ts:27-35 | A node whose only out-edge is a peer edge gets a collapsed row with no children; the corrected row is a leaf |
| DepsTree.MissingVersionShownEmpty | src/depsTree.ts:25 | Without a version the row shows "" and tooltip `name-`, while the analysis records "0.0.0" |

## Left out

- The GitHub API client, its token and the network are left out. A fixed function `Remote`
  stands in for `octokit.repos.get`: from owner and repository to a response or a failure.
  - RepoAnalysis.RepoDataRun: the same repository therefore gets the same answer within one
    model run. The model also ignores which fields of the real response may be absent.
- `Date.now()`, read once for the freshness check and once for the new timestamp, is given
  as the two readings of an `Instants` parameter. In a batch it is a function of the node's
  position.
- The `console.log` messages, the `async`/`await` scheduling and promise plumbing are
  left out: the batch is sequential in the source, and the model keeps that order.
- TreeAnalysis.NullAnalysisRetried: it states the re-analysis of a null entry, including the throwing case, for a one-node batch only. In a batch of any length, the re-analysis of an absent or null entry that the batch reaches is `TreeAnalysis.UnresolvedNodeAnalysed`.
- RepoUrl.Exec: strings are sequences of Unicode characters, while JavaScript strings and a regular expression without the `u` flag work on UTF-16 code units.
  - The model differs only for a character outside the Basic Multilingual Plane directly before `git`. The unescaped `.` then matches just the character's low surrogate in JavaScript, and the repository group keeps the high surrogate, for example in `https://github.com/foo/bar😀git`. The model's `.` takes the whole character instead.
- RepoUrl.Lower: `toLowerCase` is modelled for ASCII letters only. Other Unicode case
  mappings are not modelled.
- `Cache` is generic over the stored type in the source. The model stores only cache
  entries of GitHub responses, which is the only use.
- Arborist nodes are modelled as values in a table keyed by node id. The analysis map is
  keyed by id in the same way.
  - Node identity, `children`, `edgesIn` and the uniqueness of edge names in `edgesOut`
    are carried but not used or enforced.
  - The tree loader itself is not part of this model.
- TreeAnalysis.TreeAnalyzer.Analyze: the `progress` and `onAnalyzed` callbacks are
  recorded as a list of events, not called.
  - A callback that throws, or that re-enters the analyzer, is not modelled.
  - The unused `tree` field is kept as a constant.
- `ArboristProvider.refresh`, its event emitter and the tree items' icon paths are left
  out. They are VS Code UI events and file paths.
- Every other file is not part of this model: `src/reportWebView.ts` and `src/doc.ts`
  (rendering), `src/depsView.ts` and `src/extension.ts` (command and view registration).

## Findings

| source | as written | input that shows it | evidently intended | confidence | as-written member | corrected member |
|---|---|---|---|---|---|---|
| src/depsTree.ts:27 | A row is a leaf only when the node has no out-edges of any type, while `getChildren` shows only production-edge targets | A node whose only out-edge is a peer (or optional, or dev) edge gets a collapsed row that expands to nothing, and it gets no "open on npm" command | A row is a leaf exactly when it has no children to show | medium; not executed | DepsTree.ArboristProvider.GetTreeItem, DepsTree.CollapsedRowWithoutChildren | DepsTree.ArboristProvider.IntendedTreeItem |
