/**
 * The tree analyzer: a memo from dependency-tree nodes to their trust
 * analysis, filled by a sequential batch over a list of nodes that reports
 * its progress and each node it analyses.
 *
 * The two callbacks of the batch (`progress` and `onAnalyzed`) are modelled
 * as the list of events they receive, in order. The batch is specified by
 * the pure function `Batch`; the class method `TreeAnalyzer.Analyze`, the
 * loop itself, is proved to compute it.
 */
module TreeAnalysis {
  import opened Wrappers
  import opened Arborist
  import opened RepoAnalysis

  /** A call of one of the batch's callbacks: `progress(done, total)` or
      `onAnalyzed(node)`. */
  datatype Event = Progress(done: nat, total: nat) | Analyzed(node: NodeId)

  /** The analysis of one node from a cache, with the clock readings of its
      lookup. */
  type Analyzer = (Node, map<string, CacheEntry>, Instants) -> Run<Analysis>

  /** `Analyze` against a given GitHub API. */
  function AnalyzerOf(remote: Remote): Analyzer {
    (node: Node, entries: map<string, CacheEntry>, t: Instants) => AnalyzeRun(Some(node), entries, remote, t)
  }

  /** `analyze` computes what `AnalyzeRun` does against `remote`. */
  ghost predicate Implements(analyze: Analyzer, remote: Remote) {
    forall node, entries, t {:trigger AnalyzeRun(Some(node), entries, remote, t)} ::
      analyze(node, entries, t) == AnalyzeRun(Some(node), entries, remote, t)
  }

  /** What a batch works on besides the memo and the cache: the node table,
      the input nodes, the clock readings of the i-th node's lookup and the
      analysis of one node. */
  datatype Job = Job(graph: Graph, nodes: seq<NodeId>, clock: nat -> Instants, analyze: Analyzer) {
    predicate Valid() {
      forall i | 0 <= i < |nodes| :: nodes[i] in graph
    }
  }

  /** The state a batch leaves: the memo, the cache, the events reported, how
      many input nodes were processed, and whether it finished or was
      rejected. */
  datatype BatchRun = BatchRun(analysis: map<NodeId, Analysis>, entries: map<string, CacheEntry>,
                               events: seq<Event>, reached: nat, completed: bool)

  /** An entry the batch fills in: absent, or the analysis `null` (both are
      falsy). */
  predicate Unresolved(analysis: map<NodeId, Analysis>, id: NodeId) {
    id !in analysis || analysis[id].None?
  }

  /** The batch from the i-th input node on. */
  function BatchFrom(job: Job, i: nat, analysis: map<NodeId, Analysis>, entries: map<string, CacheEntry>)
    : (b: BatchRun)
    requires job.Valid() && i <= |job.nodes|
    ensures i <= b.reached <= |job.nodes|
    ensures b.completed <==> b.reached == |job.nodes|
    decreases |job.nodes| - i
  {
    if i == |job.nodes| then BatchRun(analysis, entries, [], i, true)
    else
      var id := job.nodes[i];
      if !Unresolved(analysis, id) then
        var rest := BatchFrom(job, i + 1, analysis, entries);
        rest.(events := [Progress(i + 1, |job.nodes|)] + rest.events)
      else
        var run := job.analyze(job.graph[id], entries, job.clock(i));
        if run.result.Threw? then BatchRun(analysis, run.entries, [], i, false)
        else
          var rest := BatchFrom(job, i + 1, analysis[id := run.result.value], run.entries);
          rest.(events := [Analyzed(id), Progress(i + 1, |job.nodes|)] + rest.events)
  }

  /** `analyze(nodes, onAnalyzed)`: progress 0 of n first, then the nodes in
      order. */
  function Batch(job: Job, analysis: map<NodeId, Analysis>, entries: map<string, CacheEntry>): (b: BatchRun)
    requires job.Valid()
    ensures b.reached <= |job.nodes|
    ensures b.completed <==> b.reached == |job.nodes|
    ensures |b.events| > 0 && b.events[0] == Progress(0, |job.nodes|)
  {
    var rest := BatchFrom(job, 0, analysis, entries);
    rest.(events := [Progress(0, |job.nodes|)] + rest.events)
  }

  class TreeAnalyzer {
    const tree: NodeId
    const graph: Graph
    const cache: Cache
    var analysis: map<NodeId, Analysis>

    constructor(tree: NodeId, graph: Graph, cache: Cache)
      ensures this.tree == tree && this.graph == graph && this.cache == cache
      ensures analysis == map[]
    {
      this.tree := tree;
      this.graph := graph;
      this.cache := cache;
      analysis := map[];
    }

    /** The stored analysis of a node; `None` both when the node was never
        analysed and when its analysis was `null`. */
    function Get(id: NodeId): (r: Analysis)
      reads this
      ensures r.None? <==> Unresolved(analysis, id)
      ensures r.Some? ==> r == analysis[id]
    {
      if id in analysis then analysis[id] else None
    }

    /** The nodes the production edges of a node lead to, in edge order
        (`ProdTargetsAppend`): those and no others. */
    function Children(node: Node): (r: seq<NodeId>)
      ensures forall i | 0 <= i < |node.edgesOut| && node.edgesOut[i].depType == Prod :: node.edgesOut[i].to in r
      ensures forall x | x in r :: exists i | 0 <= i < |node.edgesOut| ::
        node.edgesOut[i].depType == Prod && node.edgesOut[i].to == x
    {
      ProdTargets(node.edgesOut)
    }

    /** Analyse the given nodes in order, skipping those with a non-null
        stored analysis; `completed` is false when an analysis was rejected,
        which ends the batch. */
    method Analyze(nodes: seq<NodeId>, remote: Remote, clock: nat -> Instants)
      returns (events: seq<Event>, completed: bool)
      requires forall i | 0 <= i < |nodes| :: nodes[i] in graph
      modifies this, cache
      ensures var b := Batch(Job(graph, nodes, clock, AnalyzerOf(remote)), old(analysis), old(cache.entries));
        analysis == b.analysis && cache.entries == b.entries && events == b.events && completed == b.completed
    {
      events, completed := AnalyzeWith(nodes, remote, clock, AnalyzerOf(remote));
    }

    /** The loop of `Analyze`, specified for any analyzer that agrees with
        `AnalyzeRun` on the given API. */
    method AnalyzeWith(nodes: seq<NodeId>, remote: Remote, clock: nat -> Instants, ghost analyze: Analyzer)
      returns (events: seq<Event>, completed: bool)
      requires forall i | 0 <= i < |nodes| :: nodes[i] in graph
      requires Implements(analyze, remote)
      modifies this, cache
      ensures var b := Batch(Job(graph, nodes, clock, analyze), old(analysis), old(cache.entries));
        analysis == b.analysis && cache.entries == b.entries && events == b.events && completed == b.completed
    {
      ghost var job := Job(graph, nodes, clock, analyze);
      ghost var goal := Batch(job, analysis, cache.entries);
      var processed := 0;
      var total := |nodes|;
      events := [Progress(0, total)];
      for i := 0 to |nodes|
        invariant processed == i
        invariant Fold(events, BatchFrom(job, i, analysis, cache.entries)) == goal
      {
        var node := nodes[i];
        ghost var done := events;
        var threw, analyzed := Visit(node, remote, clock(i), job, i);
        if threw {
          return events, false;
        }
        ghost var step := if analyzed then [Analyzed(node), Progress(i + 1, total)] else [Progress(i + 1, total)];
        if analyzed {
          events := events + [Analyzed(node)];
        }
        processed := processed + 1;
        events := events + [Progress(processed, total)];
        assert events == done + step;
        FoldFold(done, step, BatchFrom(job, i + 1, analysis, cache.entries));
      }
      completed := true;
    }

    /** The body of the loop for the i-th node: unless it has a non-null
        analysis, analyse it and store the result; `threw` when the analysis
        was rejected, `analyzed` when `onAnalyzed` is due. */
    method Visit(node: NodeId, remote: Remote, t: Instants, ghost job: Job, ghost i: nat)
      returns (threw: bool, analyzed: bool)
      requires job.Valid() && job.graph == graph && Implements(job.analyze, remote)
      requires i < |job.nodes| && job.nodes[i] == node && job.clock(i) == t
      modifies this, cache
      ensures var before := BatchFrom(job, i, old(analysis), old(cache.entries));
        if threw then analysis == old(analysis) && before == BatchRun(analysis, cache.entries, [], i, false)
        else before == Fold(if analyzed then [Analyzed(node), Progress(i + 1, |job.nodes|)]
                            else [Progress(i + 1, |job.nodes|)],
                            BatchFrom(job, i + 1, analysis, cache.entries))
    {
      ghost var run := AnalyzeRun(Some(graph[node]), cache.entries, remote, t);
      assert run == job.analyze(graph[node], cache.entries, t);
      BatchStep(job, i, analysis, cache.entries, run);
      threw, analyzed := false, false;
      if Get(node).None? {
        var result;
        ghost var effects;
        result, effects := RepoAnalysis.Analyze(Some(graph[node]), cache, remote, t);
        if result.Threw? {
          return true, false;
        }
        analysis := analysis[node := result.value];
        analyzed := true;
      }
    }
  }

  /** One step of the batch: the i-th node is skipped, or analysed by `run`,
      which either ends the batch or is followed by the rest. */
  lemma BatchStep(job: Job, i: nat, analysis: map<NodeId, Analysis>, entries: map<string, CacheEntry>, run: Run<Analysis>)
    requires job.Valid() && i < |job.nodes|
    requires run == job.analyze(job.graph[job.nodes[i]], entries, job.clock(i))
    ensures var id, n := job.nodes[i], |job.nodes|;
      && (!Unresolved(analysis, id) ==>
            BatchFrom(job, i, analysis, entries) == Fold([Progress(i + 1, n)], BatchFrom(job, i + 1, analysis, entries)))
      && (Unresolved(analysis, id) && run.result.Threw? ==>
            BatchFrom(job, i, analysis, entries) == BatchRun(analysis, run.entries, [], i, false))
      && (Unresolved(analysis, id) && run.result.Returned? ==>
            BatchFrom(job, i, analysis, entries)
            == Fold([Analyzed(id), Progress(i + 1, n)], BatchFrom(job, i + 1, analysis[id := run.result.value], run.entries)))
  {
  }

  /** A run with the events `done` reported before it. */
  function Fold(done: seq<Event>, run: BatchRun): BatchRun {
    run.(events := done + run.events)
  }

  lemma FoldFold(a: seq<Event>, b: seq<Event>, run: BatchRun)
    ensures Fold(a, Fold(b, run)) == Fold(a + b, run)
  {
    assert a + (b + run.events) == (a + b) + run.events;
  }

  // ---------------------------------------------------------------------
  // Progress reporting

  /** The `done` counts of the progress events, in order. */
  function Dones(events: seq<Event>): seq<nat> {
    if events == [] then []
    else if events[0].Progress? then [events[0].done] + Dones(events[1..])
    else Dones(events[1..])
  }

  /** Every progress event reports the input length as its total. */
  predicate TotalsAre(events: seq<Event>, n: nat) {
    forall k | 0 <= k < |events| && events[k].Progress? :: events[k].total == n
  }

  /** The numbers lo, lo + 1, ..., hi - 1. */
  function Range(lo: nat, hi: nat): (r: seq<nat>)
    requires lo <= hi
    ensures |r| == hi - lo
    decreases hi - lo
  {
    if lo == hi then [] else [lo] + Range(lo + 1, hi)
  }

  lemma {:induction false} DonesAppend(a: seq<Event>, b: seq<Event>)
    ensures Dones(a + b) == Dones(a) + Dones(b)
    decreases |a|
  {
    if a == [] {
      assert a + b == b;
    } else {
      assert (a + b)[1..] == a[1..] + b;
      DonesAppend(a[1..], b);
    }
  }

  /** The events of one step, reporting k out of n, followed by a run that
      reports k + 1, ..., hi out of n, report k, ..., hi out of n. */
  lemma ProgressPrepend(step: seq<Event>, rest: seq<Event>, k: nat, hi: nat, n: nat)
    requires k <= hi
    requires Dones(step) == [k] && TotalsAre(step, n)
    requires Dones(rest) == Range(k + 1, hi + 1) && TotalsAre(rest, n)
    ensures Dones(step + rest) == Range(k, hi + 1) && TotalsAre(step + rest, n)
  {
    DonesAppend(step, rest);
    forall m | 0 <= m < |step + rest| && (step + rest)[m].Progress?
      ensures (step + rest)[m].total == n
    {
      if m >= |step| {
        assert (step + rest)[m] == rest[m - |step|];
      }
    }
  }

  /** A skipped node reports its progress only. */
  lemma SkipStep(k: nat, n: nat)
    ensures Dones([Progress(k, n)]) == [k] && TotalsAre([Progress(k, n)], n)
  {
    assert [Progress(k, n)][1..] == [];
  }

  /** An analysed node is reported, then its progress. */
  lemma AnalyzedStep(id: NodeId, k: nat, n: nat)
    ensures Dones([Analyzed(id), Progress(k, n)]) == [k] && TotalsAre([Analyzed(id), Progress(k, n)], n)
  {
    assert [Analyzed(id), Progress(k, n)][1..] == [Progress(k, n)];
    SkipStep(k, n);
  }

  lemma {:induction false} ProgressFrom(job: Job, i: nat, analysis: map<NodeId, Analysis>, entries: map<string, CacheEntry>)
    requires job.Valid() && i <= |job.nodes|
    ensures var b := BatchFrom(job, i, analysis, entries);
      Dones(b.events) == Range(i + 1, b.reached + 1) && TotalsAre(b.events, |job.nodes|)
    decreases |job.nodes| - i, 1
  {
    if i < |job.nodes| {
      var id := job.nodes[i];
      if !Unresolved(analysis, id) {
        ProgressSkipped(job, i, analysis, entries);
      } else if job.analyze(job.graph[id], entries, job.clock(i)).result.Threw? {
        assert BatchFrom(job, i, analysis, entries).events == [];
      } else {
        ProgressAnalyzed(job, i, analysis, entries);
      }
    }
  }

  /** `ProgressFrom` at a node that is skipped. */
  lemma {:induction false} ProgressSkipped(job: Job, i: nat, analysis: map<NodeId, Analysis>, entries: map<string, CacheEntry>)
    requires job.Valid() && i < |job.nodes| && !Unresolved(analysis, job.nodes[i])
    ensures var b := BatchFrom(job, i, analysis, entries);
      Dones(b.events) == Range(i + 1, b.reached + 1) && TotalsAre(b.events, |job.nodes|)
    decreases |job.nodes| - i, 0
  {
    var n := |job.nodes|;
    var rest := BatchFrom(job, i + 1, analysis, entries);
    ProgressFrom(job, i + 1, analysis, entries);
    SkipStep(i + 1, n);
    ProgressPrepend([Progress(i + 1, n)], rest.events, i + 1, rest.reached, n);
    assert BatchFrom(job, i, analysis, entries) == Fold([Progress(i + 1, n)], rest);
  }

  /** `ProgressFrom` at a node whose analysis returns. */
  lemma {:induction false} ProgressAnalyzed(job: Job, i: nat, analysis: map<NodeId, Analysis>, entries: map<string, CacheEntry>)
    requires job.Valid() && i < |job.nodes| && Unresolved(analysis, job.nodes[i])
    requires !job.analyze(job.graph[job.nodes[i]], entries, job.clock(i)).result.Threw?
    ensures var b := BatchFrom(job, i, analysis, entries);
      Dones(b.events) == Range(i + 1, b.reached + 1) && TotalsAre(b.events, |job.nodes|)
    decreases |job.nodes| - i, 0
  {
    var id, n := job.nodes[i], |job.nodes|;
    var run := job.analyze(job.graph[id], entries, job.clock(i));
    var rest := BatchFrom(job, i + 1, analysis[id := run.result.value], run.entries);
    ProgressFrom(job, i + 1, analysis[id := run.result.value], run.entries);
    AnalyzedStep(id, i + 1, n);
    ProgressPrepend([Analyzed(id), Progress(i + 1, n)], rest.events, i + 1, rest.reached, n);
    assert BatchFrom(job, i, analysis, entries) == Fold([Analyzed(id), Progress(i + 1, n)], rest);
  }

  /** `progress` is called with 0, 1, ..., k out of n, in that order, where k
      is the number of nodes processed: n + 1 times when the batch
      completes, skipped nodes included. */
  lemma ProgressReported(job: Job, analysis: map<NodeId, Analysis>, entries: map<string, CacheEntry>)
    requires job.Valid()
    ensures var b := Batch(job, analysis, entries);
      && Dones(b.events) == Range(0, b.reached + 1)
      && TotalsAre(b.events, |job.nodes|)
      && (b.completed ==> |Dones(b.events)| == |job.nodes| + 1)
  {
    var rest := BatchFrom(job, 0, analysis, entries);
    var n := |job.nodes|;
    ProgressFrom(job, 0, analysis, entries);
    SkipStep(0, n);
    ProgressPrepend([Progress(0, n)], rest.events, 0, rest.reached, n);
  }

  // ---------------------------------------------------------------------
  // Order of the events

  /** Every `onAnalyzed(node)` call is followed at once by the progress call
      of that node. */
  predicate AnalyzedThenProgress(events: seq<Event>, nodes: seq<NodeId>) {
    forall k | 0 <= k < |events| && events[k].Analyzed? ::
      && k + 1 < |events| && events[k + 1].Progress?
      && 1 <= events[k + 1].done <= |nodes| && nodes[events[k + 1].done - 1] == events[k].node
  }

  lemma AnalyzedThenProgressPrepend(p: seq<Event>, events: seq<Event>, nodes: seq<NodeId>)
    requires AnalyzedThenProgress(p, nodes) && AnalyzedThenProgress(events, nodes)
    requires |p| > 0 && p[|p| - 1].Progress?
    ensures AnalyzedThenProgress(p + events, nodes)
  {
    var all := p + events;
    forall k | 0 <= k < |all| && all[k].Analyzed?
      ensures k + 1 < |all| && all[k + 1].Progress?
      ensures 1 <= all[k + 1].done <= |nodes| && nodes[all[k + 1].done - 1] == all[k].node
    {
      if k >= |p| {
        assert all[k] == events[k - |p|] && all[k + 1] == events[k + 1 - |p|];
      } else {
        assert all[k] == p[k] && all[k + 1] == p[k + 1];
      }
    }
  }

  lemma {:induction false} OrderFrom(job: Job, i: nat, analysis: map<NodeId, Analysis>, entries: map<string, CacheEntry>)
    requires job.Valid() && i <= |job.nodes|
    ensures AnalyzedThenProgress(BatchFrom(job, i, analysis, entries).events, job.nodes)
    decreases |job.nodes| - i
  {
    if i < |job.nodes| {
      var id, n := job.nodes[i], |job.nodes|;
      if !Unresolved(analysis, id) {
        OrderFrom(job, i + 1, analysis, entries);
        AnalyzedThenProgressPrepend([Progress(i + 1, n)], BatchFrom(job, i + 1, analysis, entries).events, job.nodes);
      } else {
        var run := job.analyze(job.graph[id], entries, job.clock(i));
        if !run.result.Threw? {
          var next := analysis[id := run.result.value];
          OrderFrom(job, i + 1, next, run.entries);
          AnalyzedThenProgressPrepend([Analyzed(id), Progress(i + 1, n)], BatchFrom(job, i + 1, next, run.entries).events, job.nodes);
        }
      }
    }
  }

  /** `onAnalyzed(node)` is called right before that node's progress call. */
  lemma AnalyzedBeforeItsProgress(job: Job, analysis: map<NodeId, Analysis>, entries: map<string, CacheEntry>)
    requires job.Valid()
    ensures AnalyzedThenProgress(Batch(job, analysis, entries).events, job.nodes)
  {
    OrderFrom(job, 0, analysis, entries);
    AnalyzedThenProgressPrepend([Progress(0, |job.nodes|)], BatchFrom(job, 0, analysis, entries).events, job.nodes);
  }

  // ---------------------------------------------------------------------
  // What the batch changes

  /** The batch from node i on changes the memo only at nodes it processes
      and analyses only nodes that were unresolved; a resolved entry is kept
      and its node is not reported. */
  lemma {:induction false} ChangesFrom(job: Job, i: nat, analysis: map<NodeId, Analysis>, entries: map<string, CacheEntry>,
                                       id: NodeId)
    requires job.Valid() && i <= |job.nodes|
    ensures var b := BatchFrom(job, i, analysis, entries);
      && (id !in job.nodes[i..b.reached] ==>
            (id in b.analysis <==> id in analysis) && (id in analysis ==> b.analysis[id] == analysis[id]))
      && (!Unresolved(analysis, id) ==> id in b.analysis && b.analysis[id] == analysis[id])
      && (Analyzed(id) in b.events ==> Unresolved(analysis, id) && id in job.nodes[i..b.reached])
      && (id in analysis ==> id in b.analysis)
    decreases |job.nodes| - i
  {
    if i < |job.nodes| {
      var x, n := job.nodes[i], |job.nodes|;
      var b := BatchFrom(job, i, analysis, entries);
      if !Unresolved(analysis, x) {
        ChangesFrom(job, i + 1, analysis, entries, id);
        assert job.nodes[i..b.reached] == [x] + job.nodes[i + 1..b.reached];
      } else {
        var run := job.analyze(job.graph[x], entries, job.clock(i));
        if !run.result.Threw? {
          var next := analysis[x := run.result.value];
          ChangesFrom(job, i + 1, next, run.entries, id);
          assert job.nodes[i..b.reached] == [x] + job.nodes[i + 1..b.reached];
        }
      }
    }
  }

  /** After a batch: a node with a non-null stored analysis was skipped (its
      entry is unchanged and `onAnalyzed` was not called for it); a node
      outside the processed prefix of the input keeps its entry, or its
      absence; no entry is removed. */
  lemma BatchChanges(job: Job, analysis: map<NodeId, Analysis>, entries: map<string, CacheEntry>, id: NodeId)
    requires job.Valid()
    ensures var b := Batch(job, analysis, entries);
      && (!Unresolved(analysis, id) ==> id in b.analysis && b.analysis[id] == analysis[id] && Analyzed(id) !in b.events)
      && (id !in job.nodes[..b.reached] ==>
            (id in b.analysis <==> id in analysis) && (id in analysis ==> b.analysis[id] == analysis[id]))
      && (Analyzed(id) in b.events ==> Unresolved(analysis, id) && id in job.nodes[..b.reached])
      && (id in analysis ==> id in b.analysis)
  {
    ChangesFrom(job, 0, analysis, entries, id);
  }

  lemma {:induction false} CoverageFrom(job: Job, i: nat, analysis: map<NodeId, Analysis>, entries: map<string, CacheEntry>)
    requires job.Valid() && i <= |job.nodes|
    ensures var b := BatchFrom(job, i, analysis, entries);
      forall j | i <= j < b.reached :: job.nodes[j] in b.analysis
    decreases |job.nodes| - i
  {
    if i < |job.nodes| {
      var x := job.nodes[i];
      if !Unresolved(analysis, x) {
        CoverageFrom(job, i + 1, analysis, entries);
        ChangesFrom(job, i + 1, analysis, entries, x);
      } else {
        var run := job.analyze(job.graph[x], entries, job.clock(i));
        if !run.result.Threw? {
          var next := analysis[x := run.result.value];
          CoverageFrom(job, i + 1, next, run.entries);
          ChangesFrom(job, i + 1, next, run.entries, x);
        }
      }
    }
  }

  /** Every processed node has an entry afterwards: after a completed batch,
      every input node. */
  lemma BatchCovers(job: Job, analysis: map<NodeId, Analysis>, entries: map<string, CacheEntry>)
    requires job.Valid()
    ensures var b := Batch(job, analysis, entries);
      && (forall j | 0 <= j < b.reached :: job.nodes[j] in b.analysis)
      && (b.completed ==> forall j | 0 <= j < |job.nodes| :: job.nodes[j] in b.analysis)
  {
    CoverageFrom(job, 0, analysis, entries);
  }

  /** An analyzer that leaves the cache as it found it when it throws. */
  ghost predicate KeepsCacheOnFailure(analyze: Analyzer) {
    forall node, entries, t :: analyze(node, entries, t).result.Threw? ==> analyze(node, entries, t).entries == entries
  }

  /** `Analyze` throws only when the fetch fails, before anything is
      written. */
  lemma AnalyzerOfKeepsCache(remote: Remote)
    ensures KeepsCacheOnFailure(AnalyzerOf(remote))
  {
    forall node, entries, t | AnalyzerOf(remote)(node, entries, t).result.Threw?
      ensures AnalyzerOf(remote)(node, entries, t).entries == entries
    {
      if RepositoryUrl(node).Some? {
        AssessmentOfRecord(node, entries, remote, t);
      }
    }
  }

  lemma {:induction false} FailureFrom(job: Job, i: nat, analysis: map<NodeId, Analysis>, entries: map<string, CacheEntry>)
    requires job.Valid() && i <= |job.nodes| && KeepsCacheOnFailure(job.analyze)
    ensures var b := BatchFrom(job, i, analysis, entries);
      !b.completed ==>
        && Unresolved(b.analysis, job.nodes[b.reached])
        && job.analyze(job.graph[job.nodes[b.reached]], b.entries, job.clock(b.reached)).result.Threw?
    decreases |job.nodes| - i
  {
    if i < |job.nodes| {
      var x := job.nodes[i];
      if !Unresolved(analysis, x) {
        FailureFrom(job, i + 1, analysis, entries);
      } else {
        var run := job.analyze(job.graph[x], entries, job.clock(i));
        if !run.result.Threw? {
          FailureFrom(job, i + 1, analysis[x := run.result.value], run.entries);
        }
      }
    }
  }

  /** A rejected analysis ends the batch: it happened at the first node not
      processed, whose entry is still unresolved, the cache is as the failed
      lookup found it, and progress stops at the nodes before it. */
  lemma BatchStopsAtFailure(job: Job, analysis: map<NodeId, Analysis>, entries: map<string, CacheEntry>)
    requires job.Valid() && KeepsCacheOnFailure(job.analyze)
    ensures var b := Batch(job, analysis, entries);
      !b.completed ==>
        && b.reached < |job.nodes|
        && Unresolved(b.analysis, job.nodes[b.reached])
        && job.analyze(job.graph[job.nodes[b.reached]], b.entries, job.clock(b.reached)).result.Threw?
        && Dones(b.events) == Range(0, b.reached + 1)
  {
    FailureFrom(job, 0, analysis, entries);
    ProgressReported(job, analysis, entries);
  }

  // ---------------------------------------------------------------------
  // Re-running a batch

  lemma {:induction false} ResolvedFrom(job: Job, i: nat, analysis: map<NodeId, Analysis>, entries: map<string, CacheEntry>)
    requires job.Valid() && i <= |job.nodes|
    requires forall j | i <= j < |job.nodes| :: !Unresolved(analysis, job.nodes[j])
    ensures BatchFrom(job, i, analysis, entries)
      == BatchRun(analysis, entries, seq(|job.nodes| - i, k requires 0 <= k < |job.nodes| - i => Progress(i + 1 + k, |job.nodes|)),
                  |job.nodes|, true)
    decreases |job.nodes| - i
  {
    if i < |job.nodes| {
      ResolvedFrom(job, i + 1, analysis, entries);
    }
  }

  /** A batch over nodes that all have a non-null analysis analyses nothing:
      it touches neither the memo nor the cache and only reports progress. */
  lemma AllResolvedIsQuiet(job: Job, analysis: map<NodeId, Analysis>, entries: map<string, CacheEntry>)
    requires job.Valid()
    requires forall j | 0 <= j < |job.nodes| :: !Unresolved(analysis, job.nodes[j])
    ensures Batch(job, analysis, entries)
      == BatchRun(analysis, entries, seq(|job.nodes| + 1, k requires 0 <= k <= |job.nodes| => Progress(k, |job.nodes|)),
                  |job.nodes|, true)
  {
    ResolvedFrom(job, 0, analysis, entries);
  }

  /** A node whose analysis was `null` is analysed again: a batch of that one
      node calls `Analyze` again, stores its result and reports the node. */
  lemma NullAnalysisRetried(job: Job, analysis: map<NodeId, Analysis>, entries: map<string, CacheEntry>)
    requires job.Valid() && |job.nodes| == 1
    requires var id := job.nodes[0]; id in analysis && analysis[id] == None
    ensures var id := job.nodes[0];
      var run := job.analyze(job.graph[id], entries, job.clock(0));
      var b := Batch(job, analysis, entries);
      && b.entries == run.entries
      && (run.result.Returned? ==>
            b.analysis == analysis[id := run.result.value]
            && b.events == [Progress(0, 1), Analyzed(id), Progress(1, 1)])
      && (run.result.Threw? ==> b.analysis == analysis && b.events == [Progress(0, 1)] && !b.completed)
  {
    var id := job.nodes[0];
    var run := job.analyze(job.graph[id], entries, job.clock(0));
    if run.result.Returned? {
      var rest := BatchFrom(job, 1, analysis[id := run.result.value], run.entries);
      assert rest.events == [];
      assert BatchFrom(job, 0, analysis, entries).events == [Analyzed(id), Progress(1, 1)];
    }
  }

  /** The memo and the cache with which the batch started at the i-th node
      reaches the j-th node, or stops at a rejected analysis before it. */
  function Reaching(job: Job, i: nat, j: nat, analysis: map<NodeId, Analysis>, entries: map<string, CacheEntry>)
    : (s: (map<NodeId, Analysis>, map<string, CacheEntry>))
    requires job.Valid() && i <= j <= |job.nodes|
    ensures forall id | id in analysis :: id in s.0
    decreases j - i
  {
    if i == j then (analysis, entries)
    else
      var id := job.nodes[i];
      if !Unresolved(analysis, id) then Reaching(job, i + 1, j, analysis, entries)
      else
        var run := job.analyze(job.graph[id], entries, job.clock(i));
        if run.result.Threw? then (analysis, run.entries)
        else Reaching(job, i + 1, j, analysis[id := run.result.value], run.entries)
  }

  lemma {:induction false} UnresolvedFrom(job: Job, i: nat, j: nat, analysis: map<NodeId, Analysis>,
                                           entries: map<string, CacheEntry>)
    requires job.Valid() && i <= j < |job.nodes| && j < BatchFrom(job, i, analysis, entries).reached
    requires Unresolved(analysis, job.nodes[j]) && job.nodes[j] !in job.nodes[i..j]
    ensures var id, b, s := job.nodes[j], BatchFrom(job, i, analysis, entries), Reaching(job, i, j, analysis, entries);
      var run := job.analyze(job.graph[id], s.1, job.clock(j));
      && run.result.Returned?
      && (exists k | 0 <= k < |b.events| - 1 :: b.events[k] == Analyzed(id) && b.events[k + 1] == Progress(j + 1, |job.nodes|))
      && (id !in job.nodes[j + 1..b.reached] ==> id in b.analysis && b.analysis[id] == run.result.value)
    decreases j - i, 1
  {
    var id, n := job.nodes[j], |job.nodes|;
    if i == j {
      var run := job.analyze(job.graph[id], entries, job.clock(j));
      ChangesFrom(job, j + 1, analysis[id := run.result.value], run.entries, id);
      var b := BatchFrom(job, i, analysis, entries);
      assert b.events[0] == Analyzed(id) && b.events[1] == Progress(j + 1, n);
    } else if !Unresolved(analysis, job.nodes[i]) {
      UnresolvedSkipped(job, i, j, analysis, entries);
    } else {
      UnresolvedPassed(job, i, j, analysis, entries);
    }
  }

  /** `UnresolvedFrom` past an earlier node that is skipped. */
  lemma {:induction false} UnresolvedSkipped(job: Job, i: nat, j: nat, analysis: map<NodeId, Analysis>,
                                              entries: map<string, CacheEntry>)
    requires job.Valid() && i < j < |job.nodes| && j < BatchFrom(job, i, analysis, entries).reached
    requires !Unresolved(analysis, job.nodes[i])
    requires Unresolved(analysis, job.nodes[j]) && job.nodes[j] !in job.nodes[i..j]
    ensures var id, b, s := job.nodes[j], BatchFrom(job, i, analysis, entries), Reaching(job, i, j, analysis, entries);
      var run := job.analyze(job.graph[id], s.1, job.clock(j));
      && run.result.Returned?
      && (exists k | 0 <= k < |b.events| - 1 :: b.events[k] == Analyzed(id) && b.events[k + 1] == Progress(j + 1, |job.nodes|))
      && (id !in job.nodes[j + 1..b.reached] ==> id in b.analysis && b.analysis[id] == run.result.value)
    decreases j - i, 0
  {
    var id, n := job.nodes[j], |job.nodes|;
    assert job.nodes[i + 1..j] == job.nodes[i..j][1..];
    UnresolvedFrom(job, i + 1, j, analysis, entries);
    var rest := BatchFrom(job, i + 1, analysis, entries);
    assert BatchFrom(job, i, analysis, entries) == Fold([Progress(i + 1, n)], rest);
    var k :| 0 <= k < |rest.events| - 1 && rest.events[k] == Analyzed(id) && rest.events[k + 1] == Progress(j + 1, n);
    var b := BatchFrom(job, i, analysis, entries);
    assert b.events[k + 1] == Analyzed(id) && b.events[k + 2] == Progress(j + 1, n);
  }

  /** `UnresolvedFrom` past an earlier node that is analysed. */
  lemma {:induction false} UnresolvedPassed(job: Job, i: nat, j: nat, analysis: map<NodeId, Analysis>,
                                             entries: map<string, CacheEntry>)
    requires job.Valid() && i < j < |job.nodes| && j < BatchFrom(job, i, analysis, entries).reached
    requires Unresolved(analysis, job.nodes[i])
    requires Unresolved(analysis, job.nodes[j]) && job.nodes[j] !in job.nodes[i..j]
    ensures var id, b, s := job.nodes[j], BatchFrom(job, i, analysis, entries), Reaching(job, i, j, analysis, entries);
      var run := job.analyze(job.graph[id], s.1, job.clock(j));
      && run.result.Returned?
      && (exists k | 0 <= k < |b.events| - 1 :: b.events[k] == Analyzed(id) && b.events[k + 1] == Progress(j + 1, |job.nodes|))
      && (id !in job.nodes[j + 1..b.reached] ==> id in b.analysis && b.analysis[id] == run.result.value)
    decreases j - i, 0
  {
    var id, n, x := job.nodes[j], |job.nodes|, job.nodes[i];
    assert x == job.nodes[i..j][0];
    var run := job.analyze(job.graph[x], entries, job.clock(i));
    var next := analysis[x := run.result.value];
    assert job.nodes[i + 1..j] == job.nodes[i..j][1..];
    UnresolvedFrom(job, i + 1, j, next, run.entries);
    var rest := BatchFrom(job, i + 1, next, run.entries);
    assert BatchFrom(job, i, analysis, entries) == Fold([Analyzed(x), Progress(i + 1, n)], rest);
    var k :| 0 <= k < |rest.events| - 1 && rest.events[k] == Analyzed(id) && rest.events[k + 1] == Progress(j + 1, n);
    var b := BatchFrom(job, i, analysis, entries);
    assert b.events[k + 2] == Analyzed(id) && b.events[k + 3] == Progress(j + 1, n);
  }

  /** An input node with no analysis or a `null` one, at its first position j
      in a batch that gets past j, is analysed there, with the cache as the
      batch has left it: `onAnalyzed` is called for it, directly followed by
      progress j + 1 of n, and its result is stored; it is the node's entry
      afterwards unless the node comes again later in the input. */
  lemma UnresolvedNodeAnalysed(job: Job, analysis: map<NodeId, Analysis>, entries: map<string, CacheEntry>, j: nat)
    requires job.Valid() && j < Batch(job, analysis, entries).reached
    requires Unresolved(analysis, job.nodes[j]) && job.nodes[j] !in job.nodes[..j]
    ensures var id, b, s := job.nodes[j], Batch(job, analysis, entries), Reaching(job, 0, j, analysis, entries);
      var run := job.analyze(job.graph[id], s.1, job.clock(j));
      && run.result.Returned?
      && (exists k | 0 <= k < |b.events| - 1 :: b.events[k] == Analyzed(id) && b.events[k + 1] == Progress(j + 1, |job.nodes|))
      && (id !in job.nodes[j + 1..b.reached] ==> id in b.analysis && b.analysis[id] == run.result.value)
  {
    var id, n := job.nodes[j], |job.nodes|;
    var rest := BatchFrom(job, 0, analysis, entries);
    UnresolvedFrom(job, 0, j, analysis, entries);
    var k :| 0 <= k < |rest.events| - 1 && rest.events[k] == Analyzed(id) && rest.events[k + 1] == Progress(j + 1, n);
    var b := Batch(job, analysis, entries);
    assert b.events[k + 1] == Analyzed(id) && b.events[k + 2] == Progress(j + 1, n);
  }

  /** Running a batch a second time over the same nodes analyses again only
      the nodes the first run left with a `null` analysis. */
  lemma SecondRunRetriesOnlyNulls(job: Job, analysis: map<NodeId, Analysis>, entries: map<string, CacheEntry>,
                                  clock2: nat -> Instants, analyze2: Analyzer, id: NodeId)
    requires job.Valid()
    ensures var first := Batch(job, analysis, entries);
      var second := Batch(job.(clock := clock2, analyze := analyze2), first.analysis, first.entries);
      first.completed && Analyzed(id) in second.events ==> id in first.analysis && first.analysis[id] == None
  {
    var first := Batch(job, analysis, entries);
    var job2 := job.(clock := clock2, analyze := analyze2);
    var second := Batch(job2, first.analysis, first.entries);
    if first.completed && Analyzed(id) in second.events {
      BatchChanges(job2, first.analysis, first.entries, id);
      BatchCovers(job, analysis, entries);
      var j :| 0 <= j < second.reached && job.nodes[j] == id;
      assert job.nodes[j] in first.analysis;
    }
  }
}
