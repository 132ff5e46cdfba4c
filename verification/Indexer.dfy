/** All runners at work on one chain, as interleaved steps: each plugin's cached height moves before
    its transaction commits, and dependants read that cached height. */
module Indexer {
  import opened Wrappers

  type Name = string

  /** Blocks `lo` to `hi`, both included, delivered to a plugin in one transaction. */
  datatype Range = Range(lo: nat, hi: nat)

  /** Where a runner is in its loop. */
  datatype Phase =
    | Idle
      // the dao height is read, lowered to the heights of the dependencies read so far
    | Tip(tip: nat, todo: seq<Name>)
      // the cache missed the first dependency left; its stored height is read but not yet cached
    | Cold(tip: nat, todo: seq<Name>, height: nat)
      // head of the inner loop
    | Ready(next: nat, tip: nat)
      // the transaction body is done, so the height is cached; the commit is still to come
    | Sent(next: nat, tip: nat, to: nat)

  /** `cache` and `committed` are the two copies of the index height, `log` the committed batches.
      `aligned` records whether the runner last entered its inner loop with the two copies equal. */
  datatype Plugin = Plugin(cache: Option<nat>, committed: nat, phase: Phase, log: seq<Range>, aligned: bool) {
    /** The height `GetIndexHeight` reports. */
    function Height(): nat {
      if cache.Some? then cache.value else committed
    }
  }

  datatype World = World(dao: nat, plugins: map<Name, Plugin>)

  /** The plugins of a deployment, each with the plugins it depends on. */
  type Deps = map<Name, seq<Name>>

  datatype Step =
    | Grow(height: nat)
    | ReadTip(p: Name)
    | ReadDep(p: Name)
    | StoreCold(p: Name)
    | Enter(p: Name)
    | Leave(p: Name)
    | Send(p: Name, count: nat)
    | Commit(p: Name)
    | Rollback(p: Name)
    | Restart

  function Min(a: nat, b: nat): nat {
    if a < b then a else b
  }

  predicate Enabled(deps: Deps, w: World, s: Step) {
    match s
    case Grow(h) => w.dao <= h
    case ReadTip(p) => p in w.plugins && p in deps && w.plugins[p].phase.Idle?
    case ReadDep(p) => p in w.plugins && var ph := w.plugins[p].phase; ph.Tip? && ph.todo != [] && ph.todo[0] in w.plugins
    case StoreCold(p) => p in w.plugins && var ph := w.plugins[p].phase; ph.Cold? && ph.todo != [] && ph.todo[0] in w.plugins
    case Enter(p) => p in w.plugins && w.plugins[p].phase.Tip? && w.plugins[p].phase.todo == []
    case Leave(p) => p in w.plugins && w.plugins[p].phase.Ready?
    case Send(p, n) =>
      p in w.plugins && var ph := w.plugins[p].phase; ph.Ready? && 1 <= n && ph.next + n - 1 <= ph.tip
    case Commit(p) => p in w.plugins && w.plugins[p].phase.Sent?
    case Rollback(p) => p in w.plugins && w.plugins[p].phase.Sent?
    case Restart => true
  }

  function Put(w: World, p: Name, x: Plugin): World {
    w.(plugins := w.plugins[p := x])
  }

  function Next(deps: Deps, w: World, s: Step): World
    requires Enabled(deps, w, s)
  {
    match s
    case Grow(h) => w.(dao := h)
    case ReadTip(p) => Put(w, p, w.plugins[p].(phase := Tip(w.dao, deps[p])))
    case ReadDep(p) =>
      var ph := w.plugins[p].phase;
      var q := w.plugins[ph.todo[0]];
      if q.cache.Some?
      then Put(w, p, w.plugins[p].(phase := Tip(Min(ph.tip, q.cache.value), ph.todo[1..])))
      else Put(w, p, w.plugins[p].(phase := Cold(ph.tip, ph.todo, q.committed)))
    case StoreCold(p) =>
      var ph := w.plugins[p].phase;
      var stored := Put(w, ph.todo[0], w.plugins[ph.todo[0]].(cache := Some(ph.height)));
      Put(stored, p, stored.plugins[p].(phase := Tip(Min(ph.tip, ph.height), ph.todo[1..])))
    case Enter(p) =>
      var x := w.plugins[p];
      Put(w, p, x.(cache := Some(x.Height()), phase := Ready(x.Height() + 1, x.phase.tip),
                   aligned := x.Height() == x.committed))
    case Leave(p) => Put(w, p, w.plugins[p].(phase := Idle))
    case Send(p, n) =>
      var ph := w.plugins[p].phase;
      Put(w, p, w.plugins[p].(cache := Some(ph.next + n - 1), phase := Sent(ph.next, ph.tip, ph.next + n - 1)))
    case Commit(p) =>
      var x := w.plugins[p];
      Put(w, p, x.(committed := x.phase.to, log := x.log + [Range(x.phase.next, x.phase.to)],
                   phase := Ready(x.phase.to + 1, x.phase.tip)))
    case Rollback(p) => Put(w, p, w.plugins[p].(phase := Idle))
    case Restart => w.(plugins := map p | p in w.plugins :: w.plugins[p].(cache := None, phase := Idle))
  }

  function Init(deps: Deps): World {
    World(0, map p | p in deps :: Plugin(None, 0, Idle, [], true))
  }

  /** The world after the steps, or None when one of them was not enabled. */
  function Run(deps: Deps, steps: seq<Step>): Option<World> {
    if steps == [] then Some(Init(deps))
    else
      var w :- Run(deps, steps[..|steps| - 1]);
      if Enabled(deps, w, steps[|steps| - 1]) then Some(Next(deps, w, steps[|steps| - 1])) else None
  }

  /******* No gap and no repeat *******/

  /** The committed batches run on from block 1 with no gap and no repeat. */
  predicate Contiguous(log: seq<Range>) {
    && (log != [] ==> log[0].lo == 1)
    && (forall i :: 0 <= i < |log| ==> log[i].lo <= log[i].hi)
    && (forall i :: 0 < i < |log| ==> log[i].lo == log[i - 1].hi + 1)
  }

  function LastOf(log: seq<Range>): nat {
    if log == [] then 0 else log[|log| - 1].hi
  }

  /** A runner that entered its loop aligned carries on where the log ends; one that did not will
      break the log at its first commit, if it was whole. */
  predicate CarriesOn(x: Plugin, next: nat) {
    && (x.aligned ==> next == x.committed + 1)
    && (!x.aligned && Contiguous(x.log) ==> next != x.committed + 1)
  }

  /** What holds of a plugin in every run, faults included. */
  predicate Sound(x: Plugin) {
    && x.committed == LastOf(x.log)
    && (x.phase.Ready? ==> CarriesOn(x, x.phase.next))
    && (x.phase.Sent? ==> x.phase.next <= x.phase.to && CarriesOn(x, x.phase.next))
  }

  /** Every commit so far was made by a runner that entered its loop aligned. */
  predicate CommitsAligned(deps: Deps, steps: seq<Step>) {
    if steps == [] then true
    else
      var pre, s := steps[..|steps| - 1], steps[|steps| - 1];
      && CommitsAligned(deps, pre)
      && (s.Commit? && Run(deps, pre).Some? && s.p in Run(deps, pre).value.plugins ==>
            Run(deps, pre).value.plugins[s.p].aligned)
  }

  predicate AllContiguous(w: World) {
    forall p :: p in w.plugins ==> Contiguous(w.plugins[p].log)
  }

  lemma ContiguousSnoc(log: seq<Range>, r: Range)
    requires r.lo <= r.hi
    ensures Contiguous(log + [r]) <==> Contiguous(log) && r.lo == LastOf(log) + 1
  {
    var all := log + [r];
    if Contiguous(all) {
      forall i | 0 <= i < |log| ensures all[i] == log[i] && log[i].lo <= log[i].hi {
        assert all[i].lo <= all[i].hi;
      }
      forall i | 0 < i < |log| ensures log[i].lo == log[i - 1].hi + 1 {
        assert all[i].lo == all[i - 1].hi + 1;
      }
      if log != [] {
        assert all[|log|].lo == all[|log| - 1].hi + 1;
      }
    }
  }

  lemma CommitStep(x: Plugin)
    requires Sound(x) && x.phase.Sent?
    ensures var r := Range(x.phase.next, x.phase.to);
            && (Contiguous(x.log + [r]) <==> Contiguous(x.log) && x.aligned)
            && LastOf(x.log + [r]) == x.phase.to
  {
    ContiguousSnoc(x.log, Range(x.phase.next, x.phase.to));
  }

  lemma SoundStep(deps: Deps, w: World, s: Step)
    requires Enabled(deps, w, s) && forall p :: p in w.plugins ==> Sound(w.plugins[p])
    ensures forall p :: p in Next(deps, w, s).plugins ==> Sound(Next(deps, w, s).plugins[p])
  {
    if s.Commit? {
      CommitStep(w.plugins[s.p]);
    }
  }

  lemma ContiguityStep(deps: Deps, w: World, s: Step)
    requires Enabled(deps, w, s) && forall p :: p in w.plugins ==> Sound(w.plugins[p])
    ensures AllContiguous(Next(deps, w, s)) <==> AllContiguous(w) && (s.Commit? ==> w.plugins[s.p].aligned)
  {
    var v := Next(deps, w, s);
    assert forall p :: p in w.plugins <==> p in v.plugins;
    if s.Commit? {
      CommitStep(w.plugins[s.p]);
      assert v.plugins[s.p].log == w.plugins[s.p].log + [Range(w.plugins[s.p].phase.next, w.plugins[s.p].phase.to)];
      assert forall p :: p in w.plugins && p != s.p ==> v.plugins[p] == w.plugins[p];
      if AllContiguous(v) {
        assert Contiguous(v.plugins[s.p].log);
        forall p | p in w.plugins ensures Contiguous(w.plugins[p].log) {
          assert p != s.p ==> Contiguous(v.plugins[p].log);
        }
      }
    } else {
      assert forall p :: p in w.plugins ==> v.plugins[p].log == w.plugins[p].log;
      if AllContiguous(v) {
        forall p | p in w.plugins ensures Contiguous(w.plugins[p].log) {
          assert Contiguous(v.plugins[p].log);
        }
      }
    }
  }

  /** In every run: all plugins' committed batches are consecutive exactly when every commit was
      made by a runner whose cached and committed heights agreed when it entered its loop. */
  lemma {:induction false} ConsecutiveExactlyWhenAligned(deps: Deps, steps: seq<Step>)
    requires Run(deps, steps).Some?
    ensures forall p :: p in Run(deps, steps).value.plugins ==> Sound(Run(deps, steps).value.plugins[p])
    ensures AllContiguous(Run(deps, steps).value) <==> CommitsAligned(deps, steps)
  {
    if steps == [] {
    } else {
      var pre, s := steps[..|steps| - 1], steps[|steps| - 1];
      ConsecutiveExactlyWhenAligned(deps, pre);
      SoundStep(deps, Run(deps, pre).value, s);
      ContiguityStep(deps, Run(deps, pre).value, s);
    }
  }

  /** The cached height a slow first reader stores is out of date. */
  predicate StoresStale(w: World, s: Step) {
    s.StoreCold? && s.p in w.plugins && w.plugins[s.p].phase.Cold? && w.plugins[s.p].phase.todo != []
    && w.plugins[s.p].phase.todo[0] in w.plugins
    && w.plugins[s.p].phase.height != w.plugins[w.plugins[s.p].phase.todo[0]].Height()
  }

  /** No transaction fails after its height was cached, and no stale height is stored. */
  predicate FaultFree(deps: Deps, steps: seq<Step>) {
    if steps == [] then true
    else
      var pre, s := steps[..|steps| - 1], steps[|steps| - 1];
      && FaultFree(deps, pre)
      && !s.Rollback?
      && (Run(deps, pre).Some? ==> !StoresStale(Run(deps, pre).value, s))
  }

  /** Outside a transaction the two copies of the height agree; at the inner loop head the next
      height is the cached one plus one. */
  predicate InStep(x: Plugin) {
    && (!x.phase.Sent? ==> x.Height() == x.committed)
    && (x.phase.Sent? ==> x.cache == Some(x.phase.to) && x.phase.next == x.committed + 1)
    && (x.phase.Ready? ==> x.phase.next == x.Height() + 1)
    && (x.phase.Ready? || x.phase.Sent? ==> x.aligned)
  }

  lemma InStepStep(deps: Deps, w: World, s: Step)
    requires Enabled(deps, w, s) && !s.Rollback? && !StoresStale(w, s)
    requires forall p :: p in w.plugins ==> Sound(w.plugins[p]) && InStep(w.plugins[p])
    ensures forall p :: p in Next(deps, w, s).plugins ==> InStep(Next(deps, w, s).plugins[p])
  {
    if s.StoreCold? {
      var v := Next(deps, w, s);
      var q := w.plugins[s.p].phase.todo[0];
      assert v.plugins[q].Height() == w.plugins[q].Height();
    }
  }

  /** Without such faults, crashes and restarts included, every plugin's batches are consecutive. */
  lemma {:induction false} FaultFreeRunsAreConsecutive(deps: Deps, steps: seq<Step>)
    requires Run(deps, steps).Some? && FaultFree(deps, steps)
    ensures AllContiguous(Run(deps, steps).value) && CommitsAligned(deps, steps)
    ensures forall p :: p in Run(deps, steps).value.plugins ==> InStep(Run(deps, steps).value.plugins[p])
  {
    if steps == [] {
    } else {
      var pre, s := steps[..|steps| - 1], steps[|steps| - 1];
      FaultFreeRunsAreConsecutive(deps, pre);
      ConsecutiveExactlyWhenAligned(deps, pre);
      InStepStep(deps, Run(deps, pre).value, s);
      ConsecutiveExactlyWhenAligned(deps, steps);
    }
  }

  /******* Batches that never go back *******/

  /** Each batch starts after the one before, perhaps with a gap. */
  predicate Ascending(log: seq<Range>) {
    && (log != [] ==> log[0].lo >= 1)
    && (forall i :: 0 <= i < |log| ==> log[i].lo <= log[i].hi)
    && (forall i :: 0 < i < |log| ==> log[i].lo > log[i - 1].hi)
  }

  predicate AllAscending(w: World) {
    forall p :: p in w.plugins ==> Ascending(w.plugins[p].log)
  }

  lemma AscendingSnoc(log: seq<Range>, r: Range)
    ensures Ascending(log + [r]) <==> Ascending(log) && LastOf(log) < r.lo <= r.hi
  {
    var all := log + [r];
    assert all[|log|] == r && forall i :: 0 <= i < |log| ==> all[i] == log[i];
    if Ascending(all) {
      forall i | 0 <= i < |log| ensures log[i].lo <= log[i].hi {
        assert all[i].lo <= all[i].hi;
      }
      forall i | 0 < i < |log| ensures log[i].lo > log[i - 1].hi {
        assert all[i].lo > all[i - 1].hi;
      }
      if log != [] {
        assert all[|log|].lo > all[|log| - 1].hi;
      }
    }
  }

  lemma ContiguousAscends(log: seq<Range>)
    requires Contiguous(log)
    ensures Ascending(log)
  {
  }

  /** Logs only grow. */
  lemma LogsGrow(deps: Deps, w: World, s: Step, p: Name)
    requires Enabled(deps, w, s) && p in w.plugins
    ensures p in Next(deps, w, s).plugins && w.plugins[p].log <= Next(deps, w, s).plugins[p].log
  {
  }

  lemma PrefixAscends(a: seq<Range>, b: seq<Range>)
    requires a <= b && Ascending(b)
    ensures Ascending(a)
  {
    forall i | 0 <= i < |a| ensures a[i] == b[i] {
    }
    forall i | 0 < i < |a| ensures a[i].lo > a[i - 1].hi {
      assert b[i].lo > b[i - 1].hi;
    }
  }

  /** So batches that never go back by the end never did. */
  lemma AscendedBefore(deps: Deps, w: World, s: Step)
    requires Enabled(deps, w, s) && AllAscending(Next(deps, w, s))
    ensures AllAscending(w)
  {
    forall p | p in w.plugins ensures Ascending(w.plugins[p].log) {
      LogsGrow(deps, w, s, p);
      PrefixAscends(w.plugins[p].log, Next(deps, w, s).plugins[p].log);
    }
  }

  /** In every run the committed height is the end of the log. */
  lemma AlwaysSound(deps: Deps, steps: seq<Step>)
    requires Run(deps, steps).Some?
    ensures forall p :: p in Run(deps, steps).value.plugins ==> Sound(Run(deps, steps).value.plugins[p])
  {
    ConsecutiveExactlyWhenAligned(deps, steps);
  }

  /** The stored height: 0 for a plugin without one. */
  function Committed(w: World, p: Name): nat {
    if p in w.plugins then w.plugins[p].committed else 0
  }

  predicate NoneUncommits(w: World, v: World) {
    w.plugins.Keys == v.plugins.Keys && forall q :: q in w.plugins ==> w.plugins[q].committed <= v.plugins[q].committed
  }

  lemma CommitRises(x: Plugin, r: Range)
    requires Sound(x) && Ascending(x.log + [r])
    ensures x.committed < r.lo <= r.hi
  {
    AscendingSnoc(x.log, r);
  }

  /** While no batch goes back, no committed height falls. */
  lemma CommittedRises(deps: Deps, w: World, s: Step, q: Name)
    requires Enabled(deps, w, s) && q in w.plugins && Sound(w.plugins[q])
    requires q in Next(deps, w, s).plugins && Ascending(Next(deps, w, s).plugins[q].log)
    ensures w.plugins[q].committed <= Next(deps, w, s).plugins[q].committed
  {
    if s.Commit? && s.p == q {
      CommitRises(w.plugins[q], Range(w.plugins[q].phase.next, w.plugins[q].phase.to));
    }
  }

  /** No out-of-date height is cached. */
  predicate Unstale(deps: Deps, steps: seq<Step>) {
    steps == [] ||
    var pre, s := steps[..|steps| - 1], steps[|steps| - 1];
    Unstale(deps, pre) && (Run(deps, pre).Some? ==> !StoresStale(Run(deps, pre).value, s))
  }

  /** The cached height never lags behind the committed one. */
  predicate Leads(x: Plugin) {
    && x.committed <= x.Height()
    && (x.phase.Ready? ==> x.phase.next == x.Height() + 1)
    && (x.phase.Sent? ==> x.cache == Some(x.phase.to) && x.committed < x.phase.next <= x.phase.to)
  }

  predicate AllLead(w: World) {
    forall p :: p in w.plugins ==> Leads(w.plugins[p])
  }

  lemma LeadsStep(deps: Deps, w: World, s: Step)
    requires Enabled(deps, w, s) && !StoresStale(w, s) && AllLead(w)
    ensures AllLead(Next(deps, w, s))
  {
    if s.StoreCold? {
      var q := w.plugins[s.p].phase.todo[0];
      assert Next(deps, w, s).plugins[q].Height() == w.plugins[q].Height();
    }
  }

  lemma AscendingStep(deps: Deps, w: World, s: Step)
    requires Enabled(deps, w, s) && AllAscending(w) && AllLead(w)
    requires forall q :: q in w.plugins ==> Sound(w.plugins[q])
    ensures AllAscending(Next(deps, w, s))
  {
    if s.Commit? {
      var x := w.plugins[s.p];
      AscendingSnoc(x.log, Range(x.phase.next, x.phase.to));
    }
  }

  /** Rollbacks and restarts leave gaps only: without a stale height no batch ever goes back. */
  lemma {:induction false} UnstaleRunsAscend(deps: Deps, steps: seq<Step>)
    requires Run(deps, steps).Some? && Unstale(deps, steps)
    ensures AllLead(Run(deps, steps).value) && AllAscending(Run(deps, steps).value)
  {
    if steps == [] {
    } else {
      var pre, s := steps[..|steps| - 1], steps[|steps| - 1];
      UnstaleRunsAscend(deps, pre);
      AlwaysSound(deps, pre);
      LeadsStep(deps, Run(deps, pre).value, s);
      AscendingStep(deps, Run(deps, pre).value, s);
    }
  }

  /** Nor does one in a run with aligned commits. */
  lemma AlignedRunsAscend(deps: Deps, steps: seq<Step>)
    requires Run(deps, steps).Some? && CommitsAligned(deps, steps)
    ensures AllAscending(Run(deps, steps).value)
  {
    ConsecutiveExactlyWhenAligned(deps, steps);
    forall p | p in Run(deps, steps).value.plugins ensures Ascending(Run(deps, steps).value.plugins[p].log) {
      ContiguousAscends(Run(deps, steps).value.plugins[p].log);
    }
  }

  /** Some batch of the log holds the block. */
  predicate Delivered(log: seq<Range>, b: nat) {
    exists i :: 0 <= i < |log| && log[i].lo <= b <= log[i].hi
  }

  lemma DeliveredSnoc(log: seq<Range>, r: Range, b: nat)
    ensures Delivered(log + [r], b) <==> Delivered(log, b) || r.lo <= b <= r.hi
  {
    var all := log + [r];
    if i :| 0 <= i < |log| && log[i].lo <= b <= log[i].hi {
      assert all[i] == log[i];
    }
    if r.lo <= b <= r.hi {
      assert all[|log|] == r;
    }
  }

  lemma {:induction false} DeliveredByLast(log: seq<Range>, b: nat)
    requires Ascending(log) && Delivered(log, b)
    ensures 1 <= b <= LastOf(log)
  {
    var pre, r := log[..|log| - 1], log[|log| - 1];
    assert log == pre + [r];
    AscendingSnoc(pre, r);
    DeliveredSnoc(pre, r, b);
    if Delivered(pre, b) {
      DeliveredByLast(pre, b);
    }
  }

  /** The log holds all blocks up to its end. */
  ghost predicate Whole(log: seq<Range>) {
    forall b :: 1 <= b <= LastOf(log) ==> Delivered(log, b)
  }

  lemma GapShows(log: seq<Range>, r: Range)
    requires Ascending(log + [r]) && Whole(log + [r])
    ensures r.lo == LastOf(log) + 1
  {
    AscendingSnoc(log, r);
    var b := LastOf(log) + 1;
    assert Delivered(log + [r], b);
    DeliveredSnoc(log, r, b);
    if Delivered(log, b) {
      DeliveredByLast(log, b);
    }
  }

  lemma WholeSnoc(log: seq<Range>, r: Range)
    requires Ascending(log + [r])
    ensures Whole(log + [r]) <==> Whole(log) && r.lo == LastOf(log) + 1
  {
    AscendingSnoc(log, r);
    forall b: nat ensures Delivered(log + [r], b) <==> Delivered(log, b) || r.lo <= b <= r.hi {
      DeliveredSnoc(log, r, b);
    }
    if Whole(log + [r]) {
      GapShows(log, r);
      forall b | 1 <= b <= LastOf(log) ensures Delivered(log, b) {
        assert Delivered(log + [r], b);
      }
    }
  }

  /** A log that never goes back holds all blocks up to its end exactly when it has no gap. */
  lemma {:induction false} WholeExactlyWhenContiguous(log: seq<Range>)
    requires Ascending(log)
    ensures Whole(log) <==> Contiguous(log)
  {
    if log == [] {
    } else {
      var pre, r := log[..|log| - 1], log[|log| - 1];
      assert log == pre + [r];
      AscendingSnoc(pre, r);
      ContiguousSnoc(pre, r);
      WholeSnoc(pre, r);
      WholeExactlyWhenContiguous(pre);
    }
  }
}
