/** Runs in which heights go wrong, from any state a run can be in. */
module IndexerFaults {
  import opened Wrappers
  import opened Indexer

  /******* The faults, as runs *******/

  /** A property of worlds that steps keep; with `faults` off, only those of `FaultFree` runs. */
  ghost predicate Closed(deps: Deps, reach: World -> bool, faults: bool) {
    forall w, s :: reach(w) && Enabled(deps, w, s) && (faults || (!s.Rollback? && !StoresStale(w, s))) ==>
      reach(Next(deps, w, s))
  }

  /** The same plugin, its cache perhaps filled in the meantime. */
  predicate Filled(x: Plugin, y: Plugin) {
    y == x || (x.cache.None? && y == x.(cache := Some(x.committed)))
  }

  /** `v` is `w` for all plugins but `p`, some caches filled. */
  predicate FilledBut(w: World, v: World, p: Name) {
    && v.dao == w.dao && v.plugins.Keys == w.plugins.Keys
    && forall q :: q in w.plugins && q != p ==> Filled(w.plugins[q], v.plugins[q])
  }

  /** All of `todo` are there, are not `p`, and have come to `k`. */
  predicate Ahead(w: World, p: Name, todo: seq<Name>, k: nat) {
    forall q :: q in todo ==> q in w.plugins && q != p && k <= w.plugins[q].Height()
  }

  /** `p` reads its next dependency, caching its stored height if need be. */
  lemma ReadOne(deps: Deps, reach: World -> bool, faults: bool, w: World, p: Name) returns (v: World)
    requires Closed(deps, reach, faults) && reach(w)
    requires p in w.plugins && w.plugins[p].phase.Tip? && w.plugins[p].phase.todo != []
    requires w.plugins[p].phase.todo[0] in w.plugins && w.plugins[p].phase.todo[0] != p
    ensures reach(v) && FilledBut(w, v, p)
    ensures var ph := w.plugins[p].phase;
            && v.plugins[p] == w.plugins[p].(phase := Tip(Min(ph.tip, w.plugins[ph.todo[0]].Height()), ph.todo[1..]))
            && forall x :: x in w.plugins && x != p && x != ph.todo[0] ==> v.plugins[x] == w.plugins[x]
  {
    v := Next(deps, w, ReadDep(p));
    if v.plugins[p].phase.Cold? {
      v := Next(deps, v, StoreCold(p));
    }
  }

  lemma {:induction false} ReadAll(deps: Deps, reach: World -> bool, faults: bool, w: World, p: Name, k: nat)
    returns (v: World, tip: nat)
    requires Closed(deps, reach, faults) && reach(w)
    requires p in w.plugins && w.plugins[p].phase.Tip?
    requires k <= w.plugins[p].phase.tip && Ahead(w, p, w.plugins[p].phase.todo, k)
    ensures reach(v) && FilledBut(w, v, p)
    ensures tip >= k && v.plugins[p] == w.plugins[p].(phase := Tip(tip, []))
    decreases |w.plugins[p].phase.todo|
  {
    if w.plugins[p].phase.todo == [] {
      v, tip := w, w.plugins[p].phase.tip;
    } else {
      assert w.plugins[p].phase.todo[0] in w.plugins[p].phase.todo;
      v := ReadOne(deps, reach, faults, w, p);
      v, tip := ReadAll(deps, reach, faults, v, p, k);
    }
  }

  /** `d` reads its dependencies up to, and not with, `p`. */
  lemma {:induction false} ReadUntil(deps: Deps, reach: World -> bool, faults: bool, w: World, d: Name, p: Name)
    returns (v: World)
    requires Closed(deps, reach, faults) && reach(w)
    requires d in w.plugins && w.plugins[d].phase.Tip? && p in w.plugins
    requires p in w.plugins[d].phase.todo && Ahead(w, d, w.plugins[d].phase.todo, 0) && p != d
    ensures reach(v) && FilledBut(w, v, d) && v.plugins[p] == w.plugins[p]
    ensures var ph := v.plugins[d].phase;
            ph.Tip? && ph.todo != [] && ph.todo[0] == p && v.plugins[d] == w.plugins[d].(phase := ph)
    decreases |w.plugins[d].phase.todo|
  {
    var todo := w.plugins[d].phase.todo;
    if todo[0] == p {
      v := w;
    } else {
      assert todo[0] in todo && todo == [todo[0]] + todo[1..];
      v := ReadOne(deps, reach, faults, w, d);
      v := ReadUntil(deps, reach, faults, v, d, p);
    }
  }

  /** A plugin at the head of its inner loop, with blocks sent up to `to`, and after they are delivered. */
  function Begun(x: Plugin, tip: nat): Plugin {
    Plugin(Some(x.Height()), x.committed, Ready(x.Height() + 1, tip), x.log, x.Height() == x.committed)
  }

  function SentTo(x: Plugin, tip: nat, to': nat): Plugin {
    Begun(x, tip).(cache := Some(to'), phase := Sent(x.Height() + 1, tip, to'))
  }

  function DeliveredTo(x: Plugin, to': nat): Plugin {
    Plugin(Some(to'), to', Idle, x.log + [Range(x.Height() + 1, to')], x.Height() == x.committed)
  }

  /** An idle plugin whose dependencies, and the dao, have come to `k` begins its inner loop. */
  lemma Begin(deps: Deps, reach: World -> bool, faults: bool, w: World, p: Name, k: nat) returns (v: World, tip: nat)
    requires Closed(deps, reach, faults) && reach(w)
    requires p in w.plugins && p in deps && w.plugins[p].phase.Idle? && k <= w.dao && Ahead(w, p, deps[p], k)
    ensures reach(v) && FilledBut(w, v, p)
    ensures tip >= k && v.plugins[p] == Begun(w.plugins[p], tip)
  {
    v := Next(deps, w, ReadTip(p));
    v, tip := ReadAll(deps, reach, faults, v, p, k);
    v := Next(deps, v, Enter(p));
  }

  /** An idle plugin whose dependencies, and the dao, have come to `to` sends the blocks after its own
      height up to there. */
  lemma SendUpTo(deps: Deps, reach: World -> bool, faults: bool, w: World, p: Name, to': nat) returns (v: World, tip: nat)
    requires Closed(deps, reach, faults) && reach(w)
    requires p in w.plugins && p in deps && w.plugins[p].phase.Idle?
    requires w.plugins[p].Height() < to' <= w.dao && Ahead(w, p, deps[p], to')
    ensures reach(v) && FilledBut(w, v, p) && v.plugins[p] == SentTo(w.plugins[p], tip, to')
  {
    v, tip := Begin(deps, reach, faults, w, p, to');
    v := Next(deps, v, Send(p, to' - w.plugins[p].Height()));
  }

  /** It delivers them and is idle again. */
  lemma DeliverUpTo(deps: Deps, reach: World -> bool, faults: bool, w: World, p: Name, to': nat) returns (v: World)
    requires Closed(deps, reach, faults) && reach(w)
    requires p in w.plugins && p in deps && w.plugins[p].phase.Idle?
    requires w.plugins[p].Height() < to' <= w.dao && Ahead(w, p, deps[p], to')
    ensures reach(v) && FilledBut(w, v, p) && v.plugins[p] == DeliveredTo(w.plugins[p], to')
  {
    var tip;
    v, tip := SendUpTo(deps, reach, faults, w, p, to');
    v := Next(deps, v, Commit(p));
    v := Next(deps, v, Leave(p));
  }

  lemma StillAhead(w: World, v: World, p: Name, x: Name, todo: seq<Name>, k: nat)
    requires Ahead(w, p, todo, k) && FilledBut(w, v, x)
    requires x in w.plugins ==> v.plugins[x].Height() >= w.plugins[x].Height()
    ensures Ahead(v, p, todo, k)
  {
  }

  lemma DeliveredAfterRollback(x: Plugin, tip: nat)
    ensures var h := x.Height();
            DeliveredTo(SentTo(x, tip, h + 1).(phase := Idle), h + 2).log == x.log + [Range(h + 2, h + 2)]
  {
  }

  lemma RollbackSkips(deps: Deps, reach: World -> bool, w: World, p: Name) returns (v: World)
    requires Closed(deps, reach, true) && reach(w)
    requires p in w.plugins && p in deps && w.plugins[p].phase.Idle?
    requires w.plugins[p].Height() + 2 <= w.dao && Ahead(w, p, deps[p], w.plugins[p].Height() + 2)
    ensures reach(v) && p in v.plugins
    ensures var h := w.plugins[p].Height();
            v.plugins[p].log == w.plugins[p].log + [Range(h + 2, h + 2)]
  {
    var h := w.plugins[p].Height();
    var u, tip := SendUpTo(deps, reach, true, w, p, h + 1);
    StillAhead(w, u, p, p, deps[p], h + 2);
    v := Next(deps, u, Rollback(p));
    v := DeliverUpTo(deps, reach, true, v, p, h + 2);
    DeliveredAfterRollback(w.plugins[p], tip);
  }

  /** An idle dependant reads the stored height of `p`, whose cache is empty. */
  lemma ReadCold(deps: Deps, reach: World -> bool, w: World, p: Name, d: Name) returns (v: World)
    requires Closed(deps, reach, true) && reach(w) && p in w.plugins && d in w.plugins && d in deps
    requires p in deps[d] && d != p && Ahead(w, d, deps[d], 0) && w.plugins[d].phase.Idle? && w.plugins[p].cache.None?
    ensures reach(v) && FilledBut(w, v, d)
    ensures v.plugins[p] == w.plugins[p] && v.plugins[d].Height() == w.plugins[d].Height()
    ensures var ph := v.plugins[d].phase;
            ph.Cold? && ph.todo != [] && ph.todo[0] == p && ph.height == w.plugins[p].committed
  {
    v := Next(deps, w, ReadTip(d));
    v := ReadUntil(deps, reach, true, v, d, p);
    v := Next(deps, v, ReadDep(d));
  }

  /** The next block is committed twice over. */
  predicate RepeatsNext(x: Plugin, z: Plugin) {
    var r := Range(x.committed + 1, x.committed + 1);
    z.log == x.log + [r] + [r]
  }

  lemma DeliveredTwice(x: Plugin, y: Plugin, z: Plugin)
    requires x.cache.None? && y == DeliveredTo(x, x.committed + 1).(cache := Some(x.committed))
    requires z == DeliveredTo(y, x.committed + 1)
    ensures RepeatsNext(x, z)
  {
  }

  /** It caches that height later. */
  lemma StoreLate(deps: Deps, reach: World -> bool, w: World, p: Name, d: Name) returns (v: World)
    requires Closed(deps, reach, true) && reach(w) && p in w.plugins && d in w.plugins && d != p
    requires w.plugins[d].phase.Cold? && w.plugins[d].phase.todo != [] && w.plugins[d].phase.todo[0] == p
    ensures reach(v) && v.dao == w.dao && v.plugins.Keys == w.plugins.Keys
    ensures v.plugins[p] == w.plugins[p].(cache := Some(w.plugins[d].phase.height))
    ensures forall x :: x in w.plugins && x != p ==> v.plugins[x].Height() == w.plugins[x].Height()
  {
    v := Next(deps, w, StoreCold(d));
  }

  /** `d` is about to read `p`'s height, not cached yet, and everything either depends on is there. */
  predicate ReadyToRead(deps: Deps, w: World, p: Name, d: Name) {
    && p in w.plugins && p in deps && d in w.plugins && d in deps && p in deps[d] && d != p
    && w.plugins[p].phase.Idle? && w.plugins[d].phase.Idle? && w.plugins[p].cache.None?
    && w.plugins[p].committed < w.dao
    && Ahead(w, p, deps[p], w.plugins[p].committed + 1) && Ahead(w, d, deps[d], 0)
  }

  /** `d` reads the height of `p` and caches it after `p` has delivered a block. */
  lemma StoresOldHeight(deps: Deps, reach: World -> bool, w: World, p: Name, d: Name) returns (v: World)
    requires Closed(deps, reach, true) && reach(w) && ReadyToRead(deps, w, p, d)
    ensures reach(v) && v.dao == w.dao && p in v.plugins
    ensures v.plugins[p] == DeliveredTo(w.plugins[p], w.plugins[p].committed + 1).(cache := Some(w.plugins[p].committed))
    ensures Ahead(v, p, deps[p], w.plugins[p].committed + 1)
  {
    var c := w.plugins[p].committed;
    var u := ReadCold(deps, reach, w, p, d);
    StillAhead(w, u, p, d, deps[p], c + 1);
    var x := DeliverUpTo(deps, reach, true, u, p, c + 1);
    assert Filled(u.plugins[d], x.plugins[d]);
    StillAhead(u, x, p, p, deps[p], c + 1);
    v := StoreLate(deps, reach, x, p, d);
  }

  lemma StaleStoreRepeats(deps: Deps, reach: World -> bool, w: World, p: Name, d: Name) returns (v: World)
    requires Closed(deps, reach, true) && reach(w) && ReadyToRead(deps, w, p, d)
    ensures reach(v) && p in v.plugins && RepeatsNext(w.plugins[p], v.plugins[p])
  {
    var y := StoresOldHeight(deps, reach, w, p, d);
    v := DeliverUpTo(deps, reach, true, y, p, w.plugins[p].committed + 1);
    DeliveredTwice(w.plugins[p], y.plugins[p], v.plugins[p]);
  }

  /** `q` and its dependant `d` are idle, `q` has committed all it has cached, at least as much as `d`,
      and everything else they depend on is further. */
  predicate ReadyToOvertake(deps: Deps, w: World, q: Name, d: Name) {
    && q in w.plugins && q in deps && d in w.plugins && d in deps && q in deps[d] && d != q
    && w.plugins[q].phase.Idle? && w.plugins[d].phase.Idle?
    && w.plugins[d].Height() <= w.plugins[q].Height() == w.plugins[q].committed < w.dao
    && Ahead(w, q, deps[q], w.plugins[q].committed + 1)
    && forall x :: x in deps[d] && x != q ==>
         x in w.plugins && x != d && w.plugins[q].committed < w.plugins[x].Height()
  }

  /** `q` is in its transaction for block `c + 1`, which `d` has committed already. */
  predicate Overtaken(v: World, q: Name, d: Name, c: nat) {
    && q in v.plugins && d in v.plugins
    && v.plugins[q].phase.Sent? && v.plugins[q].committed == c
    && v.plugins[d].phase.Idle? && v.plugins[d].committed == v.plugins[d].Height() == c + 1
  }

  lemma Overtakes(deps: Deps, reach: World -> bool, w: World, q: Name, d: Name) returns (v: World)
    requires Closed(deps, reach, false) && reach(w) && ReadyToOvertake(deps, w, q, d)
    ensures reach(v) && Overtaken(v, q, d, w.plugins[q].committed)
  {
    var c := w.plugins[q].committed;
    var u, tip := SendUpTo(deps, reach, false, w, q, c + 1);
    assert Ahead(u, d, deps[d], c + 1);
    v := DeliverUpTo(deps, reach, false, u, d, c + 1);
    assert Filled(u.plugins[q], v.plugins[q]);
  }

  /** A run that goes on from `pre`, and without a fault if `pre` had none (unless `faults` is on). */
  ghost predicate GoesOn(deps: Deps, pre: seq<Step>, faults: bool, steps: seq<Step>, v: World) {
    pre <= steps && Run(deps, steps) == Some(v) && (faults || !FaultFree(deps, pre) || FaultFree(deps, steps))
  }

  ghost function Onward(deps: Deps, pre: seq<Step>, faults: bool): World -> bool {
    v => exists steps :: GoesOn(deps, pre, faults, steps, v)
  }

  lemma Extend(deps: Deps, pre: seq<Step>, faults: bool, steps: seq<Step>, w: World, s: Step)
    requires GoesOn(deps, pre, faults, steps, w) && Enabled(deps, w, s)
    requires faults || (!s.Rollback? && !StoresStale(w, s))
    ensures GoesOn(deps, pre, faults, steps + [s], Next(deps, w, s))
  {
    assert (steps + [s])[..|steps|] == steps;
  }

  lemma OnwardIsClosed(deps: Deps, pre: seq<Step>, w: World, faults: bool)
    requires Run(deps, pre) == Some(w)
    ensures Closed(deps, Onward(deps, pre, faults), faults) && Onward(deps, pre, faults)(w)
  {
    var reach := Onward(deps, pre, faults);
    assert GoesOn(deps, pre, faults, pre, w);
    forall u, s | reach(u) && Enabled(deps, u, s) && (faults || (!s.Rollback? && !StoresStale(u, s)))
      ensures reach(Next(deps, u, s))
    {
      var steps :| GoesOn(deps, pre, faults, steps, u);
      Extend(deps, pre, faults, steps, u, s);
    }
  }

  /** From any run with `p` idle: if a transaction fails after its height was cached, the next batch
      `p` commits leaves the failed block out. */
  lemma RollbackSkipsABlock(deps: Deps, pre: seq<Step>, w: World, p: Name) returns (steps: seq<Step>, v: World)
    requires Run(deps, pre) == Some(w) && p in w.plugins && p in deps && w.plugins[p].phase.Idle?
    requires w.plugins[p].Height() + 2 <= w.dao && Ahead(w, p, deps[p], w.plugins[p].Height() + 2)
    ensures pre <= steps && Run(deps, steps) == Some(v) && p in v.plugins
    ensures var h := w.plugins[p].Height();
            v.plugins[p].log == w.plugins[p].log + [Range(h + 2, h + 2)]
  {
    OnwardIsClosed(deps, pre, w, true);
    v := RollbackSkips(deps, Onward(deps, pre, true), w, p);
    steps :| GoesOn(deps, pre, true, steps, v);
  }

  /** A dependant `d` reads the stored height of `p` while the cache is empty and caches it after `p`
      moved on: `p` commits its next block twice, with no transaction having failed. */
  lemma StaleStoreRepeatsABlock(deps: Deps, pre: seq<Step>, w: World, p: Name, d: Name)
    returns (steps: seq<Step>, v: World)
    requires Run(deps, pre) == Some(w) && ReadyToRead(deps, w, p, d)
    ensures pre <= steps && Run(deps, steps) == Some(v) && p in v.plugins
    ensures RepeatsNext(w.plugins[p], v.plugins[p])
  {
    OnwardIsClosed(deps, pre, w, true);
    v := StaleStoreRepeats(deps, Onward(deps, pre, true), w, p, d);
    steps :| GoesOn(deps, pre, true, steps, v);
  }

  /** While `q` is in its transaction, a dependant `d` goes by its cached height and commits first: no
      fault has happened, yet `d` has committed blocks that `q` has not. */
  lemma DependantCommitsFirst(deps: Deps, pre: seq<Step>, w: World, q: Name, d: Name)
    returns (steps: seq<Step>, v: World)
    requires Run(deps, pre) == Some(w) && ReadyToOvertake(deps, w, q, d)
    ensures pre <= steps && Run(deps, steps) == Some(v) && Overtaken(v, q, d, w.plugins[q].committed)
    ensures FaultFree(deps, pre) ==> FaultFree(deps, steps)
  {
    OnwardIsClosed(deps, pre, w, false);
    v := Overtakes(deps, Onward(deps, pre, false), w, q, d);
    steps :| GoesOn(deps, pre, false, steps, v);
  }

  /** If `q`'s transaction then fails and the process restarts, `d` is ahead of `q` by all heights. */
  lemma RestartLeavesDependantAhead(deps: Deps, pre: seq<Step>, w: World, q: Name, d: Name)
    returns (steps: seq<Step>, v: World)
    requires Run(deps, pre) == Some(w) && ReadyToOvertake(deps, w, q, d)
    ensures pre <= steps && Run(deps, steps) == Some(v) && d in v.plugins && q in v.plugins
    ensures v.plugins[q].Height() == v.plugins[q].committed < v.plugins[d].committed == v.plugins[d].Height()
  {
    var first, u := DependantCommitsFirst(deps, pre, w, q, d);
    var x := Next(deps, u, Rollback(q));
    Extend(deps, pre, true, first, u, Rollback(q));
    v := Next(deps, x, Restart);
    Extend(deps, pre, true, first + [Rollback(q)], x, Restart);
    steps := first + [Rollback(q)] + [Restart];
  }
}
