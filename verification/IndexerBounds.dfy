/** How far a plugin may get: not past what the plugins it depends on have reached, and with what it
    reads of them committed. */
module IndexerBounds {
  import opened Wrappers
  import opened Indexer

  /******* What holds in every run *******/

  /** `todo` lists dependencies of `p`. */
  predicate Listed(deps: Deps, p: Name, todo: seq<Name>) {
    p in deps && forall q :: q in todo ==> q in deps[p]
  }

  /** A height of `q` read but not cached yet: at most its height, and as committed if none is cached. */
  predicate ReadOf(w: World, q: Name, h: nat) {
    q in w.plugins ==> h <= w.plugins[q].Height() && (w.plugins[q].cache.None? ==> h == w.plugins[q].committed)
  }

  predicate Steady(deps: Deps, w: World, p: Name)
    requires p in w.plugins
  {
    var x := w.plugins[p];
    && x.committed <= w.dao
    && match x.phase
       case Idle => true
       case Tip(tip, todo) => tip <= w.dao && Listed(deps, p, todo)
       case Cold(tip, todo, h) => tip <= w.dao && Listed(deps, p, todo) && todo != [] && ReadOf(w, todo[0], h)
       case Ready(next, tip) => tip <= w.dao && p in deps && x.cache.Some? && x.cache.value < next
       case Sent(next, tip, to) => to <= tip <= w.dao && p in deps && next <= to && x.cache.Some? && x.cache.value <= to
  }

  /** Two plugins that read the same height without caching it yet read the same. */
  predicate ReadsAgree(w: World) {
    forall c, d :: c in w.plugins && d in w.plugins && w.plugins[c].phase.Cold? && w.plugins[d].phase.Cold?
                   && w.plugins[c].phase.todo != [] && w.plugins[d].phase.todo != []
                   && w.plugins[c].phase.todo[0] == w.plugins[d].phase.todo[0] ==>
                     w.plugins[c].phase.height == w.plugins[d].phase.height
  }

  predicate AllSteady(deps: Deps, w: World) {
    ReadsAgree(w) && forall p :: p in w.plugins ==> Steady(deps, w, p)
  }

  /** `v` follows on `w` with nothing lower that a plugin may have read. */
  predicate ReadsStand(w: World, v: World) {
    && w.dao <= v.dao && w.plugins.Keys == v.plugins.Keys
    && forall q :: q in w.plugins ==>
         && w.plugins[q].Height() <= v.plugins[q].Height()
         && (v.plugins[q].cache.None? ==> w.plugins[q].cache.None? && v.plugins[q].committed == w.plugins[q].committed)
  }

  lemma SteadyStays(deps: Deps, w: World, v: World, p: Name)
    requires p in w.plugins && Steady(deps, w, p) && ReadsStand(w, v) && v.plugins[p] == w.plugins[p]
    ensures Steady(deps, v, p)
  {
  }

  /** Any step but a restart or a late store. */
  predicate Plain(s: Step) {
    !s.Restart? && !s.StoreCold?
  }

  lemma PlainStands(deps: Deps, w: World, s: Step)
    requires Enabled(deps, w, s) && AllSteady(deps, w) && Plain(s)
    ensures ReadsStand(w, Next(deps, w, s))
  {
    var v := Next(deps, w, s);
    forall q | q in w.plugins
      ensures w.plugins[q].Height() <= v.plugins[q].Height()
      ensures v.plugins[q].cache.None? ==> w.plugins[q].cache.None? && v.plugins[q].committed == w.plugins[q].committed
    {
      assert Steady(deps, w, q);
    }
  }

  lemma PlainMovedSteady(deps: Deps, w: World, s: Step)
    requires Enabled(deps, w, s) && AllSteady(deps, w) && Plain(s) && !s.Grow? && ReadsStand(w, Next(deps, w, s))
    ensures Steady(deps, Next(deps, w, s), s.p)
  {
    assert Steady(deps, w, s.p);
    if s.ReadDep? {
      var todo := w.plugins[s.p].phase.todo;
      forall q | q in todo[1..] ensures q in todo {
      }
    }
  }

  lemma PlainReadsAgree(deps: Deps, w: World, s: Step)
    requires Enabled(deps, w, s) && AllSteady(deps, w) && Plain(s)
    ensures ReadsAgree(Next(deps, w, s))
  {
    var v := Next(deps, w, s);
    forall c | c in w.plugins && v.plugins[c].phase.Cold? && c !in Moved(s)
      ensures v.plugins[c] == w.plugins[c] && Steady(deps, w, c)
    {
    }
  }

  /** The plugins whose phase a plain step changes. */
  function Moved(s: Step): set<Name> {
    match s
    case Grow(_) => {}
    case Restart => {}
    case _ => {s.p}
  }

  lemma PlainSteady(deps: Deps, w: World, s: Step)
    requires Enabled(deps, w, s) && AllSteady(deps, w) && Plain(s)
    ensures AllSteady(deps, Next(deps, w, s))
  {
    var v := Next(deps, w, s);
    PlainStands(deps, w, s);
    PlainReadsAgree(deps, w, s);
    forall p | p in w.plugins ensures Steady(deps, v, p) {
      if !s.Grow? && s.p == p {
        PlainMovedSteady(deps, w, s);
      } else {
        SteadyStays(deps, w, v, p);
      }
    }
  }

  lemma RestartSteady(deps: Deps, w: World)
    requires AllSteady(deps, w)
    ensures AllSteady(deps, Next(deps, w, Restart))
  {
    forall p | p in w.plugins ensures w.plugins[p].committed <= w.dao {
      assert Steady(deps, w, p);
    }
  }

  /** A plugin other than the storing one `p`, perhaps that whose height is stored. */
  lemma StoredSteady(deps: Deps, w: World, p: Name, d: Name)
    requires Enabled(deps, w, StoreCold(p)) && AllSteady(deps, w) && d in w.plugins && d != p
    ensures Steady(deps, Next(deps, w, StoreCold(p)), d)
  {
    assert Steady(deps, w, p) && Steady(deps, w, d);
  }

  lemma StorerSteady(deps: Deps, w: World, p: Name)
    requires Enabled(deps, w, StoreCold(p)) && AllSteady(deps, w)
    ensures Steady(deps, Next(deps, w, StoreCold(p)), p)
  {
    assert Steady(deps, w, p);
    forall q | q in w.plugins[p].phase.todo[1..] ensures q in w.plugins[p].phase.todo {
    }
  }

  lemma StoreColdSteady(deps: Deps, w: World, p: Name)
    requires Enabled(deps, w, StoreCold(p)) && AllSteady(deps, w)
    ensures AllSteady(deps, Next(deps, w, StoreCold(p)))
  {
    StorerSteady(deps, w, p);
    forall d | d in w.plugins && d != p ensures Steady(deps, Next(deps, w, StoreCold(p)), d) {
      StoredSteady(deps, w, p, d);
    }
  }

  lemma {:induction false} AlwaysSteady(deps: Deps, steps: seq<Step>)
    requires Run(deps, steps).Some?
    ensures AllSteady(deps, Run(deps, steps).value)
  {
    if steps == [] {
    } else {
      var pre, s := steps[..|steps| - 1], steps[|steps| - 1];
      AlwaysSteady(deps, pre);
      var w := Run(deps, pre).value;
      if s.Restart? {
        RestartSteady(deps, w);
      } else if s.StoreCold? {
        StoreColdSteady(deps, w, s.p);
      } else {
        PlainSteady(deps, w, s);
      }
    }
  }

  /******* A plugin never passes what it depends on *******/

  /** `h` is at most the dao height and the height of every dependency of `p` not in `todo`. */
  predicate Within(deps: Deps, w: World, p: Name, h: nat, todo: seq<Name>) {
    && h <= w.dao
    && p in deps
    && forall q :: q in deps[p] && q !in todo && q in w.plugins ==> h <= w.plugins[q].Height()
  }

  /** Neither the height of `p` nor its tip passes the dao's height or that of a dependency, as far as read. */
  predicate Bounded(deps: Deps, w: World, p: Name)
    requires p in w.plugins
  {
    var x := w.plugins[p];
    && Within(deps, w, p, x.Height(), [])
    && match x.phase
       case Idle => true
       case Tip(tip, todo) => Within(deps, w, p, tip, todo)
       case Cold(tip, todo, _) => Within(deps, w, p, tip, todo)
       case Ready(_, tip) => Within(deps, w, p, tip, [])
       case Sent(_, tip, _) => Within(deps, w, p, tip, [])
  }

  predicate AllBounded(deps: Deps, w: World) {
    forall p :: p in w.plugins ==> Bounded(deps, w, p)
  }

  /** The tip of `d` is above `h` although `d` has read its dependency `q`. */
  predicate GoesBy(deps: Deps, d: Name, x: Plugin, q: Name, h: nat) {
    d in deps && q in deps[d] &&
    match x.phase
    case Idle => false
    case Tip(tip, todo) => q !in todo && tip > h
    case Cold(tip, todo, _) => q !in todo && tip > h
    case Ready(_, tip) => tip > h
    case Sent(_, tip, _) => tip > h
  }

  /** No other plugin that depends on `q` is above `h`, and none that has read it goes by more. */
  predicate Lowers(deps: Deps, w: World, q: Name, h: nat) {
    && (forall d :: d in w.plugins && d in deps && q in deps[d] && d != q ==> w.plugins[d].Height() <= h)
    && (forall d :: d in w.plugins ==> !GoesBy(deps, d, w.plugins[d], q, h))
  }

  /** The steps that could break the bounds: a restart must find no plugin's committed height above a
      dependency's, and a height cached late must be one that its plugin may be lowered to. */
  predicate KeepsBounds(deps: Deps, w: World, s: Step) {
    match s
    case Restart =>
      forall p, q :: p in w.plugins && p in deps && q in deps[p] && q in w.plugins ==>
        w.plugins[p].committed <= w.plugins[q].committed
    case StoreCold(p) =>
      Enabled(deps, w, s) ==> Lowers(deps, w, w.plugins[p].phase.todo[0], w.plugins[p].phase.height)
    case _ => true
  }

  lemma WithinRises(deps: Deps, w: World, v: World, p: Name, h: nat, todo: seq<Name>)
    requires Within(deps, w, p, h, todo) && ReadsStand(w, v)
    ensures Within(deps, v, p, h, todo)
  {
  }

  lemma BoundedRises(deps: Deps, w: World, v: World, p: Name)
    requires p in w.plugins && Bounded(deps, w, p) && ReadsStand(w, v)
    requires v.plugins[p].phase == w.plugins[p].phase && v.plugins[p].Height() == w.plugins[p].Height()
    ensures Bounded(deps, v, p)
  {
    var x := w.plugins[p];
    WithinRises(deps, w, v, p, x.Height(), []);
    match x.phase
    case Idle =>
    case Tip(tip, todo) => WithinRises(deps, w, v, p, tip, todo);
    case Cold(tip, todo, _) => WithinRises(deps, w, v, p, tip, todo);
    case Ready(_, tip) => WithinRises(deps, w, v, p, tip, []);
    case Sent(_, tip, _) => WithinRises(deps, w, v, p, tip, []);
  }

  lemma WithinNext(deps: Deps, v: World, p: Name, tip: nat, todo: seq<Name>, h: nat)
    requires Within(deps, v, p, tip, todo) && todo != []
    requires todo[0] in v.plugins ==> h <= v.plugins[todo[0]].Height()
    ensures Within(deps, v, p, Min(tip, h), todo[1..])
  {
    forall q | q in deps[p] && q !in todo[1..] && q in v.plugins ensures Min(tip, h) <= v.plugins[q].Height() {
      assert q in todo ==> q == todo[0];
    }
  }

  lemma MovedStaysBounded(deps: Deps, w: World, s: Step)
    requires Enabled(deps, w, s) && AllBounded(deps, w) && AllSteady(deps, w)
    requires Plain(s) && !s.Grow? && ReadsStand(w, Next(deps, w, s))
    ensures Bounded(deps, Next(deps, w, s), s.p)
  {
    var p := s.p;
    var v, x := Next(deps, w, s), w.plugins[p];
    assert Bounded(deps, w, p) && Steady(deps, w, p);
    WithinRises(deps, w, v, p, x.Height(), []);
    match s
    case ReadTip(_) => assert Within(deps, v, p, w.dao, deps[p]);
    case ReadDep(_) =>
      var tip, todo := x.phase.tip, x.phase.todo;
      WithinRises(deps, w, v, p, tip, todo);
      if w.plugins[todo[0]].cache.Some? {
        WithinNext(deps, v, p, tip, todo, w.plugins[todo[0]].cache.value);
      }
    case Enter(_) => WithinRises(deps, w, v, p, x.phase.tip, []);
    case Leave(_) =>
    case Send(_, n) => WithinRises(deps, w, v, p, x.phase.tip, []);
    case Commit(_) => WithinRises(deps, w, v, p, x.phase.tip, []);
    case Rollback(_) =>
  }

  lemma PlainStepBounded(deps: Deps, w: World, s: Step)
    requires Enabled(deps, w, s) && AllBounded(deps, w) && AllSteady(deps, w) && Plain(s)
    ensures AllBounded(deps, Next(deps, w, s))
  {
    var v := Next(deps, w, s);
    PlainStands(deps, w, s);
    forall p | p in v.plugins ensures Bounded(deps, v, p) {
      if !s.Grow? && s.p == p {
        MovedStaysBounded(deps, w, s);
      } else {
        assert Bounded(deps, w, p);
        BoundedRises(deps, w, v, p);
      }
    }
  }

  lemma RestartBounded(deps: Deps, w: World)
    requires AllBounded(deps, w) && AllSteady(deps, w)
    ensures AllBounded(deps, Next(deps, w, Restart)) <==> KeepsBounds(deps, w, Restart)
  {
    var v := Next(deps, w, Restart);
    if KeepsBounds(deps, w, Restart) {
      forall p | p in v.plugins ensures Bounded(deps, v, p) {
        assert Bounded(deps, w, p) && Steady(deps, w, p);
      }
    }
    if AllBounded(deps, v) {
      forall p, q | p in w.plugins && p in deps && q in deps[p] && q in w.plugins
        ensures w.plugins[p].committed <= w.plugins[q].committed
      {
        assert Bounded(deps, v, p);
        assert v.plugins[q].Height() == w.plugins[q].committed;
      }
    }
  }

  /** `v` is `w` with `q` at the height `h`, and nothing else lower. */
  predicate Lowered(w: World, v: World, q: Name, h: nat) {
    && v.dao == w.dao && v.plugins.Keys == w.plugins.Keys
    && q in w.plugins && v.plugins[q].Height() == h
    && forall x :: x in w.plugins && x != q ==> v.plugins[x].Height() == w.plugins[x].Height()
  }

  lemma WithinLowered(deps: Deps, w: World, v: World, q: Name, h: nat, p: Name, k: nat, todo: seq<Name>)
    requires Within(deps, w, p, k, todo) && Lowered(w, v, q, h)
    ensures Within(deps, v, p, k, todo) <==> (q in deps[p] && q !in todo ==> k <= h)
  {
  }

  lemma OtherLowered(deps: Deps, w: World, v: World, q: Name, h: nat, d: Name)
    requires d in w.plugins && Bounded(deps, w, d) && Lowered(w, v, q, h) && d != q && v.plugins[d] == w.plugins[d]
    ensures Bounded(deps, v, d) <==>
            (q in deps[d] ==> w.plugins[d].Height() <= h) && !GoesBy(deps, d, w.plugins[d], q, h)
  {
    var x := w.plugins[d];
    WithinLowered(deps, w, v, q, h, d, x.Height(), []);
    match x.phase
    case Idle =>
    case Tip(tip, todo) => WithinLowered(deps, w, v, q, h, d, tip, todo);
    case Cold(tip, todo, _) => WithinLowered(deps, w, v, q, h, d, tip, todo);
    case Ready(_, tip) => WithinLowered(deps, w, v, q, h, d, tip, []);
    case Sent(_, tip, _) => WithinLowered(deps, w, v, q, h, d, tip, []);
  }

  /** The plugin whose height is stored late. */
  lemma ItselfLowered(deps: Deps, w: World, v: World, q: Name, h: nat)
    requires q in w.plugins && Bounded(deps, w, q) && Lowered(w, v, q, h) && h <= w.plugins[q].Height()
    requires v.plugins[q] == w.plugins[q].(cache := Some(h))
    ensures Bounded(deps, v, q) <==> !GoesBy(deps, q, w.plugins[q], q, h)
  {
    var x := w.plugins[q];
    assert Within(deps, v, q, h, []);
    match x.phase
    case Idle =>
    case Tip(tip, todo) => WithinLowered(deps, w, v, q, h, q, tip, todo);
    case Cold(tip, todo, _) => WithinLowered(deps, w, v, q, h, q, tip, todo);
    case Ready(_, tip) => WithinLowered(deps, w, v, q, h, q, tip, []);
    case Sent(_, tip, _) => WithinLowered(deps, w, v, q, h, q, tip, []);
  }

  lemma LoweredBounded(deps: Deps, w: World, u: World, q: Name, h: nat)
    requires AllBounded(deps, w) && q in w.plugins && h <= w.plugins[q].Height()
    requires u == Put(w, q, w.plugins[q].(cache := Some(h)))
    ensures AllBounded(deps, u) <==> Lowers(deps, w, q, h)
  {
    assert Bounded(deps, w, q);
    ItselfLowered(deps, w, u, q, h);
    forall d | d in w.plugins && d != q
      ensures Bounded(deps, u, d) <==>
              (q in deps[d] ==> w.plugins[d].Height() <= h) && !GoesBy(deps, d, w.plugins[d], q, h)
    {
      assert Bounded(deps, w, d);
      OtherLowered(deps, w, u, q, h, d);
    }
  }

  predicate MovesOn(w: World, u: World, v: World, p: Name)
    requires p in w.plugins
  {
    var ph := w.plugins[p].phase;
    && ph.Cold? && ph.todo != [] && ph.todo[0] in w.plugins
    && u == Put(w, ph.todo[0], w.plugins[ph.todo[0]].(cache := Some(ph.height)))
    && v == Put(u, p, u.plugins[p].(phase := Tip(Min(ph.tip, ph.height), ph.todo[1..])))
  }

  /** Heights are the same. */
  predicate Level(u: World, v: World) {
    && u.dao == v.dao && u.plugins.Keys == v.plugins.Keys
    && forall q :: q in u.plugins ==> u.plugins[q].Height() == v.plugins[q].Height()
  }

  lemma WithinLevel(deps: Deps, u: World, v: World, p: Name, h: nat, todo: seq<Name>)
    requires Level(u, v)
    ensures Within(deps, u, p, h, todo) <==> Within(deps, v, p, h, todo)
  {
  }

  lemma BoundedLevel(deps: Deps, u: World, v: World, p: Name)
    requires Level(u, v) && p in u.plugins && u.plugins[p].phase == v.plugins[p].phase
    ensures Bounded(deps, u, p) <==> Bounded(deps, v, p)
  {
    var x := u.plugins[p];
    WithinLevel(deps, u, v, p, x.Height(), []);
    match x.phase
    case Idle =>
    case Tip(tip, todo) => WithinLevel(deps, u, v, p, tip, todo);
    case Cold(tip, todo, _) => WithinLevel(deps, u, v, p, tip, todo);
    case Ready(_, tip) => WithinLevel(deps, u, v, p, tip, []);
    case Sent(_, tip, _) => WithinLevel(deps, u, v, p, tip, []);
  }

  lemma StorerItself(deps: Deps, w: World, u: World, v: World, p: Name)
    requires p in w.plugins && Bounded(deps, w, p) && MovesOn(w, u, v, p) && Level(u, v)
    ensures Bounded(deps, u, p) <==> Bounded(deps, v, p)
  {
    var ph, h := w.plugins[p].phase, u.plugins[p].Height();
    assert Lowered(w, u, ph.todo[0], ph.height);
    WithinLowered(deps, w, u, ph.todo[0], ph.height, p, ph.tip, ph.todo);
    WithinNext(deps, u, p, ph.tip, ph.todo, ph.height);
    WithinLevel(deps, u, v, p, Min(ph.tip, ph.height), ph.todo[1..]);
    WithinLevel(deps, u, v, p, h, []);
  }

  /** After the late store the storing plugin goes on to its next dependency, which changes no bound. */
  lemma StorerMovesOn(deps: Deps, w: World, u: World, v: World, p: Name)
    requires p in w.plugins && Bounded(deps, w, p) && MovesOn(w, u, v, p)
    ensures AllBounded(deps, u) <==> AllBounded(deps, v)
  {
    assert Level(u, v);
    StorerItself(deps, w, u, v, p);
    forall d | d in w.plugins && d != p ensures Bounded(deps, u, d) <==> Bounded(deps, v, d) {
      BoundedLevel(deps, u, v, d);
    }
  }

  lemma StoreColdBounded(deps: Deps, w: World, p: Name)
    requires AllBounded(deps, w) && AllSteady(deps, w) && Enabled(deps, w, StoreCold(p))
    ensures AllBounded(deps, Next(deps, w, StoreCold(p))) <==> KeepsBounds(deps, w, StoreCold(p))
  {
    var q, h := w.plugins[p].phase.todo[0], w.plugins[p].phase.height;
    var u := Put(w, q, w.plugins[q].(cache := Some(h)));
    assert Bounded(deps, w, p) && Steady(deps, w, p);
    LoweredBounded(deps, w, u, q, h);
    StorerMovesOn(deps, w, u, Next(deps, w, StoreCold(p)), p);
  }

  /** From a world within bounds a step leads to one within bounds exactly when `KeepsBounds` holds. */
  lemma BoundedExactly(deps: Deps, w: World, s: Step)
    requires Enabled(deps, w, s) && AllBounded(deps, w) && AllSteady(deps, w)
    ensures AllBounded(deps, Next(deps, w, s)) <==> KeepsBounds(deps, w, s)
  {
    if s.Restart? {
      RestartBounded(deps, w);
    } else if s.StoreCold? {
      StoreColdBounded(deps, w, s.p);
    } else {
      PlainStepBounded(deps, w, s);
    }
  }

  predicate OrderlySteps(deps: Deps, steps: seq<Step>) {
    steps == [] ||
    var pre, s := steps[..|steps| - 1], steps[|steps| - 1];
    OrderlySteps(deps, pre) && (Run(deps, pre).Some? ==> KeepsBounds(deps, Run(deps, pre).value, s))
  }

  predicate AlwaysBounded(deps: Deps, steps: seq<Step>) {
    && (Run(deps, steps).Some? ==> AllBounded(deps, Run(deps, steps).value))
    && (steps == [] || AlwaysBounded(deps, steps[..|steps| - 1]))
  }

  /** All along a run, rollbacks included, no plugin's height or tip passes the dao's height or that of
      anything it depends on, exactly when each restart and each late store met its condition. */
  lemma {:induction false} NeverPassesDependencies(deps: Deps, steps: seq<Step>)
    requires Run(deps, steps).Some?
    ensures AlwaysBounded(deps, steps) <==> OrderlySteps(deps, steps)
    ensures AlwaysBounded(deps, steps) ==>
              var w := Run(deps, steps).value;
              forall p, q :: p in w.plugins && p in deps && q in deps[p] && q in w.plugins ==>
                w.plugins[p].Height() <= w.plugins[q].Height() <= w.dao
  {
    var w := Run(deps, steps).value;
    if steps == [] {
    } else {
      var pre, s := steps[..|steps| - 1], steps[|steps| - 1];
      NeverPassesDependencies(deps, pre);
      AlwaysSteady(deps, pre);
      if OrderlySteps(deps, pre) {
        BoundedExactly(deps, Run(deps, pre).value, s);
      }
    }
    if AlwaysBounded(deps, steps) {
      forall p, q | p in w.plugins && p in deps && q in deps[p] && q in w.plugins
        ensures w.plugins[p].Height() <= w.plugins[q].Height() <= w.dao
      {
        assert Bounded(deps, w, p) && Bounded(deps, w, q);
      }
    }
  }

  /******* What a plugin reads of its dependencies is committed *******/

  /** Every dependency of `p` not in `todo` has committed `tip`. */
  predicate CoveredTip(deps: Deps, w: World, p: Name, tip: nat, todo: seq<Name>) {
    p in deps && forall q :: q in deps[p] && q !in todo && q in w.plugins ==> tip <= w.plugins[q].committed
  }

  /** The tip of `p` is committed by the dependencies it has read. */
  predicate Covered(deps: Deps, w: World, p: Name)
    requires p in w.plugins
  {
    match w.plugins[p].phase
    case Idle => true
    case Tip(tip, todo) => CoveredTip(deps, w, p, tip, todo)
    case Cold(tip, todo, _) => CoveredTip(deps, w, p, tip, todo)
    case Ready(_, tip) => CoveredTip(deps, w, p, tip, [])
    case Sent(_, tip, _) => CoveredTip(deps, w, p, tip, [])
  }

  predicate AllCovered(deps: Deps, w: World) {
    forall p :: p in w.plugins ==> Covered(deps, w, p)
  }

  /** Lowered to the height `h` of the next dependency, the tip is committed by it (unless that comes
      again in the list, to be read once more). */
  predicate LowersEnough(w: World, p: Name, h: nat)
    requires p in w.plugins && (w.plugins[p].phase.Tip? || w.plugins[p].phase.Cold?) && w.plugins[p].phase.todo != []
  {
    var ph := w.plugins[p].phase;
    ph.todo[0] in ph.todo[1..] || Min(ph.tip, h) <= Committed(w, ph.todo[0])
  }

  /** A read of a cached height lowers the tip enough. */
  predicate SeesCommitted(deps: Deps, w: World, s: Step) {
    s.ReadDep? && Enabled(deps, w, s) && w.plugins[w.plugins[s.p].phase.todo[0]].cache.Some? ==>
      LowersEnough(w, s.p, w.plugins[w.plugins[s.p].phase.todo[0]].cache.value)
  }

  /** The steps that could uncover a tip: a read, a late store, and a commit that goes back. */
  predicate KeepsCovered(deps: Deps, w: World, s: Step) {
    match s
    case ReadDep(p) => SeesCommitted(deps, w, s)
    case StoreCold(p) => Enabled(deps, w, s) ==> LowersEnough(w, p, w.plugins[p].phase.height)
    case Commit(p) =>
      Enabled(deps, w, s) ==>
        forall d :: d in w.plugins ==> !GoesBy(deps, d, w.plugins[d], p, w.plugins[p].phase.to)
    case _ => true
  }

  /** Committed heights are the same. */
  predicate SameCommits(w: World, v: World) {
    w.plugins.Keys == v.plugins.Keys && forall q :: q in w.plugins ==> v.plugins[q].committed == w.plugins[q].committed
  }

  lemma CoveredNext(deps: Deps, v: World, p: Name, tip: nat, todo: seq<Name>, h: nat)
    requires CoveredTip(deps, v, p, tip, todo) && todo != [] && todo[0] in v.plugins && Listed(deps, p, todo)
    ensures CoveredTip(deps, v, p, Min(tip, h), todo[1..]) <==>
            todo[0] in todo[1..] || Min(tip, h) <= v.plugins[todo[0]].committed
  {
    forall q ensures q in todo <==> q == todo[0] || q in todo[1..] {
      assert todo == [todo[0]] + todo[1..];
    }
    assert todo[0] in deps[p];
  }

  lemma MovedCovered(deps: Deps, w: World, s: Step)
    requires Enabled(deps, w, s) && AllCovered(deps, w) && AllSteady(deps, w)
    requires !s.Grow? && !s.Restart? && !s.Commit? && SameCommits(w, Next(deps, w, s))
    ensures Covered(deps, Next(deps, w, s), s.p) <==> KeepsCovered(deps, w, s)
  {
    var p := s.p;
    var v, x := Next(deps, w, s), w.plugins[p];
    assert Covered(deps, w, p) && Steady(deps, w, p);
    match s
    case ReadDep(_) =>
      var q := w.plugins[x.phase.todo[0]];
      assert CoveredTip(deps, v, p, x.phase.tip, x.phase.todo);
      if q.cache.Some? {
        CoveredNext(deps, v, p, x.phase.tip, x.phase.todo, q.cache.value);
      }
    case StoreCold(_) =>
      assert CoveredTip(deps, v, p, x.phase.tip, x.phase.todo);
      CoveredNext(deps, v, p, x.phase.tip, x.phase.todo, x.phase.height);
    case _ =>
  }

  lemma CoveredStays(deps: Deps, w: World, v: World, d: Name)
    requires d in w.plugins && Covered(deps, w, d) && SameCommits(w, v) && v.plugins[d].phase == w.plugins[d].phase
    ensures Covered(deps, v, d)
  {
  }

  lemma CommitCovered(deps: Deps, w: World, p: Name, d: Name)
    requires Enabled(deps, w, Commit(p)) && d in w.plugins && Covered(deps, w, d)
    ensures Covered(deps, Next(deps, w, Commit(p)), d) <==> !GoesBy(deps, d, w.plugins[d], p, w.plugins[p].phase.to)
  {
  }

  /** From a covered world a step leads to a covered one exactly when `KeepsCovered` holds. */
  lemma CoveredExactly(deps: Deps, w: World, s: Step)
    requires Enabled(deps, w, s) && AllCovered(deps, w) && AllSteady(deps, w)
    ensures AllCovered(deps, Next(deps, w, s)) <==> KeepsCovered(deps, w, s)
  {
    var v := Next(deps, w, s);
    if s.Commit? {
      forall d | d in w.plugins
        ensures Covered(deps, v, d) <==> !GoesBy(deps, d, w.plugins[d], s.p, w.plugins[s.p].phase.to)
      {
        CommitCovered(deps, w, s.p, d);
      }
    } else if !s.Restart? {
      assert SameCommits(w, v);
      if !s.Grow? {
        MovedCovered(deps, w, s);
      }
      forall d | d in w.plugins && (s.Grow? || s.p != d) ensures Covered(deps, v, d) {
        CoveredStays(deps, w, v, d);
      }
    }
  }

  predicate AllKeepCovered(deps: Deps, steps: seq<Step>) {
    steps == [] ||
    var pre, s := steps[..|steps| - 1], steps[|steps| - 1];
    AllKeepCovered(deps, pre) && (Run(deps, pre).Some? ==> KeepsCovered(deps, Run(deps, pre).value, s))
  }

  predicate AlwaysCovered(deps: Deps, steps: seq<Step>) {
    && (Run(deps, steps).Some? ==> AllCovered(deps, Run(deps, steps).value))
    && (steps == [] || AlwaysCovered(deps, steps[..|steps| - 1]))
  }

  /** In every run: at every moment each runner's tip is committed by all the dependencies it has read,
      exactly when each read, late store and commit met its condition. */
  lemma {:induction false} AlwaysCoveredExactly(deps: Deps, steps: seq<Step>)
    requires Run(deps, steps).Some?
    ensures AlwaysCovered(deps, steps) <==> AllKeepCovered(deps, steps)
  {
    if steps == [] {
    } else {
      var pre, s := steps[..|steps| - 1], steps[|steps| - 1];
      AlwaysCoveredExactly(deps, pre);
      AlwaysSteady(deps, pre);
      if AlwaysCovered(deps, pre) {
        CoveredExactly(deps, Run(deps, pre).value, s);
      }
    }
  }

  /** A height read but not cached yet is committed. */
  predicate ColdCommitted(w: World) {
    forall d :: d in w.plugins && w.plugins[d].phase.Cold? && w.plugins[d].phase.todo != [] ==>
      w.plugins[d].phase.height <= Committed(w, w.plugins[d].phase.todo[0])
  }

  predicate ReadsCommitted(deps: Deps, steps: seq<Step>) {
    steps == [] ||
    var pre, s := steps[..|steps| - 1], steps[|steps| - 1];
    ReadsCommitted(deps, pre) && (Run(deps, pre).Some? ==> SeesCommitted(deps, Run(deps, pre).value, s))
  }

  lemma ColdStep(deps: Deps, w: World, s: Step)
    requires Enabled(deps, w, s) && ColdCommitted(w) && NoneUncommits(w, Next(deps, w, s))
    ensures ColdCommitted(Next(deps, w, s))
  {
    var v := Next(deps, w, s);
    forall q | q in w.plugins ensures Committed(w, q) <= Committed(v, q) {
    }
  }

  lemma CommitKeepsCovered(deps: Deps, w: World, p: Name)
    requires Enabled(deps, w, Commit(p)) && AllCovered(deps, w) && w.plugins[p].committed <= w.plugins[p].phase.to
    ensures KeepsCovered(deps, w, Commit(p))
  {
    forall d | d in w.plugins ensures !GoesBy(deps, d, w.plugins[d], p, w.plugins[p].phase.to) {
      assert Covered(deps, w, d);
    }
  }

  lemma AscendingRises(deps: Deps, steps: seq<Step>, w: World, s: Step)
    requires Run(deps, steps) == Some(w) && Enabled(deps, w, s) && AllAscending(Next(deps, w, s))
    ensures NoneUncommits(w, Next(deps, w, s))
  {
    AlwaysSound(deps, steps);
    forall q | q in w.plugins ensures w.plugins[q].committed <= Next(deps, w, s).plugins[q].committed {
      CommittedRises(deps, w, s, q);
    }
  }

  /** Where no batch goes back, so with rollbacks and restarts but no stale height, only the reads of
      cached heights matter. */
  lemma {:induction false} CoveredExactlyWhenReadsCommitted(deps: Deps, steps: seq<Step>)
    requires Run(deps, steps).Some? && AllAscending(Run(deps, steps).value)
    ensures AlwaysCovered(deps, steps) <==> ReadsCommitted(deps, steps)
    ensures ColdCommitted(Run(deps, steps).value)
  {
    if steps == [] {
    } else {
      var pre, s := steps[..|steps| - 1], steps[|steps| - 1];
      var w := Run(deps, pre).value;
      AscendedBefore(deps, w, s);
      CoveredExactlyWhenReadsCommitted(deps, pre);
      AscendingRises(deps, pre, w, s);
      ColdStep(deps, w, s);
      if AlwaysCovered(deps, pre) {
        AlwaysSteady(deps, pre);
        CoveredExactly(deps, w, s);
        if s.Commit? {
          CommitKeepsCovered(deps, w, s.p);
        }
      }
    }
  }

  /** `p` sends no blocks beyond what a dependency has committed, however many it sends. */
  ghost predicate SendsCommitted(deps: Deps, w: World, p: Name) {
    forall n: nat :: Enabled(deps, w, Send(p, n)) ==> SendCommitted(deps, w, p, n)
  }

  predicate SendCommitted(deps: Deps, w: World, p: Name, n: nat)
    requires Enabled(deps, w, Send(p, n))
  {
    p in deps && forall q :: q in deps[p] && q in w.plugins ==> w.plugins[p].phase.next + n - 1 <= w.plugins[q].committed
  }

  /** At the inner loop head, with blocks left to send, that holds exactly when the tip is covered. */
  lemma SendsCommittedExactly(deps: Deps, w: World, p: Name)
    requires p in w.plugins && w.plugins[p].phase.Ready? && w.plugins[p].phase.next <= w.plugins[p].phase.tip
    ensures SendsCommitted(deps, w, p) <==> Covered(deps, w, p)
  {
    var ph := w.plugins[p].phase;
    if SendsCommitted(deps, w, p) {
      var n := ph.tip - ph.next + 1;
      assert Enabled(deps, w, Send(p, n));
      assert SendCommitted(deps, w, p, n);
    }
  }

  /** In a run that keeps tips covered, the dependencies have committed every block sent to a plugin. */
  lemma {:induction false} SentBlocksAreCommitted(deps: Deps, steps: seq<Step>, i: nat)
    requires Run(deps, steps).Some? && AllKeepCovered(deps, steps)
    requires i < |steps| && steps[i].Send?
    ensures Run(deps, steps[..i]).Some? && Enabled(deps, Run(deps, steps[..i]).value, steps[i])
    ensures SendCommitted(deps, Run(deps, steps[..i]).value, steps[i].p, steps[i].count)
    decreases |steps|
  {
    var pre := steps[..|steps| - 1];
    if i < |pre| {
      assert pre[..i] == steps[..i];
      SentBlocksAreCommitted(deps, pre, i);
    } else {
      AlwaysCoveredExactly(deps, pre);
      assert Covered(deps, Run(deps, pre).value, steps[i].p);
    }
  }

  /** Not just the heights: a dependency whose batches are consecutive holds the blocks themselves, and
      all before them. */
  lemma SentBlocksAreDelivered(deps: Deps, w: World, p: Name, n: nat, q: Name)
    requires Enabled(deps, w, Send(p, n)) && SendCommitted(deps, w, p, n) && q in deps[p] && q in w.plugins
    requires Sound(w.plugins[q]) && Contiguous(w.plugins[q].log)
    ensures forall b :: 1 <= b <= w.plugins[p].phase.next + n - 1 ==> Delivered(w.plugins[q].log, b)
  {
    ContiguousAscends(w.plugins[q].log);
    WholeExactlyWhenContiguous(w.plugins[q].log);
  }
}
