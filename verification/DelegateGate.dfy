/** Which height the delegate job works at, and when its gate opens. */
module DelegateGate {
  import opened Wrappers
  import opened Indexer
  import opened DelegateSnapshot

  /** The moves that send the job back to where it waits, whatever it was doing. */
  predicate Abandons(m: Move) {
    m.JobEnds? || (m.Indexing? && m.step.Restart?)
  }

  /** The job left its waiting at move `k` and has not been back since. */
  ghost predicate StartedAt(deps: Deps, chain: Chain, hasV3: bool, moves: seq<Move>, k: nat) {
    && k < |moves| && moves[k].JobStep?
    && RunAll(deps, chain, hasV3, moves[..k]).Some? && RunAll(deps, chain, hasV3, moves[..k]).value.job.Waiting?
    && forall j :: k < j < |moves| ==>
         && !Abandons(moves[j])
         && RunAll(deps, chain, hasV3, moves[..j]).Some? && !RunAll(deps, chain, hasV3, moves[..j]).value.job.Waiting?
  }

  lemma StartedLonger(deps: Deps, chain: Chain, hasV3: bool, moves: seq<Move>, k: nat)
    requires moves != [] && StartedAt(deps, chain, hasV3, moves[..|moves| - 1], k)
    requires !Abandons(moves[|moves| - 1])
    requires RunAll(deps, chain, hasV3, moves[..|moves| - 1]).Some?
    requires !RunAll(deps, chain, hasV3, moves[..|moves| - 1]).value.job.Waiting?
    ensures StartedAt(deps, chain, hasV3, moves, k)
    ensures moves[..|moves| - 1][..k] == moves[..k]
  {
    var pre := moves[..|moves| - 1];
    assert pre[..k] == moves[..k] && pre[k] == moves[k];
    forall j | k < j < |moves|
      ensures !Abandons(moves[j])
      ensures RunAll(deps, chain, hasV3, moves[..j]).Some? && !RunAll(deps, chain, hasV3, moves[..j]).value.job.Waiting?
    {
      if j < |pre| {
        assert pre[..j] == moves[..j] && pre[j] == moves[j];
      }
    }
  }

  /** In every interleaving, a job past its start works at the height that staking_actions had committed
      when the job started. */
  lemma {:induction false} HeightIsNatives(deps: Deps, chain: Chain, hasV3: bool, moves: seq<Move>) returns (k: nat)
    requires RunAll(deps, chain, hasV3, moves).Some? && !RunAll(deps, chain, hasV3, moves).value.job.Waiting?
    ensures StartedAt(deps, chain, hasV3, moves, k)
    ensures RunAll(deps, chain, hasV3, moves).value.job.height ==
            Committed(RunAll(deps, chain, hasV3, moves[..k]).value.world, NATIVE)
  {
    var n := |moves| - 1;
    var pre, last := moves[..n], moves[n];
    if RunAll(deps, chain, hasV3, pre).value.job.Waiting? {
      k := n;
    } else {
      k := HeightIsNatives(deps, chain, hasV3, pre);
      StartedLonger(deps, chain, hasV3, moves, k);
    }
  }

  /******* When the gate opens *******/

  /** Every gated plugin has committed what staking_actions has. */
  ghost predicate Open(w: World, hasV3: bool) {
    forall i :: 0 <= i < |Gates(hasV3)| ==> Committed(w, NATIVE) <= Committed(w, Gates(hasV3)[i])
  }

  /** The job after `n` steps of its own, with no step of a runner in between. */
  function JobAfter(chain: Chain, hasV3: bool, w: World, n: nat): Job {
    if n == 0 then Waiting else JobNext(chain, hasV3, w, JobAfter(chain, hasV3, w, n - 1))
  }

  function JobSteps(n: nat): seq<Move> {
    if n == 0 then [] else JobSteps(n - 1) + [JobStep]
  }

  lemma OneStep(deps: Deps, chain: Chain, hasV3: bool, moves: seq<Move>, s: System)
    requires RunAll(deps, chain, hasV3, moves) == Some(s)
    ensures RunAll(deps, chain, hasV3, moves + [JobStep]) == Some(System(s.world, JobNext(chain, hasV3, s.world, s.job)))
  {
    assert (moves + [JobStep])[..|moves|] == moves;
  }

  lemma {:induction false} StepsAreJobAfter(deps: Deps, chain: Chain, hasV3: bool, moves: seq<Move>, w: World, n: nat)
    requires RunAll(deps, chain, hasV3, moves) == Some(System(w, Waiting))
    ensures RunAll(deps, chain, hasV3, moves + JobSteps(n)) == Some(System(w, JobAfter(chain, hasV3, w, n)))
  {
    if n == 0 {
      assert moves + JobSteps(0) == moves;
    } else {
      StepsAreJobAfter(deps, chain, hasV3, moves, w, n - 1);
      OneStep(deps, chain, hasV3, moves + JobSteps(n - 1), System(w, JobAfter(chain, hasV3, w, n - 1)));
      assert moves + JobSteps(n) == (moves + JobSteps(n - 1)) + [JobStep];
    }
  }

  /** The first `n` gates are passed one by one. */
  lemma {:induction false} GatesPass(chain: Chain, hasV3: bool, w: World, n: nat)
    requires n <= |Gates(hasV3)| && forall i :: 0 <= i < n ==> Committed(w, NATIVE) <= Committed(w, Gates(hasV3)[i])
    ensures JobAfter(chain, hasV3, w, n + 1) == Gating(Committed(w, NATIVE), Gates(hasV3)[n..])
  {
    if n == 0 {
      assert Gates(hasV3)[0..] == Gates(hasV3);
      assert JobAfter(chain, hasV3, w, 0) == Waiting;
    } else {
      GatesPass(chain, hasV3, w, n - 1);
      assert Gates(hasV3)[n - 1..][0] == Gates(hasV3)[n - 1] && Gates(hasV3)[n - 1..][1..] == Gates(hasV3)[n..];
    }
  }

  /** The job has made `n` of its reads, all at the height staking_actions has committed. */
  ghost predicate HasRead(chain: Chain, hasV3: bool, w: World, j: Job, n: nat) {
    && j.Reading? && j.height == Committed(w, NATIVE) && |j.got| == n
    && Snapshot(chain, w, Sources(hasV3), j.height, j.got)
  }

  lemma ReadsOn(chain: Chain, hasV3: bool, w: World, j: Job, n: nat)
    requires HasRead(chain, hasV3, w, j, n) && n < |Sources(hasV3)|
    ensures HasRead(chain, hasV3, w, JobNext(chain, hasV3, w, j), n + 1)
  {
    SnapshotGrows(chain, w, Sources(hasV3), j.height, j.got);
  }

  lemma {:induction false} ThenItReads(chain: Chain, hasV3: bool, w: World, n: nat)
    requires Open(w, hasV3) && n <= |Sources(hasV3)|
    ensures HasRead(chain, hasV3, w, JobAfter(chain, hasV3, w, |Gates(hasV3)| + 2 + n), n)
  {
    if n == 0 {
      GatesPass(chain, hasV3, w, |Gates(hasV3)|);
    } else {
      ThenItReads(chain, hasV3, w, n - 1);
      ReadsOn(chain, hasV3, w, JobAfter(chain, hasV3, w, |Gates(hasV3)| + 2 + (n - 1)), n - 1);
    }
  }

  /** The gates passed so far are not the one at `f`, which is behind. */
  ghost predicate Shut(hasV3: bool, w: World, j: Job, f: nat)
    requires f < |Gates(hasV3)|
  {
    match j
    case Waiting => true
    case Gating(h, todo) =>
      && h == Committed(w, NATIVE) && |Gates(hasV3)| - f <= |todo| <= |Gates(hasV3)|
      && todo == Gates(hasV3)[|Gates(hasV3)| - |todo|..]
    case Reading(_, _) => false
  }

  lemma StaysShut(chain: Chain, hasV3: bool, w: World, j: Job, f: nat)
    requires f < |Gates(hasV3)| && Committed(w, Gates(hasV3)[f]) < Committed(w, NATIVE) && Shut(hasV3, w, j, f)
    ensures Shut(hasV3, w, JobNext(chain, hasV3, w, j), f)
  {
    var g := Gates(hasV3);
    if j.Waiting? {
      assert g[0..] == g;
    } else {
      var i := |g| - |j.todo|;
      assert j.todo[0] == g[i] && j.todo[1..] == g[i + 1..];
    }
  }

  lemma {:induction false} ShutGateHolds(chain: Chain, hasV3: bool, w: World, f: nat, n: nat)
    requires f < |Gates(hasV3)| && Committed(w, Gates(hasV3)[f]) < Committed(w, NATIVE)
    ensures Shut(hasV3, w, JobAfter(chain, hasV3, w, n), f)
  {
    if n == 0 {
    } else {
      ShutGateHolds(chain, hasV3, w, f, n - 1);
      StaysShut(chain, hasV3, w, JobAfter(chain, hasV3, w, n - 1), f);
    }
  }

  /** The steps of the job from its start to its last read. */
  function WholeJob(hasV3: bool): nat {
    1 + |Gates(hasV3)| + 1 + |Sources(hasV3)|
  }

  /** From any reachable state in which the job waits: if every gated plugin has committed what
      staking_actions has, steps of its own take the job through all its reads. */
  lemma OpenGateLetsThrough(deps: Deps, chain: Chain, hasV3: bool, moves: seq<Move>, w: World)
    requires RunAll(deps, chain, hasV3, moves) == Some(System(w, Waiting)) && Open(w, hasV3)
    ensures var s := RunAll(deps, chain, hasV3, moves + JobSteps(WholeJob(hasV3)));
            s.Some? && s.value.world == w && HasRead(chain, hasV3, w, s.value.job, |Sources(hasV3)|)
  {
    StepsAreJobAfter(deps, chain, hasV3, moves, w, WholeJob(hasV3));
    ThenItReads(chain, hasV3, w, |Sources(hasV3)|);
  }

  /** If one of them has not, the job reads nothing however many steps it takes. */
  lemma ShutGateLetsNothingThrough(deps: Deps, chain: Chain, hasV3: bool, moves: seq<Move>, w: World, n: nat)
    requires RunAll(deps, chain, hasV3, moves) == Some(System(w, Waiting)) && !Open(w, hasV3)
    ensures var s := RunAll(deps, chain, hasV3, moves + JobSteps(n));
            s.Some? && s.value.world == w && !s.value.job.Reading?
  {
    StepsAreJobAfter(deps, chain, hasV3, moves, w, n);
    var f :| 0 <= f < |Gates(hasV3)| && Committed(w, Gates(hasV3)[f]) < Committed(w, NATIVE);
    ShutGateHolds(chain, hasV3, w, f, n);
  }

  /** Gate `f` is the first whose plugin is behind. */
  ghost predicate FirstShut(w: World, hasV3: bool, f: nat) {
    && f < |Gates(hasV3)| && Committed(w, Gates(hasV3)[f]) < Committed(w, NATIVE)
    && forall i :: 0 <= i < f ==> Committed(w, NATIVE) <= Committed(w, Gates(hasV3)[i])
  }

  /** The job gives up at the first plugin that is behind: it waits again, and takes its next height afresh. */
  lemma ShutGateSendsBack(deps: Deps, chain: Chain, hasV3: bool, moves: seq<Move>, w: World, f: nat)
    requires RunAll(deps, chain, hasV3, moves) == Some(System(w, Waiting)) && FirstShut(w, hasV3, f)
    ensures RunAll(deps, chain, hasV3, moves + JobSteps(f + 2)) == Some(System(w, Waiting))
  {
    StepsAreJobAfter(deps, chain, hasV3, moves, w, f + 2);
    GatesPass(chain, hasV3, w, f);
    assert Gates(hasV3)[f..][0] == Gates(hasV3)[f];
  }
}
