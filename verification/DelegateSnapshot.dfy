/** The delegate job reads several plugins' tables one after another while those plugins go on
    writing. Its height gate makes the reads one snapshot of the chain. */
module DelegateSnapshot {
  import opened Wrappers
  import opened Indexer

  const NATIVE := "staking_actions"
  const SELF_STAKE := "candidate_self_stake"
  const SYSTEM_V1 := "system_staking_bucket_record"
  const SYSTEM_V2 := "system_staking_bucket_v2_record"
  const SYSTEM_V3 := "system_staking_bucket_v3_record"

  /** The delegate a migrated bucket is pointed at. */
  const NOBODY := "io1qqqqqqqqqqqqqqqqqqqqqqqqqqqqqqqqd39ym7"

  /** The columns of the staking tables that the job uses; the native table has no voting power. */
  datatype Row = Row(height: nat, bucket: nat, owner: string, delegate: string, amount: int, autoStake: bool,
                     duration: nat, votingPower: int)

  /** The rows each plugin writes for each block. */
  type Chain = (Name, nat) -> seq<Row>

  ghost predicate Honest(chain: Chain) {
    forall p: Name, h: nat, i: nat :: i < |chain(p, h)| ==> chain(p, h)[i].height == h
  }

  /******* Tables *******/

  function RowsOfRange(chain: Chain, p: Name, lo: nat, hi: nat): seq<Row>
    decreases hi
  {
    if hi < lo || hi == 0 then [] else RowsOfRange(chain, p, lo, hi - 1) + chain(p, hi)
  }

  /** The table of a plugin whose committed batches are `log`: rows are only ever appended. */
  function TableOf(chain: Chain, p: Name, log: seq<Range>): seq<Row> {
    if log == [] then []
    else
      var r := log[|log| - 1];
      TableOf(chain, p, log[..|log| - 1]) + RowsOfRange(chain, p, r.lo, r.hi)
  }

  /** The rows of blocks 1 to `h`. */
  function Prefix(chain: Chain, p: Name, h: nat): seq<Row> {
    RowsOfRange(chain, p, 1, h)
  }

  /** `where block_height <= h`. */
  function UpTo(rows: seq<Row>, h: nat): seq<Row> {
    if rows == [] then []
    else
      var last := rows[|rows| - 1];
      UpTo(rows[..|rows| - 1], h) + if last.height <= h then [last] else []
  }

  lemma {:induction false} RangeSplit(chain: Chain, p: Name, lo: nat, mid: nat, hi: nat)
    requires 1 <= lo <= mid + 1 && mid <= hi
    ensures RowsOfRange(chain, p, lo, hi) == RowsOfRange(chain, p, lo, mid) + RowsOfRange(chain, p, mid + 1, hi)
    decreases hi
  {
    if hi == mid {
      assert RowsOfRange(chain, p, mid + 1, hi) == [];
    } else {
      RangeSplit(chain, p, lo, mid, hi - 1);
    }
  }

  /** A gapless log leaves the chain's own rows. */
  lemma {:induction false} ContiguousTable(chain: Chain, p: Name, log: seq<Range>)
    requires Contiguous(log)
    ensures TableOf(chain, p, log) == Prefix(chain, p, LastOf(log))
  {
    if log == [] {
    } else {
      var pre, r := log[..|log| - 1], log[|log| - 1];
      assert pre + [r] == log;
      ContiguousSnoc(pre, r);
      ContiguousTable(chain, p, pre);
      RangeSplit(chain, p, 1, LastOf(pre), r.hi);
    }
  }

  lemma {:induction false} UpToAppend(a: seq<Row>, b: seq<Row>, h: nat)
    ensures UpTo(a + b, h) == UpTo(a, h) + UpTo(b, h)
  {
    if b == [] {
      assert a + b == a;
    } else {
      assert (a + b)[..|a + b| - 1] == a + b[..|b| - 1];
      UpToAppend(a, b[..|b| - 1], h);
    }
  }

  lemma {:induction false} UpToUniform(rows: seq<Row>, at: nat, h: nat)
    requires forall i :: 0 <= i < |rows| ==> rows[i].height == at
    ensures UpTo(rows, h) == if at <= h then rows else []
  {
    if rows == [] {
    } else {
      UpToUniform(rows[..|rows| - 1], at, h);
    }
  }

  lemma BlockRowsUpTo(chain: Chain, p: Name, n: nat, h: nat)
    requires Honest(chain)
    ensures UpTo(chain(p, n), h) == if n <= h then chain(p, n) else []
  {
    UpToUniform(chain(p, n), n, h);
  }

  lemma BlockUpTo(chain: Chain, p: Name, rows: seq<Row>, n: nat, h: nat)
    requires Honest(chain)
    ensures UpTo(rows + chain(p, n), h) == UpTo(rows, h) + if n <= h then chain(p, n) else []
  {
    UpToAppend(rows, chain(p, n), h);
    BlockRowsUpTo(chain, p, n, h);
  }

  lemma {:induction false} RangeUpTo(chain: Chain, p: Name, lo: nat, hi: nat, h: nat)
    requires Honest(chain) && lo >= 1
    ensures UpTo(RowsOfRange(chain, p, lo, hi), h) == RowsOfRange(chain, p, lo, if hi <= h then hi else h)
    decreases hi
  {
    if hi < lo {
    } else {
      var pre := RowsOfRange(chain, p, lo, hi - 1);
      RangeUpTo(chain, p, lo, hi - 1, h);
      BlockUpTo(chain, p, pre, hi, h);
      if hi <= h {
        assert UpTo(pre, h) == pre;
      } else {
        assert UpTo(pre, h) + [] == UpTo(pre, h);
      }
    }
  }

  /** Reading a longer chain up to `h` gives the chain at `h`. */
  lemma UpToPrefix(chain: Chain, p: Name, n: nat, h: nat)
    requires Honest(chain)
    ensures UpTo(Prefix(chain, p, n), h) == Prefix(chain, p, if n <= h then n else h)
  {
    RangeUpTo(chain, p, 1, n, h);
  }

  /** The rows of the blocks up to `h` that the log holds. */
  function PresentRows(chain: Chain, p: Name, log: seq<Range>, h: nat): seq<Row> {
    if h == 0 then []
    else PresentRows(chain, p, log, h - 1) + if Delivered(log, h) then chain(p, h) else []
  }

  /** No block up to `h` that the log misses has rows. */
  ghost predicate NoRowsLost(chain: Chain, p: Name, log: seq<Range>, h: nat) {
    forall b :: 1 <= b <= h && !Delivered(log, b) ==> chain(p, b) == []
  }

  /** One more batch after all others: its rows up to `h` are the last present ones. */
  lemma {:induction false} PresentSnoc(chain: Chain, p: Name, log: seq<Range>, r: Range, h: nat)
    requires Ascending(log + [r])
    ensures PresentRows(chain, p, log + [r], h) ==
            PresentRows(chain, p, log, h) + RowsOfRange(chain, p, r.lo, if r.hi <= h then r.hi else h)
  {
    if h == 0 {
      assert RowsOfRange(chain, p, r.lo, 0) == [];
    } else {
      PresentSnoc(chain, p, log, r, h - 1);
      DeliveredSnoc(log, r, h);
      AscendingSnoc(log, r);
      if r.lo <= h <= r.hi {
        if Delivered(log, h) {
          DeliveredByLast(log, h);
        }
        Associates(PresentRows(chain, p, log, h - 1), RowsOfRange(chain, p, r.lo, h - 1), chain(p, h));
      } else if h < r.lo {
        assert RowsOfRange(chain, p, r.lo, h) == [] == RowsOfRange(chain, p, r.lo, h - 1);
      } else if Delivered(log, h) {
        DeliveredByLast(log, h);
      }
    }
  }

  lemma Associates(a: seq<Row>, b: seq<Row>, c: seq<Row>)
    ensures (a + b) + c == a + (b + c)
  {
  }

  /** What a read up to `h` gives of a table whose batches never went back. */
  lemma {:induction false} ReadIsPresent(chain: Chain, p: Name, log: seq<Range>, h: nat)
    requires Honest(chain) && Ascending(log)
    ensures UpTo(TableOf(chain, p, log), h) == PresentRows(chain, p, log, h)
  {
    if log == [] {
      NonePresent(chain, p, h);
    } else {
      var pre, r := log[..|log| - 1], log[|log| - 1];
      assert log == pre + [r];
      AscendingSnoc(pre, r);
      ReadIsPresent(chain, p, pre, h);
      UpToAppend(TableOf(chain, p, pre), RowsOfRange(chain, p, r.lo, r.hi), h);
      RangeUpTo(chain, p, r.lo, r.hi, h);
      PresentSnoc(chain, p, pre, r, h);
    }
  }

  lemma {:induction false} NonePresent(chain: Chain, p: Name, h: nat)
    ensures PresentRows(chain, p, [], h) == []
  {
    if h == 0 {
    } else {
      NonePresent(chain, p, h - 1);
    }
  }

  lemma SameEnd(a: seq<Row>, b: seq<Row>, c: seq<Row>)
    ensures a + c == b + c <==> a == b
    ensures |a| <= |b| ==> (a == b + c <==> a == b && c == [])
  {
    if a + c == b + c {
      assert |a| == |b|;
      forall i | 0 <= i < |a| ensures a[i] == b[i] {
        assert (a + c)[i] == (b + c)[i];
      }
    }
  }

  /** The present rows are the chain's exactly when no missing block has rows. */
  lemma {:induction false} PresentExactly(chain: Chain, p: Name, log: seq<Range>, h: nat)
    ensures |PresentRows(chain, p, log, h)| <= |Prefix(chain, p, h)|
    ensures PresentRows(chain, p, log, h) == Prefix(chain, p, h) <==> NoRowsLost(chain, p, log, h)
  {
    if h == 0 {
    } else {
      PresentExactly(chain, p, log, h - 1);
      var a, b, c := PresentRows(chain, p, log, h - 1), Prefix(chain, p, h - 1), chain(p, h);
      SameEnd(a, b, c);
      assert Prefix(chain, p, h) == b + c;
      assert NoRowsLost(chain, p, log, h) <==> NoRowsLost(chain, p, log, h - 1) && (Delivered(log, h) || c == []);
    }
  }

  /** Whatever gaps rollbacks left: a read up to `h` is the chain at `h` exactly when no block up to `h`
      that the plugin has lost, or not committed, had rows. */
  lemma ReadIsChainExactly(chain: Chain, p: Name, log: seq<Range>, h: nat)
    requires Honest(chain) && Ascending(log)
    ensures UpTo(TableOf(chain, p, log), h) == Prefix(chain, p, h) <==> NoRowsLost(chain, p, log, h)
  {
    ReadIsPresent(chain, p, log, h);
    PresentExactly(chain, p, log, h);
  }

  /******* The gate *******/

  /** The first plugin below the target or unreadable, as an index; all are there when it is the length. */
  method FirstBehind(plugins: seq<Name>, target: nat, heights: map<Name, nat>) returns (i: nat)
    ensures i <= |plugins|
    ensures forall j :: 0 <= j < i ==> plugins[j] in heights && target <= heights[plugins[j]]
    ensures i < |plugins| ==> plugins[i] !in heights || heights[plugins[i]] < target
  {
    i := 0;
    while i < |plugins|
      invariant i <= |plugins|
      invariant forall j :: 0 <= j < i ==> plugins[j] in heights && target <= heights[plugins[j]]
    {
      if plugins[i] !in heights || heights[plugins[i]] < target {
        return;
      }
      i := i + 1;
    }
  }

  datatype Read = Read(plugin: Name, rows: seq<Row>)

  /** Where the delegate job is: each gate and each table read is a step of its own. */
  datatype Job =
    | Waiting
    | Gating(height: nat, todo: seq<Name>)
    | Reading(height: nat, got: seq<Read>)

  function Gates(hasV3: bool): seq<Name> {
    [SELF_STAKE, SYSTEM_V1, SYSTEM_V2] + if hasV3 then [SYSTEM_V3] else []
  }

  /** The tables in reading order: the native one for the latest row of each bucket, then again for
      the bucket sums, then the contracts', then the self-stake records. */
  function Sources(hasV3: bool): seq<Name> {
    [NATIVE, NATIVE, SYSTEM_V1, SYSTEM_V2] + (if hasV3 then [SYSTEM_V3] else []) + [SELF_STAKE]
  }

  datatype System = System(world: World, job: Job)

  datatype Move =
    | Indexing(step: Step)
      // the job takes its next step
    | JobStep
      // a database or chain read of the job fails, or it is done
    | JobEnds

  function LogOf(w: World, p: Name): seq<Range> {
    if p in w.plugins then w.plugins[p].log else []
  }

  function Table(chain: Chain, w: World, p: Name): seq<Row> {
    TableOf(chain, p, LogOf(w, p))
  }

  function JobNext(chain: Chain, hasV3: bool, w: World, j: Job): Job {
    match j
    case Waiting => Gating(Committed(w, NATIVE), Gates(hasV3))
    case Gating(h, todo) =>
      if todo == [] then Reading(h, [])
      else if Committed(w, todo[0]) < h then Waiting
      else Gating(h, todo[1..])
    case Reading(h, got) =>
      if |got| < |Sources(hasV3)| then
        var p := Sources(hasV3)[|got|];
        Reading(h, got + [Read(p, UpTo(Table(chain, w, p), h))])
      else j
  }

  function MoveNext(deps: Deps, chain: Chain, hasV3: bool, s: System, m: Move): Option<System> {
    match m
    case Indexing(step) =>
      if Enabled(deps, s.world, step)
      then Some(System(Next(deps, s.world, step), if step.Restart? then Waiting else s.job))
      else None
    case JobStep => Some(s.(job := JobNext(chain, hasV3, s.world, s.job)))
    case JobEnds => Some(s.(job := Waiting))
  }

  function RunAll(deps: Deps, chain: Chain, hasV3: bool, moves: seq<Move>): Option<System> {
    if moves == [] then Some(System(Init(deps), Waiting))
    else
      var s :- RunAll(deps, chain, hasV3, moves[..|moves| - 1]);
      MoveNext(deps, chain, hasV3, s, moves[|moves| - 1])
  }

  /** The indexing steps among the moves. */
  function StepsOf(moves: seq<Move>): seq<Step> {
    if moves == [] then []
    else
      var last := moves[|moves| - 1];
      StepsOf(moves[..|moves| - 1]) + if last.Indexing? then [last.step] else []
  }

  lemma StepsSnoc(moves: seq<Move>)
    requires moves != []
    ensures var pre, last, steps := moves[..|moves| - 1], moves[|moves| - 1], StepsOf(moves);
            if last.Indexing? then steps != [] && steps[|steps| - 1] == last.step && steps[..|steps| - 1] == StepsOf(pre)
            else steps == StepsOf(pre)
  {
  }

  lemma RunSnoc(deps: Deps, steps: seq<Step>, w: World, s: Step)
    requires steps != [] && steps[|steps| - 1] == s && Run(deps, steps[..|steps| - 1]) == Some(w) && Enabled(deps, w, s)
    ensures Run(deps, steps) == Some(Next(deps, w, s))
  {
  }

  /** The job never changes what the runners do. */
  lemma {:induction false} RunAllIsRun(deps: Deps, chain: Chain, hasV3: bool, moves: seq<Move>)
    requires RunAll(deps, chain, hasV3, moves).Some?
    ensures Run(deps, StepsOf(moves)) == Some(RunAll(deps, chain, hasV3, moves).value.world)
  {
    if moves == [] {
    } else {
      var pre, last := moves[..|moves| - 1], moves[|moves| - 1];
      RunAllIsRun(deps, chain, hasV3, pre);
      StepsSnoc(moves);
      if last.Indexing? {
        RunSnoc(deps, StepsOf(moves), RunAll(deps, chain, hasV3, pre).value.world, last.step);
      }
    }
  }

  /** What the job knows: the plugins past the gate have committed its height, and its reads so far are
      what those tables hold up to it, now as when they were read. */
  ghost predicate JobKnows(chain: Chain, hasV3: bool, w: World, j: Job) {
    match j
    case Waiting => true
    case Gating(h, todo) =>
      && h <= Committed(w, NATIVE)
      && |todo| <= |Gates(hasV3)| && todo == Gates(hasV3)[|Gates(hasV3)| - |todo|..]
      && forall i :: 0 <= i < |Gates(hasV3)| - |todo| ==> h <= Committed(w, Gates(hasV3)[i])
    case Reading(h, got) =>
      && (forall i :: 0 <= i < |Sources(hasV3)| ==> h <= Committed(w, Sources(hasV3)[i]))
      && Snapshot(chain, w, Sources(hasV3), h, got)
  }

  /** The reads so far: what the tables hold up to the one height, source by source. */
  ghost predicate Snapshot(chain: Chain, w: World, sources: seq<Name>, h: nat, got: seq<Read>) {
    && |got| <= |sources|
    && forall i :: 0 <= i < |got| ==> got[i] == Read(sources[i], UpTo(Table(chain, w, sources[i]), h))
  }

  lemma GatesPassed(w: World, hasV3: bool, h: nat)
    requires h <= Committed(w, NATIVE)
    requires forall i :: 0 <= i < |Gates(hasV3)| ==> h <= Committed(w, Gates(hasV3)[i])
    ensures forall i :: 0 <= i < |Sources(hasV3)| ==> h <= Committed(w, Sources(hasV3)[i])
  {
    forall i | 0 <= i < |Sources(hasV3)| ensures h <= Committed(w, Sources(hasV3)[i]) {
      if i == |Sources(hasV3)| - 1 {
        assert Sources(hasV3)[i] == Gates(hasV3)[0];
      } else if i >= 2 {
        assert Sources(hasV3)[i] == Gates(hasV3)[i - 1];
      }
    }
  }

  lemma GateKnows(chain: Chain, hasV3: bool, w: World, h: nat, todo: seq<Name>)
    requires JobKnows(chain, hasV3, w, Gating(h, todo))
    ensures JobKnows(chain, hasV3, w, JobNext(chain, hasV3, w, Gating(h, todo)))
  {
    if todo == [] {
      GatesPassed(w, hasV3, h);
    } else {
      var n := |Gates(hasV3)| - |todo|;
      assert todo[0] == Gates(hasV3)[n];
      assert todo[1..] == Gates(hasV3)[n + 1..];
    }
  }

  lemma SnapshotGrows(chain: Chain, w: World, sources: seq<Name>, h: nat, got: seq<Read>)
    requires Snapshot(chain, w, sources, h, got) && |got| < |sources|
    ensures Snapshot(chain, w, sources, h, got + [Read(sources[|got|], UpTo(Table(chain, w, sources[|got|]), h))])
  {
  }

  lemma JobStepKnows(chain: Chain, hasV3: bool, w: World, j: Job)
    requires JobKnows(chain, hasV3, w, j)
    ensures JobKnows(chain, hasV3, w, JobNext(chain, hasV3, w, j))
  {
    match j
    case Waiting => assert Gates(hasV3)[0..] == Gates(hasV3);
    case Gating(h, todo) => GateKnows(chain, hasV3, w, h, todo);
    case Reading(h, got) =>
      if |got| < |Sources(hasV3)| {
        SnapshotGrows(chain, w, Sources(hasV3), h, got);
      }
  }

  lemma CommittedStands(deps: Deps, w: World, s: Step, p: Name)
    requires Enabled(deps, w, s) && AllAscending(Next(deps, w, s))
    requires forall q :: q in w.plugins ==> Sound(w.plugins[q])
    ensures Committed(w, p) <= Committed(Next(deps, w, s), p)
  {
    if p in w.plugins {
      CommittedRises(deps, w, s, p);
    }
  }

  lemma LogStands(deps: Deps, w: World, s: Step, p: Name)
    requires Enabled(deps, w, s)
    ensures LogOf(Next(deps, w, s), p) ==
            if p in w.plugins && s.Commit? && s.p == p
            then LogOf(w, p) + [Range(w.plugins[p].phase.next, w.plugins[p].phase.to)] else LogOf(w, p)
  {
  }

  /** Once a plugin has committed `h`, later batches do not show in a read up to `h`. */
  lemma CommittedReadStands(deps: Deps, chain: Chain, w: World, s: Step, p: Name, h: nat)
    requires Honest(chain) && Enabled(deps, w, s) && AllAscending(Next(deps, w, s)) && h <= Committed(w, p)
    requires forall q :: q in w.plugins ==> Sound(w.plugins[q])
    ensures UpTo(Table(chain, Next(deps, w, s), p), h) == UpTo(Table(chain, w, p), h)
  {
    LogStands(deps, w, s, p);
    if p in w.plugins && s.Commit? && s.p == p {
      assert Ascending(LogOf(Next(deps, w, s), p));
      LaterBatch(chain, p, w.plugins[p].log, Range(w.plugins[p].phase.next, w.plugins[p].phase.to), h);
    }
  }

  lemma LaterBatch(chain: Chain, p: Name, log: seq<Range>, r: Range, h: nat)
    requires Honest(chain) && Ascending(log + [r]) && h <= LastOf(log)
    ensures UpTo(TableOf(chain, p, log + [r]), h) == UpTo(TableOf(chain, p, log), h)
  {
    assert (log + [r])[..|log|] == log;
    AscendingSnoc(log, r);
    UpToAppend(TableOf(chain, p, log), RowsOfRange(chain, p, r.lo, r.hi), h);
    RangeUpTo(chain, p, r.lo, r.hi, h);
  }

  lemma KnowledgeStands(chain: Chain, hasV3: bool, w: World, v: World, j: Job)
    requires JobKnows(chain, hasV3, w, j) && forall p :: Committed(w, p) <= Committed(v, p)
    requires j.Reading? ==> Snapshot(chain, v, Sources(hasV3), j.height, j.got)
    ensures JobKnows(chain, hasV3, v, j)
  {
  }

  lemma SnapshotStands(deps: Deps, chain: Chain, sources: seq<Name>, w: World, s: Step, h: nat, got: seq<Read>)
    requires Honest(chain) && Enabled(deps, w, s) && AllAscending(Next(deps, w, s))
    requires forall q :: q in w.plugins ==> Sound(w.plugins[q])
    requires Snapshot(chain, w, sources, h, got) && forall i :: 0 <= i < |sources| ==> h <= Committed(w, sources[i])
    ensures Snapshot(chain, Next(deps, w, s), sources, h, got)
  {
    forall i | 0 <= i < |got| ensures got[i] == Read(sources[i], UpTo(Table(chain, Next(deps, w, s), sources[i]), h)) {
      CommittedReadStands(deps, chain, w, s, sources[i], h);
    }
  }

  lemma IndexingKnows(deps: Deps, chain: Chain, hasV3: bool, w: World, s: Step, j: Job)
    requires Honest(chain) && Enabled(deps, w, s) && AllAscending(Next(deps, w, s)) && JobKnows(chain, hasV3, w, j)
    requires forall q :: q in w.plugins ==> Sound(w.plugins[q])
    ensures JobKnows(chain, hasV3, Next(deps, w, s), j)
  {
    forall p ensures Committed(w, p) <= Committed(Next(deps, w, s), p) {
      CommittedStands(deps, w, s, p);
    }
    if j.Reading? {
      SnapshotStands(deps, chain, Sources(hasV3), w, s, j.height, j.got);
    }
    KnowledgeStands(chain, hasV3, w, Next(deps, w, s), j);
  }

  /** In every interleaving of runners and job, rollbacks and restarts included, in which no batch goes
      back: past the gate all reads are one snapshot, that of the tables up to the height that the job took
      at the start, at any moment until it ends. */
  lemma {:induction false} ReadsAreOneSnapshot(deps: Deps, chain: Chain, hasV3: bool, moves: seq<Move>)
    requires Honest(chain) && RunAll(deps, chain, hasV3, moves).Some?
    requires AllAscending(RunAll(deps, chain, hasV3, moves).value.world)
    ensures var s := RunAll(deps, chain, hasV3, moves).value;
            JobKnows(chain, hasV3, s.world, s.job)
  {
    if moves == [] {
    } else {
      var pre, last := moves[..|moves| - 1], moves[|moves| - 1];
      var s := RunAll(deps, chain, hasV3, pre).value;
      RunAllIsRun(deps, chain, hasV3, pre);
      AlwaysSound(deps, StepsOf(pre));
      match last
      case Indexing(step) =>
        AscendedBefore(deps, s.world, step);
        ReadsAreOneSnapshot(deps, chain, hasV3, pre);
        IndexingKnows(deps, chain, hasV3, s.world, step, s.job);
      case JobStep =>
        ReadsAreOneSnapshot(deps, chain, hasV3, pre);
        JobStepKnows(chain, hasV3, s.world, s.job);
      case JobEnds =>
    }
  }

  /** Interleavings without a stale height are such, whatever rolls back or restarts. */
  lemma UnstaleMovesAscend(deps: Deps, chain: Chain, hasV3: bool, moves: seq<Move>)
    requires RunAll(deps, chain, hasV3, moves).Some? && Unstale(deps, StepsOf(moves))
    ensures AllAscending(RunAll(deps, chain, hasV3, moves).value.world)
  {
    RunAllIsRun(deps, chain, hasV3, moves);
    UnstaleRunsAscend(deps, StepsOf(moves));
  }

  /** A read of the job is the chain at its height exactly when its plugin lost no block with rows up to
      there. */
  lemma ReadsAreTheChainExactly(deps: Deps, chain: Chain, hasV3: bool, moves: seq<Move>, i: nat)
    requires Honest(chain) && RunAll(deps, chain, hasV3, moves).Some?
    requires AllAscending(RunAll(deps, chain, hasV3, moves).value.world)
    ensures var s := RunAll(deps, chain, hasV3, moves).value;
            s.job.Reading? && i < |s.job.got| ==>
              && i < |Sources(hasV3)|
              && (s.job.got[i] == Read(Sources(hasV3)[i], Prefix(chain, Sources(hasV3)[i], s.job.height)) <==>
                  NoRowsLost(chain, Sources(hasV3)[i], LogOf(s.world, Sources(hasV3)[i]), s.job.height))
  {
    ReadsAreOneSnapshot(deps, chain, hasV3, moves);
    var s := RunAll(deps, chain, hasV3, moves).value;
    if s.job.Reading? && i < |s.job.got| {
      ReadIsChainExactly(chain, Sources(hasV3)[i], LogOf(s.world, Sources(hasV3)[i]), s.job.height);
    }
  }

  lemma NothingLostWhenAligned(chain: Chain, w: World, p: Name, h: nat)
    requires AllContiguous(w) && h <= Committed(w, p) && forall q :: q in w.plugins ==> Sound(w.plugins[q])
    ensures NoRowsLost(chain, p, LogOf(w, p), h)
  {
    ContiguousAscends(LogOf(w, p));
    WholeExactlyWhenContiguous(LogOf(w, p));
  }

  /** With consecutive batches in particular, each read is the chain's. */
  lemma AlignedReadsAreTheChain(deps: Deps, chain: Chain, hasV3: bool, moves: seq<Move>, i: nat)
    requires Honest(chain) && RunAll(deps, chain, hasV3, moves).Some?
    requires CommitsAligned(deps, StepsOf(moves))
    ensures var j := RunAll(deps, chain, hasV3, moves).value.job;
            j.Reading? && i < |j.got| ==>
              i < |Sources(hasV3)| && j.got[i] == Read(Sources(hasV3)[i], Prefix(chain, Sources(hasV3)[i], j.height))
  {
    var s := RunAll(deps, chain, hasV3, moves).value;
    RunAllIsRun(deps, chain, hasV3, moves);
    AlignedRunsAscend(deps, StepsOf(moves));
    ConsecutiveExactlyWhenAligned(deps, StepsOf(moves));
    ReadsAreOneSnapshot(deps, chain, hasV3, moves);
    ReadsAreTheChainExactly(deps, chain, hasV3, moves, i);
    if s.job.Reading? && i < |s.job.got| {
      NothingLostWhenAligned(chain, s.world, Sources(hasV3)[i], s.job.height);
    }
  }

  /******* What a snapshot is good for *******/

  function Latest(rows: seq<Row>): map<nat, Row> {
    if rows == [] then map[] else Latest(rows[..|rows| - 1])[rows[|rows| - 1].bucket := rows[|rows| - 1]]
  }

  /** `sum(amount) group by bucket_id`. */
  function BucketSums(rows: seq<Row>): map<nat, int> {
    if rows == [] then map[]
    else
      var sums, last := BucketSums(rows[..|rows| - 1]), rows[|rows| - 1];
      sums[last.bucket := (if last.bucket in sums then sums[last.bucket] else 0) + last.amount]
  }

  lemma {:induction false} SameBuckets(rows: seq<Row>)
    ensures Latest(rows).Keys == BucketSums(rows).Keys
  {
    if rows == [] {
    } else {
      SameBuckets(rows[..|rows| - 1]);
    }
  }

  lemma {:induction false} SumsGrow(a: seq<Row>, b: seq<Row>)
    ensures BucketSums(a).Keys <= BucketSums(a + b).Keys
  {
    if b == [] {
      assert a + b == a;
    } else {
      assert (a + b)[..|a + b| - 1] == a + b[..|b| - 1];
      SumsGrow(a, b[..|b| - 1]);
    }
  }

  /** Later reads of the same table, up to the same height, go on from earlier ones. */
  ghost predicate GrowsFrom(rows: seq<Row>, later: seq<Row>) {
    exists more :: later == rows + more
  }

  lemma GrowsOn(a: seq<Row>, b: seq<Row>, c: seq<Row>)
    requires GrowsFrom(a, b) && GrowsFrom(b, c)
    ensures GrowsFrom(a, c)
  {
    var x :| b == a + x;
    var y :| c == b + y;
    assert c == a + (x + y);
  }

  lemma TableGrows(deps: Deps, chain: Chain, w: World, s: Step, p: Name, h: nat)
    requires Enabled(deps, w, s)
    ensures GrowsFrom(UpTo(Table(chain, w, p), h), UpTo(Table(chain, Next(deps, w, s), p), h))
  {
    var now, later := UpTo(Table(chain, w, p), h), UpTo(Table(chain, Next(deps, w, s), p), h);
    if p in w.plugins && s.Commit? && s.p == p {
      var x := w.plugins[p];
      var all := x.log + [Range(x.phase.next, x.phase.to)];
      assert all[..|x.log|] == x.log;
      UpToAppend(TableOf(chain, p, x.log), RowsOfRange(chain, p, x.phase.next, x.phase.to), h);
    } else {
      assert later == now + [];
    }
  }

  /** What the job has read of the native table is still there; the sums cover the latest rows. */
  ghost predicate AmountsThere(chain: Chain, w: World, j: Job) {
    j.Reading? && |j.got| >= 1 ==>
      && GrowsFrom(j.got[0].rows, UpTo(Table(chain, w, NATIVE), j.height))
      && (|j.got| >= 2 ==> Latest(j.got[0].rows).Keys <= BucketSums(j.got[1].rows).Keys)
  }

  lemma JobStepAmounts(chain: Chain, hasV3: bool, w: World, j: Job)
    requires AmountsThere(chain, w, j)
    ensures AmountsThere(chain, w, JobNext(chain, hasV3, w, j))
  {
    if j.Reading? && |j.got| == 0 {
      var rows := UpTo(Table(chain, w, NATIVE), j.height);
      assert rows == rows + [];
    }
    if j.Reading? && |j.got| == 1 {
      var rows := j.got[0].rows;
      var more :| UpTo(Table(chain, w, NATIVE), j.height) == rows + more;
      SumsGrow(rows, more);
      SameBuckets(rows);
    }
  }

  /** In every interleaving whatever, the missing-bucket-amount error cannot happen: every bucket with a
      latest row has a sum, although the two came from separate reads. */
  lemma {:induction false} NoBucketAmountMissing(deps: Deps, chain: Chain, hasV3: bool, moves: seq<Move>)
    requires RunAll(deps, chain, hasV3, moves).Some?
    ensures var s := RunAll(deps, chain, hasV3, moves).value;
            AmountsThere(chain, s.world, s.job)
    ensures var j := RunAll(deps, chain, hasV3, moves).value.job;
            j.Reading? && |j.got| >= 2 ==> Latest(j.got[0].rows).Keys <= BucketSums(j.got[1].rows).Keys
  {
    if moves == [] {
    } else {
      var pre, last := moves[..|moves| - 1], moves[|moves| - 1];
      NoBucketAmountMissing(deps, chain, hasV3, pre);
      var s := RunAll(deps, chain, hasV3, pre).value;
      match last
      case Indexing(step) =>
        if s.job.Reading? && |s.job.got| >= 1 {
          TableGrows(deps, chain, s.world, step, NATIVE, s.job.height);
          GrowsOn(s.job.got[0].rows, UpTo(Table(chain, s.world, NATIVE), s.job.height),
                  UpTo(Table(chain, Next(deps, s.world, step), NATIVE), s.job.height));
        }
      case JobStep => JobStepAmounts(chain, hasV3, s.world, s.job);
      case JobEnds =>
    }
  }

  /** The bucket's latest row votes for someone. */
  predicate Votes(rows: seq<Row>, bucket: nat) {
    bucket in Latest(rows) && Latest(rows)[bucket].delegate != NOBODY
  }

  /** From block `born` on a stake votes through v2 bucket `b2`, and from block `m` on, where it is
      migrated, through v3 bucket `b3`. */
  ghost predicate Migrates(chain: Chain, born: nat, m: nat, b2: nat, b3: nat) {
    forall h: nat :: h >= born ==>
      && (Votes(Prefix(chain, SYSTEM_V2, h), b2) <==> h < m)
      && (Votes(Prefix(chain, SYSTEM_V3, h), b3) <==> m <= h)
  }

  /** A migrated stake is counted once: through one of the two contracts, never both and never neither,
      provided neither plugin lost a block with rows up to the job's height. */
  lemma MigratedStakeCountsOnce(deps: Deps, chain: Chain, moves: seq<Move>, born: nat, m: nat, b2: nat, b3: nat)
    requires Honest(chain) && RunAll(deps, chain, true, moves).Some?
    requires AllAscending(RunAll(deps, chain, true, moves).value.world) && Migrates(chain, born, m, b2, b3)
    ensures var s := RunAll(deps, chain, true, moves).value;
            var j := s.job;
            j.Reading? && |j.got| >= 5 && born <= j.height
            && NoRowsLost(chain, SYSTEM_V2, LogOf(s.world, SYSTEM_V2), j.height)
            && NoRowsLost(chain, SYSTEM_V3, LogOf(s.world, SYSTEM_V3), j.height) ==>
              (Votes(j.got[3].rows, b2) <==> !Votes(j.got[4].rows, b3))
  {
    ReadsAreTheChainExactly(deps, chain, true, moves, 3);
    ReadsAreTheChainExactly(deps, chain, true, moves, 4);
  }

  /** Why the gate covers every contract table: two tables committed to `n2` and `n3`, read up to `h`,
      count the stake once exactly when the reads fall on the same side of the migration. */
  lemma UngatedReadsCountOnceExactly(chain: Chain, h: nat, log2: seq<Range>, log3: seq<Range>,
                                     born: nat, m: nat, b2: nat, b3: nat)
    requires Honest(chain) && Contiguous(log2) && Contiguous(log3) && Migrates(chain, born, m, b2, b3)
    requires born <= h && born <= LastOf(log2) && born <= LastOf(log3)
    ensures (Votes(UpTo(TableOf(chain, SYSTEM_V2, log2), h), b2) <==>
             !Votes(UpTo(TableOf(chain, SYSTEM_V3, log3), h), b3))
            <==> (Min(LastOf(log2), h) < m <==> Min(LastOf(log3), h) < m)
  {
    ContiguousTable(chain, SYSTEM_V2, log2);
    ContiguousTable(chain, SYSTEM_V3, log3);
    UpToPrefix(chain, SYSTEM_V2, LastOf(log2), h);
    UpToPrefix(chain, SYSTEM_V3, LastOf(log3), h);
  }
}
