/** The vote ledger: rows are only appended, the latest row of a bucket says who holds it, and moves
    are double entries. Each bucket should then weigh in at one (address, candidate) only. */
module AccountVote {
  import opened Sums

  /** An address, in a record of its own, so that comparing two of them never looks into the text. */
  datatype Address = Address(text: string)

  const BLANK := Address("")

  /** `forwards` marks the rows of a governance forward. */
  datatype Row = Row(height: nat, bucket: nat, address: Address, candidate: Address, forwardTo: Address,
                     amount: int, autoStake: bool, duration: nat, forwards: bool)

  /** Events of successful receipts, decoded; candidates are already looked up by name. */
  datatype Event =
    | CreateStake(id: nat, sender: Address, to: Address, value: int, auto: bool, days: nat)
    | TransferStake(id: nat, voter: Address)
    | Restake(id: nat, sender: Address, auto: bool, days: nat)
    | ChangeCandidate(id: nat, to: Address)
    | DepositToStake(id: nat, value: int)
    | Unstake(id: nat, sender: Address)
    | GovernanceForward(from: Address, receiver: Address)
    | GovernanceCancel(from: Address)
    | Unrelated

  /******* Queries *******/

  /** `sum(amount) where bucket_id = b`. */
  function SumOf(rows: seq<Row>, b: nat): int {
    if rows == [] then 0
    else
      var last := rows[|rows| - 1];
      SumOf(rows[..|rows| - 1], b) + if last.bucket == b then last.amount else 0
  }

  /** `sum(amount) where bucket_id = b and address = a and candidate = c`. */
  function AmountAt(rows: seq<Row>, b: nat, a: Address, c: Address): int {
    if rows == [] then 0
    else
      var last := rows[|rows| - 1];
      AmountAt(rows[..|rows| - 1], b, a, c)
      + if last.bucket == b && last.address == a && last.candidate == c then last.amount else 0
  }

  /** The latest row of a bucket, or a blank one: a scan that finds no row is no error. */
  function Info(rows: seq<Row>, b: nat): Row {
    if rows == [] then Row(0, b, BLANK, BLANK, BLANK, 0, false, 0, false)
    else
      var last := rows[|rows| - 1];
      if last.bucket == b then last else Info(rows[..|rows| - 1], b)
  }

  predicate Known(rows: seq<Row>, b: nat) {
    exists i :: 0 <= i < |rows| && rows[i].bucket == b
  }

  /** Row `i` is its bucket's latest at or before height `h`. */
  predicate LatestUpTo(rows: seq<Row>, i: nat, h: nat)
    requires i < |rows|
  {
    rows[i].height <= h && forall j :: i < j < |rows| && rows[j].bucket == rows[i].bucket ==> rows[j].height > h
  }

  /** Buckets whose latest row at or before `h` has address `a`. */
  function BucketIDs(rows: seq<Row>, a: Address, h: nat): set<nat> {
    set i | 0 <= i < |rows| && rows[i].address == a && LatestUpTo(rows, i, h) :: rows[i].bucket
  }

  /** Where the address last forwarded its votes to: blank when it never did. */
  function ForwardedTo(rows: seq<Row>, a: Address): Address {
    if rows == [] then BLANK
    else
      var last := rows[|rows| - 1];
      if last.address == a && last.forwards && last.forwardTo != BLANK then last.forwardTo
      else ForwardedTo(rows[..|rows| - 1], a)
  }

  /******* What the plugin appends *******/

  /** A double entry: the whole amount leaves the latest holder and arrives at (`a`, `c`). */
  function Move(rows: seq<Row>, h: nat, b: nat, a: Address, c: Address, forwardTo: Address, forwards: bool): seq<Row> {
    var info, sum := Info(rows, b), SumOf(rows, b);
    [Row(h, b, info.address, info.candidate, forwardTo, -sum, info.autoStake, info.duration, forwards),
     Row(h, b, a, c, BLANK, sum, info.autoStake, info.duration, forwards)]
  }

  function Forward(rows: seq<Row>, h: nat, ids: seq<nat>, from: Address, to: Address): seq<Row> {
    if ids == [] then rows
    else
      var pre, b := Forward(rows, h, ids[..|ids| - 1], from, to), ids[|ids| - 1];
      if Info(pre, b).address != from then pre else pre + Move(pre, h, b, to, Info(pre, b).candidate, to, true)
  }

  /** The double entry of a cancel: from `to`, whoever holds the bucket, back to its holder. */
  function Return(rows: seq<Row>, h: nat, b: nat, from: Address, to: Address): seq<Row> {
    var info, sum := Info(rows, b), SumOf(rows, b);
    [Row(h, b, to, info.candidate, from, -sum, info.autoStake, info.duration, false),
     Row(h, b, info.address, info.candidate, BLANK, sum, info.autoStake, info.duration, false)]
  }

  function Cancel(rows: seq<Row>, h: nat, ids: seq<nat>, from: Address, to: Address): seq<Row> {
    if ids == [] then rows
    else
      var pre, b := Cancel(rows, h, ids[..|ids| - 1], from, to), ids[|ids| - 1];
      if Info(pre, b).address != from then pre else pre + Return(pre, h, b, from, to)
  }

  /** The rows after an event; `ids` lists the buckets of a forward or cancel in the order the query gave them. */
  function After(rows: seq<Row>, h: nat, e: Event, ids: seq<nat>): seq<Row> {
    match e
    case CreateStake(b, sender, to, value, auto, days) => rows + [Row(h, b, sender, to, BLANK, value, auto, days, false)]
    case TransferStake(b, voter) => rows + Move(rows, h, b, voter, Info(rows, b).candidate, BLANK, false)
    case Restake(b, sender, auto, days) =>
      rows + [Row(h, b, sender, Info(rows, b).candidate, BLANK, 0, auto, days, false)]
    case ChangeCandidate(b, to) => rows + Move(rows, h, b, Info(rows, b).address, to, BLANK, false)
    case DepositToStake(b, value) =>
      var info := Info(rows, b);
      rows + [Row(h, b, info.address, info.candidate, BLANK, value, info.autoStake, info.duration, false)]
    case Unstake(b, sender) =>
      var info := Info(rows, b);
      rows + [Row(h, b, sender, info.candidate, BLANK, -SumOf(rows, b), info.autoStake, info.duration, false)]
    case GovernanceForward(from, receiver) => Forward(rows, h, ids, from, receiver)
    case GovernanceCancel(from) => Cancel(rows, h, ids, from, ForwardedTo(rows, from))
    case Unrelated => rows
  }

  /******* The point-mass invariant *******/

  /** All of the bucket's amount is at its latest (address, candidate). */
  ghost predicate PointMass(rows: seq<Row>, b: nat) {
    forall a, c :: AmountAt(rows, b, a, c) ==
                   if a == Info(rows, b).address && c == Info(rows, b).candidate then SumOf(rows, b) else 0
  }

  ghost predicate Balanced(rows: seq<Row>) {
    forall b :: PointMass(rows, b)
  }

  /** When an event keeps the books balanced: a create, restake or unstake must come from the latest
      holder (a create for its candidate too), unless the bucket is empty. */
  predicate Keeps(rows: seq<Row>, e: Event) {
    match e
    case CreateStake(b, sender, to, _, _, _) =>
      SumOf(rows, b) == 0 || (sender == Info(rows, b).address && to == Info(rows, b).candidate)
    case Restake(b, sender, _, _) => SumOf(rows, b) == 0 || sender == Info(rows, b).address
    case Unstake(b, sender) => SumOf(rows, b) == 0 || sender == Info(rows, b).address
    case _ => true
  }

  /** One appended row. */
  lemma Appended(rows: seq<Row>, r: Row, b: nat)
    ensures SumOf(rows + [r], b) == SumOf(rows, b) + if r.bucket == b then r.amount else 0
    ensures Info(rows + [r], b) == if r.bucket == b then r else Info(rows, b)
    ensures forall a, c :: AmountAt(rows + [r], b, a, c) ==
              AmountAt(rows, b, a, c) + if r.bucket == b && r.address == a && r.candidate == c then r.amount else 0
  {
    assert (rows + [r])[..|rows|] == rows;
  }

  /** A row of `b` keeps its point mass exactly when it is for the latest holder or there was nothing. */
  lemma AppendedPointMass(rows: seq<Row>, r: Row)
    requires PointMass(rows, r.bucket)
    ensures PointMass(rows + [r], r.bucket) <==>
            SumOf(rows, r.bucket) == 0
            || (r.address == Info(rows, r.bucket).address && r.candidate == Info(rows, r.bucket).candidate)
  {
    var b := r.bucket;
    var info := Info(rows, b);
    Appended(rows, r, b);
    if SumOf(rows, b) != 0 && !(r.address == info.address && r.candidate == info.candidate) {
      assert AmountAt(rows + [r], b, info.address, info.candidate) == SumOf(rows, b);
    }
  }

  lemma OtherBucket(rows: seq<Row>, r: Row, b: nat)
    requires r.bucket != b
    ensures PointMass(rows + [r], b) <==> PointMass(rows, b)
  {
    Appended(rows, r, b);
  }

  /** A double entry moves the point and keeps the amount. */
  lemma Moved(rows: seq<Row>, h: nat, b: nat, a: Address, c: Address, f: Address, x: bool, other: nat)
    requires Balanced(rows)
    ensures var after := rows + Move(rows, h, b, a, c, f, x);
            && PointMass(after, other)
            && SumOf(after, other) == SumOf(rows, other)
            && Info(after, other) == if other == b then Move(rows, h, b, a, c, f, x)[1] else Info(rows, other)
  {
    var r0, r1 := Move(rows, h, b, a, c, f, x)[0], Move(rows, h, b, a, c, f, x)[1];
    assert rows + Move(rows, h, b, a, c, f, x) == (rows + [r0]) + [r1];
    Appended(rows, r0, other);
    Appended(rows + [r0], r1, other);
    assert PointMass(rows, other) && PointMass(rows, b);
    if other == b {
      AppendedPointMass(rows, r0);
      AppendedPointMass(rows + [r0], r1);
    } else {
      OtherBucket(rows, r0, other);
      OtherBucket(rows + [r0], r1, other);
    }
  }

  lemma MovedBalanced(rows: seq<Row>, h: nat, b: nat, a: Address, c: Address, f: Address, x: bool)
    requires Balanced(rows)
    ensures Balanced(rows + Move(rows, h, b, a, c, f, x))
  {
    forall other ensures PointMass(rows + Move(rows, h, b, a, c, f, x), other) {
      Moved(rows, h, b, a, c, f, x, other);
    }
  }

  lemma {:induction false} ForwardBalanced(rows: seq<Row>, h: nat, ids: seq<nat>, from: Address, to: Address)
    requires Balanced(rows)
    ensures Balanced(Forward(rows, h, ids, from, to))
  {
    if ids == [] {
    } else {
      var pre, b := Forward(rows, h, ids[..|ids| - 1], from, to), ids[|ids| - 1];
      ForwardBalanced(rows, h, ids[..|ids| - 1], from, to);
      MovedBalanced(pre, h, b, to, Info(pre, b).candidate, to, true);
    }
  }

  lemma AppendedBalanced(rows: seq<Row>, r: Row)
    requires Balanced(rows)
    ensures Balanced(rows + [r]) <==>
            SumOf(rows, r.bucket) == 0
            || (r.address == Info(rows, r.bucket).address && r.candidate == Info(rows, r.bucket).candidate)
  {
    assert PointMass(rows, r.bucket);
    AppendedPointMass(rows, r);
    forall b | b != r.bucket ensures PointMass(rows + [r], b) {
      OtherBucket(rows, r, b);
    }
  }

  /** From balanced books, an event leaves balanced books exactly when `Keeps` holds. */
  lemma BalancedExactly(rows: seq<Row>, h: nat, e: Event, ids: seq<nat>)
    requires Balanced(rows)
    requires e.GovernanceCancel? ==> UpTo(rows, h) && Answers(rows, h, e, ids)
    ensures Balanced(After(rows, h, e, ids)) <==> Keeps(rows, e)
  {
    match e
    case CreateStake(b, sender, to, value, auto, days) =>
      AppendedBalanced(rows, Row(h, b, sender, to, BLANK, value, auto, days, false));
    case TransferStake(b, voter) => MovedBalanced(rows, h, b, voter, Info(rows, b).candidate, BLANK, false);
    case Restake(b, sender, auto, days) =>
      AppendedBalanced(rows, Row(h, b, sender, Info(rows, b).candidate, BLANK, 0, auto, days, false));
    case ChangeCandidate(b, to) => MovedBalanced(rows, h, b, Info(rows, b).address, to, BLANK, false);
    case DepositToStake(b, value) =>
      var info := Info(rows, b);
      AppendedBalanced(rows, Row(h, b, info.address, info.candidate, BLANK, value, info.autoStake, info.duration, false));
    case Unstake(b, sender) =>
      var info := Info(rows, b);
      AppendedBalanced(rows, Row(h, b, sender, info.candidate, BLANK, -SumOf(rows, b), info.autoStake, info.duration, false));
    case GovernanceForward(from, receiver) => ForwardBalanced(rows, h, ids, from, receiver);
    case GovernanceCancel(from) => CancelBalanced(rows, h, ids, from, ForwardedTo(rows, from));
    case Unrelated =>
  }

  /******* The ledger as a map from buckets to stakes *******/

  datatype Stake = Stake(known: bool, address: Address, candidate: Address, amount: int, autoStake: bool, duration: nat)

  const NO_STAKE := Stake(false, BLANK, BLANK, 0, false, 0)

  function StakeOf(rows: seq<Row>, b: nat): Stake {
    var info := Info(rows, b);
    Stake(Known(rows, b), info.address, info.candidate, SumOf(rows, b), info.autoStake, info.duration)
  }

  /** What an event does to a bucket, without any rows. */
  function Evolve(s: Stake, b: nat, e: Event): Stake {
    match e
    case CreateStake(id, sender, to, value, auto, days) =>
      if id == b then Stake(true, sender, to, s.amount + value, auto, days) else s
    case TransferStake(id, voter) => if id == b then s.(known := true, address := voter) else s
    case Restake(id, sender, auto, days) =>
      if id == b then s.(known := true, address := sender, autoStake := auto, duration := days) else s
    case ChangeCandidate(id, to) => if id == b then s.(known := true, candidate := to) else s
    case DepositToStake(id, value) => if id == b then s.(known := true, amount := s.amount + value) else s
    case Unstake(id, sender) => if id == b then s.(known := true, address := sender, amount := 0) else s
    case GovernanceForward(from, receiver) => if s.known && s.address == from then s.(address := receiver) else s
    case GovernanceCancel(_) => s
    case Unrelated => s
  }

  lemma AppendedStake(rows: seq<Row>, r: Row, b: nat)
    ensures StakeOf(rows + [r], b) ==
            if r.bucket == b then Stake(true, r.address, r.candidate, SumOf(rows, b) + r.amount, r.autoStake, r.duration)
            else StakeOf(rows, b)
  {
    Appended(rows, r, b);
    var all := rows + [r];
    if r.bucket == b {
      assert all[|rows|].bucket == b;
    } else {
      KnownPrefix(rows, r, b);
    }
  }

  lemma KnownPrefix(rows: seq<Row>, r: Row, b: nat)
    requires r.bucket != b
    ensures Known(rows + [r], b) <==> Known(rows, b)
  {
    var all := rows + [r];
    if Known(rows, b) {
      var i :| 0 <= i < |rows| && rows[i].bucket == b;
      assert all[i].bucket == b;
    }
    if Known(all, b) {
      var i :| 0 <= i < |all| && all[i].bucket == b;
      assert i < |rows| && rows[i].bucket == b;
    }
  }

  lemma MovedStake(rows: seq<Row>, h: nat, b: nat, a: Address, c: Address, f: Address, x: bool, other: nat)
    ensures StakeOf(rows + Move(rows, h, b, a, c, f, x), other) ==
            if other == b then StakeOf(rows, b).(known := true, address := a, candidate := c) else StakeOf(rows, other)
  {
    var r0, r1 := Move(rows, h, b, a, c, f, x)[0], Move(rows, h, b, a, c, f, x)[1];
    assert rows + Move(rows, h, b, a, c, f, x) == (rows + [r0]) + [r1];
    AppendedStake(rows, r0, other);
    AppendedStake(rows + [r0], r1, other);
  }

  /** A forward of listed buckets, each held by `from`, none twice. */
  lemma {:induction false} ForwardStake(rows: seq<Row>, h: nat, ids: seq<nat>, from: Address, to: Address, b: nat)
    requires forall i :: 0 <= i < |ids| ==> StakeOf(rows, ids[i]).known && StakeOf(rows, ids[i]).address == from
    requires forall i, j :: 0 <= i < j < |ids| ==> ids[i] != ids[j]
    ensures StakeOf(Forward(rows, h, ids, from, to), b) ==
            if b in ids then StakeOf(rows, b).(address := to) else StakeOf(rows, b)
  {
    if ids == [] {
    } else {
      var last := ids[|ids| - 1];
      var front := ids[..|ids| - 1];
      var pre := Forward(rows, h, front, from, to);
      ForwardStake(rows, h, front, from, to, b);
      ForwardStake(rows, h, front, from, to, last);
      assert last !in front;
      assert Info(pre, last).address == StakeOf(pre, last).address == from;
      MovedStake(pre, h, last, to, Info(pre, last).candidate, to, true, b);
      assert b in ids <==> b in front || b == last;
    }
  }

  /** The query's answer, each bucket once, in some order. */
  ghost predicate Lists(ids: seq<nat>, s: set<nat>) {
    && (forall b :: b in ids <==> b in s)
    && (forall i, j :: 0 <= i < j < |ids| ==> ids[i] != ids[j])
  }

  /** `ids` is what the query of a forward or cancel gives. */
  ghost predicate Answers(rows: seq<Row>, h: nat, e: Event, ids: seq<nat>) {
    match e
    case GovernanceForward(from, _) => Lists(ids, BucketIDs(rows, from, h))
    case GovernanceCancel(from) => Lists(ids, BucketIDs(rows, ForwardedTo(rows, from), h))
    case _ => true
  }

  predicate UpTo(rows: seq<Row>, h: nat) {
    forall i :: 0 <= i < |rows| ==> rows[i].height <= h
  }

  /** On a table of past blocks the query finds exactly the buckets held by the address. */
  lemma QueryIsHolding(rows: seq<Row>, a: Address, h: nat, b: nat)
    requires UpTo(rows, h)
    ensures b in BucketIDs(rows, a, h) <==> StakeOf(rows, b).known && StakeOf(rows, b).address == a
  {
    if Known(rows, b) {
      var i := LatestIndex(rows, b);
      assert LatestUpTo(rows, i, h);
      if b in BucketIDs(rows, a, h) {
        var k :| 0 <= k < |rows| && rows[k].address == a && LatestUpTo(rows, k, h) && rows[k].bucket == b;
        assert k == i;
      }
    }
  }

  lemma {:induction false} LatestIndex(rows: seq<Row>, b: nat) returns (i: nat)
    requires Known(rows, b)
    ensures i < |rows| && rows[i].bucket == b && Info(rows, b) == rows[i]
    ensures forall j :: i < j < |rows| ==> rows[j].bucket != b
  {
    if rows[|rows| - 1].bucket == b {
      i := |rows| - 1;
    } else {
      var k :| 0 <= k < |rows| && rows[k].bucket == b;
      var pre := rows[..|rows| - 1];
      assert pre[k].bucket == b;
      i := LatestIndex(pre, b);
    }
  }

  lemma AllHold(rows: seq<Row>, h: nat, ids: seq<nat>, to: Address)
    requires UpTo(rows, h) && Lists(ids, BucketIDs(rows, to, h))
    ensures Holds(rows, ids, to)
  {
    forall i | 0 <= i < |ids| ensures StakeOf(rows, ids[i]).known && StakeOf(rows, ids[i]).address == to {
      assert ids[i] in ids;
      QueryIsHolding(rows, to, h, ids[i]);
    }
  }

  predicate Holds(rows: seq<Row>, ids: seq<nat>, a: Address) {
    forall i :: 0 <= i < |ids| ==> StakeOf(rows, ids[i]).known && StakeOf(rows, ids[i]).address == a
  }

  lemma HoldsFront(rows: seq<Row>, ids: seq<nat>, a: Address)
    requires Holds(rows, ids, a) && ids != []
    ensures Holds(rows, ids[..|ids| - 1], a)
    ensures StakeOf(rows, ids[|ids| - 1]).known && StakeOf(rows, ids[|ids| - 1]).address == a
  {
  }

  /** A cancel finds nothing to do unless the votes were forwarded to the address itself. */
  lemma {:induction false} CancelSkips(rows: seq<Row>, h: nat, ids: seq<nat>, from: Address, to: Address)
    requires Holds(rows, ids, to) && from != to
    ensures Cancel(rows, h, ids, from, to) == rows
  {
    if ids == [] {
    } else {
      HoldsFront(rows, ids, to);
      CancelSkips(rows, h, ids[..|ids| - 1], from, to);
    }
  }

  /** Then it moves each bucket from the address to itself. */
  lemma {:induction false} CancelToSelf(rows: seq<Row>, h: nat, ids: seq<nat>, a: Address, b: nat)
    requires Holds(rows, ids, a)
    ensures StakeOf(Cancel(rows, h, ids, a, a), b) == StakeOf(rows, b)
    ensures Balanced(rows) ==> Balanced(Cancel(rows, h, ids, a, a))
  {
    if ids == [] {
    } else {
      var front, last := ids[..|ids| - 1], ids[|ids| - 1];
      var pre := Cancel(rows, h, front, a, a);
      HoldsFront(rows, ids, a);
      CancelToSelf(rows, h, front, a, b);
      CancelToSelf(rows, h, front, a, last);
      var c := Info(pre, last).candidate;
      assert StakeOf(pre, last).address == Info(pre, last).address == a;
      assert Return(pre, h, last, a, a) == Move(pre, h, last, a, c, a, false);
      MovedStake(pre, h, last, a, c, a, false, b);
      if Balanced(rows) {
        MovedBalanced(pre, h, last, a, c, a, false);
      }
    }
  }

  /** So a governance cancel changes no bucket's stake: it does not undo the forward. */
  lemma CancelStake(rows: seq<Row>, h: nat, ids: seq<nat>, from: Address, to: Address, b: nat)
    requires UpTo(rows, h) && Lists(ids, BucketIDs(rows, to, h))
    ensures StakeOf(Cancel(rows, h, ids, from, to), b) == StakeOf(rows, b)
    ensures from != to ==> Cancel(rows, h, ids, from, to) == rows
  {
    AllHold(rows, h, ids, to);
    if from == to {
      CancelToSelf(rows, h, ids, from, b);
    } else {
      CancelSkips(rows, h, ids, from, to);
    }
  }

  lemma CancelBalanced(rows: seq<Row>, h: nat, ids: seq<nat>, from: Address, to: Address)
    requires UpTo(rows, h) && Lists(ids, BucketIDs(rows, to, h)) && Balanced(rows)
    ensures Balanced(Cancel(rows, h, ids, from, to))
  {
    AllHold(rows, h, ids, to);
    if from == to {
      CancelToSelf(rows, h, ids, from, 0);
    } else {
      CancelSkips(rows, h, ids, from, to);
    }
  }

  /** The rows stand for the map: each event does to every bucket just what `Evolve` says. */
  lemma RowsFollowStakes(rows: seq<Row>, h: nat, e: Event, ids: seq<nat>, b: nat)
    requires UpTo(rows, h)
    requires Answers(rows, h, e, ids)
    ensures StakeOf(After(rows, h, e, ids), b) == Evolve(StakeOf(rows, b), b, e)
  {
    match e
    case CreateStake(id, sender, to, value, auto, days) =>
      AppendedStake(rows, Row(h, id, sender, to, BLANK, value, auto, days, false), b);
    case TransferStake(id, voter) => MovedStake(rows, h, id, voter, Info(rows, id).candidate, BLANK, false, b);
    case Restake(id, sender, auto, days) =>
      AppendedStake(rows, Row(h, id, sender, Info(rows, id).candidate, BLANK, 0, auto, days, false), b);
    case ChangeCandidate(id, to) => MovedStake(rows, h, id, Info(rows, id).address, to, BLANK, false, b);
    case DepositToStake(id, value) =>
      var info := Info(rows, id);
      AppendedStake(rows, Row(h, id, info.address, info.candidate, BLANK, value, info.autoStake, info.duration, false), b);
    case Unstake(id, sender) =>
      var info := Info(rows, id);
      AppendedStake(rows, Row(h, id, sender, info.candidate, BLANK, -SumOf(rows, id), info.autoStake, info.duration, false), b);
    case GovernanceForward(from, receiver) =>
      forall i | 0 <= i < |ids| ensures StakeOf(rows, ids[i]).known && StakeOf(rows, ids[i]).address == from {
        assert ids[i] in ids;
        QueryIsHolding(rows, from, h, ids[i]);
      }
      ForwardStake(rows, h, ids, from, receiver, b);
      QueryIsHolding(rows, from, h, b);
    case GovernanceCancel(from) => CancelStake(rows, h, ids, from, ForwardedTo(rows, from), b);
    case Unrelated =>
  }

  /******* Where votes were forwarded, and at which heights *******/

  lemma ForwardedSnoc(rows: seq<Row>, r: Row, a: Address)
    ensures ForwardedTo(rows + [r], a) ==
            if r.address == a && r.forwards && r.forwardTo != BLANK then r.forwardTo else ForwardedTo(rows, a)
  {
    assert (rows + [r])[..|rows|] == rows;
  }

  lemma MovedForward(rows: seq<Row>, h: nat, b: nat, to: Address, c: Address, f: Address, x: bool, a: Address)
    ensures ForwardedTo(rows + Move(rows, h, b, to, c, f, x), a) ==
            if x && f != BLANK && a == Info(rows, b).address then f else ForwardedTo(rows, a)
  {
    var r0, r1 := Move(rows, h, b, to, c, f, x)[0], Move(rows, h, b, to, c, f, x)[1];
    assert rows + Move(rows, h, b, to, c, f, x) == (rows + [r0]) + [r1];
    ForwardedSnoc(rows, r0, a);
    ForwardedSnoc(rows + [r0], r1, a);
  }

  lemma {:induction false} ForwardForwards(rows: seq<Row>, h: nat, ids: seq<nat>, from: Address, to: Address, a: Address)
    requires Holds(rows, ids, from) && forall i, j :: 0 <= i < j < |ids| ==> ids[i] != ids[j]
    ensures ForwardedTo(Forward(rows, h, ids, from, to), a) ==
            if ids != [] && to != BLANK && a == from then to else ForwardedTo(rows, a)
  {
    if ids == [] {
    } else {
      var front, last := ids[..|ids| - 1], ids[|ids| - 1];
      var pre := Forward(rows, h, front, from, to);
      HoldsFront(rows, ids, from);
      ForwardForwards(rows, h, front, from, to, a);
      ForwardStake(rows, h, front, from, to, last);
      assert Info(pre, last).address == StakeOf(pre, last).address == from;
      MovedForward(pre, h, last, to, Info(pre, last).candidate, to, true, a);
    }
  }

  lemma {:induction false} CancelForwards(rows: seq<Row>, h: nat, ids: seq<nat>, from: Address, to: Address, a: Address)
    ensures ForwardedTo(Cancel(rows, h, ids, from, to), a) == ForwardedTo(rows, a)
  {
    if ids == [] {
    } else {
      var front, last := ids[..|ids| - 1], ids[|ids| - 1];
      var pre := Cancel(rows, h, front, from, to);
      CancelForwards(rows, h, front, from, to, a);
      var r0, r1 := Return(pre, h, last, from, to)[0], Return(pre, h, last, from, to)[1];
      assert pre + Return(pre, h, last, from, to) == (pre + [r0]) + [r1];
      ForwardedSnoc(pre, r0, a);
      ForwardedSnoc(pre + [r0], r1, a);
    }
  }

  /** The event forwards votes of `a`: it names a receiver, and `a` holds some bucket. */
  predicate ForwardsFrom(rows: seq<Row>, h: nat, e: Event, a: Address) {
    e.GovernanceForward? && e.from == a && e.receiver != BLANK && BucketIDs(rows, a, h) != {}
  }

  /** Where an address last forwarded its votes to: a forward of at least one bucket changes it, for the
      address that forwards, and nothing else does. */
  lemma ForwardedToFollows(rows: seq<Row>, h: nat, e: Event, ids: seq<nat>, a: Address)
    requires UpTo(rows, h) && Answers(rows, h, e, ids)
    ensures ForwardedTo(After(rows, h, e, ids), a) ==
            if ForwardsFrom(rows, h, e, a) then e.receiver else ForwardedTo(rows, a)
  {
    match e
    case TransferStake(b, voter) => MovedForward(rows, h, b, voter, Info(rows, b).candidate, BLANK, false, a);
    case ChangeCandidate(b, to) => MovedForward(rows, h, b, Info(rows, b).address, to, BLANK, false, a);
    case GovernanceForward(from, receiver) =>
      AllHold(rows, h, ids, from);
      ForwardForwards(rows, h, ids, from, receiver, a);
      assert ids == [] <==> BucketIDs(rows, from, h) == {} by {
        assert ids != [] ==> ids[0] in ids;
      }
    case GovernanceCancel(from) => CancelForwards(rows, h, ids, from, ForwardedTo(rows, from), a);
    case _ =>
  }

  /** The table goes on from the earlier one with rows of height `h`. */
  predicate GrowsAt(rows: seq<Row>, after: seq<Row>, h: nat) {
    rows <= after && forall i :: |rows| <= i < |after| ==> after[i].height == h
  }

  lemma {:induction false} ForwardGrows(rows: seq<Row>, h: nat, ids: seq<nat>, from: Address, to: Address)
    ensures GrowsAt(rows, Forward(rows, h, ids, from, to), h)
  {
    if ids == [] {
    } else {
      ForwardGrows(rows, h, ids[..|ids| - 1], from, to);
    }
  }

  lemma {:induction false} CancelGrows(rows: seq<Row>, h: nat, ids: seq<nat>, from: Address, to: Address)
    ensures GrowsAt(rows, Cancel(rows, h, ids, from, to), h)
  {
    if ids == [] {
    } else {
      CancelGrows(rows, h, ids[..|ids| - 1], from, to);
    }
  }

  /** An event only appends, and each row it appends has the height of its block. */
  lemma RowsHaveHeight(rows: seq<Row>, h: nat, e: Event, ids: seq<nat>)
    ensures GrowsAt(rows, After(rows, h, e, ids), h)
  {
    match e
    case GovernanceForward(from, receiver) => ForwardGrows(rows, h, ids, from, receiver);
    case GovernanceCancel(from) => CancelGrows(rows, h, ids, from, ForwardedTo(rows, from));
    case _ =>
  }

  /** Each row the table has gained carries the auto-stake and duration its bucket had before. */
  predicate KeepsTerms(rows: seq<Row>, after: seq<Row>) {
    rows <= after && forall i :: |rows| <= i < |after| ==> HasTerms(after[i], Info(rows, after[i].bucket))
  }

  predicate HasTerms(r: Row, info: Row) {
    r.autoStake == info.autoStake && r.duration == info.duration
  }

  lemma {:induction false} LatestKeepsTerms(rows: seq<Row>, after: seq<Row>, b: nat)
    requires KeepsTerms(rows, after)
    ensures HasTerms(Info(after, b), Info(rows, b))
    decreases |after|
  {
    if |after| == |rows| {
      assert after == rows;
    } else {
      var pre := after[..|after| - 1];
      LatestKeepsTerms(rows, pre, b);
    }
  }

  lemma KeepsTermsOn(rows: seq<Row>, pre: seq<Row>, r0: Row, r1: Row)
    requires KeepsTerms(rows, pre) && r0.bucket == r1.bucket
    requires HasTerms(r0, Info(pre, r0.bucket)) && HasTerms(r1, Info(pre, r0.bucket))
    ensures KeepsTerms(rows, pre + [r0, r1])
  {
    LatestKeepsTerms(rows, pre, r0.bucket);
  }

  lemma {:induction false} ForwardTerms(rows: seq<Row>, h: nat, ids: seq<nat>, from: Address, to: Address)
    ensures KeepsTerms(rows, Forward(rows, h, ids, from, to))
  {
    if ids == [] {
    } else {
      var front, b := ids[..|ids| - 1], ids[|ids| - 1];
      var pre := Forward(rows, h, front, from, to);
      ForwardTerms(rows, h, front, from, to);
      var m := Move(pre, h, b, to, Info(pre, b).candidate, to, true);
      KeepsTermsOn(rows, pre, m[0], m[1]);
      assert m == [m[0], m[1]];
    }
  }

  lemma {:induction false} CancelTerms(rows: seq<Row>, h: nat, ids: seq<nat>, from: Address, to: Address)
    ensures KeepsTerms(rows, Cancel(rows, h, ids, from, to))
  {
    if ids == [] {
    } else {
      var front, b := ids[..|ids| - 1], ids[|ids| - 1];
      var pre := Cancel(rows, h, front, from, to);
      CancelTerms(rows, h, front, from, to);
      var m := Return(pre, h, b, from, to);
      KeepsTermsOn(rows, pre, m[0], m[1]);
      assert m == [m[0], m[1]];
    }
  }

  /** Every row of an event other than a create or restake carries on its bucket's auto-stake and duration,
      in both halves of a double entry. */
  lemma RowsCarryTerms(rows: seq<Row>, h: nat, e: Event, ids: seq<nat>)
    requires !e.CreateStake? && !e.Restake?
    ensures KeepsTerms(rows, After(rows, h, e, ids))
  {
    match e
    case GovernanceForward(from, receiver) => ForwardTerms(rows, h, ids, from, receiver);
    case GovernanceCancel(from) => CancelTerms(rows, h, ids, from, ForwardedTo(rows, from));
    case _ =>
  }

  /******* Whole histories *******/

  /** An event handled at a height; `ids` is what the forward query answered. */
  datatype Entry = Entry(height: nat, event: Event, ids: seq<nat>)

  function Replay(entries: seq<Entry>): seq<Row> {
    if entries == [] then []
    else
      var last := entries[|entries| - 1];
      After(Replay(entries[..|entries| - 1]), last.height, last.event, last.ids)
  }

  /** Heights never go back, and forward queries answer from the table as it stands. */
  ghost predicate Genuine(entries: seq<Entry>) {
    entries == [] ||
    var pre, last := entries[..|entries| - 1], entries[|entries| - 1];
    && Genuine(pre)
    && UpTo(Replay(pre), last.height)
    && Answers(Replay(pre), last.height, last.event, last.ids)
  }

  predicate AllKeep(entries: seq<Entry>) {
    entries == [] ||
    (AllKeep(entries[..|entries| - 1]) && Keeps(Replay(entries[..|entries| - 1]), entries[|entries| - 1].event))
  }

  function StakeAfter(entries: seq<Entry>, b: nat): Stake {
    if entries == [] then NO_STAKE
    else Evolve(StakeAfter(entries[..|entries| - 1], b), b, entries[|entries| - 1].event)
  }

  /** In every reachable table each bucket's latest row and sum are its stake; and when every event
      keeps the books, all of a bucket's amount is at that stake's address and candidate. */
  lemma {:induction false} ReachableTables(entries: seq<Entry>)
    requires Genuine(entries)
    ensures forall b :: StakeOf(Replay(entries), b) == StakeAfter(entries, b)
    ensures AllKeep(entries) ==> Balanced(Replay(entries))
  {
    if entries == [] {
    } else {
      var pre, last := entries[..|entries| - 1], entries[|entries| - 1];
      ReachableTables(pre);
      Handled(Replay(pre), last.height, last.event, last.ids);
    }
  }

  ghost predicate AlwaysBalanced(entries: seq<Entry>) {
    Balanced(Replay(entries)) && (entries == [] || AlwaysBalanced(entries[..|entries| - 1]))
  }

  /** The books are balanced after every event exactly when every event keeps them. */
  lemma {:induction false} AlwaysBalancedExactly(entries: seq<Entry>)
    requires Genuine(entries)
    ensures AlwaysBalanced(entries) <==> AllKeep(entries)
  {
    if entries == [] {
    } else {
      var pre, last := entries[..|entries| - 1], entries[|entries| - 1];
      AlwaysBalancedExactly(pre);
      if Balanced(Replay(pre)) {
        BalancedExactly(Replay(pre), last.height, last.event, last.ids);
      }
    }
  }

  /** A stake of `a` whose votes were forwarded to `to` and that `a` then restakes: the row of the restake
      is `a`'s again, but the amount stays with `to`. */
  lemma RestakeAfterForwardBreaks(rows: seq<Row>, h: nat, b: nat, a: Address, c: Address, to: Address,
                                  v: int, auto: bool, days: nat)
    requires Balanced(rows) && SumOf(rows, b) == 0 && UpTo(rows, h) && a != to && v != 0
    ensures exists ids ::
              var created := After(rows, h, CreateStake(b, a, c, v, auto, days), []);
              var forwarded := After(created, h, GovernanceForward(a, to), ids);
              && Answers(created, h, GovernanceForward(a, to), ids) && Balanced(forwarded)
              && !Balanced(After(forwarded, h, Restake(b, a, auto, days), []))
  {
    var create, forward, restake := CreateStake(b, a, c, v, auto, days), GovernanceForward(a, to), Restake(b, a, auto, days);
    var created := After(rows, h, create, []);
    Handled(rows, h, create, []);
    var ids := ListOf(BucketIDs(created, a, h));
    var forwarded := After(created, h, forward, ids);
    Handled(created, h, forward, ids);
    BalancedExactly(forwarded, h, restake, []);
    assert StakeOf(created, b) == Evolve(StakeOf(rows, b), b, create);
    assert StakeOf(forwarded, b) == Evolve(StakeOf(created, b), b, forward);
    assert !Keeps(forwarded, restake);
  }

  lemma {:induction false} ListOf(s: set<nat>) returns (ids: seq<nat>)
    ensures Lists(ids, s)
    decreases s
  {
    if s == {} {
      ids := [];
    } else {
      var b :| b in s;
      ids := ListOf(s - {b});
      ids := ids + [b];
    }
  }

  /******* What the sums mean across buckets *******/

  function Buckets(rows: seq<Row>): set<nat> {
    if rows == [] then {} else Buckets(rows[..|rows| - 1]) + {rows[|rows| - 1].bucket}
  }

  /** `sum(amount) where address = a and candidate = c`. */
  function VotesFor(rows: seq<Row>, a: Address, c: Address): int {
    if rows == [] then 0
    else
      var last := rows[|rows| - 1];
      VotesFor(rows[..|rows| - 1], a, c) + if last.address == a && last.candidate == c then last.amount else 0
  }

  lemma {:induction false} VotesByBucket(rows: seq<Row>, a: Address, c: Address)
    ensures VotesFor(rows, a, c) == SumSet(Buckets(rows), b => AmountAt(rows, b, a, c))
  {
    if rows == [] {
    } else {
      var pre, last := rows[..|rows| - 1], rows[|rows| - 1];
      VotesByBucket(pre, a, c);
      var f, g := (b: nat) => AmountAt(rows, b, a, c), (b: nat) => AmountAt(pre, b, a, c);
      if last.bucket !in Buckets(pre) {
        NothingElsewhere(pre, last.bucket, a, c);
      }
      SumSetBump(Buckets(pre), g, f, last.bucket);
    }
  }

  lemma {:induction false} NothingElsewhere(rows: seq<Row>, b: nat, a: Address, c: Address)
    requires b !in Buckets(rows)
    ensures AmountAt(rows, b, a, c) == 0
  {
    if rows == [] {
    } else {
      NothingElsewhere(rows[..|rows| - 1], b, a, c);
    }
  }

  /** In balanced books an address's votes for a candidate are the amounts of the buckets it holds for
      that candidate, whoever held them before. */
  lemma VotesAreHoldings(rows: seq<Row>, a: Address, c: Address)
    requires Balanced(rows)
    ensures VotesFor(rows, a, c) ==
            SumSet(Buckets(rows), b => if Info(rows, b).address == a && Info(rows, b).candidate == c then SumOf(rows, b) else 0)
  {
    VotesByBucket(rows, a, c);
    var f := (b: nat) => AmountAt(rows, b, a, c);
    var g := (b: nat) => if Info(rows, b).address == a && Info(rows, b).candidate == c then SumOf(rows, b) else 0;
    forall b | b in Buckets(rows) ensures f(b) == g(b) {
      assert PointMass(rows, b);
    }
    SumSetCongruence(Buckets(rows), f, g);
  }

  /******* The plugin *******/

  class Table {
    var rows: seq<Row>

    constructor ()
      ensures rows == []
    {
      rows := [];
    }

    method Create(r: Row)
      modifies this
      ensures rows == old(rows) + [r]
    {
      rows := rows + [r];
    }

    /** The buckets of a forward, in whatever order the query gives them. */
    method GetBucketIDs(a: Address, h: nat) returns (ids: seq<nat>)
      ensures Lists(ids, BucketIDs(rows, a, h))
    {
      ids := [];
      var rest := BucketIDs(rows, a, h);
      while rest != {}
        invariant rest <= BucketIDs(rows, a, h)
        invariant Lists(ids, BucketIDs(rows, a, h) - rest)
      {
        var b :| b in rest;
        ids := ids + [b];
        rest := rest - {b};
      }
      assert BucketIDs(rows, a, h) - rest == BucketIDs(rows, a, h);
    }

    method MoveBucket(h: nat, b: nat, a: Address, c: Address, forwardTo: Address, forwards: bool)
      modifies this
      ensures rows == old(rows) + Move(old(rows), h, b, a, c, forwardTo, forwards)
    {
      var info, sum := Info(rows, b), SumOf(rows, b);
      Create(Row(h, b, info.address, info.candidate, forwardTo, -sum, info.autoStake, info.duration, forwards));
      Create(Row(h, b, a, c, BLANK, sum, info.autoStake, info.duration, forwards));
    }

    method HandleEvent(h: nat, e: Event) returns (ghost ids: seq<nat>)
      requires UpTo(rows, h)
      modifies this
      ensures Answers(old(rows), h, e, ids)
      ensures rows == After(old(rows), h, e, ids)
    {
      ids := [];
      match e
      case CreateStake(b, sender, to, value, auto, days) => Create(Row(h, b, sender, to, BLANK, value, auto, days, false));
      case TransferStake(b, voter) => MoveBucket(h, b, voter, Info(rows, b).candidate, BLANK, false);
      case Restake(b, sender, auto, days) => Create(Row(h, b, sender, Info(rows, b).candidate, BLANK, 0, auto, days, false));
      case ChangeCandidate(b, to) => MoveBucket(h, b, Info(rows, b).address, to, BLANK, false);
      case DepositToStake(b, value) =>
        var info := Info(rows, b);
        Create(Row(h, b, info.address, info.candidate, BLANK, value, info.autoStake, info.duration, false));
      case Unstake(b, sender) =>
        var info, sum := Info(rows, b), SumOf(rows, b);
        Create(Row(h, b, sender, info.candidate, BLANK, -sum, info.autoStake, info.duration, false));
      case GovernanceForward(from, to) =>
        var found := GetBucketIDs(from, h);
        ids := found;
        for i := 0 to |found|
          invariant rows == Forward(old(rows), h, found[..i], from, to)
        {
          assert found[..i + 1][..i] == found[..i];
          var info := Info(rows, found[i]);
          if info.address == from {
            MoveBucket(h, found[i], to, info.candidate, to, true);
          }
        }
        assert found[..|found|] == found;
      case GovernanceCancel(from) =>
        var to := ForwardedTo(rows, from);
        var found := GetBucketIDs(to, h);
        ids := found;
        for i := 0 to |found|
          invariant rows == Cancel(old(rows), h, found[..i], from, to)
        {
          assert found[..i + 1][..i] == found[..i];
          var info, sum := Info(rows, found[i]), SumOf(rows, found[i]);
          if info.address == from {
            Create(Row(h, found[i], to, info.candidate, from, -sum, info.autoStake, info.duration, false));
            Create(Row(h, found[i], info.address, info.candidate, BLANK, sum, info.autoStake, info.duration, false));
          }
        }
        assert found[..|found|] == found;
      case Unrelated =>
    }

    /** The events of a block. Books stay balanced as long as every event keeps them, and every
        bucket's stake is what the events make of it. */
    method HandleBlock(h: nat, events: seq<Event>) returns (ghost trace: seq<seq<Row>>)
      requires UpTo(rows, h)
      modifies this
      ensures |trace| == |events| + 1 && trace[0] == old(rows) && trace[|events|] == rows && UpTo(rows, h)
      ensures Balanced(old(rows)) && (forall i :: 0 <= i < |events| ==> Keeps(trace[i], events[i])) ==> Balanced(rows)
      ensures forall b :: StakeOf(rows, b) == EvolveAll(StakeOf(old(rows), b), b, events)
      ensures GrowsAt(old(rows), rows, h)
    {
      trace := [rows];
      for i := 0 to |events|
        invariant |trace| == i + 1 && trace[0] == old(rows) && trace[i] == rows && UpTo(rows, h)
        invariant Balanced(old(rows)) && (forall j :: 0 <= j < i ==> Keeps(trace[j], events[j])) ==> Balanced(rows)
        invariant forall b :: StakeOf(rows, b) == EvolveAll(StakeOf(old(rows), b), b, events[..i])
        invariant GrowsAt(old(rows), rows, h)
      {
        ghost var before := rows;
        var ids := HandleEvent(h, events[i]);
        Handled(before, h, events[i], ids);
        RowsHaveHeight(before, h, events[i], ids);
        assert events[..i + 1][..i] == events[..i];
        trace := trace + [rows];
      }
      assert events[..|events|] == events;
    }
  }

  function EvolveAll(s: Stake, b: nat, events: seq<Event>): Stake {
    if events == [] then s else Evolve(EvolveAll(s, b, events[..|events| - 1]), b, events[|events| - 1])
  }

  lemma Handled(rows: seq<Row>, h: nat, e: Event, ids: seq<nat>)
    requires UpTo(rows, h)
    requires Answers(rows, h, e, ids)
    ensures UpTo(After(rows, h, e, ids), h)
    ensures Balanced(rows) && Keeps(rows, e) ==> Balanced(After(rows, h, e, ids))
    ensures forall b :: StakeOf(After(rows, h, e, ids), b) == Evolve(StakeOf(rows, b), b, e)
  {
    if e.GovernanceForward? {
      ForwardUpTo(rows, h, ids, e.from, e.receiver);
    }
    if e.GovernanceCancel? {
      CancelUpTo(rows, h, ids, e.from, ForwardedTo(rows, e.from));
    }
    if Balanced(rows) {
      BalancedExactly(rows, h, e, ids);
    }
    forall b ensures StakeOf(After(rows, h, e, ids), b) == Evolve(StakeOf(rows, b), b, e) {
      RowsFollowStakes(rows, h, e, ids, b);
    }
  }

  lemma {:induction false} ForwardUpTo(rows: seq<Row>, h: nat, ids: seq<nat>, from: Address, to: Address)
    requires UpTo(rows, h)
    ensures UpTo(Forward(rows, h, ids, from, to), h)
  {
    if ids == [] {
    } else {
      ForwardUpTo(rows, h, ids[..|ids| - 1], from, to);
    }
  }

  lemma {:induction false} CancelUpTo(rows: seq<Row>, h: nat, ids: seq<nat>, from: Address, to: Address)
    requires UpTo(rows, h)
    ensures UpTo(Cancel(rows, h, ids, from, to), h)
  {
    if ids == [] {
    } else {
      CancelUpTo(rows, h, ids[..|ids| - 1], from, to);
    }
  }
}
