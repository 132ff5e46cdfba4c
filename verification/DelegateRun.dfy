/** One run of the delegate job from its table reads to the tallies. */
module DelegateRun {
  import opened Indexer
  import opened Sums
  import opened DelegateSnapshot
  import opened DelegateGate
  import DelegateMap

  type Id = DelegateMap.Id

  function Without(rows: seq<Row>, bucket: nat): seq<Row> {
    if rows == [] then []
    else
      var last := rows[|rows| - 1];
      Without(rows[..|rows| - 1], bucket) + if last.bucket == bucket then [] else [last]
  }

  /** The latest row of each bucket, as the query by greatest id gives them. */
  function LatestRows(rows: seq<Row>): seq<Row> {
    if rows == [] then []
    else Without(LatestRows(rows[..|rows| - 1]), rows[|rows| - 1].bucket) + [rows[|rows| - 1]]
  }

  lemma {:induction false} WithoutHas(rows: seq<Row>, bucket: nat, r: Row)
    ensures r in Without(rows, bucket) <==> r in rows && r.bucket != bucket
  {
    if rows == [] {
    } else {
      WithoutHas(rows[..|rows| - 1], bucket, r);
      assert rows == rows[..|rows| - 1] + [rows[|rows| - 1]];
    }
  }

  /** They are the rows that the map by bucket holds. */
  lemma {:induction false} LatestRowsAre(rows: seq<Row>, r: Row)
    ensures r in LatestRows(rows) <==> r.bucket in Latest(rows) && Latest(rows)[r.bucket] == r
  {
    if rows == [] {
    } else {
      var pre, last := rows[..|rows| - 1], rows[|rows| - 1];
      LatestRowsAre(pre, r);
      WithoutHas(LatestRows(pre), last.bucket, r);
    }
  }

  function StakingOf(r: Row): DelegateMap.Staking {
    DelegateMap.Staking(r.bucket, DelegateMap.Id(r.owner), DelegateMap.Id(r.delegate), r.autoStake, r.duration)
  }

  function StakingsOf(rows: seq<Row>): seq<DelegateMap.Staking> {
    var latest := LatestRows(rows);
    seq(|latest|, i requires 0 <= i < |latest| => StakingOf(latest[i]))
  }

  function BucketOf(r: Row): DelegateMap.SystemBucket {
    DelegateMap.SystemBucket(DelegateMap.Id(r.delegate), r.amount, r.votingPower)
  }

  function BucketsOf(rows: seq<Row>): seq<DelegateMap.SystemBucket> {
    var latest := LatestRows(rows);
    seq(|latest|, i requires 0 <= i < |latest| => BucketOf(latest[i]))
  }

  /** The contract buckets among the reads. */
  function SystemsOf(hasV3: bool, got: seq<Read>): seq<seq<DelegateMap.SystemBucket>>
    requires |got| == |Sources(hasV3)|
  {
    [BucketsOf(got[2].rows), BucketsOf(got[3].rows)] + if hasV3 then [BucketsOf(got[4].rows)] else []
  }

  /** A delegate's tally as the reads give it. */
  function Tally(hasV3: bool, got: seq<Read>, weigh: DelegateMap.Weigh, c: Id): DelegateMap.Tally
    requires |got| == |Sources(hasV3)|
  {
    DelegateMap.TallyOf(StakingsOf(got[0].rows), DelegateMap.Concat(SystemsOf(hasV3, got)),
                        BucketSums(got[1].rows), weigh, c)
  }

  /******* The tally by rows alone *******/

  /** `sum(amount) where bucket_id = b`. */
  ghost function AmountIn(rows: seq<Row>, b: nat): int {
    SumSeq(rows, (r: Row) => DelegateMap.Only(r.bucket == b, r.amount))
  }

  /** The grouped sums are those of each bucket's rows. */
  lemma {:induction false} BucketSumsAre(rows: seq<Row>, b: nat)
    ensures b in BucketSums(rows) <==> exists i :: 0 <= i < |rows| && rows[i].bucket == b
    ensures AmountIn(rows, b) == if b in BucketSums(rows) then BucketSums(rows)[b] else 0
  {
    if rows == [] {
    } else {
      var n := |rows| - 1;
      var pre := rows[..n];
      BucketSumsAre(pre, b);
      if b in BucketSums(rows) && b != rows[n].bucket {
        var i :| 0 <= i < |pre| && pre[i].bucket == b;
        assert rows[i].bucket == b;
      }
      if i :| 0 <= i < |rows| && rows[i].bucket == b && i < n {
        assert pre[i].bucket == b;
      }
    }
  }

  /** Row `i` is the last of its bucket. */
  predicate IsLast(rows: seq<Row>, i: nat) {
    i < |rows| && forall j :: i < j < |rows| ==> rows[j].bucket != rows[i].bucket
  }

  lemma {:induction false} LatestIsLast(rows: seq<Row>, b: nat) returns (i: nat)
    requires b in Latest(rows)
    ensures IsLast(rows, i) && rows[i].bucket == b && Latest(rows)[b] == rows[i]
  {
    var n := |rows| - 1;
    if rows[n].bucket == b {
      i := n;
    } else {
      i := LatestIsLast(rows[..n], b);
      assert rows[..n][i] == rows[i];
      forall j | i < j < |rows| ensures rows[j].bucket != rows[i].bucket {
        if j < n {
          assert rows[..n][j] == rows[j];
        }
      }
    }
  }

  ghost predicate Distinct(rows: seq<Row>) {
    forall i, j :: 0 <= i < j < |rows| ==> rows[i].bucket != rows[j].bucket
  }

  lemma DistinctSnoc(rows: seq<Row>, r: Row)
    requires Distinct(rows) && forall x :: x in rows ==> x.bucket != r.bucket
    ensures Distinct(rows + [r])
  {
  }

  /** No bucket twice, and these are the rows of the map. */
  ghost predicate Represents(list: seq<Row>, m: map<nat, Row>) {
    && (forall r :: r in list <==> r.bucket in m && m[r.bucket] == r)
    && (forall b :: b in m ==> m[b].bucket == b)
    && Distinct(list)
  }

  lemma {:induction false} WithoutDistinct(rows: seq<Row>, bucket: nat)
    requires Distinct(rows)
    ensures Distinct(Without(rows, bucket))
  {
    if rows == [] {
    } else {
      var pre, last := rows[..|rows| - 1], rows[|rows| - 1];
      WithoutDistinct(pre, bucket);
      forall r | r in Without(pre, bucket) ensures r.bucket != last.bucket {
        WithoutHas(pre, bucket, r);
      }
      DistinctSnoc(Without(pre, bucket), last);
      assert Without(pre, bucket) + [] == Without(pre, bucket);
    }
  }

  lemma {:induction false} LatestRowsDistinct(rows: seq<Row>)
    ensures Distinct(LatestRows(rows))
  {
    if rows == [] {
    } else {
      var pre, last := rows[..|rows| - 1], rows[|rows| - 1];
      LatestRowsDistinct(pre);
      WithoutDistinct(LatestRows(pre), last.bucket);
      forall r | r in Without(LatestRows(pre), last.bucket) ensures r.bucket != last.bucket {
        WithoutHas(LatestRows(pre), last.bucket, r);
      }
      DistinctSnoc(Without(LatestRows(pre), last.bucket), last);
    }
  }

  lemma {:induction false} LatestKeys(rows: seq<Row>)
    ensures forall b :: b in Latest(rows) ==> Latest(rows)[b].bucket == b
  {
    if rows == [] {
    } else {
      LatestKeys(rows[..|rows| - 1]);
    }
  }

  lemma LatestRowsRepresent(rows: seq<Row>)
    ensures Represents(LatestRows(rows), Latest(rows))
  {
    forall r ensures r in LatestRows(rows) <==> r.bucket in Latest(rows) && Latest(rows)[r.bucket] == r {
      LatestRowsAre(rows, r);
    }
    LatestRowsDistinct(rows);
    LatestKeys(rows);
  }

  ghost function AtBucket(m: map<nat, Row>, f: Row -> int): nat -> int {
    b => if b in m then f(m[b]) else 0
  }

  lemma ListedButLast(list: seq<Row>, m: map<nat, Row>)
    requires Represents(list, m) && list != []
    ensures var n := |list| - 1;
            list[n].bucket in m && m[list[n].bucket] == list[n] && Represents(list[..n], m - {list[n].bucket})
  {
    var n := |list| - 1;
    var pre, last, less := list[..n], list[n], m - {list[n].bucket};
    assert list == pre + [last];
    assert last in list;
    forall r ensures r in pre <==> r.bucket in less && less[r.bucket] == r {
      if r in pre {
        var i :| 0 <= i < n && pre[i] == r;
        assert list[i].bucket != last.bucket;
        assert r in list;
      }
    }
  }

  lemma AllListed(list: seq<Row>, m: map<nat, Row>)
    requires Represents(list, m)
    ensures forall b :: b in m ==> m[b] in list
  {
  }

  /** Adding up over the rows of a map is adding up over its buckets. */
  lemma {:induction false} SumByBucket(list: seq<Row>, m: map<nat, Row>, f: Row -> int)
    requires Represents(list, m)
    ensures SumSeq(list, f) == SumSet(m.Keys, AtBucket(m, f))
  {
    if list == [] {
      AllListed(list, m);
    } else {
      var n := |list| - 1;
      var b := list[n].bucket;
      ListedButLast(list, m);
      var less := m - {b};
      SumByBucket(list[..n], less, f);
      SumSetRemove(m.Keys, AtBucket(m, f), b);
      assert less.Keys == m.Keys - {b};
      SumSetCongruence(less.Keys, AtBucket(m, f), AtBucket(less, f));
    }
  }

  /** `f` added up over the latest rows of all buckets. */
  ghost function OverBuckets(rows: seq<Row>, f: Row -> int): int {
    SumSet(Latest(rows).Keys, AtBucket(Latest(rows), f))
  }

  /** What a delegate gets for a native bucket whose latest row names it: the sum of the bucket's amounts. */
  ghost function NativeStake(all: seq<Row>, c: Id): Row -> int {
    (r: Row) => if DelegateMap.Id(r.delegate) == c then AmountIn(all, r.bucket) else 0
  }

  ghost function NativeWeight(all: seq<Row>, weigh: DelegateMap.Weigh, c: Id): Row -> int {
    (r: Row) => if DelegateMap.Id(r.delegate) == c
                then weigh(AmountIn(all, r.bucket), r.autoStake, r.duration, r.owner == r.delegate) else 0
  }

  ghost function ContractStake(c: Id): Row -> int {
    (r: Row) => if DelegateMap.Id(r.delegate) == c then r.amount else 0
  }

  ghost function ContractWeight(c: Id): Row -> int {
    (r: Row) => if DelegateMap.Id(r.delegate) == c then r.votingPower else 0
  }

  ghost function OverContracts(hasV3: bool, got: seq<Read>, f: Row -> int): int
    requires |got| == |Sources(hasV3)|
  {
    OverBuckets(got[2].rows, f) + OverBuckets(got[3].rows, f) + if hasV3 then OverBuckets(got[4].rows, f) else 0
  }

  /** A delegate's tally in terms of the rows read. */
  ghost function TallyOfRows(hasV3: bool, got: seq<Read>, weigh: DelegateMap.Weigh, c: Id): DelegateMap.Tally
    requires |got| == |Sources(hasV3)|
  {
    DelegateMap.Tally(
      OverBuckets(got[0].rows, NativeStake(got[1].rows, c)) + OverContracts(hasV3, got, ContractStake(c)),
      OverBuckets(got[0].rows, NativeWeight(got[1].rows, weigh, c)) + OverContracts(hasV3, got, ContractWeight(c)))
  }

  lemma NativeRows(rows: seq<Row>, f: Row -> int, g: DelegateMap.Staking -> int)
    requires forall r: Row :: g(StakingOf(r)) == f(r)
    ensures SumSeq(StakingsOf(rows), g) == OverBuckets(rows, f)
  {
    SumSeqPointwise(StakingsOf(rows), LatestRows(rows), g, f);
    LatestRowsRepresent(rows);
    SumByBucket(LatestRows(rows), Latest(rows), f);
  }

  lemma ContractRows(rows: seq<Row>, f: Row -> int, g: DelegateMap.SystemBucket -> int)
    requires forall r: Row :: g(BucketOf(r)) == f(r)
    ensures SumSeq(BucketsOf(rows), g) == OverBuckets(rows, f)
  {
    SumSeqPointwise(BucketsOf(rows), LatestRows(rows), g, f);
    LatestRowsRepresent(rows);
    SumByBucket(LatestRows(rows), Latest(rows), f);
  }

  lemma ConcatSnoc(lists: seq<seq<DelegateMap.SystemBucket>>, x: seq<DelegateMap.SystemBucket>, g: DelegateMap.SystemBucket -> int)
    ensures SumSeq(DelegateMap.Concat(lists + [x]), g) == SumSeq(DelegateMap.Concat(lists), g) + SumSeq(x, g)
  {
    assert (lists + [x])[..|lists|] == lists;
    SumSeqAppend(DelegateMap.Concat(lists), x, g);
  }

  lemma ContractSum(hasV3: bool, got: seq<Read>, f: Row -> int, g: DelegateMap.SystemBucket -> int)
    requires |got| == |Sources(hasV3)| && forall r: Row :: g(BucketOf(r)) == f(r)
    ensures SumSeq(DelegateMap.Concat(SystemsOf(hasV3, got)), g) == OverContracts(hasV3, got, f)
  {
    var v1, v2 := BucketsOf(got[2].rows), BucketsOf(got[3].rows);
    ConcatSnoc([], v1, g);
    ConcatSnoc([v1], v2, g);
    assert [] + [v1] == [v1] && [v1] + [v2] == [v1, v2];
    ContractRows(got[2].rows, f, g);
    ContractRows(got[3].rows, f, g);
    if hasV3 {
      ConcatSnoc([v1, v2], BucketsOf(got[4].rows), g);
      ContractRows(got[4].rows, f, g);
    } else {
      assert SystemsOf(hasV3, got) == [v1, v2];
    }
  }

  lemma StakeIsOfRows(hasV3: bool, got: seq<Read>, weigh: DelegateMap.Weigh, c: Id)
    requires |got| == |Sources(hasV3)|
    ensures Tally(hasV3, got, weigh, c).stake == TallyOfRows(hasV3, got, weigh, c).stake
  {
    var amounts, f := BucketSums(got[1].rows), NativeStake(got[1].rows, c);
    var g := (s: DelegateMap.Staking) => DelegateMap.Only(s.candidate == c, DelegateMap.AmountOf(amounts, s.bucket));
    forall r: Row ensures g(StakingOf(r)) == f(r) {
      BucketSumsAre(got[1].rows, r.bucket);
    }
    NativeRows(got[0].rows, f, g);
    ContractSum(hasV3, got, ContractStake(c), (b: DelegateMap.SystemBucket) => DelegateMap.Only(b.delegateOwner == c, b.staked));
  }

  lemma WeightIsOfRows(hasV3: bool, got: seq<Read>, weigh: DelegateMap.Weigh, c: Id)
    requires |got| == |Sources(hasV3)|
    ensures Tally(hasV3, got, weigh, c).weight == TallyOfRows(hasV3, got, weigh, c).weight
  {
    var amounts, f := BucketSums(got[1].rows), NativeWeight(got[1].rows, weigh, c);
    var g := (s: DelegateMap.Staking) => DelegateMap.Only(s.candidate == c, DelegateMap.WeightOf(weigh, amounts, s));
    forall r: Row ensures g(StakingOf(r)) == f(r) {
      BucketSumsAre(got[1].rows, r.bucket);
    }
    NativeRows(got[0].rows, f, g);
    ContractSum(hasV3, got, ContractWeight(c), (b: DelegateMap.SystemBucket) => DelegateMap.Only(b.delegateOwner == c, b.votingPower));
  }

  /** The tally made of grouped sums and picked columns is the one in terms of rows. */
  lemma TallyIsOfRows(hasV3: bool, got: seq<Read>, weigh: DelegateMap.Weigh, c: Id)
    requires |got| == |Sources(hasV3)|
    ensures Tally(hasV3, got, weigh, c) == TallyOfRows(hasV3, got, weigh, c)
  {
    StakeIsOfRows(hasV3, got, weigh, c);
    WeightIsOfRows(hasV3, got, weigh, c);
  }

  /** The reads that a chain frozen at height `h` would give. */
  function ChainReads(chain: Chain, hasV3: bool, h: nat): seq<Read> {
    seq(|Sources(hasV3)|, i requires 0 <= i < |Sources(hasV3)| =>
      Read(Sources(hasV3)[i], Prefix(chain, Sources(hasV3)[i], h)))
  }

  /** The reads that the tables as they stand would give. */
  function StoredReads(chain: Chain, hasV3: bool, w: World, h: nat): seq<Read> {
    seq(|Sources(hasV3)|, i requires 0 <= i < |Sources(hasV3)| =>
      Read(Sources(hasV3)[i], UpTo(Table(chain, w, Sources(hasV3)[i]), h)))
  }

  /** No table the job reads lacks rows of a block up to `h`. */
  ghost predicate NothingLost(chain: Chain, hasV3: bool, w: World, h: nat) {
    forall i :: 0 <= i < |Sources(hasV3)| ==> NoRowsLost(chain, Sources(hasV3)[i], LogOf(w, Sources(hasV3)[i]), h)
  }

  lemma StoredAreChainsExactly(chain: Chain, hasV3: bool, w: World, h: nat)
    requires Honest(chain) && AllAscending(w)
    ensures StoredReads(chain, hasV3, w, h) == ChainReads(chain, hasV3, h) <==> NothingLost(chain, hasV3, w, h)
  {
    var a, b := StoredReads(chain, hasV3, w, h), ChainReads(chain, hasV3, h);
    forall i | 0 <= i < |Sources(hasV3)|
      ensures a[i] == b[i] <==> NoRowsLost(chain, Sources(hasV3)[i], LogOf(w, Sources(hasV3)[i]), h)
    {
      ReadIsChainExactly(chain, Sources(hasV3)[i], LogOf(w, Sources(hasV3)[i]), h);
    }
  }

  lemma ReadsAreStored(deps: Deps, chain: Chain, hasV3: bool, moves: seq<Move>)
    requires Honest(chain) && RunAll(deps, chain, hasV3, moves).Some?
    requires AllAscending(RunAll(deps, chain, hasV3, moves).value.world)
    ensures var s := RunAll(deps, chain, hasV3, moves).value;
            s.job.Reading? && |s.job.got| == |Sources(hasV3)| ==>
              s.job.got == StoredReads(chain, hasV3, s.world, s.job.height)
  {
    ReadsAreOneSnapshot(deps, chain, hasV3, moves);
  }

  /** When every latest native row has an amount, only an unknown candidate can make the tally fail. */
  lemma OnlyCandidatesMissing(rows: seq<Row>, sums: map<nat, int>, candidates: seq<Id>)
    requires Latest(rows).Keys <= sums.Keys
    ensures DelegateMap.Complete(StakingsOf(rows), candidates, sums) <==>
            forall r :: r in LatestRows(rows) ==> DelegateMap.Id(r.delegate) in candidates
  {
    var latest, stakings := LatestRows(rows), StakingsOf(rows);
    forall i | 0 <= i < |latest| ensures stakings[i].bucket in sums {
      LatestRowsAre(rows, latest[i]);
    }
    if DelegateMap.Complete(stakings, candidates, sums) {
      forall r | r in latest ensures DelegateMap.Id(r.delegate) in candidates {
        var i :| 0 <= i < |latest| && latest[i] == r;
        assert stakings[i].candidate in candidates;
      }
    }
  }

  /** Once the job has read its tables, in every interleaving whatever: it fails exactly when a bucket's
      candidate is unknown, and otherwise gives every candidate the stake and weight of the rows naming it,
      the total being the sum of the weights. The one height is what staking_actions had committed when the
      job started. Where no batch goes back, the reads are the tables as they stand, and they are
      those of the chain at the one height exactly when no rows up to it were lost. */
  method TallyDelegates(ghost deps: Deps, ghost chain: Chain, hasV3: bool, ghost moves: seq<Move>, got: seq<Read>,
                        candidates: seq<Id>, weigh: DelegateMap.Weigh)
    returns (ok: bool, board: DelegateMap.Board, totalVotes: int)
    requires RunAll(deps, chain, hasV3, moves).Some? && RunAll(deps, chain, hasV3, moves).value.job.Reading?
    requires got == RunAll(deps, chain, hasV3, moves).value.job.got && |got| == |Sources(hasV3)|
    ensures ok <==> forall r :: r in LatestRows(got[0].rows) ==> DelegateMap.Id(r.delegate) in candidates
    ensures ok ==> forall c :: c in board <==> c in candidates
    ensures ok ==> forall c :: c in board ==> board[c] == TallyOfRows(hasV3, got, weigh, c)
    ensures ok ==> totalVotes == DelegateMap.TotalWeight(board)
    ensures exists k: nat ::
              StartedAt(deps, chain, hasV3, moves, k)
              && RunAll(deps, chain, hasV3, moves).value.job.height ==
                 Committed(RunAll(deps, chain, hasV3, moves[..k]).value.world, NATIVE)
    ensures var s := RunAll(deps, chain, hasV3, moves).value;
            Honest(chain) && AllAscending(s.world) ==>
              && got == StoredReads(chain, hasV3, s.world, s.job.height)
              && (got == ChainReads(chain, hasV3, s.job.height) <==> NothingLost(chain, hasV3, s.world, s.job.height))
  {
    ghost var s := RunAll(deps, chain, hasV3, moves).value;
    ghost var started := HeightIsNatives(deps, chain, hasV3, moves);
    if Honest(chain) && AllAscending(s.world) {
      ReadsAreStored(deps, chain, hasV3, moves);
      StoredAreChainsExactly(chain, hasV3, s.world, s.job.height);
    }
    NoBucketAmountMissing(deps, chain, hasV3, moves);
    OnlyCandidatesMissing(got[0].rows, BucketSums(got[1].rows), candidates);
    var tallying := new DelegateMap.Tallying();
    ok := tallying.GetDelegateMap(StakingsOf(got[0].rows), SystemsOf(hasV3, got), candidates, BucketSums(got[1].rows), weigh);
    board, totalVotes := tallying.delegates, tallying.totalVotes;
    forall c | ok && c in board ensures board[c] == TallyOfRows(hasV3, got, weigh, c) {
      TallyIsOfRows(hasV3, got, weigh, c);
    }
  }
}
