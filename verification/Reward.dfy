/** Rewards of a block: payouts by address for each grant-reward receipt, then block totals. */
module Reward {
  import opened Wrappers
  import opened Sums

  /** An address, in a record of its own, so that comparing two of them never looks into the text. */
  datatype Address = Address(text: string)

  datatype Kind = BlockReward | EpochReward | FoundationBonus | PriorityBonus | UnproductiveSlash | Diagnostic | Unknown

  /** A reward log; an amount that is no decimal number is None. */
  datatype RewardLog = RewardLog(kind: Kind, address: Address, amount: Option<int>)

  /** A receipt log: its topic count, and its data as reward logs (None when they do not decode). */
  datatype Log = Log(topics: nat, decoded: Option<seq<RewardLog>>)

  datatype Receipt = Receipt(grants: bool, gasConsumed: nat, logs: seq<Log>)

  datatype Info = Info(block: int, epoch: int, foundation: int, priority: int, slash: int)

  function Field(i: Info, k: Kind): int {
    match k
    case BlockReward => i.block
    case EpochReward => i.epoch
    case FoundationBonus => i.foundation
    case PriorityBonus => i.priority
    case UnproductiveSlash => i.slash
    case _ => 0
  }

  predicate IsPayout(k: Kind) {
    !k.Diagnostic? && !k.Unknown?
  }

  /** The reward logs of a receipt that count: those of logs without topics. None when one fails to decode. */
  function RewardLogs(logs: seq<Log>): Option<seq<RewardLog>> {
    if logs == [] then Some([])
    else
      var pre :- RewardLogs(logs[..|logs| - 1]);
      var last := logs[|logs| - 1];
      if last.topics != 0 then Some(pre)
      else
        var more :- last.decoded;
        Some(pre + more)
  }

  /** Every payout has an amount. */
  predicate Readable(xs: seq<RewardLog>) {
    forall i :: 0 <= i < |xs| && IsPayout(xs[i].kind) ==> xs[i].amount.Some?
  }

  function AmountOf(x: RewardLog): int {
    if x.amount.Some? then x.amount.value else 0
  }

  function PaidTo(k: Kind, a: Address): RewardLog -> int {
    (x: RewardLog) => if x.kind == k && x.address == a then AmountOf(x) else 0
  }

  function Paid(k: Kind): RewardLog -> int {
    (x: RewardLog) => if x.kind == k then AmountOf(x) else 0
  }

  /** The addresses of payout logs; diagnostic and unknown logs add none. */
  function Payees(xs: seq<RewardLog>): set<Address> {
    if xs == [] then {}
    else
      var x := xs[|xs| - 1];
      Payees(xs[..|xs| - 1]) + if IsPayout(x.kind) then {x.address} else {}
  }

  /** The rewards of a list of logs: its payees, each with the sum of its payouts of every kind. */
  ghost predicate IsRewards(m: map<Address, Info>, xs: seq<RewardLog>) {
    && m.Keys == Payees(xs)
    && forall a, k :: a in m && IsPayout(k) ==> Field(m[a], k) == SumSeq(xs, PaidTo(k, a))
  }

  lemma {:induction false} NothingPaid(xs: seq<RewardLog>, a: Address, k: Kind)
    requires a !in Payees(xs) && IsPayout(k)
    ensures SumSeq(xs, PaidTo(k, a)) == 0
  {
    if xs == [] {
    } else {
      NothingPaid(xs[..|xs| - 1], a, k);
    }
  }

  lemma SumSnoc(xs: seq<RewardLog>, x: RewardLog, f: RewardLog -> int)
    ensures SumSeq(xs + [x], f) == SumSeq(xs, f) + f(x)
  {
    assert (xs + [x])[..|xs|] == xs;
  }

  function Added(i: Info, k: Kind, v: int): Info {
    match k
    case BlockReward => i.(block := i.block + v)
    case EpochReward => i.(epoch := i.epoch + v)
    case FoundationBonus => i.(foundation := i.foundation + v)
    case PriorityBonus => i.(priority := i.priority + v)
    case UnproductiveSlash => i.(slash := i.slash + v)
    case _ => i
  }

  lemma AddedIsRewards(m: map<Address, Info>, xs: seq<RewardLog>, x: RewardLog)
    requires IsRewards(m, xs) && IsPayout(x.kind) && x.amount.Some?
    ensures var was := if x.address in m then m[x.address] else Info(0, 0, 0, 0, 0);
            IsRewards(m[x.address := Added(was, x.kind, x.amount.value)], xs + [x])
  {
    var was := if x.address in m then m[x.address] else Info(0, 0, 0, 0, 0);
    var n := m[x.address := Added(was, x.kind, x.amount.value)];
    assert (xs + [x])[..|xs|] == xs;
    assert n.Keys == Payees(xs + [x]);
    forall a, k | a in n && IsPayout(k) ensures Field(n[a], k) == SumSeq(xs + [x], PaidTo(k, a)) {
      SumSnoc(xs, x, PaidTo(k, a));
      if a !in m {
        NothingPaid(xs, a, k);
      }
    }
  }

  lemma SkippedIsRewards(m: map<Address, Info>, xs: seq<RewardLog>, x: RewardLog)
    requires IsRewards(m, xs) && !IsPayout(x.kind)
    ensures IsRewards(m, xs + [x])
  {
    assert (xs + [x])[..|xs|] == xs;
    forall a, k | a in m && IsPayout(k) ensures Field(m[a], k) == SumSeq(xs + [x], PaidTo(k, a)) {
      SumSnoc(xs, x, PaidTo(k, a));
    }
  }

  lemma {:induction false} DecodePrefixFails(logs: seq<Log>, n: nat)
    requires n <= |logs|
    ensures RewardLogs(logs[..n]).None? ==> RewardLogs(logs).None?
    ensures RewardLogs(logs).Some? ==> RewardLogs(logs[..n]).Some? && RewardLogs(logs[..n]).value <= RewardLogs(logs).value
    decreases |logs|
  {
    if n == |logs| {
      assert logs[..n] == logs;
    } else {
      assert logs[..|logs| - 1][..n] == logs[..n];
      DecodePrefixFails(logs[..|logs| - 1], n);
    }
  }

  /******* Which reward logs count *******/

  /** `f` added up over the reward logs in the topic-free logs of a receipt. */
  function OverLogs(logs: seq<Log>, f: RewardLog -> int): int {
    SumSeq(logs, (l: Log) => if l.topics == 0 && l.decoded.Some? then SumSeq(l.decoded.value, f) else 0)
  }

  /** The reward log lies in a topic-free log. */
  predicate Lies(logs: seq<Log>, x: RewardLog) {
    exists i :: 0 <= i < |logs| && logs[i].topics == 0 && logs[i].decoded.Some? && x in logs[i].decoded.value
  }

  predicate Garbled(logs: seq<Log>) {
    exists i :: 0 <= i < |logs| && logs[i].topics == 0 && logs[i].decoded.None?
  }

  lemma {:induction false} LogsCount(logs: seq<Log>, f: RewardLog -> int)
    ensures RewardLogs(logs).None? <==> Garbled(logs)
    ensures RewardLogs(logs).Some? ==> SumSeq(RewardLogs(logs).value, f) == OverLogs(logs, f)
  {
    if logs == [] {
    } else {
      var n := |logs| - 1;
      var pre := logs[..n];
      LogsCount(pre, f);
      if Garbled(pre) {
        var i :| 0 <= i < n && pre[i].topics == 0 && pre[i].decoded.None?;
        assert logs[i] == pre[i];
      }
      if RewardLogs(logs).Some? && logs[n].topics == 0 {
        SumSeqAppend(RewardLogs(pre).value, logs[n].decoded.value, f);
      }
    }
  }

  lemma {:induction false} LogsLie(logs: seq<Log>, x: RewardLog)
    requires RewardLogs(logs).Some?
    ensures x in RewardLogs(logs).value <==> Lies(logs, x)
  {
    if logs == [] {
    } else {
      var n := |logs| - 1;
      var pre := logs[..n];
      LogsLie(pre, x);
      if Lies(pre, x) {
        var i :| 0 <= i < n && pre[i].topics == 0 && pre[i].decoded.Some? && x in pre[i].decoded.value;
        assert logs[i] == pre[i];
      }
    }
  }

  /** Block, epoch, foundation and priority rewards pay the address, a slash charges it. */
  predicate Concerns(x: RewardLog, a: Address) {
    x.address == a
    && (x.kind.BlockReward? || x.kind.EpochReward? || x.kind.FoundationBonus? || x.kind.PriorityBonus?
        || x.kind.UnproductiveSlash?)
  }

  lemma {:induction false} PayeesAre(xs: seq<RewardLog>, a: Address)
    ensures a in Payees(xs) <==> exists x :: x in xs && Concerns(x, a)
  {
    if xs == [] {
    } else {
      var pre, last := xs[..|xs| - 1], xs[|xs| - 1];
      PayeesAre(pre, a);
      assert xs == pre + [last];
      assert last in xs;
    }
  }

  /** The five sums of an address over a receipt's logs. */
  function InfoOf(logs: seq<Log>, a: Address): Info {
    Info(OverLogs(logs, PaidTo(BlockReward, a)), OverLogs(logs, PaidTo(EpochReward, a)),
         OverLogs(logs, PaidTo(FoundationBonus, a)), OverLogs(logs, PaidTo(PriorityBonus, a)),
         OverLogs(logs, PaidTo(UnproductiveSlash, a)))
  }

  lemma InfoIs(m: map<Address, Info>, logs: seq<Log>, a: Address)
    requires RewardLogs(logs).Some? && IsRewards(m, RewardLogs(logs).value) && a in m
    ensures m[a] == InfoOf(logs, a)
  {
    LogsCount(logs, PaidTo(BlockReward, a));
    LogsCount(logs, PaidTo(EpochReward, a));
    LogsCount(logs, PaidTo(FoundationBonus, a));
    LogsCount(logs, PaidTo(PriorityBonus, a));
    LogsCount(logs, PaidTo(UnproductiveSlash, a));
    assert m[a].block == Field(m[a], BlockReward) && m[a].epoch == Field(m[a], EpochReward);
    assert m[a].foundation == Field(m[a], FoundationBonus) && m[a].priority == Field(m[a], PriorityBonus);
    assert m[a].slash == Field(m[a], UnproductiveSlash);
  }

  /** An address is listed exactly when a reward, bonus or slash of it lies in a topic-free log, and then
      with its five sums over those logs. */
  ghost predicate HasSums(m: map<Address, Info>, logs: seq<Log>, a: Address) {
    && (a in m <==> exists x :: Lies(logs, x) && Concerns(x, a))
    && (a in m ==> m[a] == InfoOf(logs, a))
  }

  lemma RewardsAreOfLogs(m: map<Address, Info>, logs: seq<Log>, a: Address)
    requires RewardLogs(logs).Some? && IsRewards(m, RewardLogs(logs).value)
    ensures HasSums(m, logs, a)
  {
    var xs := RewardLogs(logs).value;
    PayeesAre(xs, a);
    forall x ensures x in xs <==> Lies(logs, x) {
      LogsLie(logs, x);
    }
    if a in m {
      InfoIs(m, logs, a);
    }
  }

  /** Fails exactly when a log without topics does not decode or a payout has no amount. */
  method RewardInfoFromReceipt(logs: seq<Log>) returns (r: Option<map<Address, Info>>)
    ensures r.Some? <==> RewardLogs(logs).Some? && Readable(RewardLogs(logs).value)
    ensures r.Some? <==> !Garbled(logs) && !Unpayable(logs)
    ensures r.Some? ==> IsRewards(r.value, RewardLogs(logs).value)
    ensures r.Some? ==> forall a :: HasSums(r.value, logs, a)
  {
    LogsCount(logs, Paid(BlockReward));
    if RewardLogs(logs).Some? {
      ReadableExactly(logs);
    }
    var m: map<Address, Info> := map[];
    for i := 0 to |logs|
      invariant RewardLogs(logs[..i]).Some? && Readable(RewardLogs(logs[..i]).value)
      invariant IsRewards(m, RewardLogs(logs[..i]).value)
    {
      assert logs[..i + 1][..i] == logs[..i];
      DecodePrefixFails(logs, i + 1);
      if logs[i].topics != 0 {
        continue;
      }
      if logs[i].decoded.None? {
        return None;
      }
      var more;
      more := AddLogs(m, logs[i].decoded.value, RewardLogs(logs[..i]).value);
      if more.None? {
        UnreadablePrefix(logs, i + 1);
        return None;
      }
      m := more.value;
    }
    assert logs[..|logs|] == logs;
    forall a ensures HasSums(m, logs, a) {
      RewardsAreOfLogs(m, logs, a);
    }
    return Some(m);
  }

  lemma UnreadablePrefix(logs: seq<Log>, n: nat)
    requires n <= |logs| && RewardLogs(logs[..n]).Some? && !Readable(RewardLogs(logs[..n]).value)
    ensures RewardLogs(logs).Some? ==> !Readable(RewardLogs(logs).value)
  {
    DecodePrefixFails(logs, n);
    if RewardLogs(logs).Some? {
      var xs, ys := RewardLogs(logs[..n]).value, RewardLogs(logs).value;
      var i :| 0 <= i < |xs| && IsPayout(xs[i].kind) && xs[i].amount.None?;
      assert ys[i] == xs[i];
    }
  }

  method AddLogs(before: map<Address, Info>, xs: seq<RewardLog>, ghost seen: seq<RewardLog>)
    returns (r: Option<map<Address, Info>>)
    requires IsRewards(before, seen) && Readable(seen)
    ensures r.Some? <==> Readable(seen + xs)
    ensures r.Some? ==> IsRewards(r.value, seen + xs)
  {
    var m := before;
    assert seen + xs[..0] == seen;
    for j := 0 to |xs|
      invariant Readable(seen + xs[..j]) && IsRewards(m, seen + xs[..j])
    {
      var x := xs[j];
      assert seen + xs[..j + 1] == (seen + xs[..j]) + [x];
      if !IsPayout(x.kind) {
        SkippedIsRewards(m, seen + xs[..j], x);
        continue;
      }
      if x.amount.None? {
        assert (seen + xs)[|seen| + j] == x;
        return None;
      }
      AddedIsRewards(m, seen + xs[..j], x);
      var was := if x.address in m then m[x.address] else Info(0, 0, 0, 0, 0);
      m := m[x.address := Added(was, x.kind, x.amount.value)];
    }
    assert xs[..|xs|] == xs;
    return Some(m);
  }

  /******* Block totals *******/

  ghost function ByPayee(xs: seq<RewardLog>, k: Kind): Address -> int {
    a => SumSeq(xs, PaidTo(k, a))
  }

  /** Adding up a kind over the payees is adding it up over the logs. */
  lemma {:induction false} PayeesSum(xs: seq<RewardLog>, k: Kind)
    requires IsPayout(k)
    ensures SumSet(Payees(xs), ByPayee(xs, k)) == SumSeq(xs, Paid(k))
  {
    if xs == [] {
    } else {
      var pre, x := xs[..|xs| - 1], xs[|xs| - 1];
      PayeesSum(pre, k);
      PayeesStep(pre, x, xs, k);
    }
  }

  lemma PayeesStep(pre: seq<RewardLog>, x: RewardLog, xs: seq<RewardLog>, k: Kind)
    requires xs != [] && pre == xs[..|xs| - 1] && x == xs[|xs| - 1] && IsPayout(k)
    ensures SumSet(Payees(xs), ByPayee(xs, k)) == SumSet(Payees(pre), ByPayee(pre, k)) + Paid(k)(x)
  {
    var f, g := ByPayee(pre, k), ByPayee(xs, k);
    assert forall a :: g(a) == f(a) + PaidTo(k, a)(x);
    if IsPayout(x.kind) {
      if x.address !in Payees(pre) {
        NothingPaid(pre, x.address, k);
      }
      SumSetBump(Payees(pre), f, g, x.address);
      assert Payees(xs) == Payees(pre) + {x.address};
    } else {
      SumSetCongruence(Payees(pre), f, g);
      assert Payees(xs) == Payees(pre);
    }
  }

  /** The four totals of a block; slashes are not among them. */
  datatype Totals = Totals(block: int, epoch: int, foundation: int, priority: int)

  function TotalsOf(xs: seq<RewardLog>): Totals {
    Totals(SumSeq(xs, Paid(BlockReward)), SumSeq(xs, Paid(EpochReward)),
           SumSeq(xs, Paid(FoundationBonus)), SumSeq(xs, Paid(PriorityBonus)))
  }

  /** The reward logs of a block's grant-reward receipts. */
  function BlockLogs(receipts: seq<Receipt>): Option<seq<RewardLog>> {
    if receipts == [] then Some([])
    else
      var pre :- BlockLogs(receipts[..|receipts| - 1]);
      var last := receipts[|receipts| - 1];
      if !last.grants then Some(pre)
      else
        var more :- RewardLogs(last.logs);
        if Readable(more) then Some(pre + more) else None
  }

  /** `f` added up over the reward logs of the block's grant-reward receipts. */
  function OverBlock(receipts: seq<Receipt>, f: RewardLog -> int): int {
    SumSeq(receipts, (r: Receipt) => if r.grants then OverLogs(r.logs, f) else 0)
  }

  /** A grant-reward receipt with an undecodable topic-free log, or with a payout there without amount. */
  predicate Spoiled(r: Receipt) {
    r.grants && (Garbled(r.logs) || Unpayable(r.logs))
  }

  predicate AnySpoiled(receipts: seq<Receipt>) {
    exists i :: 0 <= i < |receipts| && Spoiled(receipts[i])
  }

  predicate Unpayable(logs: seq<Log>) {
    exists i :: 0 <= i < |logs| && logs[i].topics == 0 && logs[i].decoded.Some? && !Readable(logs[i].decoded.value)
  }

  lemma ReadableAppend(xs: seq<RewardLog>, ys: seq<RewardLog>)
    ensures Readable(xs + ys) <==> Readable(xs) && Readable(ys)
  {
    var all := xs + ys;
    if Readable(all) {
      forall i | 0 <= i < |xs| && IsPayout(xs[i].kind) ensures xs[i].amount.Some? {
        assert all[i] == xs[i];
      }
      forall i | 0 <= i < |ys| && IsPayout(ys[i].kind) ensures ys[i].amount.Some? {
        assert all[|xs| + i] == ys[i];
      }
    }
  }

  lemma {:induction false} ReadableExactly(logs: seq<Log>)
    requires RewardLogs(logs).Some?
    ensures Readable(RewardLogs(logs).value) <==> !Unpayable(logs)
  {
    if logs == [] {
    } else {
      var n := |logs| - 1;
      var pre := logs[..n];
      ReadableExactly(pre);
      if logs[n].topics == 0 {
        ReadableAppend(RewardLogs(pre).value, logs[n].decoded.value);
      }
      if Unpayable(pre) {
        var i :| 0 <= i < n && pre[i].topics == 0 && pre[i].decoded.Some? && !Readable(pre[i].decoded.value);
        assert logs[i] == pre[i];
      }
    }
  }

  lemma {:induction false} BlockCounts(receipts: seq<Receipt>, f: RewardLog -> int)
    ensures BlockLogs(receipts).None? <==> AnySpoiled(receipts)
    ensures BlockLogs(receipts).Some? ==> SumSeq(BlockLogs(receipts).value, f) == OverBlock(receipts, f)
  {
    if receipts == [] {
    } else {
      var n := |receipts| - 1;
      var pre, last := receipts[..n], receipts[n];
      BlockCounts(pre, f);
      LogsCount(last.logs, f);
      if RewardLogs(last.logs).Some? {
        ReadableExactly(last.logs);
      }
      if i :| 0 <= i < n && Spoiled(pre[i]) {
        assert receipts[i] == pre[i];
      }
      if BlockLogs(receipts).Some? && last.grants {
        SumSeqAppend(BlockLogs(pre).value, RewardLogs(last.logs).value, f);
      }
    }
  }

  lemma {:induction false} BlockPrefixFails(receipts: seq<Receipt>, n: nat)
    requires n <= |receipts| && BlockLogs(receipts[..n]).None?
    ensures BlockLogs(receipts).None?
    decreases |receipts|
  {
    if n == |receipts| {
      assert receipts[..n] == receipts;
    } else {
      assert receipts[..|receipts| - 1][..n] == receipts[..n];
      BlockPrefixFails(receipts[..|receipts| - 1], n);
    }
  }

  function Plus(t: Totals, u: Totals): Totals {
    Totals(t.block + u.block, t.epoch + u.epoch, t.foundation + u.foundation, t.priority + u.priority)
  }

  ghost function SumOver(xs: seq<RewardLog>, s: set<Address>): Totals {
    Totals(SumSet(s, ByPayee(xs, BlockReward)), SumSet(s, ByPayee(xs, EpochReward)),
           SumSet(s, ByPayee(xs, FoundationBonus)), SumSet(s, ByPayee(xs, PriorityBonus)))
  }

  function Counted(i: Info): Totals {
    Totals(i.block, i.epoch, i.foundation, i.priority)
  }

  lemma KindOverOne(m: map<Address, Info>, xs: seq<RewardLog>, s: set<Address>, a: Address, k: Kind)
    requires IsRewards(m, xs) && a in s && a in m && IsPayout(k)
    ensures SumSet(s, ByPayee(xs, k)) == Field(m[a], k) + SumSet(s - {a}, ByPayee(xs, k))
  {
    SumSetRemove(s, ByPayee(xs, k), a);
  }

  lemma SumOverOne(m: map<Address, Info>, xs: seq<RewardLog>, s: set<Address>, a: Address)
    requires IsRewards(m, xs) && a in s && a in m
    ensures SumOver(xs, s) == Plus(Counted(m[a]), SumOver(xs, s - {a}))
  {
    KindOverOne(m, xs, s, a, BlockReward);
    KindOverOne(m, xs, s, a, EpochReward);
    KindOverOne(m, xs, s, a, FoundationBonus);
    KindOverOne(m, xs, s, a, PriorityBonus);
  }

  lemma SumOverAll(xs: seq<RewardLog>)
    ensures SumOver(xs, Payees(xs)) == TotalsOf(xs)
  {
    PayeesSum(xs, BlockReward);
    PayeesSum(xs, EpochReward);
    PayeesSum(xs, FoundationBonus);
    PayeesSum(xs, PriorityBonus);
  }

  lemma PlusAssociates(t: Totals, u: Totals, v: Totals)
    ensures Plus(Plus(t, u), v) == Plus(t, Plus(u, v)) && Plus(t, Totals(0, 0, 0, 0)) == t
  {
  }

  /** The rewards of one receipt, added address by address in whatever order the map gives them. */
  method AddRewards(before: Totals, m: map<Address, Info>, ghost xs: seq<RewardLog>) returns (t: Totals)
    requires IsRewards(m, xs)
    ensures t == Plus(before, TotalsOf(xs))
  {
    t := before;
    var todo := m.Keys;
    while todo != {}
      invariant todo <= m.Keys
      invariant Plus(before, SumOver(xs, m.Keys)) == Plus(t, SumOver(xs, todo))
    {
      var a :| a in todo;
      SumOverOne(m, xs, todo, a);
      PlusAssociates(t, Counted(m[a]), SumOver(xs, todo - {a}));
      t := Plus(t, Counted(m[a]));
      todo := todo - {a};
    }
    assert SumOver(xs, {}) == Totals(0, 0, 0, 0);
    PlusAssociates(t, t, t);
    SumOverAll(xs);
  }

  /** The four kinds of payouts added up over the logs of the block. */
  function TotalsOver(receipts: seq<Receipt>): Totals {
    Totals(OverBlock(receipts, Paid(BlockReward)), OverBlock(receipts, Paid(EpochReward)),
           OverBlock(receipts, Paid(FoundationBonus)), OverBlock(receipts, Paid(PriorityBonus)))
  }

  lemma TotalsAreOver(receipts: seq<Receipt>)
    ensures BlockLogs(receipts).None? <==> AnySpoiled(receipts)
    ensures BlockLogs(receipts).Some? ==> TotalsOf(BlockLogs(receipts).value) == TotalsOver(receipts)
  {
    BlockCounts(receipts, Paid(BlockReward));
    BlockCounts(receipts, Paid(EpochReward));
    BlockCounts(receipts, Paid(FoundationBonus));
    BlockCounts(receipts, Paid(PriorityBonus));
  }

  /** The totals are the direct sums of the payouts of each kind over the topic-free logs of the grant-reward receipts; it
      fails exactly when one of those receipts is spoiled. */
  method RewardAt(receipts: seq<Receipt>) returns (r: Option<Totals>, gas: nat)
    ensures r.None? <==> AnySpoiled(receipts)
    ensures r.Some? ==> r.value == TotalsOver(receipts)
    ensures r.Some? ==> gas == SumSeq(receipts, (x: Receipt) => x.gasConsumed)
  {
    TotalsAreOver(receipts);
    var t := Totals(0, 0, 0, 0);
    gas := 0;
    for i := 0 to |receipts|
      invariant BlockLogs(receipts[..i]).Some? && t == TotalsOf(BlockLogs(receipts[..i]).value)
      invariant gas == SumSeq(receipts[..i], (x: Receipt) => x.gasConsumed)
    {
      assert receipts[..i + 1][..i] == receipts[..i];
      gas := gas + receipts[i].gasConsumed;
      if receipts[i].grants {
        var m := RewardInfoFromReceipt(receipts[i].logs);
        if m.None? {
          BlockPrefixFails(receipts, i + 1);
          return None, gas;
        }
        TotalsAppend(BlockLogs(receipts[..i]).value, RewardLogs(receipts[i].logs).value);
        t := AddRewards(t, m.value, RewardLogs(receipts[i].logs).value);
      }
    }
    assert receipts[..|receipts|] == receipts;
    return Some(t), gas;
  }

  lemma TotalsAppend(xs: seq<RewardLog>, ys: seq<RewardLog>)
    ensures TotalsOf(xs + ys) == Plus(TotalsOf(xs), TotalsOf(ys))
  {
    SumSeqAppend(xs, ys, Paid(BlockReward));
    SumSeqAppend(xs, ys, Paid(EpochReward));
    SumSeqAppend(xs, ys, Paid(FoundationBonus));
    SumSeqAppend(xs, ys, Paid(PriorityBonus));
  }
}
