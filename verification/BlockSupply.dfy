/** Token supply per block from a running balance, which stands in for summing the whole history. */
module BlockSupply {
  import opened Deliveries

  const TOTAL_BALANCE := 12700000000000000000000000000
  const NSV1_BALANCE := 262281303940000000000000000
  const BNFX_BALANCE := 3414253030000000000000000

  /** The two tracked addresses. */
  datatype Tracked = Zero | Locked

  /** Net flow of an address in one block, as the account-income rows give it. */
  type Flows = (nat, Tracked) -> int

  datatype Supply = Supply(total: int, circulating: int)

  datatype Row = Row(height: nat, supply: Supply)

  /** The flow of an address over `count` blocks. */
  function Sum(f: Flows, a: Tracked, from: nat, count: nat): int {
    if count == 0 then 0 else Sum(f, a, from, count - 1) + f(from + count - 1, a)
  }

  /** The full-history balance at a height, genesis (block 0) included. */
  function Balance(f: Flows, a: Tracked, h: nat): int {
    Sum(f, a, 0, h + 1)
  }

  /** All tokens are circulating, locked, at the zero address, or in one of the two fixed balances. */
  function SupplyOf(zeroBalance: int, lockedBalance: int): (s: Supply)
    ensures s.circulating + lockedBalance + zeroBalance + NSV1_BALANCE + BNFX_BALANCE == TOTAL_BALANCE
    ensures s.total - s.circulating == lockedBalance
  {
    var total := TOTAL_BALANCE - zeroBalance - NSV1_BALANCE - BNFX_BALANCE;
    Supply(total, total - lockedBalance)
  }

  /** The supply at a height recomputed from the full history. */
  function RightSupply(f: Flows, h: nat): Supply {
    SupplyOf(Balance(f, Zero, h), Balance(f, Locked, h))
  }

  /** The balance telescopes. */
  lemma {:induction false} BalanceMoves(f: Flows, a: Tracked, h: nat, count: nat)
    ensures Balance(f, a, h + count) == Balance(f, a, h) + Sum(f, a, h + 1, count)
  {
    if count == 0 {
    } else {
      BalanceMoves(f, a, h, count - 1);
    }
  }

  /** By how much the two running balances are off. */
  datatype Off = Off(zero: int, locked: int)

  /** The supply computed from balances that are off. */
  function ShiftedSupply(f: Flows, h: nat, off: Off): Supply {
    SupplyOf(Balance(f, Zero, h) + off.zero, Balance(f, Locked, h) + off.locked)
  }

  /** It equals the recomputed one exactly when neither balance is off. */
  lemma SupplyRightExactly(f: Flows, h: nat, off: Off)
    ensures ShiftedSupply(f, h, off) == RightSupply(f, h) <==> off == Off(0, 0)
  {
    assert ShiftedSupply(f, h, off).total == RightSupply(f, h).total - off.zero;
    assert ShiftedSupply(f, h, off).circulating == RightSupply(f, h).circulating - off.zero - off.locked;
  }

  /******* Flows as they are read *******/

  /** The queries that find no income rows because account_income has not committed the block yet. */
  type Missing = set<(nat, Tracked)>

  function Missed(f: Flows, missing: Missing): Flows {
    (h: nat, a: Tracked) => if (h, a) in missing then f(h, a) else 0
  }

  /** What the queries return. */
  function Found(f: Flows, missing: Missing): Flows {
    (h: nat, a: Tracked) => if (h, a) in missing then 0 else f(h, a)
  }

  /** The offset after `n` blocks from `from`, less what their queries missed. */
  function Lag(f: Flows, missing: Missing, off: Off, from: nat, n: nat): Off {
    Off(off.zero - Sum(Missed(f, missing), Zero, from, n), off.locked - Sum(Missed(f, missing), Locked, from, n))
  }

  /** The supplies computed from block `from` on. */
  function Computed(f: Flows, missing: Missing, off: Off, from: nat): nat -> Supply {
    (h: nat) => ShiftedSupply(f, h, Lag(f, missing, off, from, if h + 1 >= from then h + 1 - from else 0))
  }

  /** The offset when the flows of `n` blocks stay in the balances and the blocks are not counted. */
  function Stray(f: Flows, missing: Missing, off: Off, from: nat, n: nat): Off {
    var lag := Lag(f, missing, off, from, n);
    Off(lag.zero + Sum(f, Zero, from, n), lag.locked + Sum(f, Locked, from, n))
  }

  /** The rows of `count` heights. */
  function RowsBy(g: nat -> Supply, from: nat, count: nat): seq<Row> {
    if count == 0 then [] else RowsBy(g, from, count - 1) + [Row(from + count - 1, g(from + count - 1))]
  }

  /** Inserting by primary key: None when a height is there already, or twice in the list. */
  predicate Insertable(table: map<nat, Supply>, rows: seq<Row>) {
    rows == [] ||
    (Insertable(table, rows[..|rows| - 1]) && rows[|rows| - 1].height !in Inserted(table, rows[..|rows| - 1]))
  }

  function Inserted(table: map<nat, Supply>, rows: seq<Row>): map<nat, Supply> {
    if rows == [] then table
    else Inserted(table, rows[..|rows| - 1])[rows[|rows| - 1].height := rows[|rows| - 1].supply]
  }

  /******* Runs of attempts *******/

  /** A query fails after `done` blocks, for this address of the next; or the blocks' transaction ends. */
  datatype Outcome = QueryFails(done: nat, address: Tracked) | Ends(delivery: Delivery)

  /** An attempt at the next `count` blocks, and the queries of theirs that miss something. */
  datatype Attempt = Attempt(count: nat, missing: Missing, outcome: Outcome) {
    predicate Sensible() {
      count >= 1 && (outcome.QueryFails? ==> outcome.done < count)
    }
  }

  /** Both heights, the heights whose rows were lost to a rollback, the offset, and whether rows of a
      failed query are left in the buffer. */
  datatype State = State(cached: nat, committed: nat, lost: set<nat>, off: Off, leftover: bool)

  predicate InRun(h: nat, from: nat, count: nat) {
    from <= h < from + count
  }

  function Heights(from: nat, count: nat): set<nat> {
    set h | 0 <= h < from + count && InRun(h, from, count)
  }

  function After(f: Flows, s: State, x: Attempt): State {
    var from := s.cached + 1;
    match x.outcome
    case QueryFails(done, address) =>
      var off := Stray(f, x.missing, s.off, from, done);
      s.(off := if address.Locked? then Off(off.zero + Found(f, x.missing)(from + done, Zero), off.locked) else off,
         leftover := s.leftover || done >= 1)
    case Ends(delivery) =>
      // rows left over make the insert fail, and are gone from the buffer then
      if s.leftover || delivery.FailsBefore? then
        s.(off := Stray(f, x.missing, s.off, from, x.count), leftover := false)
      else
        State(s.cached + x.count,
              if delivery.Commits? then s.cached + x.count else s.committed,
              if delivery.Commits? then s.lost else s.lost + Heights(from, x.count),
              Lag(f, x.missing, s.off, from, x.count),
              false)
  }

  /** Neither balance is off after `n` blocks from `from`. */
  predicate OnTime(f: Flows, missing: Missing, off: Off, from: nat, n: nat) {
    Lag(f, missing, off, from, n) == Off(0, 0)
  }

  predicate AllOnTime(f: Flows, missing: Missing, off: Off, from: nat, count: nat) {
    forall n :: 1 <= n <= count ==> OnTime(f, missing, off, from, n)
  }

  /** The rows an attempt stores, if any, are right: at each of its blocks, nothing is left over from
      failed attempts that its queries did not happen to miss, and nothing is missed beside that. */
  predicate StoresRight(f: Flows, s: State, x: Attempt) {
    x.outcome == Ends(Commits) && !s.leftover ==> AllOnTime(f, x.missing, s.off, s.cached + 1, x.count)
  }

  function StateAfter(f: Flows, s: State, script: seq<Attempt>): State {
    if script == [] then s else After(f, StateAfter(f, s, script[..|script| - 1]), script[|script| - 1])
  }

  predicate AllStoreRight(f: Flows, s: State, script: seq<Attempt>) {
    script == [] ||
    var pre := script[..|script| - 1];
    AllStoreRight(f, s, pre) && StoresRight(f, StateAfter(f, s, pre), script[|script| - 1])
  }

  lemma {:induction false} NothingMissed(f: Flows, a: Tracked, from: nat, n: nat)
    ensures Sum(Missed(f, {}), a, from, n) == 0
  {
    if n == 0 {
    } else {
      NothingMissed(f, a, from, n - 1);
    }
  }

  /** Without failures and with every block committed by account_income when it is read, nothing is
      ever off, so the running balance is as good as the full history. */
  lemma {:induction false} NoFailureNoDrift(f: Flows, s: State, script: seq<Attempt>)
    requires forall i :: 0 <= i < |script| ==> script[i].outcome == Ends(Commits) && script[i].missing == {}
    requires s.off == Off(0, 0) && !s.leftover
    ensures AllStoreRight(f, s, script)
    ensures StateAfter(f, s, script).off == Off(0, 0) && !StateAfter(f, s, script).leftover
    ensures StateAfter(f, s, script).lost == s.lost
  {
    if script == [] {
    } else {
      var pre, x := script[..|script| - 1], script[|script| - 1];
      NoFailureNoDrift(f, s, pre);
      var from := StateAfter(f, s, pre).cached + 1;
      forall n: nat ensures Lag(f, x.missing, Off(0, 0), from, n) == Off(0, 0) {
        NothingMissed(f, Zero, from, n);
        NothingMissed(f, Locked, from, n);
      }
    }
  }

  lemma {:induction false} OneMissed(f: Flows, b: nat, a: Tracked, x: Tracked, from: nat, n: nat)
    ensures Sum(Missed(f, {(b, a)}), x, from, n) == if x == a && from <= b < from + n then f(b, a) else 0
  {
    if n == 0 {
    } else {
      OneMissed(f, b, a, x, from, n - 1);
    }
  }

  /** One query of an attempt that commits misses its flow, with no attempt having failed: the attempt's
      rows, and the balance from then on, are right exactly when the block moved nothing at the address. */
  lemma UncommittedReadShows(f: Flows, s: State, count: nat, b: nat, a: Tracked)
    requires s.off == Off(0, 0) && !s.leftover && s.cached < b <= s.cached + count
    ensures var x := Attempt(count, {(b, a)}, Ends(Commits));
            && (StoresRight(f, s, x) <==> f(b, a) == 0)
            && (After(f, s, x).off == Off(0, 0) <==> f(b, a) == 0)
  {
    var from, m := s.cached + 1, {(b, a)};
    forall n: nat
      ensures OnTime(f, m, s.off, from, n) <==> f(b, a) == 0 || b >= from + n
    {
      OneMissed(f, b, a, Zero, from, n);
      OneMissed(f, b, a, Locked, from, n);
    }
    assert OnTime(f, m, s.off, from, count) <==> f(b, a) == 0;
  }

  class Plugin {
    var running: map<Tracked, int>
    var supplies: seq<Row>
    var table: map<nat, Supply>
    var cached: nat
    var committed: nat

    ghost predicate Seeded()
      reads this
    {
      Zero in running && Locked in running
    }

    /** The running balances are off the balances at height `h` by `off`. */
    ghost predicate OffAt(f: Flows, h: nat, off: Off)
      reads this
    {
      && Seeded()
      && running[Zero] == Balance(f, Zero, h) + off.zero
      && running[Locked] == Balance(f, Locked, h) + off.locked
    }

    constructor ()
      ensures table == map[] && supplies == [] && running == map[] && cached == committed == 0
    {
      running, supplies, table, cached, committed := map[], [], map[], 0, 0;
    }

    /** Reads the balances at the index height; what is missing then stays missing. */
    method Start(f: Flows, missing: Missing)
      modifies this`running
      ensures OffAt(f, cached, Lag(f, missing, Off(0, 0), 0, cached + 1))
    {
      FoundIsRest(f, missing, Zero, 0, cached + 1);
      FoundIsRest(f, missing, Locked, 0, cached + 1);
      var g := Found(f, missing);
      running := map[Zero := Balance(g, Zero, cached), Locked := Balance(g, Locked, cached)];
    }

    /** `g` is what the queries return. */
    method PutBlock(h: nat, g: Flows)
      requires Seeded()
      modifies this`running, this`supplies
      ensures Seeded() && running[Zero] == old(running[Zero]) + g(h, Zero)
      ensures running[Locked] == old(running[Locked]) + g(h, Locked)
      ensures supplies == old(supplies) + [Row(h, SupplyOf(running[Zero], running[Locked]))]
    {
      var addresses := [Zero, Locked];
      for i := 0 to 2
        invariant Seeded() && supplies == old(supplies)
        invariant running[Zero] == old(running[Zero]) + if i > 0 then g(h, Zero) else 0
        invariant running[Locked] == old(running[Locked]) + if i > 1 then g(h, Locked) else 0
      {
        running := running[addresses[i] := running[addresses[i]] + g(h, addresses[i])];
      }
      var total := TOTAL_BALANCE - running[Zero] - NSV1_BALANCE - BNFX_BALANCE;
      supplies := supplies + [Row(h, Supply(total, total - running[Locked]))];
    }

    /** Blocks `from` on, each from the running balances the one before left. */
    method PutRun(from: nat, count: nat, f: Flows, missing: Missing, ghost off: Off)
      requires from >= 1 && OffAt(f, from - 1, off)
      modifies this`running, this`supplies
      ensures OffAt(f, from + count - 1, Lag(f, missing, off, from, count))
      ensures supplies == old(supplies) + RowsBy(Computed(f, missing, off, from), from, count)
    {
      for i := 0 to count
        invariant OffAt(f, from + i - 1, Lag(f, missing, off, from, i))
        invariant supplies == old(supplies) + RowsBy(Computed(f, missing, off, from), from, i)
      {
        ComputedAt(f, missing, off, from, i);
        PutBlock(from + i, Found(f, missing));
      }
    }

    /** The buffer is emptied first. An insert of a height already stored fails the transaction. */
    method CommitBatch(tip: nat, delivery: Delivery, ghost rows: seq<Row>) returns (ok: bool)
      requires rows == supplies
      modifies this
      ensures supplies == [] && running == old(running)
      ensures ok == (delivery.Commits? && Insertable(old(table), rows))
      ensures table == if ok then Inserted(old(table), rows) else old(table)
      ensures committed == if ok then tip else old(committed)
      ensures cached == if delivery.FailsBefore? || !Insertable(old(table), rows) then old(cached) else tip
    {
      var buffered := supplies;
      supplies := [];
      if delivery.FailsBefore? || !Insertable(table, buffered) {
        return false;
      }
      cached := tip;
      if delivery.FailsAfter? {
        return false;
      }
      table := Inserted(table, buffered);
      committed := tip;
      return true;
    }

    /** The next `count` blocks after the cached height, up to the end of the transaction, with the
        running balances off by `off`. A call that gets as far as caching its height leaves them off by
        what its queries missed besides; one that fails before that adds its blocks' flows to them. */
    method PutBlocks(count: nat, f: Flows, missing: Missing, delivery: Delivery, ghost off: Off, ghost rows: seq<Row>)
      returns (ok: bool)
      requires OffAt(f, cached, off) && count >= 1
      requires rows == supplies + RowsBy(Computed(f, missing, off, cached + 1), cached + 1, count)
      modifies this
      ensures supplies == [] && ok == (delivery.Commits? && Insertable(old(table), rows))
      ensures table == if ok then Inserted(old(table), rows) else old(table)
      ensures committed == if ok then old(cached) + count else old(committed)
      ensures cached == old(cached) + if delivery.FailsBefore? || !Insertable(old(table), rows) then 0 else count
      ensures cached == old(cached) + count ==> OffAt(f, cached, Lag(f, missing, off, old(cached) + 1, count))
      ensures cached == old(cached) ==> OffAt(f, cached, Stray(f, missing, off, cached + 1, count))
    {
      BalanceMoves(f, Zero, cached, count);
      BalanceMoves(f, Locked, cached, count);
      PutRun(cached + 1, count, f, missing, off);
      ok := CommitBatch(cached + count, delivery, rows);
    }

    /** A call cut short: the balance query of some address fails after `done` blocks. Their rows stay
        in the buffer and the flows found so far in the running balances. */
    method PutBlocksQueryFails(done: nat, address: Tracked, f: Flows, missing: Missing, ghost off: Off)
      requires OffAt(f, cached, off)
      modifies this`running, this`supplies
      ensures supplies == old(supplies) + RowsBy(Computed(f, missing, off, cached + 1), cached + 1, done)
      ensures var stray := Stray(f, missing, off, cached + 1, done);
              OffAt(f, cached, if address.Locked?
                               then Off(stray.zero + Found(f, missing)(cached + 1 + done, Zero), stray.locked)
                               else stray)
    {
      BalanceMoves(f, Zero, cached, done);
      BalanceMoves(f, Locked, cached, done);
      PutRun(cached + 1, done, f, missing, off);
      if address.Locked? {
        running := running[Zero := running[Zero] + Found(f, missing)(cached + 1 + done, Zero)];
      }
    }

    /** The plugin is in the state `s`. */
    ghost predicate Tracks(f: Flows, s: State)
      reads this
    {
      && cached == s.cached && committed == s.committed
      && (forall h :: h in table <==> 1 <= h <= cached && h !in s.lost)
      && (forall h :: h in s.lost ==> h <= cached)
      && OffAt(f, cached, s.off)
      && (if s.leftover then HasHeight(supplies, cached + 1) else supplies == [])
    }

    /** Over every run of attempts, whatever fails and however: a row is there for each height up to the
        cached one but those lost to a rollback after caching, and every row equals the one recomputed
        from the full history exactly when each attempt that stored rows stored right ones. */
    method Index(f: Flows, script: seq<Attempt>, ghost s: State)
      requires Tracks(f, s) && RowsRight(f, table)
      requires forall i :: 0 <= i < |script| ==> script[i].Sensible()
      modifies this
      ensures Tracks(f, StateAfter(f, s, script))
      ensures RowsRight(f, table) <==> AllStoreRight(f, s, script)
    {
      for i := 0 to |script|
        invariant Tracks(f, StateAfter(f, s, script[..i]))
        invariant RowsRight(f, table) <==> AllStoreRight(f, s, script[..i])
      {
        assert script[..i + 1][..i] == script[..i];
        Attempted(f, script[i], StateAfter(f, s, script[..i]));
      }
      assert script[..|script|] == script;
    }

    method Attempted(f: Flows, x: Attempt, ghost s: State)
      requires Tracks(f, s) && x.Sensible()
      modifies this
      ensures Tracks(f, After(f, s, x))
      ensures RowsRight(f, table) <==> RowsRight(f, old(table)) && StoresRight(f, s, x)
    {
      match x.outcome
      case QueryFails(done, address) => QueryFailed(f, done, address, x.missing, s, x.count);
      case Ends(delivery) => Ended(f, x.count, x.missing, delivery, s);
    }

    method QueryFailed(f: Flows, done: nat, address: Tracked, missing: Missing, ghost s: State, ghost count: nat)
      requires Tracks(f, s)
      modifies this`running, this`supplies
      ensures Tracks(f, After(f, s, Attempt(count, missing, QueryFails(done, address))))
    {
      PutBlocksQueryFails(done, address, f, missing, s.off);
      LeftInBuffer(old(supplies), Computed(f, missing, s.off, cached + 1), cached + 1, done);
    }

    /** With an empty buffer every row can be inserted. */
    method PutClean(f: Flows, count: nat, missing: Missing, delivery: Delivery, ghost off: Off)
      requires OffAt(f, cached, off) && supplies == [] && count >= 1 && forall h :: h in table ==> h <= cached
      modifies this
      ensures supplies == []
      ensures delivery.FailsBefore? ==> cached == old(cached) && OffAt(f, cached, Stray(f, missing, off, cached + 1, count))
      ensures !delivery.FailsBefore? ==>
                cached == old(cached) + count && OffAt(f, cached, Lag(f, missing, off, old(cached) + 1, count))
      ensures !delivery.Commits? ==> committed == old(committed) && table == old(table)
      ensures delivery.Commits? ==>
                committed == cached
                && RunAdded(old(table), table, Computed(f, missing, off, old(cached) + 1), old(cached) + 1, count)
    {
      ghost var from, was := cached + 1, table;
      ghost var g := Computed(f, missing, off, from);
      ghost var run := RowsBy(g, from, count);
      EmptyBuffer(run);
      RunGoes(was, g, from, count, run);
      var ok := PutBlocks(count, f, missing, delivery, off, run);
    }

    /** With rows left over nothing is stored, and the buffer is empty afterwards. */
    method PutOnLeftovers(f: Flows, count: nat, missing: Missing, delivery: Delivery, ghost off: Off)
      requires OffAt(f, cached, off) && HasHeight(supplies, cached + 1) && count >= 1
      modifies this
      ensures supplies == [] && cached == old(cached) && committed == old(committed) && table == old(table)
      ensures OffAt(f, cached, Stray(f, missing, off, cached + 1, count))
    {
      ghost var g := Computed(f, missing, off, cached + 1);
      LeftoversFailTheNext(table, supplies, g, cached + 1, count);
      var ok := PutBlocks(count, f, missing, delivery, off, supplies + RowsBy(g, cached + 1, count));
    }

    method EndedClean(f: Flows, count: nat, missing: Missing, delivery: Delivery, ghost s: State)
      requires Tracks(f, s) && !s.leftover && count >= 1
      modifies this
      ensures Tracks(f, After(f, s, Attempt(count, missing, Ends(delivery))))
      ensures RowsRight(f, table) <==> RowsRight(f, old(table)) && StoresRight(f, s, Attempt(count, missing, Ends(delivery)))
    {
      ghost var from, was := cached + 1, table;
      PutClean(f, count, missing, delivery, s.off);
      if delivery.Commits? {
        AddedRight(f, was, table, Computed(f, missing, s.off, from), from, count);
        RunRight(f, missing, s.off, from, count);
      }
    }

    method Ended(f: Flows, count: nat, missing: Missing, delivery: Delivery, ghost s: State)
      requires Tracks(f, s) && count >= 1
      modifies this
      ensures Tracks(f, After(f, s, Attempt(count, missing, Ends(delivery))))
      ensures RowsRight(f, table) <==> RowsRight(f, old(table)) && StoresRight(f, s, Attempt(count, missing, Ends(delivery)))
    {
      if |supplies| > 0 {
        PutOnLeftovers(f, count, missing, delivery, s.off);
      } else {
        EndedClean(f, count, missing, delivery, s);
      }
    }
  }

  lemma {:induction false} FoundIsRest(f: Flows, missing: Missing, a: Tracked, from: nat, n: nat)
    ensures Sum(Found(f, missing), a, from, n) == Sum(f, a, from, n) - Sum(Missed(f, missing), a, from, n)
  {
    if n == 0 {
    } else {
      FoundIsRest(f, missing, a, from, n - 1);
    }
  }

  ghost predicate RowsRight(f: Flows, table: map<nat, Supply>) {
    forall h :: h in table ==> table[h] == RightSupply(f, h)
  }

  predicate HasHeight(rows: seq<Row>, h: nat) {
    exists i :: 0 <= i < |rows| && rows[i].height == h
  }

  lemma EmptyBuffer(rows: seq<Row>)
    ensures [] + rows == rows
  {
  }

  lemma ComputedAt(f: Flows, missing: Missing, off: Off, from: nat, i: nat)
    ensures Computed(f, missing, off, from)(from + i) == ShiftedSupply(f, from + i, Lag(f, missing, off, from, i + 1))
    ensures Computed(f, missing, off, from)(from + i) == RightSupply(f, from + i) <==> OnTime(f, missing, off, from, i + 1)
  {
    assert from + i + 1 - from == i + 1;
    SupplyRightExactly(f, from + i, Lag(f, missing, off, from, i + 1));
  }

  lemma RunRight(f: Flows, missing: Missing, off: Off, from: nat, count: nat)
    ensures AllOnTime(f, missing, off, from, count) <==>
            forall h :: from <= h < from + count ==> Computed(f, missing, off, from)(h) == RightSupply(f, h)
  {
    forall h: nat | from <= h < from + count
      ensures Computed(f, missing, off, from)(h) == RightSupply(f, h) <==> OnTime(f, missing, off, from, h + 1 - from)
    {
      ComputedAt(f, missing, off, from, h - from);
    }
    if forall h :: from <= h < from + count ==> Computed(f, missing, off, from)(h) == RightSupply(f, h) {
      forall n | 1 <= n <= count ensures OnTime(f, missing, off, from, n) {
        assert Computed(f, missing, off, from)(from + n - 1) == RightSupply(f, from + n - 1);
      }
    }
  }

  lemma AddedRight(f: Flows, was: map<nat, Supply>, table: map<nat, Supply>, g: nat -> Supply, from: nat, count: nat)
    requires forall h :: h in was ==> h < from
    requires RunAdded(was, table, g, from, count)
    ensures RowsRight(f, table) <==>
            RowsRight(f, was) && forall h :: from <= h < from + count ==> g(h) == RightSupply(f, h)
  {
    forall h | h in was ensures h in table && table[h] == was[h] {
    }
    forall h | from <= h < from + count ensures h in table && table[h] == g(h) {
    }
  }

  /** `t` is the table with the heights `from` to `from + count - 1` added. */
  ghost predicate RunAdded(table: map<nat, Supply>, t: map<nat, Supply>, g: nat -> Supply, from: nat, count: nat) {
    && (forall h :: h in t <==> h in table || from <= h < from + count)
    && (forall h :: h in t ==> t[h] == if h in table then table[h] else g(h))
  }

  lemma RunAddedLast(table: map<nat, Supply>, t: map<nat, Supply>, g: nat -> Supply, from: nat, count: nat)
    requires RunAdded(table, t, g, from, count) && forall h :: h in table ==> h < from
    ensures from + count !in t && RunAdded(table, t[from + count := g(from + count)], g, from, count + 1)
  {
  }

  /** The rows can be inserted, and their heights are then stored. */
  ghost predicate Goes(table: map<nat, Supply>, rows: seq<Row>, g: nat -> Supply, from: nat, count: nat) {
    Insertable(table, rows) && RunAdded(table, Inserted(table, rows), g, from, count)
  }

  lemma RowsBySnoc(g: nat -> Supply, from: nat, n: nat)
    ensures RowsBy(g, from, n + 1) == RowsBy(g, from, n) + [Row(from + n, g(from + n))]
  {
  }

  lemma NoRowsGo(table: map<nat, Supply>, g: nat -> Supply, from: nat)
    ensures Goes(table, [], g, from, 0)
  {
  }

  /** So they can for a run of rows after all stored heights. */
  lemma {:induction false} RunGoes(table: map<nat, Supply>, g: nat -> Supply, from: nat, count: nat, rows: seq<Row>)
    requires (forall h :: h in table ==> h < from) && rows == RowsBy(g, from, count)
    ensures Goes(table, rows, g, from, count)
  {
    if count == 0 {
      NoRowsGo(table, g, from);
    } else {
      var n := count - 1;
      var pre := RowsBy(g, from, n);
      RunGoes(table, g, from, n, pre);
      RowsBySnoc(g, from, n);
      RunGrows(table, pre, rows, g, from, n);
    }
  }

  lemma RunGrows(table: map<nat, Supply>, rows: seq<Row>, more: seq<Row>, g: nat -> Supply, from: nat, count: nat)
    requires forall h :: h in table ==> h < from
    requires Goes(table, rows, g, from, count) && more == rows + [Row(from + count, g(from + count))]
    ensures Goes(table, more, g, from, count + 1)
  {
    RunAddedLast(table, Inserted(table, rows), g, from, count);
    InsertLast(table, rows, Row(from + count, g(from + count)));
  }

  lemma InsertLast(table: map<nat, Supply>, rows: seq<Row>, r: Row)
    ensures Insertable(table, rows + [r]) <==> Insertable(table, rows) && r.height !in Inserted(table, rows)
    ensures Inserted(table, rows + [r]) == Inserted(table, rows)[r.height := r.supply]
  {
    assert (rows + [r])[..|rows|] == rows;
  }

  lemma {:induction false} HeightsStored(table: map<nat, Supply>, rows: seq<Row>, i: nat)
    requires i < |rows|
    ensures rows[i].height in Inserted(table, rows)
  {
    if i < |rows| - 1 {
      HeightsStored(table, rows[..|rows| - 1], i);
    }
  }

  lemma {:induction false} PrefixInsertable(table: map<nat, Supply>, a: seq<Row>, b: seq<Row>)
    requires Insertable(table, a + b)
    ensures Insertable(table, a)
    decreases |b|
  {
    if b == [] {
      assert a + b == a;
    } else {
      assert (a + b)[..|a + b| - 1] == a + b[..|b| - 1];
      PrefixInsertable(table, a, b[..|b| - 1]);
    }
  }

  lemma {:induction false} FirstOfRun(g: nat -> Supply, from: nat, count: nat)
    requires count >= 1
    ensures |RowsBy(g, from, count)| == count && RowsBy(g, from, count)[0].height == from
  {
    if count > 1 {
      FirstOfRun(g, from, count - 1);
    }
  }

  /** What a failed query leaves in the buffer. */
  lemma LeftInBuffer(rows: seq<Row>, g: nat -> Supply, from: nat, done: nat)
    ensures HasHeight(rows + RowsBy(g, from, done), from) <==> HasHeight(rows, from) || done >= 1
    ensures done == 0 ==> rows + RowsBy(g, from, done) == rows
  {
    var all := rows + RowsBy(g, from, done);
    if HasHeight(rows, from) {
      var i :| 0 <= i < |rows| && rows[i].height == from;
      assert all[i].height == from;
    }
    if done >= 1 {
      FirstOfRun(g, from, done);
      assert all[|rows|].height == from;
    }
  }

  /** Rows left over make the next transaction insert a height twice, and fail. */
  lemma LeftoversFailTheNext(table: map<nat, Supply>, left: seq<Row>, g: nat -> Supply, from: nat, count: nat)
    requires HasHeight(left, from) && count >= 1
    ensures !Insertable(table, left + RowsBy(g, from, count))
  {
    var b := RowsBy(g, from, count);
    FirstOfRun(g, from, count);
    var i :| 0 <= i < |left| && left[i].height == from;
    HeightsStored(table, left, i);
    var c := left + [b[0]];
    assert c[..|left|] == left;
    assert !Insertable(table, c);
    assert left + b == c + b[1..];
    if Insertable(table, left + b) {
      PrefixInsertable(table, c, b[1..]);
    }
  }
}
