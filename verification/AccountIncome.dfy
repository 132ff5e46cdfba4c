/** Per-block income rows and running totals, buffered over a batch and written in one transaction. */
module AccountIncome {
  import opened Deliveries

  /** The empty text, which names nobody, is told apart from all others. */
  datatype Address = Empty | Text(chars: string)

  /** A transfer's recipient: text that is no address, or an address in canonical form (or empty). */
  datatype Recipient = Invalid | Valid(canonical: Address)

  datatype Transfer = Transfer(sender: Address, recipient: Recipient, amount: int)

  datatype Block = Block(height: nat, receipts: seq<seq<Transfer>>)

  datatype Income = Income(inFlow: int, inNum: int, outFlow: int, outNum: int)

  datatype Row = Row(height: nat, address: Address, income: Income)

  type Totals = map<Address, Income>

  const NONE := Income(0, 0, 0, 0)

  function Plus(x: Income, y: Income): Income {
    Income(x.inFlow + y.inFlow, x.inNum + y.inNum, x.outFlow + y.outFlow, x.outNum + y.outNum)
  }

  /******* What should be stored *******/

  predicate Sends(x: Transfer, a: Address) {
    !a.Empty? && x.sender == a
  }

  predicate Receives(x: Transfer, a: Address) {
    !a.Empty? && x.recipient == Valid(a)
  }

  function Out(x: Transfer, a: Address): Income {
    if Sends(x, a) then Income(0, 0, x.amount, 1) else NONE
  }

  function In(x: Transfer, a: Address): Income {
    if Receives(x, a) then Income(x.amount, 1, 0, 0) else NONE
  }

  function FlowOf(x: Transfer, a: Address): Income {
    Plus(Out(x, a), In(x, a))
  }

  /** The flow through one address over a list of transfers. */
  function Flow(xs: seq<Transfer>, a: Address): Income {
    if xs == [] then NONE else Plus(Flow(xs[..|xs| - 1], a), FlowOf(xs[|xs| - 1], a))
  }

  function Senders(x: Transfer): set<Address> {
    if x.sender.Empty? then {} else {x.sender}
  }

  function Receivers(x: Transfer): set<Address> {
    if x.recipient.Invalid? || x.recipient.canonical.Empty? then {} else {x.recipient.canonical}
  }

  function Parties(xs: seq<Transfer>): set<Address> {
    if xs == [] then {} else Parties(xs[..|xs| - 1]) + (Senders(xs[|xs| - 1]) + Receivers(xs[|xs| - 1]))
  }

  function Flatten(receipts: seq<seq<Transfer>>): seq<Transfer> {
    if receipts == [] then [] else Flatten(receipts[..|receipts| - 1]) + receipts[|receipts| - 1]
  }

  function TransfersOf(blks: seq<Block>): seq<Transfer> {
    if blks == [] then [] else TransfersOf(blks[..|blks| - 1]) + Flatten(blks[|blks| - 1].receipts)
  }

  /** One row for each party of the block, with its flow in that block. */
  function BlockRows(blk: Block): set<Row> {
    var xs := Flatten(blk.receipts);
    set a | a in Parties(xs) :: Row(blk.height, a, Flow(xs, a))
  }

  function RowsOf(blks: seq<Block>): multiset<Row> {
    if blks == [] then multiset{} else RowsOf(blks[..|blks| - 1]) + multiset(BlockRows(blks[|blks| - 1]))
  }

  function At(t: Totals, a: Address): Income {
    if a in t then t[a] else NONE
  }

  /** One increment: a new address starts with it. */
  function Bump(t: Totals, a: Address, v: Income): Totals {
    t[a := if a in t then Plus(t[a], v) else v]
  }

  /** Totals with the increment `f` for each of `who`. */
  function AddFor(base: Totals, who: set<Address>, f: Address -> Income): Totals {
    map a | a in base.Keys + who ::
      if a !in who then base[a] else if a in base then Plus(base[a], f(a)) else f(a)
  }

  /** Totals after the transfers `xs`: every party's flow added once. */
  function Add(base: Totals, xs: seq<Transfer>): Totals {
    AddFor(base, Parties(xs), a => Flow(xs, a))
  }

  ghost predicate OnlyFor(who: set<Address>, f: Address -> Income) {
    forall a :: a !in who ==> f(a) == NONE
  }

  lemma PlusLaws(x: Income, y: Income, z: Income)
    ensures Plus(x, NONE) == x == Plus(NONE, x)
    ensures Plus(Plus(x, y), z) == Plus(x, Plus(y, z))
  {
  }

  lemma AddForTwice(base: Totals, v: set<Address>, f: Address -> Income, w: set<Address>, g: Address -> Income,
                    h: Address -> Income)
    requires OnlyFor(v, f) && OnlyFor(w, g) && forall a :: h(a) == Plus(f(a), g(a))
    ensures AddFor(AddFor(base, v, f), w, g) == AddFor(base, v + w, h)
  {
    var t, u := AddFor(AddFor(base, v, f), w, g), AddFor(base, v + w, h);
    forall a ensures a in t <==> a in u {
    }
    forall a | a in t ensures t[a] == u[a] {
      if a in base {
        AddAtTwice(base[a], a in v, f(a), a in w, g(a));
      } else {
        AddAtTwice(NONE, a in v, f(a), a in w, g(a));
        PlusLaws(f(a), g(a), NONE);
      }
    }
  }

  lemma AddAtTwice(b: Income, inV: bool, x: Income, inW: bool, y: Income)
    requires (!inV ==> x == NONE) && (!inW ==> y == NONE)
    ensures var once := if inV then Plus(b, x) else b;
            (if inW then Plus(once, y) else once) == if inV || inW then Plus(b, Plus(x, y)) else b
  {
    PlusLaws(b, x, y);
    PlusLaws(x, y, b);
  }

  lemma {:induction false} PartiesAppend(xs: seq<Transfer>, ys: seq<Transfer>)
    ensures Parties(xs + ys) == Parties(xs) + Parties(ys)
  {
    if ys == [] {
      assert xs + ys == xs;
    } else {
      assert (xs + ys)[..|xs + ys| - 1] == xs + ys[..|ys| - 1];
      PartiesAppend(xs, ys[..|ys| - 1]);
    }
  }

  lemma {:induction false} FlowAppend(xs: seq<Transfer>, ys: seq<Transfer>, a: Address)
    ensures Flow(xs + ys, a) == Plus(Flow(xs, a), Flow(ys, a))
  {
    if ys == [] {
      assert xs + ys == xs;
    } else {
      assert (xs + ys)[..|xs + ys| - 1] == xs + ys[..|ys| - 1];
      FlowAppend(xs, ys[..|ys| - 1], a);
      PlusLaws(Flow(xs, a), Flow(ys[..|ys| - 1], a), FlowOf(ys[|ys| - 1], a));
    }
  }

  lemma {:induction false} NoFlowElsewhere(xs: seq<Transfer>, a: Address)
    requires a !in Parties(xs)
    ensures Flow(xs, a) == NONE
  {
    if xs == [] {
    } else {
      NoFlowElsewhere(xs[..|xs| - 1], a);
    }
  }

  lemma FlowOnlyForParties(xs: seq<Transfer>)
    ensures OnlyFor(Parties(xs), a => Flow(xs, a))
  {
    forall a | a !in Parties(xs) ensures Flow(xs, a) == NONE {
      NoFlowElsewhere(xs, a);
    }
  }

  /** Adding two lists one after the other is adding them together. */
  lemma AddAppend(base: Totals, xs: seq<Transfer>, ys: seq<Transfer>)
    ensures Add(Add(base, xs), ys) == Add(base, xs + ys)
  {
    PartiesAppend(xs, ys);
    FlowOnlyForParties(xs);
    FlowOnlyForParties(ys);
    var f, g, h := (a: Address) => Flow(xs, a), (a: Address) => Flow(ys, a), (a: Address) => Flow(xs + ys, a);
    forall a ensures h(a) == Plus(f(a), g(a)) {
      FlowAppend(xs, ys, a);
    }
    AddForTwice(base, Parties(xs), f, Parties(ys), g, h);
  }

  lemma Associates<T>(x: seq<T>, y: seq<T>, z: seq<T>)
    ensures (x + y) + z == x + (y + z)
  {
  }

  lemma {:induction false} TransfersAppend(a: seq<Block>, b: seq<Block>)
    ensures TransfersOf(a + b) == TransfersOf(a) + TransfersOf(b)
  {
    if b == [] {
      assert a + b == a;
    } else {
      assert (a + b)[..|a + b| - 1] == a + b[..|b| - 1];
      TransfersAppend(a, b[..|b| - 1]);
      Associates(TransfersOf(a), TransfersOf(b[..|b| - 1]), Flatten(b[|b| - 1].receipts));
    }
  }

  lemma {:induction false} RowsAppend(a: seq<Block>, b: seq<Block>)
    ensures RowsOf(a + b) == RowsOf(a) + RowsOf(b)
  {
    if b == [] {
      assert a + b == a;
    } else {
      assert (a + b)[..|a + b| - 1] == a + b[..|b| - 1];
      RowsAppend(a, b[..|b| - 1]);
    }
  }

  /** The sum of an address's rows over a run of blocks. */
  function RowSum(blks: seq<Block>, a: Address): Income {
    if blks == [] then NONE
    else
      var xs := Flatten(blks[|blks| - 1].receipts);
      Plus(RowSum(blks[..|blks| - 1], a), if a in Parties(xs) then Flow(xs, a) else NONE)
  }

  lemma AddForAt(base: Totals, who: set<Address>, f: Address -> Income, a: Address)
    requires OnlyFor(who, f)
    ensures At(AddFor(base, who, f), a) == Plus(At(base, a), f(a))
  {
    PlusLaws(f(a), NONE, NONE);
    PlusLaws(At(base, a), NONE, NONE);
  }

  lemma AddedAt(base: Totals, xs: seq<Transfer>, a: Address)
    ensures At(Add(base, xs), a) == Plus(At(base, a), Flow(xs, a))
  {
    FlowOnlyForParties(xs);
    AddForAt(base, Parties(xs), b => Flow(xs, b), a);
  }

  /** The two tables agree: what an address's total gained is the sum of its rows. */
  lemma TotalsAreRowSums(base: Totals, blks: seq<Block>, a: Address)
    ensures At(Add(base, TransfersOf(blks)), a) == Plus(At(base, a), RowSum(blks, a))
  {
    RowSumIsFlow(blks, a);
    AddedAt(base, TransfersOf(blks), a);
  }

  lemma {:induction false} RowSumIsFlow(blks: seq<Block>, a: Address)
    ensures RowSum(blks, a) == Flow(TransfersOf(blks), a)
  {
    if blks == [] {
    } else {
      var pre, xs := blks[..|blks| - 1], Flatten(blks[|blks| - 1].receipts);
      RowSumIsFlow(pre, a);
      FlowAppend(TransfersOf(pre), xs, a);
      if a !in Parties(xs) {
        NoFlowElsewhere(xs, a);
      }
    }
  }

  /******* The plugin *******/

  method Debit(before: Totals, x: Transfer) returns (t: Totals)
    ensures t == AddFor(before, Senders(x), a => Out(x, a))
  {
    t := before;
    if !x.sender.Empty? {
      if x.sender in t {
        t := t[x.sender := Plus(t[x.sender], Income(0, 0, x.amount, 1))];
      } else {
        t := t[x.sender := Income(0, 0, x.amount, 1)];
      }
    }
  }

  method Credit(before: Totals, x: Transfer) returns (t: Totals)
    ensures t == AddFor(before, Receivers(x), a => In(x, a))
  {
    t := before;
    if x.recipient.Valid? && !x.recipient.canonical.Empty? {
      var a := x.recipient.canonical;
      if a in t {
        t := t[a := Plus(t[a], Income(x.amount, 1, 0, 0))];
      } else {
        t := t[a := Income(x.amount, 1, 0, 0)];
      }
    }
  }

  lemma FlowOne(x: Transfer, a: Address)
    ensures Flow([x], a) == FlowOf(x, a)
  {
    assert [x][..0] == [];
    PlusLaws(FlowOf(x, a), NONE, NONE);
  }

  lemma PartiesOne(x: Transfer)
    ensures Parties([x]) == Senders(x) + Receivers(x)
  {
    assert [x][..0] == [];
  }

  lemma AddTransferIsAdd(base: Totals, x: Transfer)
    ensures AddFor(AddFor(base, Senders(x), a => Out(x, a)), Receivers(x), a => In(x, a)) == Add(base, [x])
  {
    forall a ensures Flow([x], a) == Plus(Out(x, a), In(x, a)) {
      FlowOne(x, a);
    }
    PartiesOne(x);
    AddForTwice(base, Senders(x), a => Out(x, a), Receivers(x), a => In(x, a), a => Flow([x], a));
  }

  /** One transfer: an invalid recipient drops the credit, not the debit. */
  method AddTransfer(before: Totals, x: Transfer) returns (t: Totals)
    ensures t == Add(before, [x])
  {
    AddTransferIsAdd(before, x);
    t := Debit(before, x);
    t := Credit(t, x);
  }

  method GetIncomes(blk: Block) returns (incomes: Totals)
    ensures incomes == Add(map[], Flatten(blk.receipts))
  {
    incomes := map[];
    for i := 0 to |blk.receipts|
      invariant incomes == Add(map[], Flatten(blk.receipts[..i]))
    {
      assert blk.receipts[..i + 1][..i] == blk.receipts[..i];
      AddAppend(map[], Flatten(blk.receipts[..i]), blk.receipts[i]);
      incomes := AddReceipt(incomes, blk.receipts[i]);
    }
    assert blk.receipts[..|blk.receipts|] == blk.receipts;
  }

  method AddReceipt(base: Totals, xs: seq<Transfer>) returns (incomes: Totals)
    ensures incomes == Add(base, xs)
  {
    incomes := base;
    assert Add(base, []) == base;
    for j := 0 to |xs|
      invariant incomes == Add(base, xs[..j])
    {
      assert xs[..j + 1] == xs[..j] + [xs[j]];
      AddAppend(base, xs[..j], [xs[j]]);
      incomes := AddTransfer(incomes, xs[j]);
    }
    assert xs[..|xs|] == xs;
  }

  /** The rows of some of a block's parties. */
  function RowsFor(height: nat, incomes: Totals, who: set<Address>): set<Row>
    requires who <= incomes.Keys
  {
    set a | a in who :: Row(height, a, incomes[a])
  }

  lemma IncomesAreRows(blk: Block)
    ensures var incomes := Add(map[], Flatten(blk.receipts));
            RowsFor(blk.height, incomes, incomes.Keys) == BlockRows(blk)
  {
    var xs := Flatten(blk.receipts);
    var incomes := Add(map[], xs);
    forall a | a in Parties(xs) ensures incomes[a] == Flow(xs, a) {
    }
  }

  class Plugin {
    // buffers
    var buffer: seq<Row>
    var counts: Totals
    // database
    var rows: multiset<Row>
    var totals: Totals
    // index height
    var cached: nat
    var committed: nat

    ghost predicate BuffersEmpty()
      reads this
    {
      buffer == [] && counts == map[]
    }

    constructor ()
      ensures BuffersEmpty() && rows == multiset{} && totals == map[] && cached == committed == 0
    {
      buffer, counts, rows, totals, cached, committed := [], map[], multiset{}, map[], 0, 0;
    }

    method BufferOne(height: nat, a: Address, income: Income)
      modifies this`buffer, this`counts
      ensures buffer == old(buffer) + [Row(height, a, income)]
      ensures counts == Bump(old(counts), a, income)
    {
      buffer := buffer + [Row(height, a, income)];
      if a in counts {
        counts := counts[a := Plus(counts[a], income)];
      } else {
        counts := counts[a := income];
      }
    }

    /** One block's incomes, in whatever order the map gives them. */
    method BufferIncomes(height: nat, incomes: Totals) returns (ghost order: seq<Address>)
      modifies this`buffer, this`counts
      ensures Orders(order, incomes.Keys)
      ensures buffer == old(buffer) + RowList(height, incomes, order)
      ensures counts == BumpAll(old(counts), incomes, order)
    {
      order := [];
      var todo := incomes.Keys;
      while todo != {}
        invariant todo <= incomes.Keys && Orders(order, incomes.Keys - todo)
        invariant buffer == old(buffer) + RowList(height, incomes, order)
        invariant counts == BumpAll(old(counts), incomes, order)
      {
        var a :| a in todo;
        assert (order + [a])[..|order|] == order;
        assert (incomes.Keys - (todo - {a})) - {a} == incomes.Keys - todo;
        order := order + [a];
        BufferOne(height, a, incomes[a]);
        todo := todo - {a};
      }
      assert incomes.Keys - todo == incomes.Keys;
    }

    method BufferBlock(blk: Block)
      modifies this`buffer, this`counts
      ensures multiset(buffer) == multiset(old(buffer)) + multiset(BlockRows(blk))
      ensures counts == Add(old(counts), Flatten(blk.receipts))
    {
      var incomes := GetIncomes(blk);
      var order := BufferIncomes(blk.height, incomes);
      ListIsRows(blk.height, incomes, order, incomes.Keys);
      IncomesAreRows(blk);
      BumpAllIsMerged(old(counts), incomes, order, incomes.Keys);
      OnlyEnds(old(counts), incomes);
      MergedIsAdd(old(counts), Flatten(blk.receipts));
    }

    /** The buffers are emptied before the transaction, which then fails or commits. */
    method CommitBatch(tip: nat, outcome: Delivery) returns (ok: bool)
      modifies this
      ensures BuffersEmpty()
      ensures ok == outcome.Commits?
      ensures rows == if ok then old(rows) + multiset(old(buffer)) else old(rows)
      ensures totals == if ok then Merged(old(totals), old(counts)) else old(totals)
      ensures committed == if ok then tip else old(committed)
      ensures cached == if outcome.FailsBefore? then old(cached) else tip
    {
      var buffered, deltas := buffer, counts;
      buffer, counts := [], map[];
      if outcome.FailsBefore? {
        return false;
      }
      cached := tip;
      if outcome.FailsAfter? {
        return false;
      }
      rows := rows + multiset(buffered);
      totals := Merged(totals, deltas);
      committed := tip;
      return true;
    }

    /** A failed call leaves the tables as they were and nothing in the buffers. */
    method PutBlocks(blks: seq<Block>, outcome: Delivery) returns (ok: bool)
      requires BuffersEmpty()
      modifies this
      ensures BuffersEmpty()
      ensures ok == (blks != [] && outcome.Commits?)
      ensures rows == if ok then old(rows) + RowsOf(blks) else old(rows)
      ensures totals == if ok then Add(old(totals), TransfersOf(blks)) else old(totals)
      ensures committed == if ok then blks[|blks| - 1].height else old(committed)
      ensures cached == if blks == [] || outcome.FailsBefore? then old(cached) else blks[|blks| - 1].height
    {
      if blks == [] {
        // indexing the last block panics; the runner recovers and retries
        return false;
      }
      for i := 0 to |blks|
        invariant multiset(buffer) == RowsOf(blks[..i])
        invariant counts == Add(map[], TransfersOf(blks[..i]))
        invariant rows == old(rows) && totals == old(totals) && committed == old(committed) && cached == old(cached)
      {
        assert blks[..i + 1][..i] == blks[..i];
        AddAppend(map[], TransfersOf(blks[..i]), Flatten(blks[i].receipts));
        BufferBlock(blks[i]);
      }
      assert blks[..|blks|] == blks;
      MergedIsAdd(totals, TransfersOf(blks));
      ok := CommitBatch(blks[|blks| - 1].height, outcome);
    }

    /** Both tables are genesis and the kept blocks, each counted once. */
    ghost predicate Tracks(genesisRows: multiset<Row>, genesisTotals: Totals, chain: seq<Block>, s: State)
      reads this
    {
      && BuffersEmpty() && cached == s.cached && committed == s.committed
      && cached <= |chain| && Accounts(genesisRows, genesisTotals, chain[..cached], s, rows, totals)
    }

    /** A run of deliveries as the runner makes them, each of up to `size` blocks from the cached height
        on, failing in any way: nothing is ever counted twice, and the tables are those of the blocks up
        to the cached height exactly when the blocks lost to rollbacks after caching had no rows. */
    method Index(genesisRows: multiset<Row>, genesisTotals: Totals, chain: seq<Block>, script: seq<Attempt>, ghost s: State)
      requires forall i :: 0 <= i < |chain| ==> chain[i].height == i + 1
      requires Tracks(genesisRows, genesisTotals, chain, s)
      modifies this
      ensures Tracks(genesisRows, genesisTotals, chain, StateAfter(chain, s, script))
      ensures var lost := StateAfter(chain, s, script).lost;
              && (rows == genesisRows + RowsOf(chain[..cached]) <==> RowsOf(lost) == multiset{})
              && (totals == Add(genesisTotals, TransfersOf(chain[..cached])) <==> RowsOf(lost) == multiset{})
    {
      for i := 0 to |script|
        invariant Tracks(genesisRows, genesisTotals, chain, StateAfter(chain, s, script[..i]))
      {
        assert script[..i + 1][..i] == script[..i];
        Attempted(genesisRows, genesisTotals, chain, script[i], StateAfter(chain, s, script[..i]));
      }
      assert script[..|script|] == script;
      ghost var end := StateAfter(chain, s, script);
      CompleteExactly(genesisRows, genesisTotals, chain[..cached], end.kept, end.lost);
    }

    /** One delivery. */
    method Attempted(genesisRows: multiset<Row>, genesisTotals: Totals, chain: seq<Block>, x: Attempt, ghost s: State)
      requires forall i :: 0 <= i < |chain| ==> chain[i].height == i + 1
      requires Tracks(genesisRows, genesisTotals, chain, s)
      modifies this
      ensures Tracks(genesisRows, genesisTotals, chain, After(chain, s, x))
    {
      var to' := if cached + x.size <= |chain| then cached + x.size else |chain|;
      ghost var whole, next := chain[..cached], After(chain, s, x);
      if to' > cached {
        var blks := chain[cached..to'];
        CutMoves(chain, s, x, whole, blks);
        Deliver(genesisRows, genesisTotals, whole, s, blks, x.delivery);
        ghost var more := if x.delivery.FailsBefore? then whole else whole + blks;
        assert chain[..next.cached] == more;
        assert Accounts(genesisRows, genesisTotals, more, next, rows, totals);
      } else {
        assert next == s;
        var ok := PutBlocks([], x.delivery);
      }
    }

    method Deliver(genesisRows: multiset<Row>, genesisTotals: Totals, ghost whole: seq<Block>, ghost s: State,
                   blks: seq<Block>, delivery: Delivery)
      requires BuffersEmpty() && cached == s.cached && committed == s.committed && blks != []
      requires Accounts(genesisRows, genesisTotals, whole, s, rows, totals)
      modifies this
      ensures var to' := blks[|blks| - 1].height;
              && BuffersEmpty()
              && cached == AfterBlocks(s, blks, to', delivery).cached
              && committed == AfterBlocks(s, blks, to', delivery).committed
      ensures Accounts(genesisRows, genesisTotals, if delivery.FailsBefore? then whole else whole + blks,
                       AfterBlocks(s, blks, blks[|blks| - 1].height, delivery), rows, totals)
    {
      AccountsAfter(genesisRows, genesisTotals, whole, s, blks, blks[|blks| - 1].height, delivery, rows, totals);
      var ok := PutBlocks(blks, delivery);
    }

    /** Genesis balances are written once: not when a row of block 0 is there already. The insert of the
        totals fails, and with it the whole transaction, when an address has totals already. */
    method Start(balances: map<Address, int>) returns (ok: bool)
      modifies this
      ensures counts == map[] && buffer == old(buffer)
      ensures cached == old(cached) && committed == old(committed)
      ensures ok <==> HasGenesis(old(rows)) || AllNew(balances, old(totals))
      ensures !ok || HasGenesis(old(rows)) ==> rows == old(rows) && totals == old(totals)
      ensures ok && !HasGenesis(old(rows)) ==>
                && rows == old(rows) + multiset(set a | a in balances :: Row(0, a, Income(balances[a], 0, 0, 0)))
                && totals == old(totals) + map a | a in balances :: Income(balances[a], 0, 0, 0)
    {
      counts := map[];
      if HasGenesis(rows) {
        return true;
      }
      if !AllNew(balances, totals) {
        return false;
      }
      rows := rows + multiset(set a | a in balances :: Row(0, a, Income(balances[a], 0, 0, 0)));
      totals := totals + map a | a in balances :: Income(balances[a], 0, 0, 0);
      return true;
    }
  }

  predicate AllNew(balances: map<Address, int>, totals: Totals) {
    forall a :: a in balances ==> a !in totals
  }

  predicate HasGenesis(rows: multiset<Row>) {
    exists r :: r in rows && r.height == 0
  }

  /******* Runs of deliveries *******/

  /** A delivery of at most `size` blocks. */
  datatype Attempt = Attempt(size: nat, delivery: Delivery)

  /** Both heights, the blocks whose rows were committed, and those lost to a rollback after caching. */
  datatype State = State(cached: nat, committed: nat, kept: seq<Block>, lost: seq<Block>)

  /** How far an attempt gets. */
  function Upto(chain: seq<Block>, s: State, x: Attempt): nat {
    if s.cached + x.size <= |chain| then s.cached + x.size else |chain|
  }

  function AfterBlocks(s: State, blks: seq<Block>, to': nat, delivery: Delivery): State {
    if blks == [] || delivery.FailsBefore? then s
    else if delivery.Commits? then State(to', to', s.kept + blks, s.lost)
    else State(to', s.committed, s.kept, s.lost + blks)
  }

  function After(chain: seq<Block>, s: State, x: Attempt): State {
    var to' := Upto(chain, s, x);
    AfterBlocks(s, if s.cached <= to' then chain[s.cached..to'] else [], to', x.delivery)
  }

  lemma CutMoves(chain: seq<Block>, s: State, x: Attempt, whole: seq<Block>, blks: seq<Block>)
    requires s.cached < Upto(chain, s, x) && whole == chain[..s.cached] && blks == chain[s.cached..Upto(chain, s, x)]
    requires forall i :: 0 <= i < |chain| ==> chain[i].height == i + 1
    ensures blks != [] && blks[|blks| - 1].height == Upto(chain, s, x)
    ensures After(chain, s, x) == AfterBlocks(s, blks, Upto(chain, s, x), x.delivery)
    ensures chain[..After(chain, s, x).cached] == if x.delivery.FailsBefore? then whole else whole + blks
  {
  }

  function StateAfter(chain: seq<Block>, s: State, script: seq<Attempt>): State {
    if script == [] then s else After(chain, StateAfter(chain, s, script[..|script| - 1]), script[|script| - 1])
  }

  ghost predicate Accounts(genesisRows: multiset<Row>, genesisTotals: Totals, whole: seq<Block>, s: State,
                           rows: multiset<Row>, totals: Totals) {
    && rows == genesisRows + RowsOf(s.kept)
    && totals == Add(genesisTotals, TransfersOf(s.kept))
    && Splits(whole, s.kept, s.lost)
  }

  /** The tables after a delivery. */
  function Stored(ok: bool, rows: multiset<Row>, blks: seq<Block>): multiset<Row> {
    if ok then rows + RowsOf(blks) else rows
  }

  function Counted(ok: bool, totals: Totals, blks: seq<Block>): Totals {
    if ok then Add(totals, TransfersOf(blks)) else totals
  }

  lemma AccountsAfter(genesisRows: multiset<Row>, genesisTotals: Totals, whole: seq<Block>, s: State,
                      blks: seq<Block>, to': nat, delivery: Delivery, rows: multiset<Row>, totals: Totals)
    requires Accounts(genesisRows, genesisTotals, whole, s, rows, totals) && blks != []
    ensures var ok := delivery.Commits?;
            Accounts(genesisRows, genesisTotals, if delivery.FailsBefore? then whole else whole + blks,
                     AfterBlocks(s, blks, to', delivery), Stored(ok, rows, blks), Counted(ok, totals, blks))
  {
    SplitsAppend(whole, s.kept, s.lost, blks);
    KeptGrows(genesisRows, genesisTotals, s.kept, blks);
  }

  /** The blocks of `whole` are those of `kept` and of `lost`, as far as rows, parties and flows go. */
  ghost predicate Splits(whole: seq<Block>, kept: seq<Block>, lost: seq<Block>) {
    && RowsOf(whole) == RowsOf(kept) + RowsOf(lost)
    && Parties(TransfersOf(whole)) == Parties(TransfersOf(kept)) + Parties(TransfersOf(lost))
    && forall a :: FlowSplits(whole, kept, lost, a)
  }

  lemma PlusCommutes(x: Income, y: Income, z: Income)
    ensures Plus(Plus(x, y), z) == Plus(Plus(x, z), y)
  {
  }

  lemma RowsCommute(x: multiset<Row>, y: multiset<Row>, z: multiset<Row>)
    ensures (x + y) + z == (x + z) + y == x + (y + z)
  {
  }

  lemma KeptGrows(rows: multiset<Row>, totals: Totals, kept: seq<Block>, blks: seq<Block>)
    ensures (rows + RowsOf(kept)) + RowsOf(blks) == rows + RowsOf(kept + blks)
    ensures Add(Add(totals, TransfersOf(kept)), TransfersOf(blks)) == Add(totals, TransfersOf(kept + blks))
  {
    RowsAppend(kept, blks);
    RowsCommute(rows, RowsOf(kept), RowsOf(blks));
    TransfersAppend(kept, blks);
    AddAppend(totals, TransfersOf(kept), TransfersOf(blks));
  }

  lemma RowsSplitAppend(whole: seq<Block>, kept: seq<Block>, lost: seq<Block>, blks: seq<Block>)
    requires RowsOf(whole) == RowsOf(kept) + RowsOf(lost)
    ensures RowsOf(whole + blks) == RowsOf(kept + blks) + RowsOf(lost) == RowsOf(kept) + RowsOf(lost + blks)
  {
    RowsAppend(whole, blks);
    RowsAppend(kept, blks);
    RowsAppend(lost, blks);
    RowsCommute(RowsOf(kept), RowsOf(lost), RowsOf(blks));
  }

  lemma PartiesOfAppend(blks: seq<Block>, more: seq<Block>)
    ensures Parties(TransfersOf(blks + more)) == Parties(TransfersOf(blks)) + Parties(TransfersOf(more))
  {
    TransfersAppend(blks, more);
    PartiesAppend(TransfersOf(blks), TransfersOf(more));
  }

  lemma PartiesSplitAppend(whole: seq<Block>, kept: seq<Block>, lost: seq<Block>, blks: seq<Block>)
    requires Parties(TransfersOf(whole)) == Parties(TransfersOf(kept)) + Parties(TransfersOf(lost))
    ensures Parties(TransfersOf(whole + blks)) == Parties(TransfersOf(kept + blks)) + Parties(TransfersOf(lost))
            == Parties(TransfersOf(kept)) + Parties(TransfersOf(lost + blks))
  {
    PartiesOfAppend(whole, blks);
    PartiesOfAppend(kept, blks);
    PartiesOfAppend(lost, blks);
  }

  /** One more run of blocks, kept or lost. */
  lemma SplitsAppend(whole: seq<Block>, kept: seq<Block>, lost: seq<Block>, blks: seq<Block>)
    requires Splits(whole, kept, lost)
    ensures Splits(whole + blks, kept + blks, lost) && Splits(whole + blks, kept, lost + blks)
  {
    RowsSplitAppend(whole, kept, lost, blks);
    PartiesSplitAppend(whole, kept, lost, blks);
    forall a ensures FlowSplits(whole + blks, kept + blks, lost, a) && FlowSplits(whole + blks, kept, lost + blks, a) {
      FlowSplitsAppend(whole, kept, lost, blks, a);
    }
  }

  predicate FlowSplits(whole: seq<Block>, kept: seq<Block>, lost: seq<Block>, a: Address) {
    Flow(TransfersOf(whole), a) == Plus(Flow(TransfersOf(kept), a), Flow(TransfersOf(lost), a))
  }

  lemma FlowOfAppend(blks: seq<Block>, more: seq<Block>, a: Address)
    ensures Flow(TransfersOf(blks + more), a) == Plus(Flow(TransfersOf(blks), a), Flow(TransfersOf(more), a))
  {
    TransfersAppend(blks, more);
    FlowAppend(TransfersOf(blks), TransfersOf(more), a);
  }

  lemma FlowSplitsAppend(whole: seq<Block>, kept: seq<Block>, lost: seq<Block>, blks: seq<Block>, a: Address)
    requires FlowSplits(whole, kept, lost, a)
    ensures FlowSplits(whole + blks, kept + blks, lost, a) && FlowSplits(whole + blks, kept, lost + blks, a)
  {
    FlowOfAppend(whole, blks, a);
    FlowOfAppend(kept, blks, a);
    FlowOfAppend(lost, blks, a);
    PlusCommutes(Flow(TransfersOf(kept), a), Flow(TransfersOf(lost), a), Flow(TransfersOf(blks), a));
    PlusLaws(Flow(TransfersOf(kept), a), Flow(TransfersOf(lost), a), Flow(TransfersOf(blks), a));
  }

  function Number(i: Income): int {
    i.inNum + i.outNum
  }

  lemma TransferCounts(x: Transfer, a: Address)
    ensures FlowOf(x, a).inNum >= 0 && FlowOf(x, a).outNum >= 0
    ensures Sends(x, a) || Receives(x, a) ==> Number(FlowOf(x, a)) >= 1
  {
  }

  lemma PartyOfTransfer(x: Transfer, a: Address)
    ensures a in Senders(x) <==> Sends(x, a)
    ensures a in Receivers(x) <==> Receives(x, a)
  {
  }

  /** Every party has taken part in a transfer at least. */
  lemma {:induction false} PartiesCount(xs: seq<Transfer>, a: Address)
    ensures Flow(xs, a).inNum >= 0 && Flow(xs, a).outNum >= 0
    ensures a in Parties(xs) ==> Number(Flow(xs, a)) >= 1
  {
    if xs == [] {
    } else {
      PartiesCount(xs[..|xs| - 1], a);
      TransferCounts(xs[|xs| - 1], a);
      PartyOfTransfer(xs[|xs| - 1], a);
    }
  }

  lemma {:induction false} NoRowsNoParties(blks: seq<Block>)
    ensures RowsOf(blks) == multiset{} <==> Parties(TransfersOf(blks)) == {}
  {
    if blks == [] {
    } else {
      var pre, last := blks[..|blks| - 1], blks[|blks| - 1];
      NoRowsNoParties(pre);
      PartiesAppend(TransfersOf(pre), Flatten(last.receipts));
      NoBlockRows(last);
      assert |RowsOf(blks)| == |RowsOf(pre)| + |BlockRows(last)|;
    }
  }

  lemma NoBlockRows(blk: Block)
    ensures |BlockRows(blk)| == 0 <==> Parties(Flatten(blk.receipts)) == {}
  {
    var xs := Flatten(blk.receipts);
    if a :| a in Parties(xs) {
      assert Row(blk.height, a, Flow(xs, a)) in BlockRows(blk);
    } else {
      assert BlockRows(blk) == {};
    }
  }

  lemma LostFlowShows(base: Totals, whole: seq<Block>, kept: seq<Block>, lost: seq<Block>, a: Address)
    requires FlowSplits(whole, kept, lost, a) && a in Parties(TransfersOf(lost))
    ensures Add(base, TransfersOf(kept)) != Add(base, TransfersOf(whole))
  {
    PartiesCount(TransfersOf(lost), a);
    AddedAt(base, TransfersOf(whole), a);
    AddedAt(base, TransfersOf(kept), a);
    assert At(Add(base, TransfersOf(kept)), a) != At(Add(base, TransfersOf(whole)), a);
  }

  lemma SameFlowsSameAdd(base: Totals, xs: seq<Transfer>, ys: seq<Transfer>)
    requires Parties(xs) == Parties(ys) && forall a :: Flow(xs, a) == Flow(ys, a)
    ensures Add(base, xs) == Add(base, ys)
  {
  }

  lemma NoLostFlow(whole: seq<Block>, kept: seq<Block>, lost: seq<Block>, a: Address)
    ensures FlowSplits(whole, kept, lost, a) && a !in Parties(TransfersOf(lost)) ==>
              Flow(TransfersOf(whole), a) == Flow(TransfersOf(kept), a)
  {
    if a !in Parties(TransfersOf(lost)) {
      NoFlowElsewhere(TransfersOf(lost), a);
      PlusLaws(Flow(TransfersOf(kept), a), NONE, NONE);
    }
  }

  lemma TotalsCompleteExactly(base: Totals, whole: seq<Block>, kept: seq<Block>, lost: seq<Block>)
    requires Splits(whole, kept, lost)
    ensures Add(base, TransfersOf(kept)) == Add(base, TransfersOf(whole)) <==> Parties(TransfersOf(lost)) == {}
  {
    if a :| a in Parties(TransfersOf(lost)) {
      assert FlowSplits(whole, kept, lost, a);
      LostFlowShows(base, whole, kept, lost, a);
    } else {
      forall a ensures Flow(TransfersOf(whole), a) == Flow(TransfersOf(kept), a) {
        assert FlowSplits(whole, kept, lost, a);
        NoLostFlow(whole, kept, lost, a);
      }
      assert Parties(TransfersOf(lost)) == {};
      SameFlowsSameAdd(base, TransfersOf(whole), TransfersOf(kept));
    }
  }

  lemma Cancels(x: multiset<Row>, y: multiset<Row>, z: multiset<Row>)
    ensures x + y == x + (y + z) <==> z == multiset{}
  {
    if z != multiset{} {
      assert |x + (y + z)| == |x + y| + |z|;
    }
  }

  /** The tables of the kept blocks are complete exactly when the lost blocks had no rows. */
  lemma CompleteExactly(rows: multiset<Row>, totals: Totals, whole: seq<Block>, kept: seq<Block>, lost: seq<Block>)
    requires Splits(whole, kept, lost)
    ensures rows + RowsOf(kept) == rows + RowsOf(whole) <==> RowsOf(lost) == multiset{}
    ensures Add(totals, TransfersOf(kept)) == Add(totals, TransfersOf(whole)) <==> RowsOf(lost) == multiset{}
  {
    Cancels(rows, RowsOf(kept), RowsOf(lost));
    NoRowsNoParties(lost);
    TotalsCompleteExactly(totals, whole, kept, lost);
  }

  /** Upsert by address, adding to the columns of a row that is there. */
  function Merged(base: Totals, deltas: Totals): Totals {
    map a | a in base.Keys + deltas.Keys ::
      if a !in deltas then base[a] else if a in base then Plus(base[a], deltas[a]) else deltas[a]
  }

  function Only(t: Totals, who: set<Address>): Totals {
    map a | a in t && a in who :: t[a]
  }

  lemma OnlyEnds(base: Totals, t: Totals)
    ensures Merged(base, Only(t, {})) == base && Only(t, t.Keys) == t
  {
  }

  /** The set, each element once, in some order. */
  predicate Orders(order: seq<Address>, s: set<Address>) {
    if order == [] then s == {}
    else
      var a := order[|order| - 1];
      a in s && Orders(order[..|order| - 1], s - {a})
  }

  function RowList(height: nat, incomes: Totals, order: seq<Address>): seq<Row> {
    if order == [] then []
    else
      var a := order[|order| - 1];
      RowList(height, incomes, order[..|order| - 1]) + [Row(height, a, At(incomes, a))]
  }

  function BumpAll(base: Totals, incomes: Totals, order: seq<Address>): Totals {
    if order == [] then base
    else
      var a := order[|order| - 1];
      Bump(BumpAll(base, incomes, order[..|order| - 1]), a, At(incomes, a))
  }

  lemma {:induction false} ListIsRows(height: nat, incomes: Totals, order: seq<Address>, s: set<Address>)
    requires Orders(order, s) && s <= incomes.Keys
    ensures multiset(RowList(height, incomes, order)) == multiset(RowsFor(height, incomes, s))
  {
    if order == [] {
    } else {
      var a := order[|order| - 1];
      ListIsRows(height, incomes, order[..|order| - 1], s - {a});
      assert RowsFor(height, incomes, s) == RowsFor(height, incomes, s - {a}) + {Row(height, a, incomes[a])};
    }
  }

  lemma {:induction false} BumpAllIsMerged(base: Totals, incomes: Totals, order: seq<Address>, s: set<Address>)
    requires Orders(order, s) && s <= incomes.Keys
    ensures BumpAll(base, incomes, order) == Merged(base, Only(incomes, s))
  {
    if order == [] {
      OnlyEnds(base, incomes);
    } else {
      var a := order[|order| - 1];
      BumpAllIsMerged(base, incomes, order[..|order| - 1], s - {a});
      MergeDone(base, incomes, s - {a}, a);
      assert (s - {a}) + {a} == s;
    }
  }

  lemma MergeDone(base: Totals, incomes: Totals, done: set<Address>, a: Address)
    requires a in incomes && a !in done
    ensures Bump(Merged(base, Only(incomes, done)), a, incomes[a]) == Merged(base, Only(incomes, done + {a}))
  {
  }

  lemma MergedIsAddFor(base: Totals, who: set<Address>, f: Address -> Income)
    requires OnlyFor(who, f)
    ensures Merged(base, AddFor(map[], who, f)) == AddFor(base, who, f)
  {
  }

  lemma MergedIsAdd(base: Totals, xs: seq<Transfer>)
    ensures Merged(base, Add(map[], xs)) == Add(base, xs)
  {
    FlowOnlyForParties(xs);
    MergedIsAddFor(base, Parties(xs), a => Flow(xs, a));
  }
}
