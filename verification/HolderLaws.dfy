/** Laws of the holder table over whole histories: supply is conserved, the batched plugin agrees
    with the older per-event one, and an ERC-721 token has one row, its owner's. */
module HolderLaws {
  import opened Wrappers
  import opened Sums
  import opened HolderModel
  import opened HolderRefinement
  import opened HolderPlugin

  /******* Conservation of ERC-1155 supply *******/

  ghost function Weight(t: Table, tok: Token): Key -> int {
    k => if k in t && k.Tok() == tok then t[k].value else 0
  }

  /** The sum of a token's values over all its holders. */
  ghost function Supply(t: Table, tok: Token): int {
    SumSet(t.Keys, Weight(t, tok))
  }

  lemma SupplyDrop(t: Table, k: Key, tok: Token)
    ensures Supply(t - {k}, tok) == Supply(t, tok) - Weight(t, tok)(k)
  {
    assert (t - {k}).Keys == t.Keys - {k};
    if k in t {
      SumSetRemove(t.Keys, Weight(t, tok), k);
    } else {
      assert t.Keys - {k} == t.Keys;
    }
    SumSetCongruence(t.Keys - {k}, Weight(t, tok), Weight(t - {k}, tok));
  }

  lemma SupplyPut(t: Table, k: Key, h: Holding, tok: Token)
    ensures Supply(t[k := h], tok) == Supply(t, tok) - Weight(t, tok)(k) + if k.Tok() == tok then h.value else 0
  {
    var u := t[k := h];
    SumSetBump(t.Keys, Weight(t, tok), Weight(u, tok), k);
    assert u.Keys == t.Keys + {k};
  }

  lemma SupplyDropToken(t: Table, other: Token, tok: Token)
    requires other != tok
    ensures Supply(DropToken(t, other), tok) == Supply(t, tok)
  {
    var u := DropToken(t, other);
    SumSetIgnoresZeros(t.Keys, u.Keys, Weight(t, tok));
    SumSetCongruence(u.Keys, Weight(t, tok), Weight(u, tok));
  }

  /** What a debit of a missing row would have taken. */
  function Missed(t: Table, op: Op): int {
    if op.Debits() && op.FromKey() !in t then op.value else 0
  }

  function Minted(ops: seq<Op>, tok: Token): int {
    if ops == [] then 0
    else
      var op := ops[|ops| - 1];
      Minted(ops[..|ops| - 1], tok) + if op.kind.Mint1155? && op.Tok() == tok then op.value else 0
  }

  function BurnedAmount(ops: seq<Op>, tok: Token): int {
    if ops == [] then 0
    else
      var op := ops[|ops| - 1];
      BurnedAmount(ops[..|ops| - 1], tok) + if op.kind.Burn1155? && op.Tok() == tok then op.value else 0
  }

  /** The debits of `tok` that found no row, over the whole run. */
  function Uncovered(t: Table, ops: seq<Op>, tok: Token): int
    requires Fold(t, ops).Some?
  {
    if ops == [] then 0
    else
      var pre, op := ops[..|ops| - 1], ops[|ops| - 1];
      Uncovered(t, pre, tok) + if op.Tok() == tok then Missed(Fold(t, pre).value, op) else 0
  }

  lemma DebitSupply(t: Table, k: Key, v: int, tok: Token)
    requires Debit(t, k, v).Some?
    ensures Supply(Debit(t, k, v).value, tok) == Supply(t, tok) - if k in t && k.Tok() == tok then v else 0
  {
    if k in t {
      SupplyDrop(t, k, tok);
      SupplyPut(t, k, t[k].(value := t[k].value - v), tok);
    }
  }

  lemma StepSupply(t: Table, op: Op, tok: Token)
    requires Apply(t, op).Some?
    requires op.Is721() ==> op.Tok() != tok
    ensures Supply(Apply(t, op).value, tok) ==
            Supply(t, tok)
            + (if op.kind.Mint1155? && op.Tok() == tok then op.value else 0)
            - (if op.kind.Burn1155? && op.Tok() == tok then op.value else 0)
            + (if op.Tok() == tok then Missed(t, op) else 0)
  {
    match op.kind
    case Mint721 => SupplyPut(t, op.ToKey(), Holding(op.ercType, 1), tok);
    case Burn721 => SupplyDropToken(t, op.Tok(), tok);
    case Transfer721 =>
      SupplyDrop(t, op.FromKey(), tok);
      SupplyPut(t - {op.FromKey()}, op.ToKey(), Holding(op.ercType, 1), tok);
    case Mint1155 => SupplyPut(t, op.ToKey(), Credit(t, op.ToKey(), op.ercType, op.value)[op.ToKey()], tok);
    case Burn1155 => DebitSupply(t, op.FromKey(), op.value, tok);
    case Transfer1155 =>
      DebitSupply(t, op.FromKey(), op.value, tok);
      var d := Debit(t, op.FromKey(), op.value).value;
      SupplyPut(d, op.ToKey(), Credit(d, op.ToKey(), op.ercType, op.value)[op.ToKey()], tok);
  }

  /** Supply moves by mints less burns, plus whatever was debited from missing rows. So it is
      conserved exactly when the uncovered debits come to nothing. */
  lemma {:induction false} SupplyLaw(t: Table, ops: seq<Op>, tok: Token)
    requires Fold(t, ops).Some?
    requires forall i :: 0 <= i < |ops| && ops[i].Is721() ==> ops[i].Tok() != tok
    ensures Supply(Fold(t, ops).value, tok) ==
            Supply(t, tok) + Minted(ops, tok) - BurnedAmount(ops, tok) + Uncovered(t, ops, tok)
  {
    if ops == [] {
    } else {
      var pre := ops[..|ops| - 1];
      SupplyLaw(t, pre, tok);
      StepSupply(Fold(t, pre).value, ops[|ops| - 1], tok);
    }
  }

  predicate NoNegative(t: Table) {
    forall k :: k in t ==> t[k].value >= 0
  }

  predicate NaturalValues(ops: seq<Op>) {
    forall i :: 0 <= i < |ops| ==> ops[i].value >= 0
  }

  /** No row is ever negative, after any number of batches of any lists. */
  lemma {:induction false} NeverNegative(t: Table, ops: seq<Op>)
    requires NoNegative(t) && NaturalValues(ops) && Fold(t, ops).Some?
    ensures NoNegative(Fold(t, ops).value)
  {
    if ops == [] {
    } else {
      var pre, op := ops[..|ops| - 1], ops[|ops| - 1];
      NeverNegative(t, pre);
      assert op.value >= 0;
    }
  }

  /** Every debit of `tok` that takes something finds a row to take it from. */
  predicate Covered(t: Table, ops: seq<Op>, tok: Token)
    requires Fold(t, ops).Some?
  {
    ops == [] ||
    var pre, op := ops[..|ops| - 1], ops[|ops| - 1];
    Covered(t, pre, tok) && (op.Tok() == tok ==> Missed(Fold(t, pre).value, op) == 0)
  }

  lemma {:induction false} UncoveredExactly(t: Table, ops: seq<Op>, tok: Token)
    requires Fold(t, ops).Some? && NaturalValues(ops)
    ensures Uncovered(t, ops, tok) >= 0
    ensures Uncovered(t, ops, tok) == 0 <==> Covered(t, ops, tok)
  {
    if ops == [] {
    } else {
      assert ops[|ops| - 1].value >= 0;
      UncoveredExactly(t, ops[..|ops| - 1], tok);
    }
  }

  /** Over a whole history cut into batches: no row is negative, supply never falls short of mints less
      burns, and equals it exactly when every debit was covered. */
  lemma BatchesConserveExactly(batches: seq<seq<Op>>, tok: Token)
    requires forall i :: 0 <= i < |batches| ==> ReissueFree(batches[i])
    requires RunBatches(map[], batches).Some? && NaturalValues(Flatten(batches))
    requires forall i :: 0 <= i < |Flatten(batches)| && Flatten(batches)[i].Is721() ==> Flatten(batches)[i].Tok() != tok
    ensures NoNegative(RunBatches(map[], batches).value) && Fold(map[], Flatten(batches)).Some?
    ensures var t, ops := RunBatches(map[], batches).value, Flatten(batches);
            && Supply(t, tok) >= Minted(ops, tok) - BurnedAmount(ops, tok)
            && (Supply(t, tok) == Minted(ops, tok) - BurnedAmount(ops, tok) <==> Covered(map[], ops, tok))
  {
    CutsAreInvisible(map[], batches);
    NeverNegative(map[], Flatten(batches));
    SupplyLaw(map[], Flatten(batches), tok);
    UncoveredExactly(map[], Flatten(batches), tok);
    assert Supply(map[], tok) == 0;
  }

  lemma OnlyOp(t: Table, op: Op, tok: Token)
    requires Apply(t, op).Some? && op.Tok() == tok
    ensures Fold(t, [op]) == Apply(t, op) && Uncovered(t, [op], tok) == Missed(t, op)
    ensures Covered(t, [op], tok) <==> Missed(t, op) == 0
    ensures op.kind.Transfer1155? ==> Minted([op], tok) == BurnedAmount([op], tok) == 0
  {
    assert [op][..0] == [];
  }

  /** A transfer from an address without a row breaks conservation: it adds to the supply what nobody
      minted. */
  lemma RowlessTransferMints(t: Table, op: Op)
    requires op.kind.Transfer1155? && op.FromKey() !in t && op.value != 0
    ensures Batch(t, [op]) == Fold(t, [op]) && Fold(t, [op]).Some? && !Covered(t, [op], op.Tok())
    ensures Minted([op], op.Tok()) == BurnedAmount([op], op.Tok()) == 0
    ensures Supply(Fold(t, [op]).value, op.Tok()) == Supply(t, op.Tok()) + op.value
  {
    OnlyOp(t, op, op.Tok());
    BatchRefinesFold(t, [op]);
    SupplyLaw(t, [op], op.Tok());
  }

  /******* The older plugin: one SQL statement at a time *******/

  /** The stored value is read as zero when the row is missing; an update of a missing row does nothing. */
  function LegacyDebit(t: Table, k: Key, v: int): Table {
    var have := if k in t then t[k].value else 0;
    if have == v then t - {k}
    else if k in t then t[k := t[k].(value := have - v)]
    else t
  }

  /** An existing row keeps its type. */
  function LegacyCredit(t: Table, k: Key, v: int): Table {
    if k in t then t[k := t[k].(value := t[k].value + v)] else t[k := Holding(1155, v)]
  }

  function LegacyOwn(t: Table, k: Key): Table {
    if k in t then t[k := t[k].(value := 0)] else t[k := Holding(721, 0)]
  }

  function LegacyApply(t: Table, op: Op): Table {
    match op.kind
    case Mint721 => LegacyOwn(t, op.ToKey())
    case Burn721 => DropToken(t, op.Tok())
    case Transfer721 => LegacyOwn(t - {op.FromKey()}, op.ToKey())
    case Mint1155 => LegacyCredit(t, op.ToKey(), op.value)
    case Burn1155 => LegacyDebit(t, op.FromKey(), op.value)
    case Transfer1155 => LegacyCredit(LegacyDebit(t, op.FromKey(), op.value), op.ToKey(), op.value)
  }

  function LegacyFold(t: Table, ops: seq<Op>): Table {
    if ops == [] then t else LegacyApply(LegacyFold(t, ops[..|ops| - 1]), ops[|ops| - 1])
  }

  /** A debit that the older plugin lets through by driving the sender's row below zero. */
  predicate Dips(t: Table, op: Op) {
    op.Debits() &&
    var d := LegacyDebit(t, op.FromKey(), op.value);
    op.FromKey() in d && d[op.FromKey()].value < 0
  }

  predicate EverDips(t: Table, ops: seq<Op>) {
    ops != [] &&
    (EverDips(t, ops[..|ops| - 1]) || Dips(LegacyFold(t, ops[..|ops| - 1]), ops[|ops| - 1]))
  }

  /** The contracts in `nft` emit 721 operations only, all others 1155 operations only. */
  predicate Pure(ops: seq<Op>, nft: set<string>) {
    forall i :: 0 <= i < |ops| ==>
      && (ops[i].Is721() <==> ops[i].contract in nft)
      && ops[i].ercType == if ops[i].contract in nft then 721 else 1155
  }

  /** Same rows and types; the same values too outside `nft`, where the older plugin stores no count. */
  ghost predicate SameHoldings(t: Table, l: Table, nft: set<string>) {
    && t.Keys == l.Keys
    && (forall k :: k in t ==> t[k].ercType == l[k].ercType == if k.contract in nft then 721 else 1155)
    && (forall k :: k in t && k.contract !in nft ==> t[k].value == l[k].value)
  }

  lemma LegacyDebitStep(t: Table, l: Table, k: Key, v: int, nft: set<string>)
    requires SameHoldings(t, l, nft) && k.contract !in nft && NoNegative(t) && v >= 0
    ensures Debit(t, k, v).None? <==> k in LegacyDebit(l, k, v) && LegacyDebit(l, k, v)[k].value < 0
    ensures Debit(t, k, v).Some? ==> SameHoldings(Debit(t, k, v).value, LegacyDebit(l, k, v), nft)
  {
  }

  lemma LegacyCreditStep(t: Table, l: Table, k: Key, v: int, nft: set<string>)
    requires SameHoldings(t, l, nft) && k.contract !in nft
    ensures SameHoldings(Credit(t, k, 1155, v), LegacyCredit(l, k, v), nft)
  {
  }

  lemma LegacyStep(t: Table, l: Table, op: Op, nft: set<string>)
    requires SameHoldings(t, l, nft) && Pure([op], nft)
    requires NoNegative(t) && op.value >= 0
    ensures Apply(t, op).None? <==> Dips(l, op)
    ensures Apply(t, op).Some? ==> SameHoldings(Apply(t, op).value, LegacyApply(l, op), nft)
  {
    assert [op][0] == op;
    assert (op.Is721() <==> op.contract in nft) && op.ercType == if op.contract in nft then 721 else 1155;
    match op.kind
    case Mint721 =>
    case Burn721 =>
    case Transfer721 =>
    case Mint1155 => LegacyCreditStep(t, l, op.ToKey(), op.value, nft);
    case Burn1155 => LegacyDebitStep(t, l, op.FromKey(), op.value, nft);
    case Transfer1155 =>
      LegacyDebitStep(t, l, op.FromKey(), op.value, nft);
      if Debit(t, op.FromKey(), op.value).Some? {
        LegacyCreditStep(Debit(t, op.FromKey(), op.value).value, LegacyDebit(l, op.FromKey(), op.value),
                         op.ToKey(), op.value, nft);
      }
  }

  /** The two plugins keep the same holdings, as long as the batched one accepts the list; and it
      refuses exactly the lists on which the older one drives a row below zero. */
  lemma {:induction false} LegacyAgrees(t: Table, l: Table, ops: seq<Op>, nft: set<string>)
    requires SameHoldings(t, l, nft) && Pure(ops, nft)
    requires NoNegative(t) && NaturalValues(ops)
    ensures Fold(t, ops).None? <==> EverDips(l, ops)
    ensures Fold(t, ops).Some? ==> SameHoldings(Fold(t, ops).value, LegacyFold(l, ops), nft)
  {
    if ops == [] {
    } else {
      var pre, op := ops[..|ops| - 1], ops[|ops| - 1];
      LegacyAgrees(t, l, pre, nft);
      if Fold(t, pre).Some? {
        NeverNegative(t, pre);
        assert Pure([op], nft) by {
          assert ops[|ops| - 1] == op;
        }
        LegacyStep(Fold(t, pre).value, LegacyFold(l, pre), op, nft);
      }
    }
  }

  /** For ERC-1155 contracts only: batches, however cut, leave the older plugin's very table. */
  lemma BatchesMatchLegacy1155(batches: seq<seq<Op>>)
    requires Pure(Flatten(batches), {}) && NaturalValues(Flatten(batches))
    ensures RunBatches(map[], batches).None? <==> EverDips(map[], Flatten(batches))
    ensures RunBatches(map[], batches).Some? ==>
              RunBatches(map[], batches).value == LegacyFold(map[], Flatten(batches))
  {
    var ops := Flatten(batches);
    forall i | 0 <= i < |batches| ensures ReissueFree(batches[i]) {
      FlattenContains(batches, i);
      forall j | 0 <= j < |batches[i]| ensures !batches[i][j].Is721() {
        assert batches[i][j] in batches[i];
        assert batches[i][j] in ops;
      }
    }
    CutsAreInvisible(map[], batches);
    LegacyAgrees(map[], map[], ops, {});
  }

  /** With both kinds of contracts: as long as no batch issues a burned token again, batches however cut
      keep the older plugin's holdings, and some batch is refused exactly when the older one drives a row
      below zero. */
  lemma BatchesMatchLegacy(batches: seq<seq<Op>>, nft: set<string>)
    requires Pure(Flatten(batches), nft) && NaturalValues(Flatten(batches))
    requires forall i :: 0 <= i < |batches| ==> ReissueFree(batches[i])
    ensures RunBatches(map[], batches).None? <==> EverDips(map[], Flatten(batches))
    ensures RunBatches(map[], batches).Some? ==>
              SameHoldings(RunBatches(map[], batches).value, LegacyFold(map[], Flatten(batches)), nft)
  {
    CutsAreInvisible(map[], batches);
    LegacyAgrees(map[], map[], Flatten(batches), nft);
  }

  lemma {:induction false} FlattenContains(batches: seq<seq<Op>>, i: nat)
    requires i < |batches|
    ensures forall op :: op in batches[i] ==> op in Flatten(batches)
  {
    if i < |batches| - 1 {
      FlattenContains(batches[..|batches| - 1], i);
    }
  }

  /******* ERC-721: one row a token, its owner's *******/

  type Owners = map<Token, string>

  /** A well-formed 721 event: mint of an unowned token, or transfer or burn by the owner. */
  predicate Lawful(o: Owners, op: Op) {
    match op.kind
    case Mint721 => op.Tok() !in o
    case Burn721 => op.Tok() in o && o[op.Tok()] == op.from
    case Transfer721 => op.Tok() in o && o[op.Tok()] == op.from
    case _ => true
  }

  function Reown(o: Owners, op: Op): Owners {
    match op.kind
    case Mint721 => o[op.Tok() := op.to]
    case Burn721 => o - {op.Tok()}
    case Transfer721 => o[op.Tok() := op.to]
    case _ => o
  }

  function ReownAll(o: Owners, ops: seq<Op>): Owners {
    if ops == [] then o else Reown(ReownAll(o, ops[..|ops| - 1]), ops[|ops| - 1])
  }

  predicate LawfulHistory(o: Owners, ops: seq<Op>) {
    forall i :: 0 <= i < |ops| ==> Lawful(ReownAll(o, ops[..i]), ops[i])
  }

  /** The rows of the `nft` contracts are the owners: one row an owned token, with count one. */
  ghost predicate RowsAreOwners(t: Table, o: Owners, nft: set<string>) {
    && (forall k: Key :: k.contract in nft ==> (k in t <==> k.Tok() in o && o[k.Tok()] == k.holder))
    && (forall k :: k in t && k.contract in nft ==> t[k] == Holding(721, 1))
  }

  lemma OwnerStep(t: Table, o: Owners, op: Op, nft: set<string>)
    requires RowsAreOwners(t, o, nft) && Pure([op], nft) && Lawful(o, op) && Apply(t, op).Some?
    ensures RowsAreOwners(Apply(t, op).value, Reown(o, op), nft)
  {
    assert [op][0] == op;
    assert (op.Is721() <==> op.contract in nft) && op.ercType == if op.contract in nft then 721 else 1155;
  }

  lemma {:induction false} OwnerRun(t: Table, o: Owners, ops: seq<Op>, nft: set<string>)
    requires RowsAreOwners(t, o, nft) && Pure(ops, nft) && LawfulHistory(o, ops) && Fold(t, ops).Some?
    ensures RowsAreOwners(Fold(t, ops).value, ReownAll(o, ops), nft)
  {
    if ops == [] {
    } else {
      var pre, op := ops[..|ops| - 1], ops[|ops| - 1];
      assert LawfulHistory(o, pre) by {
        forall i | 0 <= i < |pre| ensures Lawful(ReownAll(o, pre[..i]), pre[i]) {
          assert pre[..i] == ops[..i];
        }
      }
      OwnerRun(t, o, pre, nft);
      assert Pure([op], nft) by {
        assert ops[|ops| - 1] == op;
      }
      OwnerStep(Fold(t, pre).value, ReownAll(o, pre), op, nft);
    }
  }

  /** After any cut of a lawful history into batches, each token has at most one holder row, and its
      holder is the owner. */
  lemma OneOwnerRow(batches: seq<seq<Op>>, nft: set<string>)
    requires Pure(Flatten(batches), nft) && LawfulHistory(map[], Flatten(batches))
    requires forall i :: 0 <= i < |batches| ==> ReissueFree(batches[i])
    requires RunBatches(map[], batches).Some?
    ensures RowsAreOwners(RunBatches(map[], batches).value, ReownAll(map[], Flatten(batches)), nft)
    ensures var t := RunBatches(map[], batches).value;
            forall j, k :: j in t && k in t && j.contract in nft && j.Tok() == k.Tok() ==> j == k
  {
    CutsAreInvisible(map[], batches);
    OwnerRun(map[], map[], Flatten(batches), nft);
  }

  /******* Cutting the chain *******/

  function Chain(cuts: seq<seq<Block>>): seq<Block> {
    if cuts == [] then [] else Chain(cuts[..|cuts| - 1]) + cuts[|cuts| - 1]
  }

  /** The tables left by successful `PutBlocks` calls, one a cut. */
  function PutAll(reg: Registry, t: Table, cuts: seq<seq<Block>>): Option<Table> {
    if cuts == [] then Some(t)
    else
      var f :- PutAll(reg, t, cuts[..|cuts| - 1]);
      var ops :- OpsOf(reg, cuts[|cuts| - 1]);
      Batch(f, ops)
  }

  /** The table depends on the chain alone, not on how it was cut into calls. */
  lemma {:induction false} ChainCutsAreInvisible(reg: Registry, t: Table, cuts: seq<seq<Block>>)
    requires forall i :: 0 <= i < |cuts| && OpsOf(reg, cuts[i]).Some? ==> ReissueFree(OpsOf(reg, cuts[i]).value)
    ensures PutAll(reg, t, cuts) ==
            if OpsOf(reg, Chain(cuts)).None? then None else Fold(t, OpsOf(reg, Chain(cuts)).value)
  {
    if cuts == [] {
    } else {
      var pre, last := cuts[..|cuts| - 1], cuts[|cuts| - 1];
      ChainCutsAreInvisible(reg, t, pre);
      OpsOfAppend(reg, Chain(pre), last);
      if OpsOf(reg, Chain(pre)).Some? && OpsOf(reg, last).Some? {
        FoldAppend(t, OpsOf(reg, Chain(pre)).value, OpsOf(reg, last).value);
        if PutAll(reg, t, pre).Some? {
          BatchRefinesFold(PutAll(reg, t, pre).value, OpsOf(reg, last).value);
        }
      }
    }
  }
}
