/** The batched engine against one-at-a-time application: same errors on every input, same table
    whenever no burned token is issued again in the batch, and only then. */
module HolderRefinement {
  import opened Wrappers
  import opened HolderModel

  /** The row `k` of the stored table is hidden by the batch so far. `burned` holds every token the
      batch burned, also those whose pending delete it later cancelled. */
  predicate Hidden(p: Pending, burned: set<Token>, k: Key) {
    k in p.byKey || k.Tok() in burned
  }

  /** `f`, the one-at-a-time table, read through the pending maps laid over the stored table `t`. */
  ghost predicate Overlay(t: Table, touched: set<Key>, p: Pending, burned: set<Token>, f: Table) {
    && p.byToken <= burned
    && (forall k :: k in f <==> k in p.states || (k in t && !Hidden(p, burned, k)))
    && (forall k :: k in f ==> f[k] == if k in p.states then p.states[k] else t[k])
    && (forall k :: k in touched && k in t ==> k in p.states || Hidden(p, burned, k))
  }

  lemma DebitOverlay(t: Table, touched: set<Key>, p: Pending, burned: set<Token>, f: Table, k: Key, v: int)
    requires Overlay(t, touched, p, burned, f)
    requires k in touched
    ensures NegativeDelta(p, k, v).Some? <==> Debit(f, k, v).Some?
    ensures Debit(f, k, v).Some? ==>
              && Overlay(t, touched, NegativeDelta(p, k, v).value, burned, Debit(f, k, v).value)
              && NegativeDelta(p, k, v).value.byToken == p.byToken
  {
  }

  lemma CreditOverlay(t: Table, touched: set<Key>, p: Pending, burned: set<Token>, f: Table, k: Key, e: nat, v: int)
    requires Overlay(t, touched, p, burned, f)
    requires k in touched
    ensures Overlay(t, touched, PositiveDelta(p, k, e, v), burned, Credit(f, k, e, v))
  {
  }

  function BurnedBy(op: Op): set<Token> {
    if op.kind.Burn721? then {op.Tok()} else {}
  }

  lemma StepOverlay(t: Table, touched: set<Key>, p: Pending, burned: set<Token>, f: Table, op: Op)
    requires Overlay(t, touched, p, burned, f)
    requires op.Credits() ==> op.ToKey() in touched
    requires op.Debits() ==> op.FromKey() in touched
    ensures Step(p, op).Some? <==> Apply(f, op).Some?
    ensures Apply(f, op).Some? ==>
              Overlay(t, touched, Step(p, op).value, burned + BurnedBy(op), Apply(f, op).value)
  {
    assert burned + {} == burned;
    match op.kind
    case Mint721 =>
    case Burn721 =>
    case Transfer721 =>
    case Mint1155 => CreditOverlay(t, touched, p, burned, f, op.ToKey(), op.ercType, op.value);
    case Burn1155 => DebitOverlay(t, touched, p, burned, f, op.FromKey(), op.value);
    case Transfer1155 =>
      DebitOverlay(t, touched, p, burned, f, op.FromKey(), op.value);
      var d := Debit(f, op.FromKey(), op.value);
      if d.Some? {
        var q := NegativeDelta(p, op.FromKey(), op.value).value;
        CreditOverlay(t, touched, q, burned, d.value, op.ToKey(), op.ercType, op.value);
      }
  }

  lemma BurnedSnoc(ops: seq<Op>)
    requires ops != []
    ensures Burned(ops) == Burned(ops[..|ops| - 1]) + BurnedBy(ops[|ops| - 1])
  {
    var pre := ops[..|ops| - 1];
    forall tok | tok in Burned(ops) ensures tok in Burned(pre) + BurnedBy(ops[|ops| - 1]) {
      var i :| 0 <= i < |ops| && ops[i].kind.Burn721? && ops[i].Tok() == tok;
      assert i < |pre| ==> pre[i] == ops[i];
    }
    forall tok | tok in Burned(pre) ensures tok in Burned(ops) {
      var i :| 0 <= i < |pre| && pre[i].kind.Burn721? && pre[i].Tok() == tok;
      assert ops[i] == pre[i];
    }
    if ops[|ops| - 1].kind.Burn721? {
      assert ops[|ops| - 1].Tok() in Burned(ops);
    }
  }

  /** After every prefix of the batch the pending maps still read as the one-at-a-time table. */
  lemma {:induction false} RunOverlay(t: Table, touched: set<Key>, ops: seq<Op>)
    requires Touched(ops) <= touched
    ensures var p0 := Pending(map k | k in t && k in touched :: t[k], {}, {});
            && (Run(p0, ops).Some? <==> Fold(t, ops).Some?)
            && (Fold(t, ops).Some? ==> Overlay(t, touched, Run(p0, ops).value, Burned(ops), Fold(t, ops).value))
  {
    if ops == [] {
    } else {
      var pre, op := ops[..|ops| - 1], ops[|ops| - 1];
      TouchedSnoc(ops);
      RunOverlay(t, touched, pre);
      BurnedSnoc(ops);
      var p0 := Pending(map k | k in t && k in touched :: t[k], {}, {});
      if Fold(t, pre).Some? {
        StepOverlay(t, touched, Run(p0, pre).value, Burned(pre), Fold(t, pre).value, op);
      }
    }
  }

  function TouchedBy(op: Op): set<Key> {
    (if op.Credits() then {op.ToKey()} else {}) + (if op.Debits() then {op.FromKey()} else {})
  }

  lemma TouchedSnoc(ops: seq<Op>)
    requires ops != []
    ensures Touched(ops) == Touched(ops[..|ops| - 1]) + TouchedBy(ops[|ops| - 1])
  {
    var pre, op := ops[..|ops| - 1], ops[|ops| - 1];
    forall k | k in Touched(ops) ensures k in Touched(pre) + TouchedBy(op) {
      if i :| 0 <= i < |ops| && ops[i].Credits() && ops[i].ToKey() == k {
        assert i < |pre| ==> pre[i] == ops[i];
      } else {
        var j :| 0 <= j < |ops| && ops[j].Debits() && ops[j].FromKey() == k;
        assert j < |pre| ==> pre[j] == ops[j];
      }
    }
    forall k | k in Touched(pre) ensures k in Touched(ops) {
      if i :| 0 <= i < |pre| && pre[i].Credits() && pre[i].ToKey() == k {
        assert ops[i] == pre[i];
      } else {
        var j :| 0 <= j < |pre| && pre[j].Debits() && pre[j].FromKey() == k;
        assert ops[j] == pre[j];
      }
    }
    assert op == ops[|pre|];
  }

  /** Pending token deletes at the end are exactly the tokens left burned. */
  lemma {:induction false} PendingTokens(p0: Pending, ops: seq<Op>)
    requires p0.byToken == {} && Run(p0, ops).Some?
    ensures Run(p0, ops).value.byToken == Closed(ops)
  {
    if ops == [] {
    } else {
      PendingTokens(p0, ops[..|ops| - 1]);
    }
  }

  /** The batch fails exactly when one-at-a-time application underflows, whatever the list. */
  lemma BatchErrsExactly(t: Table, ops: seq<Op>)
    ensures Batch(t, ops).None? <==> Fold(t, ops).None?
  {
    RunOverlay(t, Touched(ops), ops);
  }

  /** The stored row outlives the batch although its token was burned on the way. */
  predicate Outlives(t: Table, p: Pending, burned: set<Token>, k: Key) {
    k in t && k.Tok() in burned && k.Tok() !in p.byToken && k !in p.states && k !in p.byKey
  }

  lemma FlushAgreesExactly(t: Table, touched: set<Key>, p: Pending, burned: set<Token>, f: Table)
    requires Overlay(t, touched, p, burned, f)
    ensures Flush(t, p) == f <==> forall k :: !Outlives(t, p, burned, k)
  {
    var g := Flush(t, p);
    if forall k :: !Outlives(t, p, burned, k) {
      forall k ensures k in g <==> k in f {
        assert !Outlives(t, p, burned, k);
      }
      assert g == f;
    }
    if k :| Outlives(t, p, burned, k) {
      assert k in g && k !in f;
    }
  }

  /** The batch computes the one-at-a-time table, and fails when that fails. */
  lemma BatchRefinesFold(t: Table, ops: seq<Op>)
    requires ReissueFree(ops)
    ensures Batch(t, ops) == Fold(t, ops)
  {
    RunOverlay(t, Touched(ops), ops);
    if Fold(t, ops).Some? {
      var p := Run(Preload(t, ops), ops).value;
      PendingTokens(Preload(t, ops), ops);
      FlushAgreesExactly(t, Touched(ops), p, Burned(ops), Fold(t, ops).value);
    }
  }

  /******* The condition is necessary *******/

  /** No operation names this holder. */
  predicate Unnamed(ops: seq<Op>, h: string) {
    forall i :: 0 <= i < |ops| ==> ops[i].from != h && ops[i].to != h
  }

  /** The two tables differ at most in the row `k`. */
  ghost predicate AgreeOff(f: Table, g: Table, k: Key) {
    forall x :: x != k ==> (x in f <==> x in g) && (x in f ==> f[x] == g[x])
  }

  lemma UnnamedDebit(f: Table, g: Table, x: Key, v: int, k: Key)
    requires AgreeOff(f, g, k) && x != k
    ensures Debit(f, x, v).Some? <==> Debit(g, x, v).Some?
    ensures Debit(f, x, v).Some? ==>
              AgreeOff(Debit(f, x, v).value, Debit(g, x, v).value, k) && (k in Debit(g, x, v).value <==> k in g)
  {
  }

  lemma UnnamedStep(f: Table, g: Table, op: Op, k: Key)
    requires AgreeOff(f, g, k) && op.from != k.holder && op.to != k.holder
    ensures Apply(f, op).Some? <==> Apply(g, op).Some?
    ensures Apply(f, op).Some? ==>
              && AgreeOff(Apply(f, op).value, Apply(g, op).value, k)
              && (k in Apply(g, op).value <==> k in g && k.Tok() !in BurnedBy(op))
  {
    if op.Debits() {
      UnnamedDebit(f, g, op.FromKey(), op.value, k);
    }
  }

  /** A row of an unnamed holder changes no other row, and survives unless its token is burned. */
  lemma {:induction false} UnnamedRow(t: Table, ops: seq<Op>, k: Key, row: Holding)
    requires Unnamed(ops, k.holder) && Fold(t, ops).Some?
    ensures Fold(t[k := row], ops).Some?
    ensures AgreeOff(Fold(t, ops).value, Fold(t[k := row], ops).value, k)
    ensures k in Fold(t[k := row], ops).value <==> k.Tok() !in Burned(ops)
  {
    if ops == [] {
    } else {
      var pre, op := ops[..|ops| - 1], ops[|ops| - 1];
      UnnamedRow(t, pre, k, row);
      BurnedSnoc(ops);
      UnnamedStep(Fold(t, pre).value, Fold(t[k := row], pre).value, op, k);
    }
  }

  /** The engine never holds or deletes by key a row of an unnamed holder. */
  lemma {:induction false} UnnamedPending(p0: Pending, ops: seq<Op>, k: Key)
    requires Unnamed(ops, k.holder) && k !in p0.states && k !in p0.byKey && Run(p0, ops).Some?
    ensures k !in Run(p0, ops).value.states && k !in Run(p0, ops).value.byKey
  {
    if ops == [] {
    } else {
      UnnamedPending(p0, ops[..|ops| - 1], k);
      assert ops[|ops| - 1].FromKey() != k && ops[|ops| - 1].ToKey() != k;
    }
  }

  /** When a burned token is issued again: give it to any address `h` that the list does not name, in
      any table on which the list succeeds, and the batch keeps a row that one-at-a-time application
      deletes. */
  lemma ReissueBreaksBatch(t: Table, ops: seq<Op>, tok: Token, h: string, row: Holding)
    requires tok in Burned(ops) && tok !in Closed(ops) && Unnamed(ops, h) && Fold(t, ops).Some?
    ensures var k := Key(tok.contract, h, tok.id);
            var u := t[k := row];
            && Fold(u, ops).Some? && Batch(u, ops).Some?
            && k in Batch(u, ops).value && k !in Fold(u, ops).value
  {
    var k := Key(tok.contract, h, tok.id);
    var u := t[k := row];
    UnnamedRow(t, ops, k, row);
    BatchErrsExactly(u, ops);
    forall x | x in Touched(ops) ensures x != k {
      if i :| 0 <= i < |ops| && ops[i].Credits() && ops[i].ToKey() == x {
        assert ops[i].to != k.holder;
      } else {
        var j :| 0 <= j < |ops| && ops[j].Debits() && ops[j].FromKey() == x;
        assert ops[j].from != k.holder;
      }
    }
    UnnamedPending(Preload(u, ops), ops, k);
    PendingTokens(Preload(u, ops), ops);
  }

  /** For a list that succeeds on some table and leaves some address `h` unnamed: the batch agrees with
      one-at-a-time application on every table exactly when no burned token is issued again. */
  lemma BatchRefinesFoldExactly(ops: seq<Op>, t0: Table, h: string)
    requires Fold(t0, ops).Some? && Unnamed(ops, h)
    ensures (forall t: Table :: Batch(t, ops) == Fold(t, ops)) <==> ReissueFree(ops)
  {
    if ReissueFree(ops) {
      forall t: Table ensures Batch(t, ops) == Fold(t, ops) {
        BatchRefinesFold(t, ops);
      }
    } else {
      var tok :| tok in Burned(ops) && tok !in Closed(ops);
      ReissueBreaksBatch(t0, ops, tok, h, Holding(721, 1));
      var u := t0[Key(tok.contract, h, tok.id) := Holding(721, 1)];
      assert Batch(u, ops) != Fold(u, ops);
    }
  }

  /******* The table at hand *******/

  /** On one table: a batch that succeeds agrees with one-at-a-time application exactly when no stored row
      outlives it. */
  lemma BatchAgreesExactly(t: Table, ops: seq<Op>, p: Pending)
    requires Fold(t, ops).Some? && Run(Preload(t, ops), ops) == Some(p)
    ensures Batch(t, ops) == Fold(t, ops) <==> forall k :: !Outlives(t, p, Burned(ops), k)
  {
    RunOverlay(t, Touched(ops), ops);
    FlushAgreesExactly(t, Touched(ops), p, Burned(ops), Fold(t, ops).value);
  }

  /** No token is both burned as a 721 token and touched by an 1155 operation. */
  predicate Unmixed(ops: seq<Op>) {
    forall i, j :: 0 <= i < |ops| && 0 <= j < |ops| && ops[i].Is721() && !ops[j].Is721() ==> ops[i].Tok() != ops[j].Tok()
  }

  /** The row's holder has sent the token away. */
  predicate SentAway(ops: seq<Op>, k: Key) {
    exists i :: 0 <= i < |ops| && ops[i].kind.Transfer721? && ops[i].FromKey() == k
  }

  /** The row was given to its holder after the token's last burn, and not taken from it since. */
  predicate HeldAtEnd(ops: seq<Op>, k: Key) {
    ops != [] &&
    var pre, op := ops[..|ops| - 1], ops[|ops| - 1];
    if op.Reissues() && op.ToKey() == k then true
    else if op.kind.Burn721? && op.Tok() == k.Tok() then false
    else if op.kind.Transfer721? && op.FromKey() == k then false
    else HeldAtEnd(pre, k)
  }

  lemma SentAwaySnoc(ops: seq<Op>, k: Key)
    requires ops != []
    ensures SentAway(ops, k) <==>
            SentAway(ops[..|ops| - 1], k)
            || (ops[|ops| - 1].kind.Transfer721? && ops[|ops| - 1].FromKey() == k)
  {
    var pre := ops[..|ops| - 1];
    if i :| 0 <= i < |ops| && ops[i].kind.Transfer721? && ops[i].FromKey() == k {
      assert i < |pre| ==> pre[i] == ops[i];
    }
    if i :| 0 <= i < |pre| && pre[i].kind.Transfer721? && pre[i].FromKey() == k {
      assert ops[i] == pre[i];
    }
  }

  /** No 1155 operation touches the token of `k`. */
  predicate Untouched1155(ops: seq<Op>, k: Key) {
    forall i :: 0 <= i < |ops| && !ops[i].Is721() ==> ops[i].Tok() != k.Tok()
  }

  lemma UntouchedStep(p: Pending, op: Op, k: Key)
    requires Step(p, op).Some? && (op.Is721() || op.Tok() != k.Tok())
    ensures k in Step(p, op).value.byKey <==> k in p.byKey || (op.kind.Transfer721? && op.FromKey() == k)
    ensures k in Step(p, op).value.states <==>
            if op.Reissues() && op.ToKey() == k then true
            else if op.kind.Burn721? && op.Tok() == k.Tok() then false
            else if op.kind.Transfer721? && op.FromKey() == k then false
            else k in p.states
  {
  }

  lemma {:induction false} PendingOf(p0: Pending, ops: seq<Op>, k: Key)
    requires Untouched1155(ops, k) && k !in p0.states && k !in p0.byKey && Run(p0, ops).Some?
    ensures k in Run(p0, ops).value.byKey <==> SentAway(ops, k)
    ensures k in Run(p0, ops).value.states <==> HeldAtEnd(ops, k)
  {
    if ops == [] {
    } else {
      PendingOf(p0, ops[..|ops| - 1], k);
      SentAwaySnoc(ops, k);
      UntouchedStep(Run(p0, ops[..|ops| - 1]).value, ops[|ops| - 1], k);
    }
  }

  lemma NotPreloaded(t: Table, ops: seq<Op>, k: Key)
    requires Untouched1155(ops, k)
    ensures k !in Preload(t, ops).states
  {
  }

  /** The row is dealt with by the list: nothing of its token is reissued, its holder sent it away at
      some point, or holds it at the end. */
  predicate Settled(ops: seq<Op>, k: Key) {
    k.Tok() !in Burned(ops) || k.Tok() in Closed(ops) || SentAway(ops, k) || HeldAtEnd(ops, k)
  }

  /** On one table, for a list without mixed-up tokens that succeeds on it: the batch agrees with
      one-at-a-time application exactly when the list deals with every stored row. */
  lemma BatchAgreesWhenSettled(t: Table, ops: seq<Op>)
    requires Unmixed(ops) && Fold(t, ops).Some?
    ensures Batch(t, ops) == Fold(t, ops) <==> forall k :: k in t ==> Settled(ops, k)
  {
    BatchErrsExactly(t, ops);
    var p := Run(Preload(t, ops), ops).value;
    BatchAgreesExactly(t, ops, p);
    PendingTokens(Preload(t, ops), ops);
    forall k ensures !Outlives(t, p, Burned(ops), k) <==> (k in t ==> Settled(ops, k)) {
      if k.Tok() in Burned(ops) {
        BurnedIsUntouched(ops, k);
        NotPreloaded(t, ops, k);
        PendingOf(Preload(t, ops), ops, k);
      }
    }
  }

  lemma BurnedIsUntouched(ops: seq<Op>, k: Key)
    requires Unmixed(ops) && k.Tok() in Burned(ops)
    ensures Untouched1155(ops, k)
  {
    var i :| 0 <= i < |ops| && ops[i].kind.Burn721? && ops[i].Tok() == k.Tok();
    assert ops[i].Is721();
  }

  lemma {:induction false} NoUnderflow721(t: Table, ops: seq<Op>)
    requires forall i :: 0 <= i < |ops| ==> ops[i].Is721()
    ensures Fold(t, ops).Some?
  {
    if ops == [] {
    } else {
      NoUnderflow721(t, ops[..|ops| - 1]);
    }
  }

  lemma BurnedHas(ops: seq<Op>, i: nat)
    requires i < |ops| && ops[i].kind.Burn721?
    ensures ops[i].Tok() in Burned(ops)
  {
  }

  /** A token burned by its owner and minted to another address in one batch: the old owner's row stays. */
  lemma BurnThenMintBreaks(t: Table, contract: string, id: nat, a: string, b: string)
    requires a != b && Key(contract, a, id) in t
    ensures var ops := [Op(Burn721, contract, a, "", id, 721, 1), Op(Mint721, contract, "", b, id, 721, 1)];
            Fold(t, ops).Some? && Batch(t, ops) != Fold(t, ops)
  {
    var x, y := Op(Burn721, contract, a, "", id, 721, 1), Op(Mint721, contract, "", b, id, 721, 1);
    var ops, k := [x, y], Key(contract, a, id);
    NoUnderflow721(t, ops);
    BurnedHas(ops, 0);
    assert ops[|ops| - 1] == y && ops[..|ops| - 1] == [x];
    assert k.Tok() !in Closed(ops);
    assert !HeldAtEnd([x], k);
    assert !HeldAtEnd(ops, k);
    assert !Settled(ops, k);
    BatchAgreesWhenSettled(t, ops);
  }

  /** Sent on before it is burned and minted again, it leaves no row behind, although it is reissued. */
  lemma SentAwayIsSettled(t: Table, contract: string, id: nat, a: string, b: string, c: string)
    requires forall k :: k in t && k.Tok() == Token(contract, id) ==> k.holder == a
    ensures var ops := [Op(Transfer721, contract, a, b, id, 721, 1), Op(Burn721, contract, b, "", id, 721, 1),
                        Op(Mint721, contract, "", c, id, 721, 1)];
            !ReissueFree(ops) && Batch(t, ops) == Fold(t, ops)
  {
    var x, y, z := Op(Transfer721, contract, a, b, id, 721, 1), Op(Burn721, contract, b, "", id, 721, 1),
                   Op(Mint721, contract, "", c, id, 721, 1);
    var ops := [x, y, z];
    NoUnderflow721(t, ops);
    BurnedHas(ops, 1);
    assert ops[|ops| - 1] == z;
    assert y.Tok() !in Closed(ops);
    forall k | k in t ensures Settled(ops, k) {
      if k.Tok() in Burned(ops) {
        assert ops[0].kind.Transfer721? && ops[0].FromKey() == k;
      }
    }
    BatchAgreesWhenSettled(t, ops);
  }

  /******* Batching is invisible *******/

  function Flatten(batches: seq<seq<Op>>): seq<Op> {
    if batches == [] then [] else Flatten(batches[..|batches| - 1]) + batches[|batches| - 1]
  }

  function RunBatches(t: Table, batches: seq<seq<Op>>): Option<Table> {
    if batches == [] then Some(t)
    else
      var f :- RunBatches(t, batches[..|batches| - 1]);
      Batch(f, batches[|batches| - 1])
  }

  lemma {:induction false} FoldAppend(t: Table, a: seq<Op>, b: seq<Op>)
    ensures Fold(t, a + b) == if Fold(t, a).None? then None else Fold(Fold(t, a).value, b)
  {
    if b == [] {
      assert a + b == a;
    } else {
      assert (a + b)[..|a + b| - 1] == a + b[..|b| - 1];
      FoldAppend(t, a, b[..|b| - 1]);
    }
  }

  /** However a list is cut into batches, running them in turn is applying it one at a time. */
  lemma {:induction false} CutsAreInvisible(t: Table, batches: seq<seq<Op>>)
    requires forall i :: 0 <= i < |batches| ==> ReissueFree(batches[i])
    ensures RunBatches(t, batches) == Fold(t, Flatten(batches))
  {
    if batches == [] {
    } else {
      var pre, b := batches[..|batches| - 1], batches[|batches| - 1];
      CutsAreInvisible(t, pre);
      FoldAppend(t, Flatten(pre), b);
      if RunBatches(t, pre).Some? {
        BatchRefinesFold(RunBatches(t, pre).value, b);
      }
    }
  }

  /** No burn is followed anywhere in the list by a mint or transfer of the same token. */
  predicate NeverReissued(ops: seq<Op>) {
    forall i, j :: 0 <= i < j < |ops| && ops[i].kind.Burn721? && ops[j].Reissues() ==> ops[i].Tok() != ops[j].Tok()
  }

  lemma {:induction false} NeverReissuedIsFree(ops: seq<Op>)
    requires NeverReissued(ops)
    ensures ReissueFree(ops)
  {
    if ops == [] {
    } else {
      var pre, op := ops[..|ops| - 1], ops[|ops| - 1];
      NeverReissuedIsFree(pre);
      BurnedSnoc(ops);
      forall i | 0 <= i < |pre| && pre[i].kind.Burn721?
        ensures op.Reissues() ==> pre[i].Tok() != op.Tok()
      {
        assert ops[i] == pre[i];
      }
    }
  }

  /** One batch, or the same list split in two at any point: the same table or the same failure. */
  lemma SplitAnywhere(t: Table, ops: seq<Op>, i: nat)
    requires NeverReissued(ops) && i <= |ops|
    ensures Batch(t, ops) == if Batch(t, ops[..i]).None? then None else Batch(Batch(t, ops[..i]).value, ops[i..])
  {
    var a, b := ops[..i], ops[i..];
    assert NeverReissued(a) && NeverReissued(b);
    NeverReissuedIsFree(a);
    NeverReissuedIsFree(b);
    NeverReissuedIsFree(ops);
    assert a + b == ops;
    FoldAppend(t, a, b);
    BatchRefinesFold(t, ops);
    BatchRefinesFold(t, a);
    if Batch(t, a).Some? {
      BatchRefinesFold(Batch(t, a).value, b);
    }
  }
}
