/** The batched holder plugin: decoded events become operations, and one transaction applies them. */
module HolderPlugin {
  import opened Wrappers
  import opened HolderModel
  import opened HolderRefinement

  const CHUNK_SIZE: nat := 500

  const ZERO_ADDRESS := "io1qqqqqqqqqqqqqqqqqqqqqqqqqqqqqqqqd39ym7"

  /******* From blocks to operations *******/

  /** A log after ABI decoding; `Malformed` is a recognised topic whose data does not unpack. */
  datatype Event =
    | Transfer(from: string, to: string, id: nat)
    | TransferMulti(sender: string, recipient: string, ids: seq<nat>, values: seq<nat>)
    | Malformed721
    | Malformed1155
    | Unrelated

  datatype Log = Log(contract: string, topics: nat, event: Event)

  datatype Receipt = Receipt(success: bool, logs: seq<Log>)

  datatype Block = Block(height: nat, receipts: seq<Receipt>)

  /** Which contracts were classified as ERC-721 and which as ERC-1155. */
  datatype Registry = Registry(erc721: set<string>, erc1155: set<string>)

  function Op721(contract: string, from: string, to: string, id: nat): Op {
    if from == ZERO_ADDRESS then Op(Mint721, contract, "", to, id, 721, 1)
    else if to == ZERO_ADDRESS then Op(Burn721, contract, from, "", id, 721, 1)
    else Op(Transfer721, contract, from, to, id, 721, 1)
  }

  function Op1155(contract: string, from: string, to: string, id: nat, v: nat): Op {
    if from == ZERO_ADDRESS then Op(Mint1155, contract, "", to, id, 1155, v)
    else if to == ZERO_ADDRESS then Op(Burn1155, contract, from, "", id, 1155, v)
    else Op(Transfer1155, contract, from, to, id, 1155, v)
  }

  function Ops721(log: Log): Option<seq<Op>> {
    match log.event
    case Transfer(from, to, id) => Some([Op721(log.contract, from, to, id)])
    case Malformed721 => None
    case _ => Some([])
  }

  /** None also when a batch names more ids than values: indexing the values panics, which fails the block. */
  function Ops1155(log: Log): Option<seq<Op>> {
    match log.event
    case TransferMulti(from, to, ids, values) =>
      if |values| < |ids| then None
      else Some(seq(|ids|, i requires 0 <= i < |ids| => Op1155(log.contract, from, to, ids[i], values[i])))
    case Malformed1155 => None
    case _ => Some([])
  }

  function OpsOfLog(reg: Registry, log: Log): Option<seq<Op>> {
    if log.contract == "" || log.topics < 2 then Some([])
    else
      var a :- if log.contract in reg.erc721 then Ops721(log) else Some([]);
      var b :- if log.contract in reg.erc1155 then Ops1155(log) else Some([]);
      Some(a + b)
  }

  function OpsOfLogs(reg: Registry, logs: seq<Log>): Option<seq<Op>> {
    if logs == [] then Some([])
    else
      var a :- OpsOfLogs(reg, logs[..|logs| - 1]);
      var b :- OpsOfLog(reg, logs[|logs| - 1]);
      Some(a + b)
  }

  /** The logs of a block that count: those of successful receipts, in order. */
  function LiveLogs(receipts: seq<Receipt>): seq<Log> {
    if receipts == [] then []
    else
      var last := receipts[|receipts| - 1];
      LiveLogs(receipts[..|receipts| - 1]) + if last.success then last.logs else []
  }

  function ChainLogs(blks: seq<Block>): seq<Log> {
    if blks == [] then [] else ChainLogs(blks[..|blks| - 1]) + LiveLogs(blks[|blks| - 1].receipts)
  }

  /** The operations of a run of blocks. */
  function OpsOf(reg: Registry, blks: seq<Block>): Option<seq<Op>> {
    OpsOfLogs(reg, ChainLogs(blks))
  }

  lemma {:induction false} OpsOfLogsAppend(reg: Registry, a: seq<Log>, b: seq<Log>)
    ensures OpsOfLogs(reg, a + b) ==
            if OpsOfLogs(reg, a).None? || OpsOfLogs(reg, b).None? then None
            else Some(OpsOfLogs(reg, a).value + OpsOfLogs(reg, b).value)
  {
    if b == [] {
      assert a + b == a;
      assert forall x: seq<Op> :: x + [] == x;
    } else {
      assert (a + b)[..|a + b| - 1] == a + b[..|b| - 1];
      OpsOfLogsAppend(reg, a, b[..|b| - 1]);
      if OpsOfLogs(reg, a).Some? && OpsOfLogs(reg, b).Some? {
        var x, y, z := OpsOfLogs(reg, a).value, OpsOfLogs(reg, b[..|b| - 1]).value, OpsOfLog(reg, b[|b| - 1]).value;
        assert x + (y + z) == (x + y) + z;
      }
    }
  }

  lemma {:induction false} ChainLogsAppend(a: seq<Block>, b: seq<Block>)
    ensures ChainLogs(a + b) == ChainLogs(a) + ChainLogs(b)
  {
    if b == [] {
      assert a + b == a;
    } else {
      assert (a + b)[..|a + b| - 1] == a + b[..|b| - 1];
      ChainLogsAppend(a, b[..|b| - 1]);
    }
  }

  /** Cutting a run of blocks cuts its operations. */
  lemma OpsOfAppend(reg: Registry, a: seq<Block>, b: seq<Block>)
    ensures OpsOf(reg, a + b) ==
            if OpsOf(reg, a).None? || OpsOf(reg, b).None? then None
            else Some(OpsOf(reg, a).value + OpsOf(reg, b).value)
  {
    ChainLogsAppend(a, b);
    OpsOfLogsAppend(reg, ChainLogs(a), ChainLogs(b));
  }

  function BalanceOf(t: Table, contract: string, holder: string, id: nat): int {
    var k := Key(contract, holder, id);
    if k in t then t[k].value else 0
  }

  /** The sender is charged: it is not the zero address, and has a row. */
  predicate Charged(t: Table, contract: string, from: string, id: nat) {
    from != ZERO_ADDRESS && Key(contract, from, id) in t
  }

  /** The recipient is credited: it is not the zero address, unless the sender is too. */
  predicate Credited(from: string, to': string) {
    to' != ZERO_ADDRESS || from == ZERO_ADDRESS
  }

  /** What an ERC-1155 transfer of `v` means, with mints and burns told apart by the zero address: it
      fails exactly when a charged sender has too little; otherwise the recipient's balance grows by `v`,
      a charged sender's falls by it, and no other balance moves. The recipient has a row of type 1155
      afterwards; a charged sender's row is gone if it had just `v`; all other rows stay, types included. */
  lemma TransferMeaning(t: Table, contract: string, from: string, to: string, id: nat, v: nat, k: Key)
    ensures var f := Apply(t, Op1155(contract, from, to, id, v));
            var pays := k == Key(contract, from, id) && Charged(t, contract, from, id);
            var gets := k == Key(contract, to, id) && Credited(from, to);
            && (f.None? <==> Charged(t, contract, from, id) && BalanceOf(t, contract, from, id) < v)
            && (f.Some? ==>
                  && BalanceOf(f.value, k.contract, k.holder, k.id) ==
                     BalanceOf(t, k.contract, k.holder, k.id) - (if pays then v else 0) + (if gets then v else 0)
                  && (k in f.value <==> gets || (k in t && !(pays && t[k].value == v)))
                  && (k in f.value ==> f.value[k].ercType == if gets then 1155 else t[k].ercType))
  {
  }

  method CollectLog1155(log: Log) returns (r: Option<seq<Op>>)
    ensures r == Ops1155(log)
  {
    match log.event
    case Malformed1155 => return None;
    case TransferMulti(from, to, ids, values) =>
      var ops := [];
      for i := 0 to |ids|
        invariant i <= |values| || i == 0
        invariant |ops| == i
        invariant forall j :: 0 <= j < i ==> ops[j] == Op1155(log.contract, from, to, ids[j], values[j])
      {
        if |values| <= i {
          return None;
        }
        ops := ops + [Op1155(log.contract, from, to, ids[i], values[i])];
      }
      assert ops == Ops1155(log).value;
      return Some(ops);
    case _ => return Some([]);
  }

  method CollectLog(reg: Registry, log: Log) returns (r: Option<seq<Op>>)
    ensures r == OpsOfLog(reg, log)
  {
    if log.contract == "" || log.topics < 2 {
      return Some([]);
    }
    var found: seq<Op> := [];
    if log.contract in reg.erc721 {
      var a := Ops721(log);
      if a.None? {
        return None;
      }
      found := a.value;
    }
    if log.contract in reg.erc1155 {
      var b := CollectLog1155(log);
      if b.None? {
        return None;
      }
      return Some(found + b.value);
    }
    assert found + [] == found;
    return Some(found);
  }

  method CollectReceipt(reg: Registry, logs: seq<Log>) returns (r: Option<seq<Op>>)
    ensures r == OpsOfLogs(reg, logs)
  {
    var ops := [];
    for j := 0 to |logs|
      invariant OpsOfLogs(reg, logs[..j]) == Some(ops)
    {
      assert logs[..j + 1][..j] == logs[..j];
      var found := CollectLog(reg, logs[j]);
      if found.None? {
        LogsPrefixFails(reg, logs, j + 1);
        return None;
      }
      ops := ops + found.value;
    }
    assert logs[..|logs|] == logs;
    return Some(ops);
  }

  method CollectBlock(reg: Registry, blk: Block) returns (r: Option<seq<Op>>)
    ensures r == OpsOf(reg, [blk])
  {
    var ops := [];
    var receipts := blk.receipts;
    assert ChainLogs([blk]) == LiveLogs(receipts) by {
      assert [blk][..0] == [];
    }
    for i := 0 to |receipts|
      invariant OpsOfLogs(reg, LiveLogs(receipts[..i])) == Some(ops)
    {
      assert receipts[..i + 1][..i] == receipts[..i];
      if !receipts[i].success {
        assert LiveLogs(receipts[..i + 1]) == LiveLogs(receipts[..i]);
        continue;
      }
      OpsOfLogsAppend(reg, LiveLogs(receipts[..i]), receipts[i].logs);
      var found := CollectReceipt(reg, receipts[i].logs);
      if found.None? {
        ReceiptFails(reg, receipts, i + 1);
        return None;
      }
      ops := ops + found.value;
    }
    assert receipts[..|receipts|] == receipts;
    return Some(ops);
  }

  lemma {:induction false} ReceiptFails(reg: Registry, receipts: seq<Receipt>, n: nat)
    requires n <= |receipts| && OpsOfLogs(reg, LiveLogs(receipts[..n])).None?
    ensures OpsOfLogs(reg, LiveLogs(receipts)).None?
    decreases |receipts|
  {
    if n == |receipts| {
      assert receipts[..n] == receipts;
    } else {
      var pre := receipts[..|receipts| - 1];
      assert pre[..n] == receipts[..n];
      ReceiptFails(reg, pre, n);
      OpsOfLogsAppend(reg, LiveLogs(pre), if receipts[|receipts| - 1].success then receipts[|receipts| - 1].logs else []);
    }
  }

  lemma {:induction false} LogsPrefixFails(reg: Registry, logs: seq<Log>, n: nat)
    requires n <= |logs| && OpsOfLogs(reg, logs[..n]).None?
    ensures OpsOfLogs(reg, logs).None?
    decreases |logs|
  {
    if n == |logs| {
      assert logs[..n] == logs;
    } else {
      assert logs[..|logs| - 1][..n] == logs[..n];
      LogsPrefixFails(reg, logs[..|logs| - 1], n);
    }
  }

  method CollectBlocks(reg: Registry, blks: seq<Block>) returns (r: Option<seq<Op>>)
    ensures r == OpsOf(reg, blks)
  {
    var ops := [];
    for i := 0 to |blks|
      invariant OpsOf(reg, blks[..i]) == Some(ops)
    {
      assert blks[..i + 1] == blks[..i] + [blks[i]];
      OpsOfAppend(reg, blks[..i], [blks[i]]);
      var b := CollectBlock(reg, blks[i]);
      if b.None? {
        assert blks == blks[..i + 1] + blks[i + 1..];
        OpsOfAppend(reg, blks[..i + 1], blks[i + 1..]);
        return None;
      }
      ops := ops + b.value;
    }
    assert blks[..|blks|] == blks;
    return Some(ops);
  }

  /******* The engine *******/

  /** The keys to preload, each once. */
  method CollectTouchedKeys(ops: seq<Op>) returns (keys: seq<Key>)
    ensures forall k :: k in keys <==> k in Touched(ops)
    ensures forall i, j :: 0 <= i < j < |keys| ==> keys[i] != keys[j]
  {
    keys := [];
    var seen: set<Key> := {};
    for n := 0 to |ops|
      invariant seen == Touched(ops[..n])
      invariant forall k :: k in keys <==> k in seen
      invariant forall i, j :: 0 <= i < j < |keys| ==> keys[i] != keys[j]
    {
      var op := ops[n];
      assert ops[..n + 1][..n] == ops[..n];
      TouchedSnoc(ops[..n + 1]);
      if op.Debits() && op.FromKey() !in seen {
        seen := seen + {op.FromKey()};
        keys := keys + [op.FromKey()];
      }
      if op.Credits() && op.ToKey() !in seen {
        seen := seen + {op.ToKey()};
        keys := keys + [op.ToKey()];
      }
    }
    assert ops[..|ops|] == ops;
  }

  /** A set as a list, in whatever order the loop meets its elements. */
  method ListOf<T(==)>(s: set<T>) returns (list: seq<T>)
    ensures forall x :: x in list <==> x in s
  {
    list := [];
    var rest := s;
    while rest != {}
      invariant rest <= s
      invariant forall x :: x in list <==> x in s - rest
    {
      var x :| x in rest;
      list := list + [x];
      rest := rest - {x};
    }
  }

  /** The in-memory rows of `tok` go, one key at a time. */
  method ForgetToken(states: Table, tok: Token) returns (left: Table)
    ensures left == DropToken(states, tok)
  {
    left := states;
    var todo := states.Keys;
    while todo != {}
      invariant todo <= states.Keys
      invariant left == map k | k in states && (k in todo || k.Tok() != tok) :: states[k]
    {
      var k :| k in todo;
      todo := todo - {k};
      if k.Tok() == tok {
        left := left - {k};
      }
    }
  }

  lemma {:induction false} RunPrefixFails(p: Pending, ops: seq<Op>, n: nat)
    requires n <= |ops| && Run(p, ops[..n]).None?
    ensures Run(p, ops).None?
    decreases |ops|
  {
    if n == |ops| {
      assert ops[..n] == ops;
    } else {
      assert ops[..|ops| - 1][..n] == ops[..n];
      RunPrefixFails(p, ops[..|ops| - 1], n);
    }
  }

  /** The in-memory pass over the operations. */
  method Accumulate(preloaded: Table, ops: seq<Op>) returns (r: Option<Pending>)
    ensures r == Run(Pending(preloaded, {}, {}), ops)
  {
    var states, byKey, byToken := preloaded, {}, {};
    ghost var p0 := Pending(preloaded, {}, {});
    for i := 0 to |ops|
      invariant Run(p0, ops[..i]) == Some(Pending(states, byKey, byToken))
    {
      var op := ops[i];
      assert ops[..i + 1][..i] == ops[..i];
      if Run(p0, ops[..i + 1]).None? {
        RunPrefixFails(p0, ops, i + 1);
      }
      match op.kind {
        case Mint721 =>
          byToken := byToken - {op.Tok()};
          states := states[op.ToKey() := Holding(op.ercType, 1)];
        case Burn721 =>
          byToken := byToken + {op.Tok()};
          states := ForgetToken(states, op.Tok());
        case Transfer721 =>
          byToken := byToken - {op.Tok()};
          byKey := byKey + {op.FromKey()};
          states := states - {op.FromKey()};
          states := states[op.ToKey() := Holding(op.ercType, 1)];
        case Mint1155 =>
          states := Credit(states, op.ToKey(), op.ercType, op.value);
        case _ =>
          var from := op.FromKey();
          if from in states {
            if states[from].value < op.value {
              return None;
            } else if states[from].value == op.value {
              states := states - {from};
              byKey := byKey + {from};
            } else {
              states := states[from := Holding(states[from].ercType, states[from].value - op.value)];
            }
          }
          if op.kind.Transfer1155? {
            states := Credit(states, op.ToKey(), op.ercType, op.value);
          }
      }
    }
    assert ops[..|ops|] == ops;
    return Some(Pending(states, byKey, byToken));
  }

  function Part(states: Table, keys: seq<Key>): Table {
    map k | k in states && k in keys :: states[k]
  }

  lemma PartAppend(base: Table, states: Table, a: seq<Key>, b: seq<Key>)
    ensures base + Part(states, a + b) == (base + Part(states, a)) + Part(states, b)
  {
    forall k | k in states ensures k in Part(states, a + b) <==> k in Part(states, a) || k in Part(states, b) {
    }
  }

  function Min(a: nat, b: nat): nat {
    if a < b then a else b
  }

  /** The holder table with the plugin's two heights: the cached one and the committed one. */
  class HolderStore {
    var rows: Table
    var cached: nat
    var committed: nat

    constructor ()
      ensures rows == map[] && cached == 0 && committed == 0
    {
      rows, cached, committed := map[], 0, 0;
    }

    method LoadExistingHolderStates(keys: seq<Key>) returns (states: Table)
      ensures states == map k | k in rows && k in keys :: rows[k]
    {
      states := map[];
      var start := 0;
      while start < |keys|
        invariant 0 <= start
        invariant states == map k | k in rows && k in keys[..Min(start, |keys|)] :: rows[k]
      {
        var end := Min(start + CHUNK_SIZE, |keys|);
        var batch := keys[start..end];
        assert keys[..end] == keys[..start] + batch;
        states := states + map k | k in rows && k in batch :: rows[k];
        start := start + CHUNK_SIZE;
      }
      assert keys[..|keys|] == keys;
    }

    method DeleteHoldersByToken(tokens: set<Token>)
      modifies this`rows
      ensures rows == map k | k in old(rows) && k.Tok() !in tokens :: old(rows)[k]
    {
      var list := ListOf(tokens);
      var start := 0;
      while start < |list|
        invariant 0 <= start
        invariant rows == map k | k in old(rows) && k.Tok() !in list[..Min(start, |list|)] :: old(rows)[k]
      {
        var end := Min(start + CHUNK_SIZE, |list|);
        var batch := list[start..end];
        assert list[..end] == list[..start] + batch;
        rows := map k | k in rows && k.Tok() !in batch :: rows[k];
        start := start + CHUNK_SIZE;
      }
      assert list[..|list|] == list;
    }

    method DeleteHoldersByKey(keys: set<Key>)
      modifies this`rows
      ensures rows == map k | k in old(rows) && k !in keys :: old(rows)[k]
    {
      var list := ListOf(keys);
      var start := 0;
      while start < |list|
        invariant 0 <= start
        invariant rows == map k | k in old(rows) && k !in list[..Min(start, |list|)] :: old(rows)[k]
      {
        var end := Min(start + CHUNK_SIZE, |list|);
        var batch := list[start..end];
        assert list[..end] == list[..start] + batch;
        rows := map k | k in rows && k !in batch :: rows[k];
        start := start + CHUNK_SIZE;
      }
      assert list[..|list|] == list;
    }

    method UpsertHolderStates(states: Table)
      modifies this`rows
      ensures rows == old(rows) + states
    {
      var list := ListOf(states.Keys);
      var start := 0;
      while start < |list|
        invariant 0 <= start
        invariant rows == old(rows) + Part(states, list[..Min(start, |list|)])
      {
        var end := Min(start + CHUNK_SIZE, |list|);
        var batch := list[start..end];
        assert list[..end] == list[..start] + batch;
        PartAppend(old(rows), states, list[..start], batch);
        rows := rows + Part(states, batch);
        start := start + CHUNK_SIZE;
      }
      assert list[..|list|] == list;
      assert states == Part(states, list);
    }

    /** Fails exactly when one-at-a-time application underflows, and then leaves the table alone. */
    method ApplyHolderOperations(ops: seq<Op>) returns (ok: bool)
      modifies this`rows
      ensures ok <==> Fold(old(rows), ops).Some?
      ensures !ok ==> rows == old(rows)
      ensures ok ==> Batch(old(rows), ops) == Some(rows)
      ensures ok && ReissueFree(ops) ==> Fold(old(rows), ops) == Some(rows)
    {
      BatchErrsExactly(rows, ops);
      if ReissueFree(ops) {
        BatchRefinesFold(rows, ops);
      }
      if |ops| == 0 {
        assert Flush(rows, Preload(rows, ops)) == rows;
        return true;
      }
      var keys := CollectTouchedKeys(ops);
      var preloaded := LoadExistingHolderStates(keys);
      assert preloaded == Preload(rows, ops).states;
      var pending := Accumulate(preloaded, ops);
      if pending.None? {
        return false;
      }
      DeleteHoldersByToken(pending.value.byToken);
      DeleteHoldersByKey(pending.value.byKey);
      UpsertHolderStates(pending.value.states);
      assert rows == Flush(old(rows), pending.value);
      return true;
    }

    /** `commits` says whether the transaction commits once its body succeeds. A failure keeps the
        table and the committed height; the cached height moves as soon as the body succeeds. */
    method PutBlocks(reg: Registry, blks: seq<Block>, commits: bool) returns (ok: bool)
      modifies this
      ensures var ops := OpsOf(reg, blks);
              var done := ops.Some? && Fold(old(rows), ops.value).Some?;
              && ok == (blks == [] || (done && commits))
              && (!ok || blks == [] ==> rows == old(rows) && committed == old(committed))
              && cached == (if blks != [] && done then blks[|blks| - 1].height else old(cached))
              && (ok && blks != [] ==>
                    && Batch(old(rows), ops.value) == Some(rows)
                    && (ReissueFree(ops.value) ==> Fold(old(rows), ops.value) == Some(rows))
                    && committed == cached)
    {
      if |blks| == 0 {
        return true;
      }
      var ops := CollectBlocks(reg, blks);
      if ops.None? {
        return false;
      }
      var before := rows;
      var applied := ApplyHolderOperations(ops.value);
      if !applied {
        return false;
      }
      cached := blks[|blks| - 1].height;
      if !commits {
        rows := before;
        return false;
      }
      committed := cached;
      return true;
    }
  }
}
