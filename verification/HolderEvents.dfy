/** What the holder table means in terms of the logs of the chain. The definitions here look at blocks,
    receipts and logs only; no operation of the plugin occurs in them. */
module HolderEvents {
  import opened Wrappers
  import opened HolderModel
  import opened HolderRefinement
  import opened HolderPlugin
  import opened HolderLaws

  /******* ERC-721: owners *******/

  /** A log with a contract and at least two topics that moves the token. */
  predicate Moves(log: Log, tok: Token) {
    && log.contract == tok.contract != "" && log.topics >= 2
    && log.event.Transfer? && log.event.id == tok.id
  }

  /** The recipient of the last log that moves the token; the zero address owns what nobody owns. */
  function OwnerAfterLogs(logs: seq<Log>, tok: Token, owner: string): string {
    if logs == [] then owner
    else
      var last := logs[|logs| - 1];
      if Moves(last, tok) then last.event.to else OwnerAfterLogs(logs[..|logs| - 1], tok, owner)
  }

  function OwnerAfterReceipts(receipts: seq<Receipt>, tok: Token, owner: string): string {
    if receipts == [] then owner
    else
      var before, last := OwnerAfterReceipts(receipts[..|receipts| - 1], tok, owner), receipts[|receipts| - 1];
      if last.success then OwnerAfterLogs(last.logs, tok, before) else before
  }

  function OwnerAfter(blks: seq<Block>, tok: Token, owner: string): string {
    if blks == [] then owner
    else OwnerAfterReceipts(blks[|blks| - 1].receipts, tok, OwnerAfter(blks[..|blks| - 1], tok, owner))
  }

  /** Each move comes from the owner at that point, and none from the zero address to itself. */
  predicate LawfulLogs(logs: seq<Log>, tok: Token, owner: string) {
    logs == [] ||
    var pre, last := logs[..|logs| - 1], logs[|logs| - 1];
    && LawfulLogs(pre, tok, owner)
    && (Moves(last, tok) ==>
          last.event.from == OwnerAfterLogs(pre, tok, owner)
          && !(last.event.from == last.event.to == ZERO_ADDRESS))
  }

  predicate LawfulReceipts(receipts: seq<Receipt>, tok: Token, owner: string) {
    receipts == [] ||
    var pre, last := receipts[..|receipts| - 1], receipts[|receipts| - 1];
    && LawfulReceipts(pre, tok, owner)
    && (last.success ==> LawfulLogs(last.logs, tok, OwnerAfterReceipts(pre, tok, owner)))
  }

  predicate LawfulBlocks(blks: seq<Block>, tok: Token, owner: string) {
    blks == [] ||
    var pre, last := blks[..|blks| - 1], blks[|blks| - 1];
    && LawfulBlocks(pre, tok, owner)
    && LawfulReceipts(last.receipts, tok, OwnerAfter(pre, tok, owner))
  }

  /** One row for a token that is owned, its owner's, and none for one that is not. */
  ghost predicate OwnerRow(t: Table, tok: Token, owner: string) {
    forall h: string ::
      var k := Key(tok.contract, h, tok.id);
      && (k in t <==> h == owner && owner != ZERO_ADDRESS)
      && (k in t ==> t[k] == Holding(721, 1))
  }

  predicate Is721Only(reg: Registry, contract: string) {
    contract in reg.erc721 && contract !in reg.erc1155
  }

  /** What an ERC-721 transfer log means, whether lawful or not: from the zero address the recipient gets
      the token, to it every row of the token goes, otherwise the recipient takes the sender's place. */
  lemma TransferLogMeaning(t: Table, log: Log, k: Key)
    requires log.event.Transfer?
    ensures Ops721(log).Some? && Fold(t, Ops721(log).value).Some?
    ensures var u, from, to' := Fold(t, Ops721(log).value).value, log.event.from, log.event.to;
            var ours := k.Tok() == Token(log.contract, log.event.id);
            var burns := from != ZERO_ADDRESS && to' == ZERO_ADDRESS;
            && (k in u <==>
                  if !ours then k in t
                  else !burns && (k.holder == to' || (k in t && (k.holder != from || from == ZERO_ADDRESS))))
            && (k in u ==> u[k] == if ours && k.holder == to' then Holding(721, 1) else t[k])
  {
    var ops := Ops721(log).value;
    assert ops[..0] == [];
  }

  lemma {:induction false} OtherContractsStay(t: Table, ops: seq<Op>, k: Key)
    requires Fold(t, ops).Some? && forall i :: 0 <= i < |ops| ==> ops[i].contract != k.contract
    ensures k in Fold(t, ops).value <==> k in t
    ensures k in t ==> Fold(t, ops).value[k] == t[k]
  {
    if ops == [] {
    } else {
      OtherContractsStay(t, ops[..|ops| - 1], k);
    }
  }

  lemma LogOwner(reg: Registry, t: Table, log: Log, tok: Token, owner: string)
    requires Is721Only(reg, tok.contract) && OpsOfLog(reg, log).Some?
    requires Fold(t, OpsOfLog(reg, log).value).Some?
    requires OwnerRow(t, tok, owner)
    requires Moves(log, tok) ==> log.event.from == owner && !(log.event.from == log.event.to == ZERO_ADDRESS)
    ensures OwnerRow(Fold(t, OpsOfLog(reg, log).value).value, tok, if Moves(log, tok) then log.event.to else owner)
  {
    var ops := OpsOfLog(reg, log).value;
    var u, o := Fold(t, ops).value, if Moves(log, tok) then log.event.to else owner;
    forall h: string ensures
        var k := Key(tok.contract, h, tok.id);
        (k in u <==> h == o && o != ZERO_ADDRESS) && (k in u ==> u[k] == Holding(721, 1))
    {
      var k := Key(tok.contract, h, tok.id);
      assert k in t <==> h == owner && owner != ZERO_ADDRESS;
      if log.contract != tok.contract {
        OtherContractsStay(t, ops, k);
      } else if log.event.Transfer? && log.topics >= 2 && log.contract != "" {
        assert ops == Ops721(log).value;
        TransferLogMeaning(t, log, k);
      } else {
        assert ops == [];
      }
    }
  }

  lemma {:induction false} LogsOwner(reg: Registry, t: Table, logs: seq<Log>, tok: Token, owner: string)
    requires Is721Only(reg, tok.contract) && OpsOfLogs(reg, logs).Some?
    requires Fold(t, OpsOfLogs(reg, logs).value).Some?
    requires OwnerRow(t, tok, owner) && LawfulLogs(logs, tok, owner)
    ensures OwnerRow(Fold(t, OpsOfLogs(reg, logs).value).value, tok, OwnerAfterLogs(logs, tok, owner))
  {
    if logs == [] {
    } else {
      var pre, last := logs[..|logs| - 1], logs[|logs| - 1];
      FoldAppend(t, OpsOfLogs(reg, pre).value, OpsOfLog(reg, last).value);
      LogsOwner(reg, t, pre, tok, owner);
      LogOwner(reg, Fold(t, OpsOfLogs(reg, pre).value).value, last, tok, OwnerAfterLogs(pre, tok, owner));
    }
  }

  lemma {:induction false} LogsOwnerAppend(a: seq<Log>, b: seq<Log>, tok: Token, owner: string)
    ensures OwnerAfterLogs(a + b, tok, owner) == OwnerAfterLogs(b, tok, OwnerAfterLogs(a, tok, owner))
    ensures LawfulLogs(a + b, tok, owner) <==>
            LawfulLogs(a, tok, owner) && LawfulLogs(b, tok, OwnerAfterLogs(a, tok, owner))
  {
    if b == [] {
      assert a + b == a;
    } else {
      assert (a + b)[..|a + b| - 1] == a + b[..|b| - 1];
      LogsOwnerAppend(a, b[..|b| - 1], tok, owner);
    }
  }

  lemma {:induction false} ReceiptsOwner(receipts: seq<Receipt>, tok: Token, owner: string)
    ensures OwnerAfterLogs(LiveLogs(receipts), tok, owner) == OwnerAfterReceipts(receipts, tok, owner)
    ensures LawfulLogs(LiveLogs(receipts), tok, owner) <==> LawfulReceipts(receipts, tok, owner)
  {
    if receipts == [] {
    } else {
      var pre, last := receipts[..|receipts| - 1], receipts[|receipts| - 1];
      ReceiptsOwner(pre, tok, owner);
      LogsOwnerAppend(LiveLogs(pre), if last.success then last.logs else [], tok, owner);
    }
  }

  lemma {:induction false} BlocksOwner(blks: seq<Block>, tok: Token, owner: string)
    ensures OwnerAfterLogs(ChainLogs(blks), tok, owner) == OwnerAfter(blks, tok, owner)
    ensures LawfulLogs(ChainLogs(blks), tok, owner) <==> LawfulBlocks(blks, tok, owner)
  {
    if blks == [] {
    } else {
      var pre, last := blks[..|blks| - 1], blks[|blks| - 1];
      BlocksOwner(pre, tok, owner);
      LogsOwnerAppend(ChainLogs(pre), LiveLogs(last.receipts), tok, owner);
      ReceiptsOwner(last.receipts, tok, OwnerAfter(pre, tok, owner));
    }
  }

  /** One successful `PutBlocks` call, whose table is the batch's: a token with one row, its owner's, has
      one row afterwards, that of the owner to whom the logs of the blocks leave it. */
  lemma PutBlocksKeepsOwner(reg: Registry, t: Table, blks: seq<Block>, tok: Token, owner: string)
    requires Is721Only(reg, tok.contract) && OpsOf(reg, blks).Some? && ReissueFree(OpsOf(reg, blks).value)
    requires Batch(t, OpsOf(reg, blks).value).Some?
    requires OwnerRow(t, tok, owner) && LawfulBlocks(blks, tok, owner)
    ensures OwnerRow(Batch(t, OpsOf(reg, blks).value).value, tok, OwnerAfter(blks, tok, owner))
  {
    BatchErrsExactly(t, OpsOf(reg, blks).value);
    BatchRefinesFold(t, OpsOf(reg, blks).value);
    BlocksOwner(blks, tok, owner);
    LogsOwner(reg, t, ChainLogs(blks), tok, owner);
  }

  /** However a chain is cut into calls: a token whose moves all come from its owner has one row, that of
      the recipient of its last move, or none when it has not moved or was burned last. */
  lemma RowIsLastRecipients(reg: Registry, cuts: seq<seq<Block>>, tok: Token)
    requires Is721Only(reg, tok.contract) && PutAll(reg, map[], cuts).Some?
    requires forall i :: 0 <= i < |cuts| && OpsOf(reg, cuts[i]).Some? ==> ReissueFree(OpsOf(reg, cuts[i]).value)
    requires LawfulBlocks(Chain(cuts), tok, ZERO_ADDRESS)
    ensures OwnerRow(PutAll(reg, map[], cuts).value, tok, OwnerAfter(Chain(cuts), tok, ZERO_ADDRESS))
  {
    ChainCutsAreInvisible(reg, map[], cuts);
    BlocksOwner(Chain(cuts), tok, ZERO_ADDRESS);
    LogsOwner(reg, map[], ChainLogs(Chain(cuts)), tok, ZERO_ADDRESS);
  }

  /******* ERC-1155: balances *******/

  /** The values that go with an id. */
  function Amount(ids: seq<nat>, values: seq<nat>, id: nat): nat
    requires |ids| <= |values|
  {
    if ids == [] then 0
    else
      var n := |ids| - 1;
      Amount(ids[..n], values, id) + if ids[n] == id then values[n] else 0
  }

  /** What a log brings to a holder of a token less what it takes. */
  function NetOfLog(log: Log, k: Key): int {
    if log.contract == k.contract != "" && log.topics >= 2 && log.event.TransferMulti? && |log.event.ids| <= |log.event.values|
    then
      var v := Amount(log.event.ids, log.event.values, k.id);
      (if log.event.recipient == k.holder then v else 0) - (if log.event.sender == k.holder then v else 0)
    else 0
  }

  function NetOfLogs(logs: seq<Log>, k: Key): int {
    if logs == [] then 0 else NetOfLogs(logs[..|logs| - 1], k) + NetOfLog(logs[|logs| - 1], k)
  }

  function NetOfReceipts(receipts: seq<Receipt>, k: Key): int {
    if receipts == [] then 0
    else
      var last := receipts[|receipts| - 1];
      NetOfReceipts(receipts[..|receipts| - 1], k) + if last.success then NetOfLogs(last.logs, k) else 0
  }

  function NetOf(blks: seq<Block>, k: Key): int {
    if blks == [] then 0 else NetOf(blks[..|blks| - 1], k) + NetOfReceipts(blks[|blks| - 1].receipts, k)
  }

  predicate Is1155Only(reg: Registry, contract: string) {
    contract in reg.erc1155 && contract !in reg.erc721
  }

  function NetOfOp(op: Op, k: Key): int {
    (if op.Credits() && op.ToKey() == k then op.value else 0) - (if op.Debits() && op.FromKey() == k then op.value else 0)
  }

  function NetOfOps(ops: seq<Op>, k: Key): int {
    if ops == [] then 0 else NetOfOps(ops[..|ops| - 1], k) + NetOfOp(ops[|ops| - 1], k)
  }

  /** What debits of the holder did not find. */
  function MissedBy(t: Table, ops: seq<Op>, k: Key): int
    requires Fold(t, ops).Some?
  {
    if ops == [] then 0
    else
      var pre, op := ops[..|ops| - 1], ops[|ops| - 1];
      MissedBy(t, pre, k) + if op.FromKey() == k then Missed(Fold(t, pre).value, op) else 0
  }

  /** Every debit of the holder that takes something finds its row. */
  predicate Paid(t: Table, ops: seq<Op>, k: Key)
    requires Fold(t, ops).Some?
  {
    ops == [] ||
    var pre, op := ops[..|ops| - 1], ops[|ops| - 1];
    Paid(t, pre, k) && (op.FromKey() == k ==> Missed(Fold(t, pre).value, op) == 0)
  }

  lemma OpMoves(t: Table, op: Op, k: Key)
    requires Apply(t, op).Some? && (op.Is721() ==> op.contract != k.contract)
    ensures BalanceOf(Apply(t, op).value, k.contract, k.holder, k.id) ==
            BalanceOf(t, k.contract, k.holder, k.id) + NetOfOp(op, k) + if op.FromKey() == k then Missed(t, op) else 0
  {
  }

  lemma {:induction false} OpsMove(t: Table, ops: seq<Op>, k: Key)
    requires Fold(t, ops).Some? && NaturalValues(ops)
    requires forall i :: 0 <= i < |ops| && ops[i].Is721() ==> ops[i].contract != k.contract
    ensures BalanceOf(Fold(t, ops).value, k.contract, k.holder, k.id) == BalanceOf(t, k.contract, k.holder, k.id) + NetOfOps(ops, k) + MissedBy(t, ops, k)
    ensures MissedBy(t, ops, k) >= 0
    ensures MissedBy(t, ops, k) == 0 <==> Paid(t, ops, k)
  {
    if ops == [] {
    } else {
      var pre, op := ops[..|ops| - 1], ops[|ops| - 1];
      OpsMove(t, pre, k);
      assert op.value >= 0;
      OpMoves(Fold(t, pre).value, op, k);
    }
  }

  lemma {:induction false} NetOfOpsAppend(a: seq<Op>, b: seq<Op>, k: Key)
    ensures NetOfOps(a + b, k) == NetOfOps(a, k) + NetOfOps(b, k)
  {
    if b == [] {
      assert a + b == a;
    } else {
      assert (a + b)[..|a + b| - 1] == a + b[..|b| - 1];
      NetOfOpsAppend(a, b[..|b| - 1], k);
    }
  }

  predicate Pays(ops: seq<Op>, k: Key) {
    forall i :: 0 <= i < |ops| ==> ops[i].value >= 0 && (ops[i].Is721() ==> ops[i].contract != k.contract)
  }

  /** What reaches and leaves a holder when `v` of the holder's token goes from one address to another. */
  function NetOfMove(from: string, to': string, v: int, holder: string): int {
    (if to' == holder then v else 0) - (if from == holder then v else 0)
  }

  lemma OpNet(contract: string, from: string, to': string, id: nat, v: nat, k: Key)
    requires k.holder != ZERO_ADDRESS
    ensures NetOfOp(Op1155(contract, from, to', id, v), k) ==
            if contract == k.contract && id == k.id then NetOfMove(from, to', v, k.holder) else 0
  {
  }

  lemma AmountSnoc(ids: seq<nat>, values: seq<nat>, n: nat, id: nat)
    requires 0 < n <= |ids| <= |values|
    ensures Amount(ids[..n], values, id) == Amount(ids[..n - 1], values, id) + if ids[n - 1] == id then values[n - 1] else 0
  {
    assert ids[..n][..n - 1] == ids[..n - 1];
  }

  lemma {:induction false} TransferNet(log: Log, n: nat, ops: seq<Op>, k: Key)
    requires log.event.TransferMulti? && n <= |log.event.ids| <= |log.event.values| && k.holder != ZERO_ADDRESS
    requires Ops1155(log) == Some(ops)
    ensures NetOfOps(ops[..n], k) ==
            if log.contract != k.contract then 0
            else NetOfMove(log.event.sender, log.event.recipient, Amount(log.event.ids[..n], log.event.values, k.id), k.holder)
    decreases n
  {
    if n == 0 {
    } else {
      var e := log.event;
      TransferNet(log, n - 1, ops, k);
      assert ops[..n][..n - 1] == ops[..n - 1];
      AmountSnoc(e.ids, e.values, n, k.id);
      OpNet(log.contract, e.sender, e.recipient, e.ids[n - 1], e.values[n - 1], k);
    }
  }

  lemma MultiNet(log: Log, k: Key)
    requires Ops1155(log).Some? && log.contract != "" && log.topics >= 2 && k.holder != ZERO_ADDRESS
    ensures NetOfOps(Ops1155(log).value, k) == NetOfLog(log, k)
    ensures Pays(Ops1155(log).value, k)
  {
    var ops := Ops1155(log).value;
    if log.event.TransferMulti? {
      var e := log.event;
      TransferNet(log, |e.ids|, ops, k);
      assert ops[..|e.ids|] == ops && e.ids[..|e.ids|] == e.ids;
    }
  }

  lemma SingleNet(log: Log, k: Key)
    requires Ops721(log).Some? && log.contract != k.contract
    ensures NetOfOps(Ops721(log).value, k) == 0 && Pays(Ops721(log).value, k)
  {
    var ops := Ops721(log).value;
    if ops != [] {
      assert ops[..0] == [];
    }
  }

  lemma PaysAppend(a: seq<Op>, b: seq<Op>, k: Key)
    requires Pays(a, k) && Pays(b, k)
    ensures Pays(a + b, k) && NetOfOps(a + b, k) == NetOfOps(a, k) + NetOfOps(b, k)
  {
    NetOfOpsAppend(a, b, k);
  }

  lemma LogNet(reg: Registry, log: Log, k: Key)
    requires Is1155Only(reg, k.contract) && k.holder != ZERO_ADDRESS && OpsOfLog(reg, log).Some?
    ensures NetOfOps(OpsOfLog(reg, log).value, k) == NetOfLog(log, k)
    ensures Pays(OpsOfLog(reg, log).value, k)
  {
    if log.contract != "" && log.topics >= 2 {
      var a := if log.contract in reg.erc721 then Ops721(log).value else [];
      var b := if log.contract in reg.erc1155 then Ops1155(log).value else [];
      if log.contract in reg.erc721 {
        SingleNet(log, k);
      }
      if log.contract in reg.erc1155 {
        MultiNet(log, k);
      }
      PaysAppend(a, b, k);
    }
  }

  lemma {:induction false} LogsNet(reg: Registry, logs: seq<Log>, k: Key)
    requires Is1155Only(reg, k.contract) && k.holder != ZERO_ADDRESS && OpsOfLogs(reg, logs).Some?
    ensures NetOfOps(OpsOfLogs(reg, logs).value, k) == NetOfLogs(logs, k)
    ensures Pays(OpsOfLogs(reg, logs).value, k)
  {
    if logs == [] {
    } else {
      var pre, last := logs[..|logs| - 1], logs[|logs| - 1];
      LogsNet(reg, pre, k);
      LogNet(reg, last, k);
      PaysAppend(OpsOfLogs(reg, pre).value, OpsOfLog(reg, last).value, k);
    }
  }

  lemma {:induction false} NetOfLogsAppend(a: seq<Log>, b: seq<Log>, k: Key)
    ensures NetOfLogs(a + b, k) == NetOfLogs(a, k) + NetOfLogs(b, k)
  {
    if b == [] {
      assert a + b == a;
    } else {
      assert (a + b)[..|a + b| - 1] == a + b[..|b| - 1];
      NetOfLogsAppend(a, b[..|b| - 1], k);
    }
  }

  lemma {:induction false} ReceiptsNet(receipts: seq<Receipt>, k: Key)
    ensures NetOfLogs(LiveLogs(receipts), k) == NetOfReceipts(receipts, k)
  {
    if receipts == [] {
    } else {
      var pre, last := receipts[..|receipts| - 1], receipts[|receipts| - 1];
      ReceiptsNet(pre, k);
      NetOfLogsAppend(LiveLogs(pre), if last.success then last.logs else [], k);
    }
  }

  lemma {:induction false} BlocksNet(blks: seq<Block>, k: Key)
    ensures NetOfLogs(ChainLogs(blks), k) == NetOf(blks, k)
  {
    if blks == [] {
    } else {
      var pre, last := blks[..|blks| - 1], blks[|blks| - 1];
      BlocksNet(pre, k);
      NetOfLogsAppend(ChainLogs(pre), LiveLogs(last.receipts), k);
      ReceiptsNet(last.receipts, k);
    }
  }

  /** However a chain is cut into calls: a holder's row is worth at least what the logs brought it less
      what they took, and exactly that if and only if each of its debits found a row. */
  lemma RowIsNetOfLogs(reg: Registry, cuts: seq<seq<Block>>, k: Key)
    requires Is1155Only(reg, k.contract) && k.holder != ZERO_ADDRESS && PutAll(reg, map[], cuts).Some?
    requires forall i :: 0 <= i < |cuts| && OpsOf(reg, cuts[i]).Some? ==> ReissueFree(OpsOf(reg, cuts[i]).value)
    ensures OpsOf(reg, Chain(cuts)).Some? && Fold(map[], OpsOf(reg, Chain(cuts)).value).Some?
    ensures var t := PutAll(reg, map[], cuts).value;
            && BalanceOf(t, k.contract, k.holder, k.id) >= NetOf(Chain(cuts), k)
            && (BalanceOf(t, k.contract, k.holder, k.id) == NetOf(Chain(cuts), k) <==>
                Paid(map[], OpsOf(reg, Chain(cuts)).value, k))
  {
    ChainCutsAreInvisible(reg, map[], cuts);
    var ops := OpsOf(reg, Chain(cuts)).value;
    LogsNet(reg, ChainLogs(Chain(cuts)), k);
    BlocksNet(Chain(cuts), k);
    OpsMove(map[], ops, k);
  }

  /******* Which blocks fail *******/

  /** A log of a classified contract whose data does not unpack, or that names more ids than values. */
  predicate Undecodable(reg: Registry, log: Log) {
    && log.contract != "" && log.topics >= 2
    && ((log.contract in reg.erc721 && log.event.Malformed721?)
        || (log.contract in reg.erc1155
            && (log.event.Malformed1155? || (log.event.TransferMulti? && |log.event.values| < |log.event.ids|))))
  }

  /** The log is one of a successful receipt. */
  predicate Live(blk: Block, log: Log) {
    exists i :: 0 <= i < |blk.receipts| && blk.receipts[i].success && log in blk.receipts[i].logs
  }

  lemma {:induction false} LiveLogsAre(blk: Block, n: nat, log: Log)
    requires n <= |blk.receipts|
    ensures log in LiveLogs(blk.receipts[..n]) <==>
            exists i :: 0 <= i < n && blk.receipts[i].success && log in blk.receipts[i].logs
    decreases n
  {
    if n == 0 {
    } else {
      LiveLogsAre(blk, n - 1, log);
      assert blk.receipts[..n][..n - 1] == blk.receipts[..n - 1];
    }
  }

  lemma {:induction false} ChainLogsAre(blks: seq<Block>, n: nat, log: Log)
    requires n <= |blks|
    ensures log in ChainLogs(blks[..n]) <==> exists i :: 0 <= i < n && Live(blks[i], log)
    decreases n
  {
    if n == 0 {
    } else {
      ChainLogsAre(blks, n - 1, log);
      assert blks[..n][..n - 1] == blks[..n - 1];
      var blk := blks[n - 1];
      LiveLogsAre(blk, |blk.receipts|, log);
      assert blk.receipts[..|blk.receipts|] == blk.receipts;
    }
  }

  lemma {:induction false} LogsFail(reg: Registry, logs: seq<Log>)
    ensures OpsOfLogs(reg, logs).None? <==> exists log :: log in logs && Undecodable(reg, log)
  {
    if logs == [] {
    } else {
      var pre, last := logs[..|logs| - 1], logs[|logs| - 1];
      LogsFail(reg, pre);
      assert logs == pre + [last];
      assert OpsOfLog(reg, last).None? <==> Undecodable(reg, last);
    }
  }

  /** A run of blocks is refused exactly when a log of a successful receipt is undecodable. */
  lemma RefusedExactly(reg: Registry, blks: seq<Block>)
    ensures OpsOf(reg, blks).None? <==>
            exists i, log :: 0 <= i < |blks| && Live(blks[i], log) && Undecodable(reg, log)
  {
    LogsFail(reg, ChainLogs(blks));
    assert blks[..|blks|] == blks;
    forall log ensures log in ChainLogs(blks) <==> exists i :: 0 <= i < |blks| && Live(blks[i], log) {
      ChainLogsAre(blks, |blks|, log);
    }
    if OpsOf(reg, blks).None? {
      var log :| log in ChainLogs(blks) && Undecodable(reg, log);
    }
    if i, log :| 0 <= i < |blks| && Live(blks[i], log) && Undecodable(reg, log) {
      assert log in ChainLogs(blks);
    }
  }
}
