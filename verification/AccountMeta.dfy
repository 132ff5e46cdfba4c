/** First-seen heights of accounts, with an in-memory set of accounts known to be stored. */
module AccountMeta {
  import opened Deliveries

  /** The empty text, which names nobody, is told apart from all others. */
  datatype Address = Empty | Text(chars: string)

  /** A transfer's recipient: text that is no address, or an address in canonical form (or empty). */
  datatype Recipient = Invalid | Valid(canonical: Address)

  datatype Transfer = Transfer(sender: Address, recipient: Recipient)

  datatype Receipt = Receipt(contract: Address, transfers: seq<Transfer>, logs: seq<Address>)

  datatype Block = Block(height: nat, receipts: seq<Receipt>)

  /** Addresses by the height stored for them. */
  type Heights = map<Address, nat>

  function TransferParties(xs: seq<Transfer>): seq<Address> {
    if xs == [] then []
    else
      var x := xs[|xs| - 1];
      TransferParties(xs[..|xs| - 1]) + if x.recipient.Invalid? then [x.sender] else [x.sender, x.recipient.canonical]
  }

  /** Every address text of a block in order, empty ones and repeats included. */
  function Mentions(receipts: seq<Receipt>): seq<Address> {
    if receipts == [] then []
    else
      var r := receipts[|receipts| - 1];
      Mentions(receipts[..|receipts| - 1]) + ([r.contract] + TransferParties(r.transfers) + r.logs)
  }

  /** A height for each new address of a block; known addresses keep theirs. */
  function SeenIn(m: Heights, names: seq<Address>, height: nat): Heights {
    if names == [] then m
    else
      var pre, a := SeenIn(m, names[..|names| - 1], height), names[|names| - 1];
      if a.Empty? || a in pre then pre else pre[a := height]
  }

  function Seen(m: Heights, blks: seq<Block>): Heights {
    if blks == [] then m
    else
      var blk := blks[|blks| - 1];
      SeenIn(Seen(m, blks[..|blks| - 1]), Mentions(blk.receipts), blk.height)
  }

  lemma {:induction false} SeenAppend(m: Heights, a: seq<Block>, b: seq<Block>)
    ensures Seen(m, a + b) == Seen(Seen(m, a), b)
  {
    if b == [] {
      assert a + b == a;
    } else {
      assert (a + b)[..|a + b| - 1] == a + b[..|b| - 1];
      SeenAppend(m, a, b[..|b| - 1]);
    }
  }

  predicate Names(blk: Block, a: Address) {
    !a.Empty? && a in Mentions(blk.receipts)
  }

  /** A party to a transfer: its sender, or its recipient in canonical form when that is an address. */
  predicate IsParty(x: Transfer, a: Address) {
    x.sender == a || x.recipient == Valid(a)
  }

  /** The receipt's contract, the address of one of its logs, or a party to one of its transfers. */
  predicate Involves(r: Receipt, a: Address) {
    r.contract == a || a in r.logs || HasParty(r.transfers, a)
  }

  predicate HasParty(xs: seq<Transfer>, a: Address) {
    exists x :: x in xs && IsParty(x, a)
  }

  predicate Involved(receipts: seq<Receipt>, a: Address) {
    exists r :: r in receipts && Involves(r, a)
  }

  predicate Appears(blk: Block, a: Address) {
    !a.Empty? && Involved(blk.receipts, a)
  }

  lemma HasPartySnoc(xs: seq<Transfer>, x: Transfer, a: Address)
    ensures HasParty(xs + [x], a) <==> HasParty(xs, a) || IsParty(x, a)
  {
    assert x in xs + [x];
  }

  lemma InvolvedSnoc(receipts: seq<Receipt>, r: Receipt, a: Address)
    ensures Involved(receipts + [r], a) <==> Involved(receipts, a) || Involves(r, a)
  {
    assert r in receipts + [r];
  }

  lemma {:induction false} PartiesAre(xs: seq<Transfer>, a: Address)
    ensures a in TransferParties(xs) <==> HasParty(xs, a)
  {
    if xs == [] {
    } else {
      var pre, last := xs[..|xs| - 1], xs[|xs| - 1];
      PartiesAre(pre, a);
      assert xs == pre + [last];
      HasPartySnoc(pre, last, a);
    }
  }

  lemma {:induction false} MentionsAre(receipts: seq<Receipt>, a: Address)
    ensures a in Mentions(receipts) <==> Involved(receipts, a)
  {
    if receipts == [] {
    } else {
      var pre, last := receipts[..|receipts| - 1], receipts[|receipts| - 1];
      MentionsAre(pre, a);
      PartiesAre(last.transfers, a);
      assert receipts == pre + [last];
      InvolvedSnoc(pre, last, a);
    }
  }

  /** A block names just the addresses that appear in its receipts. */
  lemma NamedExactly(blk: Block, a: Address)
    ensures Names(blk, a) <==> Appears(blk, a)
  {
    MentionsAre(blk.receipts, a);
  }

  lemma {:induction false} SeenInIs(m: Heights, names: seq<Address>, height: nat, a: Address)
    ensures a in SeenIn(m, names, height) <==> a in m || (!a.Empty? && a in names)
    ensures a in SeenIn(m, names, height) ==> SeenIn(m, names, height)[a] == if a in m then m[a] else height
  {
    if names == [] {
    } else {
      SeenInIs(m, names[..|names| - 1], height, a);
      assert names == names[..|names| - 1] + [names[|names| - 1]];
    }
  }

  /** Block `i` is the first that names the address. */
  predicate FirstNaming(blks: seq<Block>, i: nat, a: Address) {
    i < |blks| && Names(blks[i], a) && forall j :: 0 <= j < i ==> !Names(blks[j], a)
  }

  predicate Unnamed(blks: seq<Block>, a: Address) {
    forall j :: 0 <= j < |blks| ==> !Names(blks[j], a)
  }

  lemma NamingSnoc(pre: seq<Block>, blk: Block, a: Address)
    ensures forall i: nat :: FirstNaming(pre, i, a) ==> FirstNaming(pre + [blk], i, a) && (pre + [blk])[i] == pre[i]
    ensures Unnamed(pre, a) && Names(blk, a) ==> FirstNaming(pre + [blk], |pre|, a)
    ensures Unnamed(pre + [blk], a) <==> Unnamed(pre, a) && !Names(blk, a)
  {
    var all := pre + [blk];
    assert all[|pre|] == blk && forall j :: 0 <= j < |pre| ==> all[j] == pre[j];
  }

  lemma {:induction false} SeenIsFirstNamed(blks: seq<Block>, a: Address) returns (i: nat)
    ensures a in Seen(map[], blks) <==> !Unnamed(blks, a)
    ensures a in Seen(map[], blks) ==> FirstNaming(blks, i, a) && Seen(map[], blks)[a] == blks[i].height
  {
    if blks == [] {
      i := 0;
    } else {
      var n := |blks| - 1;
      var pre, last := blks[..n], blks[n];
      assert blks == pre + [last];
      i := SeenIsFirstNamed(pre, a);
      NamingSnoc(pre, last, a);
      SeenInIs(Seen(map[], pre), Mentions(last.receipts), last.height, a);
      if a !in Seen(map[], pre) {
        i := n;
      }
    }
  }

  /** Block `i` is the first in whose receipts the address appears. */
  ghost predicate FirstAppearing(blks: seq<Block>, i: nat, a: Address) {
    i < |blks| && Appears(blks[i], a) && forall j :: 0 <= j < i ==> !Appears(blks[j], a)
  }

  predicate AppearsIn(blks: seq<Block>, a: Address) {
    exists j :: 0 <= j < |blks| && Appears(blks[j], a)
  }

  lemma NamedInExactly(blks: seq<Block>, a: Address)
    ensures forall j :: 0 <= j < |blks| ==> (Names(blks[j], a) <==> Appears(blks[j], a))
    ensures AppearsIn(blks, a) <==> !Unnamed(blks, a)
  {
    forall j | 0 <= j < |blks| ensures Names(blks[j], a) <==> Appears(blks[j], a) {
      NamedExactly(blks[j], a);
    }
  }

  lemma OnlyFirst(blks: seq<Block>, i: nat, k: nat, a: Address)
    requires FirstAppearing(blks, i, a) && FirstNaming(blks, k, a)
    ensures i == k
  {
    NamedInExactly(blks, a);
  }

  /** An address is stored exactly when it appears in the receipts of some block, and then with the height
      of the first such block. */
  lemma SeenIsFirst(blks: seq<Block>, i: nat, a: Address)
    ensures a in Seen(map[], blks) <==> AppearsIn(blks, a)
    ensures FirstAppearing(blks, i, a) ==> a in Seen(map[], blks) && Seen(map[], blks)[a] == blks[i].height
  {
    var k := SeenIsFirstNamed(blks, a);
    NamedInExactly(blks, a);
    if FirstAppearing(blks, i, a) {
      assert AppearsIn(blks, a);
      OnlyFirst(blks, i, k, a);
    }
  }

  /** Rows with those of `new` whose address lookup succeeded added, conflicts ignored. */
  function Inserted(rows: Heights, new': Heights, answers: set<Address>): Heights {
    map a | a in rows.Keys + (new'.Keys * answers) :: if a in rows then rows[a] else new'[a]
  }

  lemma {:induction false} SeenFrom(m: Heights, blks: seq<Block>, a: Address)
    ensures a in Seen(m, blks) <==> a in m || a in Seen(map[], blks)
    ensures a in Seen(m, blks) ==> Seen(m, blks)[a] == if a in m then m[a] else Seen(map[], blks)[a]
  {
    if blks == [] {
    } else {
      var pre, blk := blks[..|blks| - 1], blks[|blks| - 1];
      SeenFrom(m, pre, a);
      SeenInIs(Seen(m, pre), Mentions(blk.receipts), blk.height, a);
      SeenInIs(Seen(map[], pre), Mentions(blk.receipts), blk.height, a);
    }
  }

  /** A batch stores what it should exactly when every new account's lookup was answered. */
  lemma InsertedExactly(rows: Heights, blks: seq<Block>, answers: set<Address>)
    ensures Inserted(rows, Seen(map[], blks), answers) == Seen(rows, blks) <==>
            forall a :: a in Seen(map[], blks) && a !in rows ==> a in answers
  {
    var t, u := Inserted(rows, Seen(map[], blks), answers), Seen(rows, blks);
    forall a ensures a in u <==> a in rows || a in Seen(map[], blks) {
      SeenFrom(rows, blks, a);
    }
    forall a | a in t ensures a in u && t[a] == u[a] {
      SeenFrom(rows, blks, a);
    }
    if forall a :: a in Seen(map[], blks) && a !in rows ==> a in answers {
      assert t.Keys == u.Keys;
    }
    if t == u {
      forall a | a in Seen(map[], blks) && a !in rows ensures a in answers {
        assert a in u;
      }
    }
  }

  function Without(m: Heights, known: set<Address>): Heights {
    map a | a in m && a !in known :: m[a]
  }

  lemma InsertedIgnoresKnown(rows: Heights, new': Heights, known: set<Address>, answers: set<Address>)
    requires known <= rows.Keys
    ensures Inserted(rows, Without(new', known), answers) == Inserted(rows, new', answers)
  {
  }

  /** The list holds just what has been seen, once each. */
  ghost predicate Unique(accounts: seq<Address>, seen: set<Address>) {
    && (forall a :: a in accounts <==> a in seen)
    && (forall i, j :: 0 <= i < j < |accounts| ==> accounts[i] != accounts[j])
  }

  function Named(a: Address): set<Address> {
    if a.Empty? then {} else {a}
  }

  method AppendUnique(accounts: seq<Address>, seen: set<Address>, a: Address)
    returns (accounts': seq<Address>, seen': set<Address>)
    requires Unique(accounts, seen)
    ensures Unique(accounts', seen') && seen' == seen + Named(a)
  {
    if a.Empty? || a in seen {
      return accounts, seen;
    }
    return accounts + [a], seen + {a};
  }

  method AppendReceipt(before: seq<Address>, met: set<Address>, r: Receipt)
    returns (accounts: seq<Address>, seen: set<Address>)
    requires Unique(before, met)
    ensures Unique(accounts, seen)
    ensures forall a :: a in seen <==> a in met || (!a.Empty? && Involves(r, a))
  {
    accounts, seen := AppendUnique(before, met, r.contract);
    accounts, seen := AppendParties(accounts, seen, r.transfers);
    ghost var sofar := seen;
    for i := 0 to |r.logs|
      invariant Unique(accounts, seen)
      invariant forall a :: a in seen <==> a in sofar || (!a.Empty? && a in r.logs[..i])
    {
      assert r.logs[..i + 1] == r.logs[..i] + [r.logs[i]];
      accounts, seen := AppendUnique(accounts, seen, r.logs[i]);
    }
    assert r.logs[..|r.logs|] == r.logs;
  }

  method AppendParties(before: seq<Address>, met: set<Address>, xs: seq<Transfer>)
    returns (accounts: seq<Address>, seen: set<Address>)
    requires Unique(before, met)
    ensures Unique(accounts, seen)
    ensures forall a :: a in seen <==> a in met || (!a.Empty? && HasParty(xs, a))
  {
    accounts, seen := before, met;
    for i := 0 to |xs|
      invariant Unique(accounts, seen)
      invariant forall a :: a in seen <==> a in met || (!a.Empty? && HasParty(xs[..i], a))
    {
      assert xs[..i + 1] == xs[..i] + [xs[i]];
      forall a ensures HasParty(xs[..i + 1], a) <==> HasParty(xs[..i], a) || IsParty(xs[i], a) {
        HasPartySnoc(xs[..i], xs[i], a);
      }
      accounts, seen := AppendUnique(accounts, seen, xs[i].sender);
      if xs[i].recipient.Invalid? {
        continue;
      }
      accounts, seen := AppendUnique(accounts, seen, xs[i].recipient.canonical);
    }
    assert xs[..|xs|] == xs;
  }

  /** A block's addresses, each once. */
  method GetAccounts(blk: Block) returns (accounts: seq<Address>)
    ensures forall a :: a in accounts <==> Appears(blk, a)
    ensures forall i, j :: 0 <= i < j < |accounts| ==> accounts[i] != accounts[j]
  {
    accounts := [];
    var seen: set<Address> := {};
    for i := 0 to |blk.receipts|
      invariant Unique(accounts, seen)
      invariant forall a :: a in seen <==> !a.Empty? && Involved(blk.receipts[..i], a)
    {
      assert blk.receipts[..i + 1] == blk.receipts[..i] + [blk.receipts[i]];
      forall a ensures Involved(blk.receipts[..i + 1], a) <==>
                       Involved(blk.receipts[..i], a) || Involves(blk.receipts[i], a)
      {
        InvolvedSnoc(blk.receipts[..i], blk.receipts[i], a);
      }
      accounts, seen := AppendReceipt(accounts, seen, blk.receipts[i]);
    }
    assert blk.receipts[..|blk.receipts|] == blk.receipts;
  }

  /** Which heights a block's accounts get does not depend on their order, nor on repeats. */
  lemma AccountsAreMentions(blk: Block, accounts: seq<Address>, m: Heights, height: nat)
    requires forall a :: a in accounts <==> Appears(blk, a)
    ensures SeenIn(m, accounts, height) == SeenIn(m, Mentions(blk.receipts), height)
  {
    var t, u := SeenIn(m, accounts, height), SeenIn(m, Mentions(blk.receipts), height);
    forall a ensures (a in t <==> a in u) && (a in t ==> t[a] == u[a]) {
      NamedExactly(blk, a);
      SeenInIs(m, accounts, height, a);
      SeenInIs(m, Mentions(blk.receipts), height, a);
    }
  }

  class Plugin {
    var cached: set<Address>
    var rows: Heights
    var height: nat
    var committed: nat

    /** Every account in the cache is stored. */
    ghost predicate Valid()
      reads this
    {
      cached <= rows.Keys
    }

    constructor ()
      ensures Valid() && rows == map[] && height == committed == 0
    {
      cached, rows, height, committed := {}, map[], 0, 0;
    }

    /** The batch's new accounts with the block that named each first. */
    method CollectProcessAccounts(blks: seq<Block>) returns (process: Heights)
      ensures process == Without(Seen(map[], blks), cached)
    {
      process := map[];
      for i := 0 to |blks|
        invariant process == Without(Seen(map[], blks[..i]), cached)
      {
        assert blks[..i + 1][..i] == blks[..i];
        var accounts := GetAccounts(blks[i]);
        AccountsAreMentions(blks[i], accounts, Seen(map[], blks[..i]), blks[i].height);
        process := CollectBlock(process, accounts, blks[i].height, Seen(map[], blks[..i]));
      }
      assert blks[..|blks|] == blks;
    }

    method CollectBlock(before: Heights, accounts: seq<Address>, height: nat, ghost m: Heights) returns (process: Heights)
      requires before == Without(m, cached)
      ensures process == Without(SeenIn(m, accounts, height), cached)
    {
      process := before;
      for j := 0 to |accounts|
        invariant process == Without(SeenIn(m, accounts[..j], height), cached)
      {
        assert accounts[..j + 1][..j] == accounts[..j];
        var a := accounts[j];
        if a !in cached && a !in process && !a.Empty? {
          process := process[a := height];
        }
      }
      assert accounts[..|accounts|] == accounts;
    }

    /** `answers` are the accounts whose lookup on the chain succeeds. Accounts found stored are cached
        at once, new ones only after the commit. */
    method PutBlocks(blks: seq<Block>, answers: set<Address>, delivery: Delivery) returns (ok: bool)
      requires Valid()
      modifies this
      ensures Valid()
      ensures ok == (blks == [] || delivery.Commits?)
      ensures rows == if ok then Inserted(old(rows), Seen(map[], blks), answers) else old(rows)
      ensures cached == old(cached) + Seen(map[], blks).Keys * old(rows).Keys
                        + (if ok then Seen(map[], blks).Keys * answers else {})
      ensures blks != [] ==> committed == (if ok then blks[|blks| - 1].height else old(committed))
      ensures blks != [] ==> height == (if delivery.FailsBefore? then old(height) else blks[|blks| - 1].height)
      ensures blks == [] ==> height == old(height) && committed == old(committed)
    {
      if |blks| == 0 {
        assert Inserted(rows, map[], answers) == rows;
        return true;
      }
      var process := CollectProcessAccounts(blks);
      InsertedIgnoresKnown(rows, Seen(map[], blks), cached, answers);
      var existing := process.Keys * rows.Keys;
      cached := cached + existing;
      InsertedIgnoresKnown(rows, process, existing, answers);
      process := Without(process, existing);
      var loaded := process.Keys * answers;
      if delivery.FailsBefore? {
        return false;
      }
      height := blks[|blks| - 1].height;
      if delivery.FailsAfter? {
        return false;
      }
      rows := Inserted(rows, process, answers);
      committed := height;
      cached := cached + loaded;
      return true;
    }

    ghost predicate Tracks(chain: seq<Block>, s: State)
      reads this
    {
      && Valid() && height == s.cached && committed == s.committed && height <= |chain|
      && rows == StoredRows(s.sent) && BlocksOf(s.sent) == chain[..height]
    }

    /** Whatever the batches, failures and unanswered lookups: the table is what the deliveries stored, and
        it has the first-seen heights of all blocks up to the cached height exactly when each account's
        lookup was answered in the first delivery that names it, and that delivery committed. */
    method Index(chain: seq<Block>, script: seq<Attempt>, ghost s: State)
      requires forall i :: 0 <= i < |chain| ==> chain[i].height == i + 1
      requires Tracks(chain, s)
      modifies this
      ensures Tracks(chain, StateAfter(chain, s, script))
      ensures rows == Seen(map[], chain[..height]) <==> AllAnswered(StateAfter(chain, s, script).sent)
    {
      for i := 0 to |script|
        invariant Tracks(chain, StateAfter(chain, s, script[..i]))
      {
        assert script[..i + 1][..i] == script[..i];
        Attempted(chain, script[i], StateAfter(chain, s, script[..i]));
      }
      assert script[..|script|] == script;
      CompleteExactly(StateAfter(chain, s, script).sent);
    }

    method Attempted(chain: seq<Block>, x: Attempt, ghost s: State)
      requires forall i :: 0 <= i < |chain| ==> chain[i].height == i + 1
      requires Tracks(chain, s)
      modifies this
      ensures Tracks(chain, After(chain, s, x))
    {
      var to' := if height + x.size <= |chain| then height + x.size else |chain|;
      var blks := if height <= to' then chain[height..to'] else [];
      if |blks| > 0 {
        CutMoves(chain, s, x, chain[..height], blks);
        SentSnoc(s.sent, Sent(blks, x.delivery.Commits?, x.answers));
        NotStored(rows, Seen(map[], blks));
      }
      var ok := PutBlocks(blks, x.answers, x.delivery);
      NotStored(rows, map[]);
    }
  }

  /******* Runs of deliveries *******/

  /** A delivery of at most `size` blocks, and the accounts whose lookup succeeds then. */
  datatype Attempt = Attempt(size: nat, answers: set<Address>, delivery: Delivery)

  /** A delivery that moved the cached height: `kept` if it committed, lost if it rolled back. */
  datatype Sent = Sent(blks: seq<Block>, kept: bool, answers: set<Address>) {
    function Answers(): set<Address> {
      if kept then answers else {}
    }
  }

  datatype State = State(cached: nat, committed: nat, sent: seq<Sent>)

  function Upto(chain: seq<Block>, s: State, x: Attempt): nat {
    if s.cached + x.size <= |chain| then s.cached + x.size else |chain|
  }

  function AfterBlocks(s: State, blks: seq<Block>, to': nat, x: Attempt): State {
    if blks == [] || x.delivery.FailsBefore? then s
    else State(to', if x.delivery.Commits? then to' else s.committed, s.sent + [Sent(blks, x.delivery.Commits?, x.answers)])
  }

  function After(chain: seq<Block>, s: State, x: Attempt): State {
    var to' := Upto(chain, s, x);
    AfterBlocks(s, if s.cached <= to' then chain[s.cached..to'] else [], to', x)
  }

  function StateAfter(chain: seq<Block>, s: State, script: seq<Attempt>): State {
    if script == [] then s else After(chain, StateAfter(chain, s, script[..|script| - 1]), script[|script| - 1])
  }

  lemma CutMoves(chain: seq<Block>, s: State, x: Attempt, whole: seq<Block>, blks: seq<Block>)
    requires s.cached < Upto(chain, s, x) && whole == chain[..s.cached] && blks == chain[s.cached..Upto(chain, s, x)]
    requires forall i :: 0 <= i < |chain| ==> chain[i].height == i + 1
    ensures blks != [] && blks[|blks| - 1].height == Upto(chain, s, x)
    ensures After(chain, s, x) == AfterBlocks(s, blks, Upto(chain, s, x), x)
    ensures chain[..After(chain, s, x).cached] == if x.delivery.FailsBefore? then whole else whole + blks
  {
  }

  function BlocksOf(sent: seq<Sent>): seq<Block> {
    if sent == [] then [] else BlocksOf(sent[..|sent| - 1]) + sent[|sent| - 1].blks
  }

  function KeptOf(sent: seq<Sent>): seq<Block> {
    if sent == [] then []
    else KeptOf(sent[..|sent| - 1]) + if sent[|sent| - 1].kept then sent[|sent| - 1].blks else []
  }

  function StoredRows(sent: seq<Sent>): Heights {
    if sent == [] then map[]
    else Inserted(StoredRows(sent[..|sent| - 1]), Seen(map[], sent[|sent| - 1].blks), sent[|sent| - 1].Answers())
  }

  lemma SentSnoc(sent: seq<Sent>, x: Sent)
    ensures BlocksOf(sent + [x]) == BlocksOf(sent) + x.blks
    ensures StoredRows(sent + [x]) == Inserted(StoredRows(sent), Seen(map[], x.blks), x.Answers())
  {
    assert (sent + [x])[..|sent|] == sent;
  }

  lemma NotStored(rows: Heights, new': Heights)
    ensures Inserted(rows, new', {}) == rows
    ensures new' == map[] ==> forall answers :: Inserted(rows, new', answers) == rows
  {
  }

  predicate Stores(x: Sent, a: Address) {
    a in Seen(map[], x.blks) && a in x.Answers()
  }

  /** Delivery `i` is the first to store the address. */
  predicate FirstStoring(sent: seq<Sent>, i: nat, a: Address) {
    i < |sent| && Stores(sent[i], a) && forall j :: 0 <= j < i ==> !Stores(sent[j], a)
  }

  predicate Unstored(sent: seq<Sent>, a: Address) {
    forall j :: 0 <= j < |sent| ==> !Stores(sent[j], a)
  }

  lemma StoringSnoc(pre: seq<Sent>, x: Sent, a: Address)
    ensures forall i: nat :: FirstStoring(pre, i, a) ==> FirstStoring(pre + [x], i, a) && (pre + [x])[i] == pre[i]
    ensures Unstored(pre, a) && Stores(x, a) ==> FirstStoring(pre + [x], |pre|, a)
    ensures Unstored(pre + [x], a) <==> Unstored(pre, a) && !Stores(x, a)
  {
    var all := pre + [x];
    assert all[|pre|] == x && forall j :: 0 <= j < |pre| ==> all[j] == pre[j];
  }

  /** With lookups unanswered now and then: an account is stored by the first delivery that names it, is
      committed, and has its lookup answered, with the first block there that names it. */
  lemma {:induction false} StoredByFirstAnswer(sent: seq<Sent>, a: Address) returns (i: nat)
    ensures a in StoredRows(sent) <==> !Unstored(sent, a)
    ensures a in StoredRows(sent) ==>
              FirstStoring(sent, i, a) && StoredRows(sent)[a] == Seen(map[], sent[i].blks)[a]
  {
    if sent == [] {
      i := 0;
    } else {
      var n := |sent| - 1;
      var pre, x := sent[..n], sent[n];
      assert sent == pre + [x];
      i := StoredByFirstAnswer(pre, a);
      StoringSnoc(pre, x, a);
      if a !in StoredRows(pre) {
        i := n;
      }
    }
  }

  /** With all lookups answered, the table has the first-seen heights of the committed blocks. */
  lemma {:induction false} KeptAreSeen(sent: seq<Sent>)
    requires forall i, a :: 0 <= i < |sent| && sent[i].kept && a in Seen(map[], sent[i].blks) ==> a in sent[i].answers
    ensures StoredRows(sent) == Seen(map[], KeptOf(sent))
  {
    if sent == [] {
    } else {
      var pre, x := sent[..|sent| - 1], sent[|sent| - 1];
      KeptAreSeen(pre);
      if x.kept {
        InsertedExactly(StoredRows(pre), x.blks, x.answers);
        SeenAppend(map[], KeptOf(pre), x.blks);
      } else {
        NotStored(StoredRows(pre), Seen(map[], x.blks));
        assert KeptOf(sent) == KeptOf(pre);
      }
    }
  }

  /** The first delivery that names the account committed, its lookup answered (or none names it). */
  predicate Answered(sent: seq<Sent>, a: Address) {
    sent == [] ||
    var pre, x := sent[..|sent| - 1], sent[|sent| - 1];
    Answered(pre, a) && (a in Seen(map[], x.blks) && a !in Seen(map[], BlocksOf(pre)) ==> a in x.Answers())
  }

  ghost predicate AllAnswered(sent: seq<Sent>) {
    forall a :: Answered(sent, a)
  }

  /** One address of the table is as it should be. */
  predicate Agrees(t: Heights, u: Heights, a: Address) {
    (a in t <==> a in u) && (a in u ==> t[a] == u[a])
  }

  predicate Ascending(blks: seq<Block>) {
    forall i, j :: 0 <= i < j < |blks| ==> blks[i].height < blks[j].height
  }

  /** An account seen in an earlier run of blocks has a lower height there than in a later one. */
  lemma EarlierIsLower(a: seq<Block>, b: seq<Block>, x: Address)
    requires Ascending(a + b) && x in Seen(map[], a) && x in Seen(map[], b)
    ensures Seen(map[], a)[x] < Seen(map[], b)[x]
  {
    var i := SeenIsFirstNamed(a, x);
    var j := SeenIsFirstNamed(b, x);
    assert (a + b)[i] == a[i] && (a + b)[|a| + j] == b[j];
  }

  lemma AgreesNext(t: Heights, u: Heights, n: Heights, answers: set<Address>, a: Address, u': Heights)
    requires a in t ==> a in u && t[a] >= u[a]
    requires a in u && a in n ==> u[a] < n[a]
    requires (a in u' <==> a in u || a in n) && (a in u' ==> u'[a] == if a in u then u[a] else n[a])
    ensures var t' := Inserted(t, n, answers);
            && (a in t' ==> a in u' && t'[a] >= u'[a])
            && (Agrees(t', u', a) <==> Agrees(t, u, a) && (a in n && a !in u ==> a in answers))
  {
  }

  lemma {:induction false} AgreesExactly(sent: seq<Sent>, a: Address)
    requires Ascending(BlocksOf(sent))
    ensures var t, u := StoredRows(sent), Seen(map[], BlocksOf(sent));
            && (a in t ==> a in u && t[a] >= u[a])
            && (Agrees(t, u, a) <==> Answered(sent, a))
  {
    if sent == [] {
    } else {
      var pre, x := sent[..|sent| - 1], sent[|sent| - 1];
      var u, n := Seen(map[], BlocksOf(pre)), Seen(map[], x.blks);
      forall i, j | 0 <= i < j < |BlocksOf(pre)| ensures BlocksOf(pre)[i].height < BlocksOf(pre)[j].height {
        assert BlocksOf(sent)[i] == BlocksOf(pre)[i] && BlocksOf(sent)[j] == BlocksOf(pre)[j];
      }
      AgreesExactly(pre, a);
      SeenAppend(map[], BlocksOf(pre), x.blks);
      SeenFrom(u, x.blks, a);
      if a in u && a in n {
        EarlierIsLower(BlocksOf(pre), x.blks, a);
      }
      AgreesNext(StoredRows(pre), u, n, x.Answers(), a, Seen(map[], BlocksOf(sent)));
    }
  }

  lemma CompleteExactly(sent: seq<Sent>)
    requires Ascending(BlocksOf(sent))
    ensures StoredRows(sent) == Seen(map[], BlocksOf(sent)) <==> AllAnswered(sent)
  {
    var t, u := StoredRows(sent), Seen(map[], BlocksOf(sent));
    forall a ensures Agrees(t, u, a) <==> Answered(sent, a) {
      AgreesExactly(sent, a);
    }
    if AllAnswered(sent) {
      forall a ensures a in t <==> a in u {
        assert Agrees(t, u, a);
      }
      forall a | a in t ensures t[a] == u[a] {
        assert Agrees(t, u, a);
      }
    }
    if t == u {
      forall a ensures Answered(sent, a) {
        assert Agrees(t, u, a);
      }
    }
  }
}
