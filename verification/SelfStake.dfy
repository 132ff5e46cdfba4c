/** Self-stake history: one row per change of a candidate's self-stake bucket, read back at any past
    height. Candidate ids are numbers, in the order their texts sort. */
module SelfStake {
  import opened Wrappers

  type Id = nat

  /** The bucket id recorded for a candidate without a self-stake bucket. */
  const NO_BUCKET: nat := 0xFFFF_FFFF_FFFF_FFFF

  datatype Record = Record(height: nat, hash: nat, txIndex: nat, candidate: Id, bucket: nat)

  /** Register, activate and revoke all set a candidate's bucket; the rest is unstaking. */
  datatype Event = Sets(candidate: Id, bucket: nat) | Unstakes(bucket: nat) | Unrelated

  /** An event with its place in the chain. */
  datatype Entry = Entry(height: nat, txIndex: nat, hash: nat, event: Event)

  predicate Before(h: nat, x: nat, h': nat, x': nat) {
    h < h' || (h == h' && x < x')
  }

  /** Any two places in the chain are ordered, by block and then within the block. */
  lemma PlacesAreOrdered(h: nat, x: nat, h': nat, x': nat)
    ensures Before(h, x, h', x') || Before(h', x', h, x) <==> (h, x) != (h', x')
    ensures Before(h, x, h', x') ==> h <= h' && !Before(h', x', h, x)
    ensures Before(h, x, h, x') <==> x < x'
  {
  }

  /******* Point-in-time lookup *******/

  /** The answer to "rows of `c` up to `h`, by height and then tx index, both descending, take one". */
  ghost predicate IsLatest(rows: seq<Record>, c: Id, h: nat, r: Record) {
    && r in rows && r.candidate == c && r.height <= h
    && forall s :: s in rows && s.candidate == c && s.height <= h ==> !Before(r.height, r.txIndex, s.height, s.txIndex)
  }

  /** The last row of `c` up to `h` in insertion order. */
  function Latest(rows: seq<Record>, c: Id, h: nat): Option<Record> {
    if rows == [] then None
    else
      var last := rows[|rows| - 1];
      if last.candidate == c && last.height <= h then Some(last) else Latest(rows[..|rows| - 1], c, h)
  }

  /** Rows in chain order, no two at the same place. */
  predicate Ordered(rows: seq<Record>) {
    forall i, j :: 0 <= i < j < |rows| ==> Before(rows[i].height, rows[i].txIndex, rows[j].height, rows[j].txIndex)
  }

  lemma OrderedLast(pre: seq<Record>, last: Record, s: Record)
    requires Ordered(pre + [last]) && s in pre
    ensures Before(s.height, s.txIndex, last.height, last.txIndex)
  {
    var i :| 0 <= i < |pre| && pre[i] == s;
    var rows := pre + [last];
    assert rows[i] == s && rows[|pre|] == last;
  }

  lemma IsLatestSnoc(pre: seq<Record>, last: Record, c: Id, h: nat, r: Record)
    requires Ordered(pre + [last])
    ensures IsLatest(pre + [last], c, h, r) <==>
            if last.candidate == c && last.height <= h then r == last else IsLatest(pre, c, h, r)
  {
    forall s ensures s in pre + [last] <==> s in pre || s == last {
    }
    forall s | s in pre ensures Before(s.height, s.txIndex, last.height, last.txIndex) {
      OrderedLast(pre, last, s);
    }
  }

  /** On an ordered table the lookup has exactly one answer, the last row inserted. */
  lemma {:induction false} LookupIsLatest(rows: seq<Record>, c: Id, h: nat, r: Record)
    requires Ordered(rows)
    ensures IsLatest(rows, c, h, r) <==> Latest(rows, c, h) == Some(r)
  {
    if rows == [] {
    } else {
      var pre, last := rows[..|rows| - 1], rows[|rows| - 1];
      assert rows == pre + [last];
      LookupIsLatest(pre, c, h, r);
      IsLatestSnoc(pre, last, c, h, r);
    }
  }

  /******* What the code appends *******/

  type Holders = map<Id, nat>

  /** The least candidate whose bucket is `b`. */
  ghost predicate IsFirstHolder(m: Holders, b: nat, c: Id) {
    c in m && m[c] == b && forall d :: d in m && m[d] == b ==> c <= d
  }

  lemma FirstHolderExists(m: Holders, b: nat, c: Id)
    requires c in m && m[c] == b
    ensures exists d :: IsFirstHolder(m, b, d)
    decreases c
  {
    if d :| d in m && m[d] == b && d < c {
      FirstHolderExists(m, b, d);
    } else {
      assert IsFirstHolder(m, b, c);
    }
  }

  /** The bucket of every candidate as the rows up to `h` give it. */
  ghost function View(rows: seq<Record>, h: nat): Holders {
    map c | c in Candidates(rows) && Latest(rows, c, h).Some? :: Latest(rows, c, h).value.bucket
  }

  function Candidates(rows: seq<Record>): set<Id> {
    set i | 0 <= i < |rows| :: rows[i].candidate
  }

  /** The change an event makes to the holders: only the first holder of an unstaked bucket loses it. */
  ghost function Change(m: Holders, e: Event): Option<(Id, nat)> {
    match e
    case Sets(c, b) => Some((c, b))
    case Unstakes(b) =>
      if exists c :: IsFirstHolder(m, b, c) then
        var c :| IsFirstHolder(m, b, c);
        Some((c, NO_BUCKET))
      else None
    case Unrelated => None
  }

  ghost function Applied(m: Holders, e: Event): Holders {
    var x := Change(m, e);
    if x.Some? then m[x.value.0 := x.value.1] else m
  }

  predicate SameKey(r: Record, s: Record) {
    r.candidate == s.candidate && r.hash == s.hash
  }

  /** Insert, or on the same (candidate, hash) overwrite the other columns. */
  function Upsert(rows: seq<Record>, r: Record): seq<Record> {
    if exists s :: s in rows && SameKey(s, r)
    then seq(|rows|, i requires 0 <= i < |rows| => if SameKey(rows[i], r) then r else rows[i])
    else rows + [r]
  }

  ghost function Step(rows: seq<Record>, e: Entry): seq<Record> {
    var x := Change(View(rows, e.height), e.event);
    if x.Some? then Upsert(rows, Record(e.height, e.hash, e.txIndex, x.value.0, x.value.1)) else rows
  }

  ghost function RowsOf(entries: seq<Entry>): seq<Record> {
    if entries == [] then [] else Step(RowsOf(entries[..|entries| - 1]), entries[|entries| - 1])
  }

  /** The holders after the events, without any rows. */
  ghost function HoldersAfter(entries: seq<Entry>): Holders {
    if entries == [] then map[] else Applied(HoldersAfter(entries[..|entries| - 1]), entries[|entries| - 1].event)
  }

  function UpTo(entries: seq<Entry>, h: nat): seq<Entry> {
    if entries == [] then []
    else
      var last := entries[|entries| - 1];
      UpTo(entries[..|entries| - 1], h) + if last.height <= h then [last] else []
  }

  /** Entries in chain order, each from its own action. */
  predicate InChainOrder(entries: seq<Entry>) {
    forall i, j :: 0 <= i < j < |entries| ==>
      && Before(entries[i].height, entries[i].txIndex, entries[j].height, entries[j].txIndex)
      && entries[i].hash != entries[j].hash
  }

  /** Every row was written by one of the entries. */
  ghost predicate WrittenBy(rows: seq<Record>, entries: seq<Entry>) {
    forall i :: 0 <= i < |rows| ==> WrittenBySome(rows[i], entries)
  }

  ghost predicate WrittenBySome(r: Record, entries: seq<Entry>) {
    exists j :: 0 <= j < |entries| && Wrote(entries[j], r)
  }

  predicate Wrote(e: Entry, r: Record) {
    r.height == e.height && r.txIndex == e.txIndex && r.hash == e.hash
  }

  lemma OrderedSnoc(rows: seq<Record>, pre: seq<Entry>, e: Entry, r: Record)
    requires Ordered(rows) && WrittenBy(rows, pre) && InChainOrder(pre + [e]) && Wrote(e, r)
    ensures Upsert(rows, r) == rows + [r]
    ensures Ordered(rows + [r]) && WrittenBy(rows + [r], pre + [e])
    ensures forall i :: 0 <= i < |rows| ==> rows[i].height <= e.height
  {
    var all, entries := rows + [r], pre + [e];
    forall i | 0 <= i < |rows|
      ensures Before(rows[i].height, rows[i].txIndex, r.height, r.txIndex) && rows[i].hash != r.hash
      ensures WrittenBySome(rows[i], entries)
    {
      assert WrittenBySome(rows[i], pre);
      var j :| 0 <= j < |pre| && Wrote(pre[j], rows[i]);
      assert entries[j] == pre[j] && entries[|pre|] == e;
    }
    assert Wrote(entries[|pre|], r);
  }

  /** A new last row changes the view from its height on, for its candidate only. */
  lemma ViewSnoc(rows: seq<Record>, r: Record, h: nat)
    ensures View(rows + [r], h) == if r.height <= h then View(rows, h)[r.candidate := r.bucket] else View(rows, h)
  {
    var all := rows + [r];
    assert all[..|rows|] == rows;
    forall c ensures c in Candidates(all) <==> c in Candidates(rows) || c == r.candidate {
      if c in Candidates(rows) {
        var i :| 0 <= i < |rows| && rows[i].candidate == c;
        assert all[i].candidate == c;
      }
      if c == r.candidate {
        assert all[|rows|].candidate == c;
      }
    }
    forall c | Latest(rows, c, h).Some? ensures c in Candidates(rows) {
      LatestIsRow(rows, c, h);
    }
  }

  lemma {:induction false} LatestIsRow(rows: seq<Record>, c: Id, h: nat)
    requires Latest(rows, c, h).Some?
    ensures c in Candidates(rows)
    ensures exists i :: 0 <= i < |rows| && rows[i] == Latest(rows, c, h).value && rows[i].candidate == c
  {
    var n := |rows| - 1;
    if rows[n].candidate == c && rows[n].height <= h {
      assert rows[n].candidate == c;
    } else {
      var pre := rows[..n];
      LatestIsRow(pre, c, h);
      var i :| 0 <= i < |pre| && pre[i] == Latest(pre, c, h).value && pre[i].candidate == c;
      assert rows[i] == pre[i];
    }
  }

  /** From the height of the last row on, the view no longer changes. */
  lemma {:induction false} LatestSettles(rows: seq<Record>, c: Id, h: nat, h': nat)
    requires forall i :: 0 <= i < |rows| ==> rows[i].height <= h && rows[i].height <= h'
    ensures Latest(rows, c, h) == Latest(rows, c, h')
  {
    if rows == [] {
    } else {
      LatestSettles(rows[..|rows| - 1], c, h, h');
    }
  }

  lemma ViewSettles(rows: seq<Record>, h: nat, h': nat)
    requires forall i :: 0 <= i < |rows| ==> rows[i].height <= h && rows[i].height <= h'
    ensures View(rows, h) == View(rows, h')
  {
    forall c ensures Latest(rows, c, h) == Latest(rows, c, h') {
      LatestSettles(rows, c, h, h');
    }
  }

  lemma {:induction false} UpToAll(entries: seq<Entry>, h: nat)
    requires forall i :: 0 <= i < |entries| ==> entries[i].height <= h
    ensures UpTo(entries, h) == entries
  {
    if entries == [] {
    } else {
      UpToAll(entries[..|entries| - 1], h);
    }
  }

  lemma {:induction false} HeightsAscend(entries: seq<Entry>)
    requires InChainOrder(entries)
    ensures forall i :: 0 <= i < |entries| ==> entries[i].height <= entries[|entries| - 1].height
  {
    forall i | 0 <= i < |entries| - 1 ensures entries[i].height <= entries[|entries| - 1].height {
      assert Before(entries[i].height, entries[i].txIndex, entries[|entries| - 1].height, entries[|entries| - 1].txIndex);
    }
  }

  lemma StepHistory(rows: seq<Record>, pre: seq<Entry>, e: Entry, h: nat)
    requires Ordered(rows) && WrittenBy(rows, pre) && InChainOrder(pre + [e])
    ensures Ordered(Step(rows, e)) && WrittenBy(Step(rows, e), pre + [e])
    ensures View(Step(rows, e), h) ==
            if e.height <= h then Applied(View(rows, e.height), e.event) else View(rows, h)
  {
    HeightsAscend(pre + [e]);
    WrittenBounds(rows, pre, e);
    if e.height <= h {
      ViewSettles(rows, h, e.height);
    }
    var x := Change(View(rows, e.height), e.event);
    if x.Some? {
      var r := Record(e.height, e.hash, e.txIndex, x.value.0, x.value.1);
      OrderedSnoc(rows, pre, e, r);
      ViewSnoc(rows, r, h);
    } else {
      WrittenGrows(rows, pre, e);
    }
  }

  lemma HoldersSnoc(pre: seq<Entry>, e: Entry)
    ensures HoldersAfter(pre + [e]) == Applied(HoldersAfter(pre), e.event)
  {
    assert (pre + [e])[..|pre|] == pre;
  }

  /** In chain order a cut at a height that takes the last entry takes all. */
  lemma UpToLast(entries: seq<Entry>, h: nat)
    requires InChainOrder(entries) && entries != [] && entries[|entries| - 1].height <= h
    ensures UpTo(entries[..|entries| - 1], h) == entries[..|entries| - 1]
    ensures UpTo(entries, h) == entries
  {
    HeightsAscend(entries);
    UpToAll(entries, h);
    var pre := entries[..|entries| - 1];
    forall i | 0 <= i < |pre| ensures pre[i].height <= h {
      assert entries[i].height <= h;
    }
    UpToAll(pre, h);
  }

  /** Looking up any past height gives the holders as of the end of that block. */
  lemma {:induction false} HistoryIsKept(entries: seq<Entry>, h: nat)
    requires InChainOrder(entries)
    ensures Ordered(RowsOf(entries)) && WrittenBy(RowsOf(entries), entries)
    ensures View(RowsOf(entries), h) == HoldersAfter(UpTo(entries, h))
  {
    if entries == [] {
    } else {
      var pre, e := entries[..|entries| - 1], entries[|entries| - 1];
      assert entries == pre + [e];
      HistoryIsKept(pre, h);
      HistoryIsKept(pre, e.height);
      StepHistory(RowsOf(pre), pre, e, h);
      UpToLast(entries, e.height);
      if e.height <= h {
        UpToLast(entries, h);
        HoldersSnoc(pre, e);
      } else {
        assert UpTo(entries, h) == UpTo(pre, h);
      }
    }
  }

  lemma WrittenGrows(rows: seq<Record>, pre: seq<Entry>, e: Entry)
    requires WrittenBy(rows, pre)
    ensures WrittenBy(rows, pre + [e])
  {
    var all := pre + [e];
    forall i | 0 <= i < |rows| ensures WrittenBySome(rows[i], all) {
      assert WrittenBySome(rows[i], pre);
      var j :| 0 <= j < |pre| && Wrote(pre[j], rows[i]);
      assert all[j] == pre[j];
    }
  }

  lemma WrittenBounds(rows: seq<Record>, pre: seq<Entry>, e: Entry)
    requires WrittenBy(rows, pre) && InChainOrder(pre + [e])
    ensures forall i :: 0 <= i < |rows| ==> rows[i].height <= e.height
  {
    forall i | 0 <= i < |rows| ensures rows[i].height <= e.height {
      assert WrittenBySome(rows[i], pre);
      var j :| 0 <= j < |pre| && Wrote(pre[j], rows[i]);
      assert (pre + [e])[j] == pre[j] && (pre + [e])[|pre|] == e;
    }
  }

  /** The database lookup at a past height finds the candidate's bucket as of the end of that block,
      and finds nothing when it had none yet. */
  lemma LookupIsHistory(entries: seq<Entry>, c: Id, h: nat, r: Record)
    requires InChainOrder(entries)
    ensures IsLatest(RowsOf(entries), c, h, r) ==>
              c in HoldersAfter(UpTo(entries, h)) && HoldersAfter(UpTo(entries, h))[c] == r.bucket
    ensures c in HoldersAfter(UpTo(entries, h)) ==> exists s :: IsLatest(RowsOf(entries), c, h, s)
  {
    var rows := RowsOf(entries);
    HistoryIsKept(entries, h);
    LookupIsLatest(rows, c, h, r);
    if Latest(rows, c, h).Some? {
      LatestIsRow(rows, c, h);
      LookupIsLatest(rows, c, h, Latest(rows, c, h).value);
    }
  }

  /******* Unstaking for real: every holder of the bucket loses it *******/

  ghost function TrulyApplied(m: Holders, e: Event): Holders {
    match e
    case Sets(c, b) => m[c := b]
    case Unstakes(b) => map c | c in m :: if m[c] == b then NO_BUCKET else m[c]
    case Unrelated => m
  }

  ghost function TrueHolders(entries: seq<Entry>): Holders {
    if entries == [] then map[] else TrulyApplied(TrueHolders(entries[..|entries| - 1]), entries[|entries| - 1].event)
  }

  /** The bucket has at most one holder. */
  ghost predicate Unshared(m: Holders, b: nat) {
    forall c, d :: c in m && d in m && m[c] == b && m[d] == b ==> c == d
  }

  /** The code's change is the true one exactly when the unstaked bucket is not shared. */
  lemma UnstakeExactly(m: Holders, e: Event)
    ensures Applied(m, e) == TrulyApplied(m, e) <==>
            (e.Unstakes? && e.bucket != NO_BUCKET ==> Unshared(m, e.bucket))
  {
    match e
    case Sets(c, b) =>
    case Unrelated =>
    case Unstakes(b) =>
      var t := TrulyApplied(m, e);
      if exists c :: c in m && m[c] == b {
        var c0 :| c0 in m && m[c0] == b;
        FirstHolderExists(m, b, c0);
        var c := Change(m, e).value.0;
        assert IsFirstHolder(m, b, c);
        var u := Applied(m, e);
        if b == NO_BUCKET || Unshared(m, b) {
          forall d | d in m ensures u[d] == t[d] {
            assert m[d] == b ==> d == c || b == NO_BUCKET;
          }
          assert u == t;
        } else {
          var x, y :| x in m && y in m && m[x] == b && m[y] == b && x != y;
          var d := if x == c then y else x;
          assert u[d] == b && t[d] == NO_BUCKET;
        }
      } else {
        assert t == m;
      }
  }

  lemma AppliedSnoc(pre: seq<Entry>, e: Entry)
    ensures HoldersAfter(pre + [e]) == Applied(HoldersAfter(pre), e.event)
    ensures TrueHolders(pre + [e]) == TrulyApplied(TrueHolders(pre), e.event)
  {
    assert (pre + [e])[..|pre|] == pre;
  }

  /** Two candidates get the same bucket and it is unstaked: the one that sorts later keeps it on record. */
  lemma SharedUnstakeBreaks(c: Id, d: Id, b: nat, x: Entry, y: Entry, z: Entry)
    requires c < d && b != NO_BUCKET && x.event == Sets(c, b) && y.event == Sets(d, b) && z.event == Unstakes(b)
    ensures HoldersAfter([x, y, z]) == map[c := NO_BUCKET, d := b]
    ensures TrueHolders([x, y, z]) == map[c := NO_BUCKET, d := NO_BUCKET]
  {
    assert [] + [x] == [x] && [x] + [y] == [x, y] && [x, y] + [z] == [x, y, z];
    AppliedSnoc([], x);
    AppliedSnoc([x], y);
    AppliedSnoc([x, y], z);
    var m := map[c := b, d := b];
    assert HoldersAfter([x, y]) == m && TrueHolders([x, y]) == m;
    assert IsFirstHolder(m, b, c);
    OnlyFirstHolder(m, b, c);
  }

  /** No real bucket is ever shared when it is unstaked. */
  ghost predicate NeverShared(entries: seq<Entry>) {
    entries == [] ||
    var pre, e := entries[..|entries| - 1], entries[|entries| - 1].event;
    NeverShared(pre) && (e.Unstakes? && e.bucket != NO_BUCKET ==> Unshared(TrueHolders(pre), e.bucket))
  }

  lemma {:induction false} RecordsAreTrue(entries: seq<Entry>)
    requires NeverShared(entries)
    ensures HoldersAfter(entries) == TrueHolders(entries)
  {
    if entries == [] {
    } else {
      RecordsAreTrue(entries[..|entries| - 1]);
      UnstakeExactly(TrueHolders(entries[..|entries| - 1]), entries[|entries| - 1].event);
    }
  }

  ghost predicate AlwaysTrue(entries: seq<Entry>) {
    HoldersAfter(entries) == TrueHolders(entries) && (entries == [] || AlwaysTrue(entries[..|entries| - 1]))
  }

  /** The recorded buckets are the candidates' own after every event exactly when none is ever shared when
      it is unstaked. */
  lemma {:induction false} AlwaysTrueExactly(entries: seq<Entry>)
    ensures AlwaysTrue(entries) <==> NeverShared(entries)
  {
    if entries == [] {
    } else {
      AlwaysTrueExactly(entries[..|entries| - 1]);
      UnstakeExactly(TrueHolders(entries[..|entries| - 1]), entries[|entries| - 1].event);
    }
  }

  lemma {:induction false} NeverSharedUpTo(entries: seq<Entry>, h: nat)
    requires NeverShared(entries) && InChainOrder(entries)
    ensures NeverShared(UpTo(entries, h))
  {
    if entries == [] {
    } else {
      var pre, e := entries[..|entries| - 1], entries[|entries| - 1];
      NeverSharedUpTo(pre, h);
      if e.height <= h {
        UpToLast(entries, h);
      } else {
        assert UpTo(entries, h) == UpTo(pre, h);
      }
    }
  }

  /******* The self-stake bucket by events alone *******/

  /** The bucket a candidate has: that of the last event that set one for it, 2^64-1 standing for none,
      unless that bucket was unstaked since. */
  function StakedBucket(entries: seq<Entry>, c: Id): Option<nat> {
    if entries == [] then None
    else
      var before, e := StakedBucket(entries[..|entries| - 1], c), entries[|entries| - 1].event;
      match e
      case Sets(d, b) => if d != c then before else if b == 0x1_0000_0000_0000_0000 - 1 then None else Some(b)
      case Unstakes(b) => if before == Some(b) then None else before
      case Unrelated => before
  }

  lemma {:induction false} TrueHoldersAre(entries: seq<Entry>, c: Id)
    ensures var m := TrueHolders(entries);
            StakedBucket(entries, c) == if c in m && m[c] != NO_BUCKET then Some(m[c]) else None
  {
    if entries == [] {
    } else {
      TrueHoldersAre(entries[..|entries| - 1], c);
    }
  }

  /** `isSelfStake`: whether the lookup finds a real bucket. */
  ghost predicate IsSelfStake(rows: seq<Record>, c: Id, h: nat) {
    exists r :: IsLatest(rows, c, h, r) && r.bucket != NO_BUCKET
  }

  /** It tells, for any past height, whether the candidate then had a self-stake bucket. */
  lemma SelfStakeIsTrue(entries: seq<Entry>, c: Id, h: nat)
    requires InChainOrder(entries) && NeverShared(entries)
    ensures IsSelfStake(RowsOf(entries), c, h) <==> StakedBucket(UpTo(entries, h), c).Some?
  {
    TrueHoldersAre(UpTo(entries, h), c);
    var rows, m := RowsOf(entries), TrueHolders(UpTo(entries, h));
    NeverSharedUpTo(entries, h);
    RecordsAreTrue(UpTo(entries, h));
    forall r ensures IsLatest(rows, c, h, r) ==> c in m && m[c] == r.bucket {
      LookupIsHistory(entries, c, h, r);
    }
    if c in m {
      LookupIsHistory(entries, c, h, Record(0, 0, 0, 0, 0));
    }
  }

  /** With buckets shared or not: at the height of an event that sets a real bucket, and no later event
      there, its candidate passes the test. */
  lemma SetPasses(entries: seq<Entry>, e: Entry, c: Id, b: nat)
    requires InChainOrder(entries + [e]) && e.event == Sets(c, b)
    ensures IsSelfStake(RowsOf(entries + [e]), c, e.height) <==> b != 0x1_0000_0000_0000_0000 - 1
  {
    var all := entries + [e];
    UpToLast(all, e.height);
    HoldersSnoc(entries, e);
    LookupIsHistory(all, c, e.height, Record(0, 0, 0, 0, 0));
    forall r ensures IsLatest(RowsOf(all), c, e.height, r) ==> r.bucket == b {
      LookupIsHistory(all, c, e.height, r);
    }
  }

  /******* An action delivered again *******/

  /** No two rows of one candidate and action: the table's unique key. */
  predicate UniqueKeys(rows: seq<Record>) {
    forall i, j :: 0 <= i < j < |rows| ==> !SameKey(rows[i], rows[j])
  }

  /** An upsert keeps the key unique, puts its row in, and changes no row of another key; it changes nothing
      exactly when that very row is there. */
  lemma UpsertMeaning(rows: seq<Record>, r: Record)
    requires UniqueKeys(rows)
    ensures UniqueKeys(Upsert(rows, r)) && r in Upsert(rows, r)
    ensures forall s :: !SameKey(s, r) ==> (s in Upsert(rows, r) <==> s in rows)
    ensures Upsert(rows, r) == rows <==> r in rows
  {
    if exists s :: s in rows && SameKey(s, r) {
      var s :| s in rows && SameKey(s, r);
      var k :| 0 <= k < |rows| && rows[k] == s;
      UpsertedAt(rows, r, k);
    } else {
      var all := rows + [r];
      assert all[|rows|] == r;
      assert r !in rows;
    }
  }

  lemma UpsertedAt(rows: seq<Record>, r: Record, k: nat)
    requires UniqueKeys(rows) && k < |rows| && SameKey(rows[k], r)
    ensures Upsert(rows, r) == rows[k := r] && UniqueKeys(rows[k := r])
    ensures forall s :: !SameKey(s, r) ==> (s in rows[k := r] <==> s in rows)
    ensures r in rows[k := r] && (rows[k := r] == rows <==> r in rows)
  {
    var u := rows[k := r];
    forall i | 0 <= i < |rows| && i != k ensures !SameKey(rows[i], r) {
      assert !SameKey(rows[if i < k then i else k], rows[if i < k then k else i]);
    }
    assert u[k] == r;
    forall s | !SameKey(s, r) ensures s in u <==> s in rows {
      if s in rows {
        var i :| 0 <= i < |rows| && rows[i] == s;
        assert u[i] == s;
      }
      if s in u {
        var i :| 0 <= i < |u| && u[i] == s;
        assert rows[i] == s;
      }
    }
  }

  /** Rows in chain order have unique keys. */
  lemma {:induction false} HistoryKeys(entries: seq<Entry>)
    requires InChainOrder(entries)
    ensures UniqueKeys(RowsOf(entries))
  {
    if entries == [] {
    } else {
      var pre := entries[..|entries| - 1];
      HistoryKeys(pre);
      var x := Change(View(RowsOf(pre), entries[|pre|].height), entries[|pre|].event);
      if x.Some? {
        var e := entries[|pre|];
        UpsertMeaning(RowsOf(pre), Record(e.height, e.hash, e.txIndex, x.value.0, x.value.1));
      }
    }
  }

  /** The row an event wrote stays in the table. */
  lemma {:induction false} WrittenStays(entries: seq<Entry>, j: nat, c: Id, b: nat)
    requires InChainOrder(entries) && j < |entries| && entries[j].event == Sets(c, b)
    ensures Record(entries[j].height, entries[j].hash, entries[j].txIndex, c, b) in RowsOf(entries)
  {
    var n := |entries| - 1;
    var pre, last := entries[..n], entries[n];
    var r := Record(entries[j].height, entries[j].hash, entries[j].txIndex, c, b);
    HistoryKeys(pre);
    var x := Change(View(RowsOf(pre), last.height), last.event);
    if j < n {
      WrittenStays(pre, j, c, b);
      assert entries[j].hash != last.hash;
    }
    if x.Some? {
      UpsertMeaning(RowsOf(pre), Record(last.height, last.hash, last.txIndex, x.value.0, x.value.1));
    }
  }

  /** A setting of a bucket that is delivered again, at any later time, changes nothing. */
  lemma SetAgain(entries: seq<Entry>, j: nat)
    requires InChainOrder(entries) && j < |entries| && entries[j].event.Sets?
    ensures Step(RowsOf(entries), entries[j]) == RowsOf(entries)
  {
    var e := entries[j];
    HistoryKeys(entries);
    WrittenStays(entries, j, e.event.candidate, e.event.bucket);
    UpsertMeaning(RowsOf(entries), Record(e.height, e.hash, e.txIndex, e.event.candidate, e.event.bucket));
  }

  /** An unstake delivered again changes nothing exactly when, at the end of its block, the bucket has no
      holder on record, or this action's row for the first holder is in the table already. */
  lemma UnstakeAgainExactly(entries: seq<Entry>, j: nat)
    requires InChainOrder(entries) && j < |entries| && entries[j].event.Unstakes?
    ensures var e := entries[j];
            var m := HoldersAfter(UpTo(entries, e.height));
            Step(RowsOf(entries), e) == RowsOf(entries) <==>
            forall c :: IsFirstHolder(m, e.event.bucket, c) ==>
              Record(e.height, e.hash, e.txIndex, c, NO_BUCKET) in RowsOf(entries)
  {
    var e := entries[j];
    var rows, m := RowsOf(entries), HoldersAfter(UpTo(entries, e.height));
    HistoryKeys(entries);
    HistoryIsKept(entries, e.height);
    var x := Change(m, e.event);
    if x.Some? {
      OnlyFirstHolder(m, e.event.bucket, x.value.0);
      UpsertMeaning(rows, Record(e.height, e.hash, e.txIndex, x.value.0, NO_BUCKET));
    }
  }

  /******* fetchCandidates and handleAction *******/

  predicate TopOfCandidate(rows: seq<Record>, h: nat, r: Record) {
    && r in rows && r.height <= h
    && forall s :: s in rows && s.candidate == r.candidate && s.height <= h ==> s.height <= r.height
  }

  /** By candidate, and by tx index within a candidate. */
  predicate SortedRecords(rs: seq<Record>) {
    forall i, j :: 0 <= i < j < |rs| ==>
      rs[i].candidate < rs[j].candidate || (rs[i].candidate == rs[j].candidate && rs[i].txIndex <= rs[j].txIndex)
  }

  /** The database's answer: each candidate's rows at its greatest height up to `h`, sorted. */
  ghost predicate IsAnswer(answer: seq<Record>, rows: seq<Record>, h: nat) {
    SortedRecords(answer) && forall r :: r in answer <==> TopOfCandidate(rows, h, r)
  }

  predicate LastOfCandidate(rs: seq<Record>, k: nat)
    requires k < |rs|
  {
    k == |rs| - 1 || rs[k + 1].candidate != rs[k].candidate
  }

  predicate StrictlyDown(rs: seq<Record>) {
    forall i, j :: 0 <= i < j < |rs| ==> rs[i].candidate > rs[j].candidate
  }

  predicate StrictlyUp(rs: seq<Record>) {
    forall i, j :: 0 <= i < j < |rs| ==> rs[i].candidate < rs[j].candidate
  }

  /** The candidates from index `i` on. */
  function TailCandidates(rs: seq<Record>, i: nat): set<Id>
    requires i <= |rs|
    decreases |rs| - i
  {
    if i == |rs| then {} else TailCandidates(rs, i + 1) + {rs[i].candidate}
  }

  /** The last record of each candidate from index `i` on, last candidate first. */
  function Lasts(rs: seq<Record>, i: nat): seq<Record>
    requires i <= |rs|
    decreases |rs| - i
  {
    if i == |rs| then []
    else Lasts(rs, i + 1) + if LastOfCandidate(rs, i) then [rs[i]] else []
  }

  lemma {:induction false} TailAbove(rs: seq<Record>, i: nat, j: nat, c: Id)
    requires SortedRecords(rs) && i < j <= |rs| && c in TailCandidates(rs, j)
    ensures rs[i].candidate <= c
    ensures j == i + 1 && LastOfCandidate(rs, i) ==> rs[i].candidate != c
    decreases |rs| - j
  {
    if c != rs[j].candidate {
      TailAbove(rs, i, j + 1, c);
      TailAbove(rs, j, j + 1, c);
    }
  }

  lemma TailSeen(rs: seq<Record>, i: nat)
    requires SortedRecords(rs) && i < |rs|
    ensures rs[i].candidate in TailCandidates(rs, i + 1) <==> !LastOfCandidate(rs, i)
  {
    if rs[i].candidate in TailCandidates(rs, i + 1) {
      TailAbove(rs, i, i + 1, rs[i].candidate);
    }
  }

  lemma {:induction false} LastsGoDown(rs: seq<Record>, i: nat)
    requires SortedRecords(rs) && i <= |rs|
    ensures StrictlyDown(Lasts(rs, i))
    ensures forall r :: r in Lasts(rs, i) ==> r.candidate in TailCandidates(rs, i)
    decreases |rs| - i
  {
    if i == |rs| {
    } else {
      LastsGoDown(rs, i + 1);
      if LastOfCandidate(rs, i) {
        forall r | r in Lasts(rs, i + 1) ensures r.candidate > rs[i].candidate {
          TailAbove(rs, i, i + 1, r.candidate);
        }
      }
    }
  }

  ghost predicate LastFrom(rs: seq<Record>, i: nat, r: Record) {
    exists k :: i <= k < |rs| && LastOfCandidate(rs, k) && rs[k] == r
  }

  lemma LastFromStep(rs: seq<Record>, i: nat, r: Record)
    requires i < |rs|
    ensures LastFrom(rs, i, r) <==> LastFrom(rs, i + 1, r) || (LastOfCandidate(rs, i) && rs[i] == r)
  {
    if k :| i <= k < |rs| && LastOfCandidate(rs, k) && rs[k] == r {
      assert k > i ==> LastFrom(rs, i + 1, r);
    }
  }

  lemma {:induction false} LastsAre(rs: seq<Record>, i: nat, r: Record)
    requires i <= |rs|
    ensures r in Lasts(rs, i) <==> LastFrom(rs, i, r)
    decreases |rs| - i
  {
    if i == |rs| {
    } else {
      LastsAre(rs, i + 1, r);
      LastFromStep(rs, i, r);
    }
  }

  /** The scan from the end keeps the last record of each candidate. */
  method ScanBack(answer: seq<Record>) returns (unique: seq<Record>)
    requires SortedRecords(answer)
    ensures unique == Lasts(answer, 0)
  {
    unique := [];
    var seen: set<Id> := {};
    var i := |answer|;
    while i > 0
      invariant 0 <= i <= |answer|
      invariant seen == TailCandidates(answer, i) && unique == Lasts(answer, i)
    {
      i := i - 1;
      TailSeen(answer, i);
      if answer[i].candidate !in seen {
        unique := unique + [answer[i]];
        seen := seen + {answer[i].candidate};
      }
    }
  }

  /** Reversal by swapping the ends. */
  method ReverseInPlace(a: array<Record>)
    modifies a
    ensures forall k :: 0 <= k < a.Length ==> a[k] == old(a[a.Length - 1 - k])
  {
    var i, j := 0, a.Length - 1;
    while i < j
      invariant 0 <= i <= j + 1 && j == a.Length - 1 - i
      invariant forall k :: i <= k <= j ==> a[k] == old(a[k])
      invariant forall k :: 0 <= k < i || j < k < a.Length ==> a[k] == old(a[a.Length - 1 - k])
    {
      a[i], a[j] := a[j], a[i];
      i, j := i + 1, j - 1;
    }
  }

  /** A list in reverse, by copying it into an array that is reversed in place. */
  method Reversed(rs: seq<Record>) returns (out: seq<Record>)
    ensures |out| == |rs| && forall k :: 0 <= k < |rs| ==> out[k] == rs[|rs| - 1 - k]
  {
    var a := new Record[|rs|](i requires 0 <= i < |rs| => rs[i]);
    ReverseInPlace(a);
    out := a[..];
  }

  lemma AfterLast(rs: seq<Record>, k: nat, j: nat)
    requires SortedRecords(rs) && k < j < |rs| && LastOfCandidate(rs, k)
    ensures rs[k].candidate < rs[j].candidate
  {
    assert rs[k].candidate < rs[k + 1].candidate;
  }

  /** The last record of a candidate in the answer is its latest row. */
  lemma LastIsLatest(answer: seq<Record>, rows: seq<Record>, h: nat, k: nat)
    requires IsAnswer(answer, rows, h) && k < |answer| && LastOfCandidate(answer, k)
    ensures IsLatest(rows, answer[k].candidate, h, answer[k])
  {
    var r := answer[k];
    assert TopOfCandidate(rows, h, r);
    forall s | s in rows && s.candidate == r.candidate && s.height <= h
      ensures !Before(r.height, r.txIndex, s.height, s.txIndex)
    {
      if s.height == r.height {
        assert TopOfCandidate(rows, h, s);
        var j :| 0 <= j < |answer| && answer[j] == s;
        if j > k {
          AfterLast(answer, k, j);
        }
      }
    }
  }

  /** On an ordered table a latest row is the last record of its candidate in the answer. */
  lemma LatestIsLast(answer: seq<Record>, rows: seq<Record>, h: nat, r: Record) returns (k: nat)
    requires IsAnswer(answer, rows, h) && Ordered(rows) && IsLatest(rows, r.candidate, h, r)
    ensures k < |answer| && answer[k] == r && LastOfCandidate(answer, k)
  {
    forall s | s in rows && s.candidate == r.candidate && s.height <= h ensures s.height <= r.height {
      assert !Before(r.height, r.txIndex, s.height, s.txIndex);
    }
    assert TopOfCandidate(rows, h, r);
    k :| 0 <= k < |answer| && answer[k] == r;
    k := LastInGroup(answer, k);
    LastIsLatest(answer, rows, h, k);
    LookupIsLatest(rows, r.candidate, h, r);
    LookupIsLatest(rows, r.candidate, h, answer[k]);
  }

  lemma LastInGroup(rs: seq<Record>, k: nat) returns (m: nat)
    requires k < |rs|
    ensures k <= m < |rs| && rs[m].candidate == rs[k].candidate && LastOfCandidate(rs, m)
    decreases |rs| - k
  {
    if LastOfCandidate(rs, k) {
      m := k;
    } else {
      m := LastInGroup(rs, k + 1);
    }
  }

  /** One record for every candidate known by `h`, its latest, in ascending order of candidates. */
  method FetchCandidates(answer: seq<Record>, ghost rows: seq<Record>, h: nat) returns (out: seq<Record>)
    requires IsAnswer(answer, rows, h) && Ordered(rows)
    ensures StrictlyUp(out)
    ensures forall r :: r in out <==> IsLatest(rows, r.candidate, h, r)
  {
    var unique := ScanBack(answer);
    LastsGoDown(answer, 0);
    out := Reversed(unique);
    forall r ensures r in out <==> r in unique {
      if r in unique {
        var k :| 0 <= k < |unique| && unique[k] == r;
        assert out[|unique| - 1 - k] == r;
      }
    }
    forall r ensures r in out <==> IsLatest(rows, r.candidate, h, r) {
      LastsAre(answer, 0, r);
      if r in out {
        var k :| 0 <= k < |answer| && LastOfCandidate(answer, k) && answer[k] == r;
        LastIsLatest(answer, rows, h, k);
      }
      if IsLatest(rows, r.candidate, h, r) {
        var k := LatestIsLast(answer, rows, h, r);
      }
    }
  }

  /** The view holds just what the latest rows say. */
  lemma ViewIsLatest(rows: seq<Record>, h: nat, r: Record)
    requires Ordered(rows) && IsLatest(rows, r.candidate, h, r)
    ensures r.candidate in View(rows, h) && View(rows, h)[r.candidate] == r.bucket
  {
    LookupIsLatest(rows, r.candidate, h, r);
    LatestIsRow(rows, r.candidate, h);
  }

  lemma ViewHasLatest(rows: seq<Record>, h: nat, c: Id) returns (r: Record)
    requires Ordered(rows) && c in View(rows, h)
    ensures r.candidate == c && IsLatest(rows, c, h, r) && View(rows, h)[c] == r.bucket
  {
    r := Latest(rows, c, h).value;
    LatestIsRow(rows, c, h);
    LookupIsLatest(rows, c, h, r);
  }

  class Table {
    var rows: seq<Record>

    constructor ()
      ensures rows == []
    {
      rows := [];
    }

    method UpsertRecord(r: Record)
      modifies this
      ensures rows == Upsert(old(rows), r)
    {
      var i := 0;
      var found := false;
      var out := rows;
      while i < |rows|
        invariant i <= |rows| == |out|
        invariant found <==> exists k :: 0 <= k < i && SameKey(rows[k], r)
        invariant forall k :: 0 <= k < |rows| ==> out[k] == if k < i && SameKey(rows[k], r) then r else rows[k]
      {
        if SameKey(rows[i], r) {
          out := out[i := r];
          found := true;
        }
        i := i + 1;
      }
      if found {
        rows := out;
      } else {
        rows := rows + [r];
      }
    }

    /** `answer` is what the database returns to the latest-rows query, should it be asked. */
    method HandleAction(e: Entry, answer: seq<Record>)
      requires Ordered(rows) && IsAnswer(answer, rows, e.height)
      modifies this
      ensures rows == Step(old(rows), e)
    {
      match e.event
      case Sets(c, b) => UpsertRecord(Record(e.height, e.hash, e.txIndex, c, b));
      case Unstakes(b) =>
        var all := FetchCandidates(answer, rows, e.height);
        var i := 0;
        while i < |all| && all[i].bucket != b
          invariant i <= |all| && forall k :: 0 <= k < i ==> all[k].bucket != b
        {
          i := i + 1;
        }
        FirstFound(rows, e.height, all, b, i);
        if i < |all| {
          UpsertRecord(Record(e.height, e.hash, e.txIndex, all[i].candidate, NO_BUCKET));
        }
      case Unrelated =>
    }
  }

  /** Each listed record is what the map says of its candidate, and every candidate is listed. */
  ghost predicate Lists(all: seq<Record>, m: Holders) {
    && (forall k :: 0 <= k < |all| ==> all[k].candidate in m && m[all[k].candidate] == all[k].bucket)
    && (forall c :: c in m ==> Listed(all, c))
  }

  ghost predicate Listed(all: seq<Record>, c: Id) {
    exists k :: 0 <= k < |all| && all[k].candidate == c
  }

  lemma LatestListsView(rows: seq<Record>, h: nat, all: seq<Record>)
    requires Ordered(rows) && forall r :: r in all <==> IsLatest(rows, r.candidate, h, r)
    ensures Lists(all, View(rows, h))
  {
    var m := View(rows, h);
    forall k | 0 <= k < |all| ensures all[k].candidate in m && m[all[k].candidate] == all[k].bucket {
      assert all[k] in all;
      ViewIsLatest(rows, h, all[k]);
    }
    forall c | c in m ensures Listed(all, c) {
      var r := ViewHasLatest(rows, h, c);
      assert r in all;
    }
  }

  lemma FirstIn(m: Holders, all: seq<Record>, b: nat, i: nat)
    requires Lists(all, m) && StrictlyUp(all)
    requires i <= |all| && forall k :: 0 <= k < i ==> all[k].bucket != b
    ensures i < |all| && all[i].bucket == b ==> IsFirstHolder(m, b, all[i].candidate)
    ensures i == |all| ==> forall c :: c in m ==> m[c] != b
  {
    forall c | c in m && m[c] == b ensures i < |all| && all[i].candidate <= c {
      assert Listed(all, c);
      var k :| 0 <= k < |all| && all[k].candidate == c;
      assert k >= i;
    }
  }

  lemma OnlyFirstHolder(m: Holders, b: nat, c: Id)
    requires IsFirstHolder(m, b, c)
    ensures Change(m, Unstakes(b)) == Some((c, NO_BUCKET))
  {
    var d := Change(m, Unstakes(b)).value.0;
    assert IsFirstHolder(m, b, d);
  }

  /** The first record of the list with the bucket is that of its first holder. */
  lemma FirstFound(rows: seq<Record>, h: nat, all: seq<Record>, b: nat, i: nat)
    requires Ordered(rows) && StrictlyUp(all) && forall r :: r in all <==> IsLatest(rows, r.candidate, h, r)
    requires i <= |all| && (forall k :: 0 <= k < i ==> all[k].bucket != b) && (i < |all| ==> all[i].bucket == b)
    ensures Change(View(rows, h), Unstakes(b)) == if i < |all| then Some((all[i].candidate, NO_BUCKET)) else None
  {
    LatestListsView(rows, h, all);
    FirstIn(View(rows, h), all, b, i);
    if i < |all| {
      OnlyFirstHolder(View(rows, h), b, all[i].candidate);
    }
  }
}
