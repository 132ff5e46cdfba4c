/** The checker of stored rows against the chain. A row matches when all its compared fields are equal;
    `T` is the tuple of those fields. Matched rows are taken out greedily, first match first. */
module VerifyDb {

  /** What is left of the rows after the chain's items took theirs out one by one. */
  function Leftover<T(==)>(items: seq<T>, rows: seq<T>): seq<T> {
    if items == [] then rows else WithoutFirst(Leftover(items[..|items| - 1], rows), items[|items| - 1])
  }

  function WithoutFirst<T(==)>(rows: seq<T>, x: T): seq<T> {
    if rows == [] then []
    else if rows[0] == x then rows[1..]
    else [rows[0]] + WithoutFirst(rows[1..], x)
  }

  lemma {:induction false} WithoutFirstTakesOne<T>(rows: seq<T>, x: T)
    ensures multiset(WithoutFirst(rows, x)) == multiset(rows) - multiset{x}
    ensures x in rows ==> |WithoutFirst(rows, x)| == |rows| - 1
    ensures x !in rows ==> WithoutFirst(rows, x) == rows
  {
    if rows == [] {
    } else {
      assert rows == [rows[0]] + rows[1..];
      WithoutFirstTakesOne(rows[1..], x);
    }
  }

  /** Greedy matching takes out as much as any matching could: the rows left are the multiset difference. */
  lemma {:induction false} LeftoverIsDifference<T>(items: seq<T>, rows: seq<T>)
    ensures multiset(Leftover(items, rows)) == multiset(rows) - multiset(items)
  {
    if items == [] {
    } else {
      var pre, x := items[..|items| - 1], items[|items| - 1];
      LeftoverIsDifference(pre, rows);
      WithoutFirstTakesOne(Leftover(pre, rows), x);
      assert items == pre + [x];
      assert multiset(items) == multiset(pre) + multiset{x};
    }
  }

  lemma EmptySequence<T>(s: seq<T>)
    ensures s == [] <==> multiset(s) == multiset{}
  {
    assert |multiset(s)| == |s|;
  }

  /** Nothing is left exactly when the chain has every row at least as often. */
  lemma LeftoverEmpty<T>(items: seq<T>, rows: seq<T>)
    ensures Leftover(items, rows) == [] <==> multiset(rows) <= multiset(items)
  {
    LeftoverIsDifference(items, rows);
    EmptySequence(Leftover(items, rows));
    if multiset(rows) - multiset(items) == multiset{} {
      forall x ensures multiset(rows)[x] <= multiset(items)[x] {
        assert (multiset(rows) - multiset(items))[x] == 0;
      }
    }
  }

  /** Of two multisets of the same size one is not properly inside the other. */
  lemma SameSizeInside<T>(a: seq<T>, b: seq<T>)
    requires |a| == |b| && multiset(a) <= multiset(b)
    ensures multiset(a) == multiset(b)
  {
    var rest := multiset(b) - multiset(a);
    assert multiset(b) == multiset(a) + rest;
    assert |multiset(b)| == |multiset(a)| + |rest|;
  }

  method TakeOut<T(==)>(rows: seq<T>, x: T) returns (left: seq<T>, found: bool)
    ensures left == WithoutFirst(rows, x) && (found <==> x in rows)
  {
    var i := 0;
    while i < |rows|
      invariant i <= |rows| && x !in rows[..i]
      invariant WithoutFirst(rows, x) == rows[..i] + WithoutFirst(rows[i..], x)
    {
      if rows[i] == x {
        return rows[..i] + rows[i + 1..], true;
      }
      assert rows[i..][1..] == rows[i + 1..];
      assert rows[..i + 1] == rows[..i] + [rows[i]];
      i := i + 1;
    }
    return rows, false;
  }

  /** The loop over actions, and that over receipts: equal counts, then every row taken out. It passes
      exactly when the rows are the chain's items, each as often. */
  method VerifyAll<T(==)>(items: seq<T>, stored: seq<T>) returns (ok: bool)
    ensures ok <==> multiset(items) == multiset(stored)
  {
    if |stored| != |items| {
      assert |multiset(stored)| != |multiset(items)|;
      return false;
    }
    var rows := stored;
    var i := 0;
    while i < |items| && (i == 0 || |rows| > 0)
      invariant i <= |items| && rows == Leftover(items[..i], stored)
    {
      assert items[..i + 1][..i] == items[..i];
      var found;
      rows, found := TakeOut(rows, items[i]);
      i := i + 1;
    }
    if |rows| == 0 {
      NothingLeft(items, stored, i);
    }
    assert rows == [] <==> Leftover(items, stored) == [] by {
      if i == |items| {
        assert items[..i] == items;
      }
    }
    LeftoverEmpty(items, stored);
    if |rows| == 0 {
      SameSizeInside(stored, items);
    }
    return |rows| == 0;
  }

  /** Once all rows are out, the remaining items change nothing. */
  lemma {:induction false} NothingLeft<T>(items: seq<T>, rows: seq<T>, i: nat)
    requires i <= |items| && Leftover(items[..i], rows) == []
    ensures Leftover(items, rows) == []
    decreases |items|
  {
    if i == |items| {
      assert items[..i] == items;
    } else {
      assert items[..|items| - 1][..i] == items[..i];
      NothingLeft(items[..|items| - 1], rows, i);
    }
  }

  /** The check of a block's actions. Its block row passes when the hash or the action count agrees. */
  method VerifyAction<T(==)>(hash: string, items: seq<T>, rowHash: string, rowCount: int, stored: seq<T>) returns (ok: bool)
    ensures ok <==> (rowHash == hash || rowCount == |items|) && multiset(items) == multiset(stored)
  {
    if rowHash != hash && rowCount != |items| {
      return false;
    }
    ok := VerifyAll(items, stored);
  }

  /** The loop over a block's logs has no count check: it passes exactly when the rows are among the
      chain's logs, so that missing rows go unnoticed. */
  method VerifyLogs<T(==)>(receipts: seq<seq<T>>, stored: seq<T>) returns (ok: bool)
    ensures ok <==> multiset(stored) <= multiset(Concat(receipts))
  {
    var rows := stored;
    for i := 0 to |receipts|
      invariant rows == Leftover(Concat(receipts[..i]), stored)
    {
      assert receipts[..i + 1][..i] == receipts[..i];
      rows := TakeOutAll(rows, receipts[i], Concat(receipts[..i]), stored);
    }
    assert receipts[..|receipts|] == receipts;
    LeftoverEmpty(Concat(receipts), stored);
    return |rows| == 0;
  }

  function Concat<T>(lists: seq<seq<T>>): seq<T> {
    if lists == [] then [] else Concat(lists[..|lists| - 1]) + lists[|lists| - 1]
  }

  method TakeOutAll<T(==)>(rows: seq<T>, items: seq<T>, ghost before: seq<T>, ghost stored: seq<T>) returns (left: seq<T>)
    requires rows == Leftover(before, stored)
    ensures left == Leftover(before + items, stored)
  {
    left := rows;
    assert before + items[..0] == before;
    for j := 0 to |items|
      invariant left == Leftover(before + items[..j], stored)
    {
      assert (before + items[..j + 1])[..|before| + j] == before + items[..j];
      var found;
      left, found := TakeOut(left, items[j]);
    }
    assert items[..|items|] == items;
  }

  /** Each item takes out a row; stops at the first that finds none. */
  method TakeEach<T(==)>(rows: seq<T>, items: seq<T>) returns (left: seq<T>, ok: bool)
    ensures ok <==> multiset(items) <= multiset(rows)
    ensures ok ==> multiset(left) + multiset(items) == multiset(rows)
  {
    left := rows;
    for i := 0 to |items|
      invariant multiset(left) + multiset(items[..i]) == multiset(rows)
    {
      var found;
      ghost var before := left;
      left, found := TakeOut(left, items[i]);
      TakenOne(rows, before, items, i);
      if !found {
        return left, false;
      }
    }
    assert items[..|items|] == items;
    return left, true;
  }

  lemma Snoc<T>(items: seq<T>, i: nat)
    requires i < |items|
    ensures multiset(items[..i + 1]) == multiset(items[..i]) + multiset{items[i]}
  {
    assert items[..i + 1] == items[..i] + [items[i]];
  }

  lemma PrefixCount<T>(items: seq<T>, i: nat, x: T)
    requires i <= |items|
    ensures multiset(items[..i])[x] <= multiset(items)[x]
  {
    assert items == items[..i] + items[i..];
  }

  /** One more item out of what is left. */
  lemma OneOut<T>(left: multiset<T>, out: multiset<T>, all: multiset<T>, x: T)
    requires left + out == all
    ensures x in left ==> (left - multiset{x}) + (out + multiset{x}) == all
    ensures x !in left ==> (out + multiset{x})[x] > all[x]
  {
  }

  lemma TakenOne<T>(rows: seq<T>, left: seq<T>, items: seq<T>, i: nat)
    requires i < |items| && multiset(left) + multiset(items[..i]) == multiset(rows)
    ensures items[i] in left ==> multiset(WithoutFirst(left, items[i])) + multiset(items[..i + 1]) == multiset(rows)
    ensures items[i] !in left ==> !(multiset(items) <= multiset(rows))
  {
    WithoutFirstTakesOne(left, items[i]);
    Snoc(items, i);
    OneOut(multiset(left), multiset(items[..i]), multiset(rows), items[i]);
    PrefixCount(items, i + 1, items[i]);
  }

  /** The loop over transactions stops at the first that has no row: same verdict as for actions. */
  method VerifyTransactions<T(==)>(logs: seq<seq<T>>, stored: seq<T>) returns (ok: bool)
    ensures ok <==> multiset(Concat(logs)) == multiset(stored)
  {
    var count := 0;
    for k := 0 to |logs|
      invariant count == |Concat(logs[..k])|
    {
      assert logs[..k + 1][..k] == logs[..k];
      count := count + |logs[k]|;
    }
    assert logs[..|logs|] == logs;
    if count != |stored| {
      assert |multiset(stored)| != |multiset(Concat(logs))|;
      return false;
    }
    var rows := stored;
    for k := 0 to |logs|
      invariant multiset(rows) + multiset(Concat(logs[..k])) == multiset(stored)
    {
      assert logs[..k + 1][..k] == logs[..k];
      var left, each := TakeEach(rows, logs[k]);
      if !each {
        NotAllThere(rows, logs, k, stored);
        return false;
      }
      rows := left;
    }
    SameSizeInside(Concat(logs), stored);
    return true;
  }

  lemma {:induction false} ConcatPrefix<T>(logs: seq<seq<T>>, k: nat)
    requires k <= |logs|
    ensures multiset(Concat(logs[..k])) <= multiset(Concat(logs))
    decreases |logs|
  {
    if k == |logs| {
      assert logs[..k] == logs;
    } else {
      var pre := logs[..|logs| - 1];
      assert pre[..k] == logs[..k];
      ConcatPrefix(pre, k);
    }
  }

  lemma ConcatNext<T>(logs: seq<seq<T>>, k: nat, x: T)
    requires k < |logs|
    ensures multiset(Concat(logs[..k + 1]))[x] == multiset(Concat(logs[..k]))[x] + multiset(logs[k])[x]
  {
    assert logs[..k + 1][..k] == logs[..k];
  }

  lemma TooMany<T>(rows: multiset<T>, out: multiset<T>, all: multiset<T>, items: multiset<T>) returns (x: T)
    requires rows + out == all && !(items <= rows)
    ensures out[x] + items[x] > all[x]
  {
    x :| items[x] > rows[x];
  }

  lemma NotAllThere<T>(rows: seq<T>, logs: seq<seq<T>>, k: nat, stored: seq<T>)
    requires k < |logs| && multiset(rows) + multiset(Concat(logs[..k])) == multiset(stored)
    requires !(multiset(logs[k]) <= multiset(rows))
    ensures multiset(Concat(logs)) != multiset(stored)
  {
    var x := TooMany(multiset(rows), multiset(Concat(logs[..k])), multiset(stored), multiset(logs[k]));
    ConcatNext(logs, k, x);
    ConcatPrefix(logs, k + 1);
  }
}
