/** One runner: the index heights it keeps, the batch size it adapts, and its loop that fetches,
    trims and delivers blocks. */
module Runner {
  import opened Wrappers
  import opened Deliveries
  import opened Indexer

  /******* db/index.go *******/

  /** Index heights by plugin name: the in-memory cache and the database rows. */
  class HeightIndex {
    var cache: map<Name, nat>
    var rows: map<Name, nat>

    constructor ()
      ensures cache == map[] && rows == map[]
    {
      cache, rows := map[], map[];
    }

    /** What `GetIndexHeight` reports. */
    function Height(name: Name): nat
      reads this
    {
      if name in cache then cache[name] else if name in rows then rows[name] else 0
    }

    /** What `GetCommittedIndexHeight` reports. */
    function Committed(name: Name): nat
      reads this
    {
      if name in rows then rows[name] else 0
    }

    /** Reports without changing what is reported: it only fills the cache, or creates the row. */
    method GetIndexHeight(name: Name) returns (h: nat)
      modifies this
      ensures h == old(Height(name))
      ensures forall n :: Height(n) == old(Height(n)) && Committed(n) == old(Committed(n))
      ensures cache == if name !in old(cache) && name in old(rows) then old(cache)[name := h] else old(cache)
      ensures name in rows || name in cache
      ensures forall n :: n in old(rows) ==> n in rows && rows[n] == old(rows[n])
      ensures forall n :: n in rows && n !in old(rows) ==> n == name && rows[n] == 0
    {
      if name in cache {
        return cache[name];
      }
      if name !in rows {
        rows := rows[name := 0];
        return 0;
      }
      cache := cache[name := rows[name]];
      return rows[name];
    }

    method GetCommittedIndexHeight(name: Name) returns (h: nat)
      ensures h == Committed(name)
    {
      h := if name in rows then rows[name] else 0;
    }

    /** The height update that ends a transaction: cached at once, stored only if the transaction
        commits. After a rollback the cached height is one the database never reached, while the
        committed one still reads as before. */
    method UpdateIndexHeightByTx(name: Name, height: nat, commits: bool)
      modifies this
      ensures cache == old(cache)[name := height] && Height(name) == height
      ensures !commits ==> forall n :: Committed(n) == old(Committed(n))
      ensures commits && name in old(rows) ==> Committed(name) == Height(name) == height
      ensures rows == if commits && name in old(rows) then old(rows)[name := height] else old(rows)
    {
      cache := cache[name := height];
      if commits && name in rows {
        rows := rows[name := height];
      }
    }
  }

  /******* server/batch_size_manager.go *******/

  const INCREASE_THRESHOLD: nat := 10

  /** A fifth more, rounded down, but at most `max`. */
  function Grown(size: nat, max: nat): nat {
    var g := size * 6 / 5;
    if g > max then max else g
  }

  /** Size and success count after one success. */
  function Succeed(size: nat, successes: nat, max: nat): (nat, nat) {
    if successes + 1 >= INCREASE_THRESHOLD && Grown(size, max) > size
    then (Grown(size, max), 0)
    else (size, successes + 1)
  }

  function Succeeds(size: nat, successes: nat, max: nat, n: nat): (nat, nat)
    decreases n
  {
    if n == 0 then (size, successes)
    else
      var s := Succeeds(size, successes, max, n - 1);
      Succeed(s.0, s.1, max)
  }

  class BatchSizeManager {
    var effectiveSize: nat
    var maxSize: nat
    var successes: nat

    ghost predicate Valid()
      reads this
    {
      1 <= effectiveSize <= maxSize
    }

    constructor (initialSize: nat)
      ensures effectiveSize == maxSize == initialSize && successes == 0
      ensures initialSize >= 1 ==> Valid()
    {
      effectiveSize, maxSize, successes := initialSize, initialSize, 0;
    }

    method OnSuccess()
      modifies this
      ensures (effectiveSize, successes) == Succeed(old(effectiveSize), old(successes), maxSize)
      ensures maxSize == old(maxSize)
      ensures old(Valid()) ==> Valid()
    {
      successes := successes + 1;
      if successes >= INCREASE_THRESHOLD {
        var oldSize := effectiveSize;
        var newSize := effectiveSize * 6 / 5;
        if newSize > maxSize {
          newSize := maxSize;
        }
        if newSize > oldSize {
          effectiveSize := newSize;
          successes := 0;
        }
      }
    }

    method OnFailure(failedSize: nat) returns (newSize: nat)
      modifies this
      ensures newSize == Halved(failedSize) && effectiveSize == newSize && successes == 0
      ensures maxSize == old(maxSize)
      ensures 1 <= maxSize && failedSize <= maxSize ==> Valid()
    {
      successes := 0;
      newSize := failedSize / 2;
      if newSize < 1 {
        newSize := 1;
      }
      effectiveSize := newSize;
    }
  }

  /** Half, rounded down, but at least one. */
  function Halved(n: nat): nat {
    if n / 2 < 1 then 1 else n / 2
  }

  lemma {:induction false} SucceedsAppend(size: nat, successes: nat, max: nat, a: nat, b: nat)
    ensures Succeeds(size, successes, max, a + b) ==
            var s := Succeeds(size, successes, max, a); Succeeds(s.0, s.1, max, b)
    decreases b
  {
    if b == 0 {
    } else {
      SucceedsAppend(size, successes, max, a, b - 1);
      assert a + b - 1 == a + (b - 1);
    }
  }

  /** While the size cannot grow, successes are only counted. */
  lemma {:induction false} OnlyCounts(size: nat, successes: nat, max: nat, n: nat)
    requires n == 0 || successes + n < INCREASE_THRESHOLD || Grown(size, max) <= size
    ensures Succeeds(size, successes, max, n) == (size, successes + n)
    decreases n
  {
    if n == 0 {
    } else {
      OnlyCounts(size, successes, max, n - 1);
    }
  }

  /** From 5 up, ten successes in a row raise a size that is below the maximum. */
  lemma TenSuccessesGrow(size: nat, successes: nat, max: nat) returns (n: nat)
    requires 5 <= size < max
    ensures 1 <= n <= INCREASE_THRESHOLD
    ensures size < Succeeds(size, successes, max, n).0 <= max
  {
    n := if successes >= INCREASE_THRESHOLD then 1 else INCREASE_THRESHOLD - successes;
    OnlyCounts(size, successes, max, n - 1);
  }

  /** How many successes are enough: ten for every step up to the maximum. */
  lemma {:induction false} ReachesMax(size: nat, successes: nat, max: nat) returns (n: nat)
    requires 5 <= size <= max
    ensures n <= INCREASE_THRESHOLD * (max - size)
    ensures Succeeds(size, successes, max, n).0 == max
    decreases max - size
  {
    if size == max {
      n := 0;
    } else {
      var a := TenSuccessesGrow(size, successes, max);
      var s := Succeeds(size, successes, max, a);
      var b := ReachesMax(s.0, s.1, max);
      SucceedsAppend(size, successes, max, a, b);
      n := a + b;
    }
  }

  /** A size comes back to the maximum by successes alone exactly when it is there or is at least 5:
      sizes 1 to 4 never grow again. */
  lemma RecoversExactly(size: nat, successes: nat, max: nat)
    requires 1 <= size <= max
    ensures (exists n :: Succeeds(size, successes, max, n).0 == max) <==> size == max || size >= 5
  {
    if size >= 5 {
      var n := ReachesMax(size, successes, max);
    } else if size == max {
      assert Succeeds(size, successes, max, 0).0 == max;
    } else {
      forall n ensures Succeeds(size, successes, max, n).0 != max {
        OnlyCounts(size, successes, max, n);
      }
    }
  }

  /******* fetchBlocks *******/

  datatype Fetched = Exhausted | Failed | Blocks(n: nat)

  /** The block source: the answer to the k-th request of a fetch, for `count` blocks from `start`. */
  type Source = (nat, nat, nat) -> Fetched

  function Pow2(n: nat): nat {
    if n == 0 then 1 else 2 * Pow2(n - 1)
  }

  /** The request size after `r` retries. */
  function HalvedBy(count: nat, r: nat): nat {
    if r == 0 then count else Halved(HalvedBy(count, r - 1))
  }

  lemma {:induction false} HalvedByShift(count: nat, r: nat)
    ensures HalvedBy(Halved(count), r) == HalvedBy(count, r + 1)
  {
    if r == 0 {
    } else {
      HalvedByShift(count, r - 1);
    }
  }

  /** After `k` exhausted requests, each at half the size of the one before, the next is not exhausted. */
  predicate AnsweredAt(source: Source, request: nat, start: nat, count: nat, k: nat)
    decreases k
  {
    if k == 0 then source(request, start, count) != Exhausted
    else source(request, start, count) == Exhausted && AnsweredAt(source, request + 1, start, Halved(count), k - 1)
  }

  ghost predicate Answered(source: Source, request: nat, start: nat, count: nat) {
    exists k: nat :: AnsweredAt(source, request, start, count, k)
  }

  /** No fetch is exhausted for ever. */
  ghost predicate Answers(source: Source) {
    forall request, start, count :: Answered(source, request, start, count)
  }

  /** Requests for one block are never exhausted. */
  ghost predicate OneIsServed(source: Source) {
    forall k, s :: source(k, s, 1) != Exhausted
  }

  /** The requests one by one: exhausted before the k-th, which is not. */
  lemma {:induction false} AnsweredMeans(source: Source, request: nat, start: nat, count: nat, k: nat, i: nat)
    requires AnsweredAt(source, request, start, count, k) && i <= k
    ensures source(request + i, start, HalvedBy(count, i)) == Exhausted <==> i < k
    decreases k
  {
    if i > 0 {
      AnsweredMeans(source, request + 1, start, Halved(count), k - 1, i - 1);
      HalvedByShift(count, i - 1);
      assert request + 1 + (i - 1) == request + i;
    }
  }

  /** When one-block requests are served, log2 of `count` retries are enough. */
  lemma {:induction false} RetriesAreFew(source: Source, request: nat, start: nat, count: nat, k: nat)
    requires OneIsServed(source) && count >= 1 && AnsweredAt(source, request, start, count, k)
    ensures Pow2(k) <= count
    decreases k
  {
    if k == 0 {
    } else {
      assert count != 1;
      RetriesAreFew(source, request + 1, start, Halved(count), k - 1);
    }
  }

  /** So a source that serves one-block requests answers every fetch. */
  lemma {:induction false} ServedIsAnswered(source: Source, request: nat, start: nat, count: nat)
    requires OneIsServed(source)
    ensures Answered(source, request, start, count)
    decreases count
  {
    if source(request, start, count) != Exhausted {
      assert AnsweredAt(source, request, start, count, 0);
    } else {
      assert count != 1;
      if count == 0 {
        assert AnsweredAt(source, request + 1, start, 1, 0);
        assert AnsweredAt(source, request, start, count, 1);
      } else {
        ServedIsAnswered(source, request + 1, start, Halved(count));
        var k: nat :| AnsweredAt(source, request + 1, start, Halved(count), k);
        assert AnsweredAt(source, request, start, count, k + 1);
      }
    }
  }

  function Got(f: Fetched): Option<nat> {
    if f.Blocks? then Some(f.n) else None
  }

  /** Exhausted requests are retried at halved sizes until one is not, `k` of them; `served` is the size
      of that one. */
  method FetchBlocks(m: BatchSizeManager, source: Source, request: nat, start: nat, count: nat, ghost k: nat)
    returns (r: Option<nat>, retries: nat, served: nat)
    requires count >= 1 ==> AnsweredAt(source, request, start, count, k)
    modifies m
    ensures count == 0 ==> r == Some(0) && retries == 0
    ensures count >= 1 ==>
              && retries == k && served == HalvedBy(count, retries)
              && r == Got(source(request + retries, start, served))
    ensures retries == 0 ==> m.effectiveSize == old(m.effectiveSize) && m.successes == old(m.successes)
    ensures retries > 0 ==> m.effectiveSize == served && m.successes == 0
    ensures m.maxSize == old(m.maxSize)
    ensures old(m.Valid()) && count <= m.maxSize ==> m.Valid()
    decreases k
  {
    retries, served := 0, count;
    if count == 0 {
      return Some(0), 0, 0;
    }
    match source(request, start, count)
    case Blocks(n) => r := Some(n);
    case Failed => r := None;
    case Exhausted =>
      var newCount := m.OnFailure(count);
      var more;
      r, more, served := FetchBlocks(m, source, request + 1, start, newCount, k - 1);
      HalvedByShift(count, more);
      retries := more + 1;
      assert request + 1 + more == request + retries;
  }

  /******* The transaction limit *******/

  /** Transactions in the `n` blocks from `start`. */
  function TxSum(txs: nat -> nat, start: nat, n: nat): nat {
    if n == 0 then 0 else TxSum(txs, start, n - 1) + txs(start + n - 1)
  }

  /** `kept` of `n` blocks: all of them, or up to and with the first that passes the limit. */
  predicate Trimmed(txs: nat -> nat, start: nat, n: nat, limit: nat, kept: nat) {
    && kept <= n && (n > 0 ==> kept >= 1)
    && (forall i :: 0 <= i < kept ==> TxSum(txs, start, i) <= limit)
    && (kept < n ==> TxSum(txs, start, kept) > limit)
  }

  method Trim(txs: nat -> nat, start: nat, n: nat, limit: nat) returns (kept: nat)
    ensures Trimmed(txs, start, n, limit, kept)
  {
    var txCount := 0;
    for i := 0 to n
      invariant txCount == TxSum(txs, start, i)
      invariant forall j :: 0 <= j <= i ==> TxSum(txs, start, j) <= limit
    {
      txCount := txCount + txs(start + i);
      if txCount > limit {
        return i + 1;
      }
    }
    return n;
  }

  /** Asking for `n` blocks stays within the batch size, if there is one, and within the tip. */
  predicate Fits(size: nat, next: nat, tip: nat, n: nat) {
    (size > 0 ==> n <= size) && (n > 0 ==> next + n - 1 <= tip)
  }

  /** How many blocks to ask for: as many as fit. */
  function BatchCount(size: nat, next: nat, tip: nat): (count: nat)
    requires next <= tip
    ensures count >= 1 && Fits(size, next, tip, count)
    ensures forall n: nat :: Fits(size, next, tip, n) ==> n <= count
  {
    if 0 < size < tip - next + 1 then size else tip - next + 1
  }

  /******* The loop *******/

  class Loop {
    const name: Name
    const index: HeightIndex
    const sizes: BatchSizeManager
    var log: seq<Range>

    ghost predicate Valid()
      reads this, index, sizes
    {
      && sizes.Valid()
      && name in index.rows
      && index.rows[name] == LastOf(log)
    }

    /** Cached and committed heights agree. */
    ghost predicate Aligned()
      reads this, index
    {
      name in index.rows && index.Height(name) == index.rows[name]
    }

    constructor (name: Name, index: HeightIndex, batchSize: nat)
      requires batchSize >= 1 && name in index.rows && index.rows[name] == 0
      ensures Valid() && fresh(this) && fresh(sizes) && log == [] && this.index == index && this.name == name
    {
      this.name, this.index, log := name, index, [];
      sizes := new BatchSizeManager(batchSize);
    }

    method GetTipHeight(daoHeight: nat, deps: seq<Name>) returns (tip: nat)
      requires Valid()
      modifies index
      ensures Valid() && (Aligned() <==> old(Aligned()))
      ensures forall n :: index.Height(n) == old(index.Height(n))
      ensures tip <= daoHeight && forall i :: 0 <= i < |deps| ==> tip <= index.Height(deps[i])
      ensures tip == daoHeight || exists i :: 0 <= i < |deps| && tip == index.Height(deps[i])
    {
      tip := daoHeight;
      for i := 0 to |deps|
        invariant Valid() && (Aligned() <==> old(Aligned()))
        invariant forall n :: index.Height(n) == old(index.Height(n))
        invariant tip <= daoHeight && forall j :: 0 <= j < i ==> tip <= index.Height(deps[j])
        invariant tip == daoHeight || exists j :: 0 <= j < i && tip == index.Height(deps[j])
      {
        var h := index.GetIndexHeight(deps[i]);
        if tip > h {
          tip := h;
        }
      }
    }

    /** Asks for as many of the next blocks as fit into the batch size and up to `tip`, fetches and trims them. */
    method FetchBatch(next: nat, tip: nat, source: Source, request: nat, txs: nat -> nat)
      returns (kept: Option<nat>, retries: nat, served: nat)
      requires sizes.Valid() && next <= tip && Answers(source)
      modifies sizes
      ensures sizes.Valid() && sizes.maxSize == old(sizes.maxSize)
      ensures var s := if retries == 0 then (old(sizes.effectiveSize), old(sizes.successes)) else (served, 0);
              (sizes.effectiveSize, sizes.successes) == if kept.Some? then Succeed(s.0, s.1, sizes.maxSize) else s
      ensures var asked := BatchCount(old(sizes.effectiveSize), next, tip);
              && AnsweredAt(source, request, next, asked, retries)
              && served == HalvedBy(asked, retries) && 1 <= served <= asked
              && match source(request + retries, next, served)
                 case Blocks(n) => kept.Some? && Trimmed(txs, next, n, asked * 500, kept.value)
                 case _ => kept.None?
    {
      var count := BatchCount(sizes.effectiveSize, next, tip);
      assert Answered(source, request, next, count);
      ghost var k: nat :| AnsweredAt(source, request, next, count, k);
      var fetched;
      fetched, retries, served := FetchBlocks(sizes, source, request, next, count, k);
      HalvedByBound(count, retries);
      if fetched.None? {
        return None, retries, served;
      }
      sizes.OnSuccess();
      var n := Trim(txs, next, fetched.value, count * 500);
      kept := Some(n);
    }

    /** One turn of the inner loop: fetch from `next`, trim, deliver. An empty answer fails the
        delivery, since the plugin indexes its last block. */
    method DeliverBatch(next: nat, tip: nat, source: Source, request: nat, txs: nat -> nat, outcome: Delivery)
      returns (to: Option<nat>, retries: nat, served: nat)
      requires Valid() && next <= tip && Answers(source)
      requires forall k, s, c :: source(k, s, c).Blocks? ==> source(k, s, c).n <= c
      modifies this, index, sizes
      ensures Valid()
      ensures to.Some? ==>
                && outcome.Commits? && next <= to.value <= tip
                && log == old(log) + [Range(next, to.value)]
                && index.Height(name) == to.value && Aligned()
      ensures var asked := BatchCount(old(sizes.effectiveSize), next, tip);
              to.Some? ==>
                && served == HalvedBy(asked, retries)
                && source(request + retries, next, served).Blocks?
                && Trimmed(txs, next, source(request + retries, next, served).n, asked * 500, to.value - next + 1)
      ensures to.None? ==> log == old(log) && index.rows == old(index.rows)
      ensures to.None? && !outcome.FailsAfter? ==> index.cache == old(index.cache)
      ensures to.None? && index.cache != old(index.cache) ==> next <= index.Height(name) <= tip
    {
      var kept;
      kept, retries, served := FetchBatch(next, tip, source, request, txs);
      if kept.None? || kept.value == 0 || outcome.FailsBefore? {
        return None, retries, served;
      }
      index.UpdateIndexHeightByTx(name, next + kept.value - 1, outcome.Commits?);
      if !outcome.Commits? {
        return None, retries, served;
      }
      log := log + [Range(next, next + kept.value - 1)];
      to := Some(next + kept.value - 1);
    }

    /** The inner loop towards `tip`, one turn a scripted outcome (the runner is stopped when the
        script ends). What it commits carries on from the cached height with no gap or repeat, and
        never passes the tip; without a failure after caching, cache and database stay in step. */
    method DeliverTo(tip: nat, source: Source, txs: nat -> nat, script: seq<Delivery>)
      requires Valid() && Answers(source)
      requires forall k, s, c :: source(k, s, c).Blocks? ==> source(k, s, c).n <= c
      modifies this, index, sizes
      ensures Valid()
      ensures CarriesOnTo(old(log), log, old(index.Height(name)), tip)
      ensures old(Aligned()) && Contiguous(old(log)) ==> Contiguous(log)
      ensures old(Aligned()) && FailsAfter !in script ==> Aligned()
      ensures old(index.Height(name)) <= index.Height(name)
      ensures index.Height(name) <= tip || index.Height(name) == old(index.Height(name))
    {
      var h := index.GetIndexHeight(name);
      ghost var was := log;
      var next := h + 1;
      var turn, request, stop := 0, 0, false;
      while !stop && next <= tip && turn < |script|
        invariant Valid() && h < next
        invariant CarriesOnTo(was, log, h, tip) && next == EndOf(was, log, h) + 1
        invariant !stop ==> index.Height(name) + 1 == next && (old(Aligned()) ==> Aligned())
        invariant stop && old(Aligned()) && FailsAfter !in script ==> Aligned()
        invariant h <= index.Height(name) && (index.Height(name) <= tip || index.Height(name) == h)
        decreases |script| - turn
      {
        ghost var before := log;
        var to, retries, served := DeliverBatch(next, tip, source, request, txs, script[turn]);
        if to.Some? {
          CarriesOnSnoc(was, before, h, tip, Range(next, to.value));
          next := to.value + 1;
        } else {
          stop := true;
        }
        request := request + retries + 1;
        turn := turn + 1;
      }
      if h == LastOf(was) && Contiguous(was) {
        CarriesOnIsContiguous(was, log, tip);
      }
    }
  }

  lemma {:induction false} HalvedByBound(count: nat, r: nat)
    requires count >= 1
    ensures 1 <= HalvedBy(count, r) <= count
  {
    if r == 0 {
    } else {
      HalvedByBound(count, r - 1);
    }
  }

  /** `log` extends `was` by batches that run on from `h`, each starting right after the one before,
      and end by `tip`. */
  predicate CarriesOnTo(was: seq<Range>, log: seq<Range>, h: nat, tip: nat)
    decreases |log|
  {
    was <= log &&
    (|log| == |was| ||
     var pre, r := log[..|log| - 1], log[|log| - 1];
     CarriesOnTo(was, pre, h, tip) && r.lo == EndOf(was, pre, h) + 1 && r.lo <= r.hi <= tip)
  }

  /** Where a log that carries on from `h` after `was` has got to. */
  function EndOf(was: seq<Range>, log: seq<Range>, h: nat): nat {
    if |log| == |was| then h else LastOf(log)
  }

  lemma CarriesOnSnoc(was: seq<Range>, log: seq<Range>, h: nat, tip: nat, r: Range)
    requires CarriesOnTo(was, log, h, tip) && r.lo == EndOf(was, log, h) + 1 && r.lo <= r.hi <= tip
    ensures CarriesOnTo(was, log + [r], h, tip) && EndOf(was, log + [r], h) == r.hi
  {
    assert (log + [r])[..|log|] == log;
  }

  /** Carrying on from the end of a gapless log leaves a gapless log. */
  lemma {:induction false} CarriesOnIsContiguous(was: seq<Range>, log: seq<Range>, tip: nat)
    requires Contiguous(was) && CarriesOnTo(was, log, LastOf(was), tip)
    ensures Contiguous(log)
    decreases |log|
  {
    if |log| == |was| {
      assert log == was;
    } else {
      var pre, r := log[..|log| - 1], log[|log| - 1];
      assert pre + [r] == log;
      CarriesOnIsContiguous(was, pre, tip);
      if |pre| == |was| {
        assert pre == was;
      }
      ContiguousSnoc(pre, r);
    }
  }
}
