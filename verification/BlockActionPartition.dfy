/** A table of actions split into partitions by block height, rewritten a range of blocks at a time so
    that blocks may be delivered again. */
module BlockActionPartition {
  import opened Deliveries

  datatype Row = Row(height: nat, action: string)

  /** The rows of each block. */
  type Chain = nat -> seq<Row>

  ghost predicate Honest(chain: Chain) {
    forall h: nat, i: nat :: i < |chain(h)| ==> chain(h)[i].height == h
  }

  /** The rows of one height, in table order. */
  function At(rows: seq<Row>, h: nat): seq<Row> {
    if rows == [] then []
    else At(rows[..|rows| - 1], h) + if rows[|rows| - 1].height == h then [rows[|rows| - 1]] else []
  }

  /** `delete where from <= block_height <= to`. */
  function Deleted(rows: seq<Row>, lo: nat, hi: nat): seq<Row> {
    if rows == [] then []
    else
      var last := rows[|rows| - 1];
      Deleted(rows[..|rows| - 1], lo, hi) + if lo <= last.height <= hi then [] else [last]
  }

  function RowsOf(chain: Chain, lo: nat, hi: nat): seq<Row>
    decreases hi
  {
    if hi < lo then [] else (if hi == 0 then [] else RowsOf(chain, lo, hi - 1)) + chain(hi)
  }

  lemma {:induction false} AtAppend(a: seq<Row>, b: seq<Row>, h: nat)
    ensures At(a + b, h) == At(a, h) + At(b, h)
  {
    if b == [] {
      assert a + b == a;
    } else {
      assert (a + b)[..|a + b| - 1] == a + b[..|b| - 1];
      AtAppend(a, b[..|b| - 1], h);
    }
  }

  lemma {:induction false} AtDeleted(rows: seq<Row>, lo: nat, hi: nat, h: nat)
    ensures At(Deleted(rows, lo, hi), h) == if lo <= h <= hi then [] else At(rows, h)
  {
    if rows == [] {
    } else {
      var pre, last := rows[..|rows| - 1], rows[|rows| - 1];
      AtDeleted(pre, lo, hi, h);
      AtAppend(Deleted(pre, lo, hi), if lo <= last.height <= hi then [] else [last], h);
      assert [last][..0] == [];
    }
  }

  lemma {:induction false} AtUniform(rows: seq<Row>, at: nat, h: nat)
    requires forall i :: 0 <= i < |rows| ==> rows[i].height == at
    ensures At(rows, h) == if h == at then rows else []
  {
    if rows == [] {
    } else {
      AtUniform(rows[..|rows| - 1], at, h);
    }
  }

  lemma {:induction false} AtRowsOf(chain: Chain, lo: nat, hi: nat, h: nat)
    requires Honest(chain)
    ensures At(RowsOf(chain, lo, hi), h) == if lo <= h <= hi then chain(h) else []
    decreases hi
  {
    if hi < lo {
    } else {
      AtUniform(chain(hi), hi, h);
      if hi == 0 {
        AtAppend([], chain(hi), h);
      } else {
        AtRowsOf(chain, lo, hi - 1, h);
        AtAppend(RowsOf(chain, lo, hi - 1), chain(hi), h);
      }
    }
  }

  lemma {:induction false} RowsOfHeights(chain: Chain, lo: nat, hi: nat, i: nat)
    requires Honest(chain) && i < |RowsOf(chain, lo, hi)|
    ensures lo <= RowsOf(chain, lo, hi)[i].height <= hi
    decreases hi
  {
    var pre := if hi == 0 then [] else RowsOf(chain, lo, hi - 1);
    if i < |pre| {
      RowsOfHeights(chain, lo, hi - 1, i);
    } else {
      assert chain(hi)[i - |pre|].height == hi;
    }
  }

  lemma RangeReplaced(chain: Chain, rows: seq<Row>, lo: nat, hi: nat, h: nat)
    requires Honest(chain)
    ensures At(Deleted(rows, lo, hi) + RowsOf(chain, lo, hi), h) == if lo <= h <= hi then chain(h) else At(rows, h)
  {
    AtAppend(Deleted(rows, lo, hi), RowsOf(chain, lo, hi), h);
    AtDeleted(rows, lo, hi, h);
    AtRowsOf(chain, lo, hi, h);
  }

  /******* Partitions *******/

  ghost predicate Multiple(p: nat, step: nat) {
    exists k: nat :: p == k * step
  }

  /** A partition starting at `p` holds heights `p` to `p + step - 1`. */
  ghost predicate Aligned(partitions: set<nat>, step: nat) {
    step >= 1 && forall p :: p in partitions ==> Multiple(p, step)
  }

  ghost predicate Covers(partitions: set<nat>, step: nat, h: nat) {
    exists p :: p in partitions && p <= h < p + step
  }

  lemma Scale(x: nat, y: nat, step: nat)
    requires x <= y
    ensures x * step <= y * step && (x + 1) * step == x * step + step
  {
    assert y * step == x * step + (y - x) * step;
  }

  /** Two different aligned partitions do not overlap, so no height is in two. */
  lemma AlignedAreDisjoint(partitions: set<nat>, step: nat, p: nat, q: nat, h: nat)
    requires Aligned(partitions, step) && p in partitions && q in partitions
    requires p <= h < p + step && q <= h < q + step
    ensures p == q
  {
    assert Multiple(p, step) && Multiple(q, step);
    var a: nat :| p == a * step;
    var b: nat :| q == b * step;
    if a < b {
      Scale(a + 1, b, step);
      Scale(a, b, step);
    } else if b < a {
      Scale(b + 1, a, step);
      Scale(b, a, step);
    }
  }

  lemma Floor(h: nat, step: nat, a: nat)
    requires step >= 1 && a == h / step
    ensures a * step <= h < (a + 1) * step
  {
    Scale(a, a, step);
  }

  /** All partitions are kept, and the new ones each hold some height of the range. */
  ghost predicate Needed(was: set<nat>, partitions: set<nat>, step: nat, lo: nat, hi: nat) {
    was <= partitions && forall p :: p in partitions && p !in was ==> lo < p + step && p <= hi
  }

  lemma Smaller(x: nat, y: nat, step: nat)
    requires x * step < y * step
    ensures x < y
  {
    if y <= x {
      Scale(y, x, step);
    }
  }

  lemma Inside(a: nat, k: nat, b: nat, lo: nat, hi: nat, step: nat)
    requires a * step <= k * step < (b + 1) * step && lo < (a + 1) * step && b * step <= hi
    ensures lo < k * step + step && k * step <= hi
  {
    Scale(a, a, step);
    Smaller(k, b + 1, step);
    Scale(k, b, step);
  }

  /** One more partition. */
  lemma PartitionAdded(partitions: set<nat>, step: nat, start: nat, k: nat)
    requires Aligned(partitions, step)
    requires forall h :: start <= h < k * step ==> Covers(partitions, step, h)
    ensures Aligned(partitions + {k * step}, step) && (k + 1) * step == k * step + step
    ensures forall h :: start <= h < (k + 1) * step ==> Covers(partitions + {k * step}, step, h)
  {
    var p, more := k * step, partitions + {k * step};
    Scale(k, k, step);
    assert Multiple(p, step);
    forall h | start <= h < p + step ensures Covers(more, step, h) {
      if h < p {
        CoverKept(partitions, more, step, h);
      } else {
        assert p in more;
      }
    }
  }

  lemma CoverKept(partitions: set<nat>, more: set<nat>, step: nat, h: nat)
    requires partitions <= more && Covers(partitions, step, h)
    ensures Covers(more, step, h)
  {
    var q :| q in partitions && q <= h < q + step;
    assert q in more;
  }

  class Table {
    var rows: seq<Row>
    var partitions: set<nat>
    var height: nat
    const step: nat

    ghost predicate Valid()
      reads this
    {
      && Aligned(partitions, step)
      && forall i :: 0 <= i < |rows| ==> Covers(partitions, step, rows[i].height)
    }

    /** A step of zero means a million. */
    constructor (partitionStep: nat)
      ensures Valid() && rows == [] && partitions == {} && height == 0
      ensures step == if partitionStep == 0 then 1000000 else partitionStep
    {
      rows, partitions, height := [], {}, 0;
      step := if partitionStep == 0 then 1000000 else partitionStep;
    }

    /** The stepping loop over the starts of partitions, from `a` to `b` in units of a step. */
    method CreatePartitions(start: nat, end: nat, ghost a: nat, ghost b: nat, ghost lo: nat, ghost hi: nat)
      requires Aligned(partitions, step) && start == a * step && end == (b + 1) * step
      requires lo < (a + 1) * step && b * step <= hi
      modifies this`partitions
      ensures Aligned(partitions, step) && Needed(old(partitions), partitions, step, lo, hi)
      ensures forall h :: start <= h < end ==> Covers(partitions, step, h)
    {
      var p := start;
      ghost var k := a;
      while p < end
        invariant start <= p == k * step
        invariant Aligned(partitions, step) && Needed(old(partitions), partitions, step, lo, hi)
        invariant forall h :: start <= h < p ==> Covers(partitions, step, h)
        decreases end - p
      {
        PartitionAdded(partitions, step, start, k);
        Inside(a, k, b, lo, hi, step);
        partitions := partitions + {p};
        p, k := p + step, k + 1;
      }
    }

    /** Creates what is missing of the aligned partitions from that of `lo` to that of `hi`. */
    method EnsurePartitions(lo: nat, hi: nat)
      requires Valid() && lo <= hi
      modifies this`partitions
      ensures Valid() && Needed(old(partitions), partitions, step, lo, hi)
      ensures forall h :: lo <= h <= hi ==> Covers(partitions, step, h)
    {
      var a, b := lo / step, hi / step;
      Floor(lo, step, a);
      Floor(hi, step, b);
      CreatePartitions(a * step, (b + 1) * step, a, b, lo, hi);
      forall i | 0 <= i < |rows| ensures Covers(partitions, step, rows[i].height) {
        CoverKept(old(partitions), partitions, step, rows[i].height);
      }
    }

    /** Replaces the rows of a range of heights. The insert finds a partition for every row, so the
        transaction fails only if the database does. */
    method CommitActs(acts: seq<Row>, lo: nat, hi: nat, delivery: Delivery) returns (ok: bool)
      requires Valid() && lo <= hi
      requires forall i :: 0 <= i < |acts| ==> lo <= acts[i].height <= hi
      modifies this
      ensures Valid() && ok == delivery.Commits? && Needed(old(partitions), partitions, step, lo, hi)
      ensures rows == if ok then Deleted(old(rows), lo, hi) + acts else old(rows)
      ensures height == if delivery.FailsBefore? then old(height) else hi
    {
      EnsurePartitions(lo, hi);
      if delivery.FailsBefore? {
        return false;
      }
      height := hi;
      if delivery.FailsAfter? {
        return false;
      }
      forall i | 0 <= i < |Deleted(rows, lo, hi)| ensures Covers(partitions, step, Deleted(rows, lo, hi)[i].height) {
        DeletedFrom(rows, lo, hi, i);
      }
      rows := Deleted(rows, lo, hi) + acts;
      return true;
    }

    /** One delivery of a range of blocks. */
    method DeliverRange(chain: Chain, lo: nat, hi: nat, delivery: Delivery)
      requires Valid() && Honest(chain) && lo <= hi
      modifies this
      ensures Valid()
      ensures forall h: nat :: At(rows, h) == if delivery.Commits? && lo <= h <= hi then chain(h) else At(old(rows), h)
    {
      forall k | 0 <= k < |RowsOf(chain, lo, hi)| ensures lo <= RowsOf(chain, lo, hi)[k].height <= hi {
        RowsOfHeights(chain, lo, hi, k);
      }
      var ok := CommitActs(RowsOf(chain, lo, hi), lo, hi, delivery);
      if ok {
        forall h: nat ensures At(rows, h) == if lo <= h <= hi then chain(h) else At(old(rows), h) {
          RangeReplaced(chain, old(rows), lo, hi, h);
        }
      }
    }

    /** Deliveries of block ranges in any order, overlapping or repeated, some of them failing: every
        height delivered once at least holds exactly its block's rows, once; all others are untouched. */
    method Deliver(chain: Chain, ranges: seq<(nat, nat)>, outcomes: seq<Delivery>)
      requires Valid() && Honest(chain) && |ranges| == |outcomes|
      requires forall i :: 0 <= i < |ranges| ==> ranges[i].0 <= ranges[i].1
      modifies this
      ensures Valid()
      ensures forall h :: At(rows, h) == if Delivered(ranges, outcomes, h) then chain(h) else At(old(rows), h)
    {
      for i := 0 to |ranges|
        invariant Valid()
        invariant forall h: nat :: At(rows, h) == if Delivered(ranges[..i], outcomes[..i], h) then chain(h) else At(old(rows), h)
      {
        DeliverRange(chain, ranges[i].0, ranges[i].1, outcomes[i]);
        forall h: nat
          ensures At(rows, h) == if Delivered(ranges[..i + 1], outcomes[..i + 1], h) then chain(h) else At(old(rows), h)
        {
          DeliveredNext(ranges, outcomes, i, h);
        }
      }
      assert ranges[..|ranges|] == ranges && outcomes[..|outcomes|] == outcomes;
    }
  }

  lemma {:induction false} DeletedFrom(rows: seq<Row>, lo: nat, hi: nat, i: nat)
    requires i < |Deleted(rows, lo, hi)|
    ensures exists j :: 0 <= j < |rows| && rows[j] == Deleted(rows, lo, hi)[i]
  {
    var pre := rows[..|rows| - 1];
    if i < |Deleted(pre, lo, hi)| {
      DeletedFrom(pre, lo, hi, i);
      var j :| 0 <= j < |pre| && pre[j] == Deleted(pre, lo, hi)[i];
      assert rows[j] == pre[j];
    } else {
      assert rows[|rows| - 1] == Deleted(rows, lo, hi)[i];
    }
  }

  /** Some committed delivery covers the height. */
  predicate Delivered(ranges: seq<(nat, nat)>, outcomes: seq<Delivery>, h: nat)
    requires |ranges| == |outcomes|
  {
    ranges != [] &&
    var n := |ranges| - 1;
    Delivered(ranges[..n], outcomes[..n], h) || (outcomes[n].Commits? && ranges[n].0 <= h <= ranges[n].1)
  }

  lemma DeliveredNext(ranges: seq<(nat, nat)>, outcomes: seq<Delivery>, i: nat, h: nat)
    requires i < |ranges| == |outcomes|
    ensures Delivered(ranges[..i + 1], outcomes[..i + 1], h) <==>
            Delivered(ranges[..i], outcomes[..i], h) || (outcomes[i].Commits? && ranges[i].0 <= h <= ranges[i].1)
  {
    assert ranges[..i + 1][..i] == ranges[..i] && outcomes[..i + 1][..i] == outcomes[..i];
  }
}
