/** Conservation for the income totals: what addresses gain and lose over any transfers, added up over all
    of them, is what the transfers carry. */
module IncomeLaws {
  import opened Sums
  import opened AccountIncome

  datatype Column = InFlow | InNum | OutFlow | OutNum

  function Of(i: Income, c: Column): int {
    match c
    case InFlow => i.inFlow
    case InNum => i.inNum
    case OutFlow => i.outFlow
    case OutNum => i.outNum
  }

  predicate FromSomebody(x: Transfer) {
    !x.sender.Empty?
  }

  predicate ToSomebody(x: Transfer) {
    x.recipient.Valid? && !x.recipient.canonical.Empty?
  }

  /** What a transfer should add to a column over all addresses. */
  function ShareOf(x: Transfer, c: Column): int {
    match c
    case InFlow => if ToSomebody(x) then x.amount else 0
    case InNum => if ToSomebody(x) then 1 else 0
    case OutFlow => if FromSomebody(x) then x.amount else 0
    case OutNum => if FromSomebody(x) then 1 else 0
  }

  function Share(c: Column): Transfer -> int {
    (x: Transfer) => ShareOf(x, c)
  }

  /** A column of the totals, added up over all addresses. */
  ghost function Total(t: Totals, c: Column): int {
    SumSet(t.Keys, ColumnOf(t, c))
  }

  ghost function ColumnOf(t: Totals, c: Column): Address -> int {
    a => Of(At(t, a), c)
  }

  lemma OfPlus(i: Income, j: Income, c: Column)
    ensures Of(Plus(i, j), c) == Of(i, c) + Of(j, c)
  {
  }

  /** The only address for which a transfer moves the column, if any. */
  function Mover(x: Transfer, c: Column): Address {
    if c.InFlow? || c.InNum? then (if x.recipient.Valid? then x.recipient.canonical else Empty) else x.sender
  }

  /** By how much a transfer moves the column of an address. */
  function MoveAt(x: Transfer, c: Column, a: Address): int {
    if a == Mover(x, c) then ShareOf(x, c) else 0
  }

  lemma {:induction false} InMovesOne(x: Transfer, c: Column, a: Address)
    ensures Of(In(x, a), c) == if c.InFlow? || c.InNum? then MoveAt(x, c, a) else 0
  {
    assert Receives(x, a) <==> ToSomebody(x) && x.recipient.canonical == a;
  }

  lemma {:induction false} OutMovesOne(x: Transfer, c: Column, a: Address)
    ensures Of(Out(x, a), c) == if c.OutFlow? || c.OutNum? then MoveAt(x, c, a) else 0
  {
    assert Sends(x, a) <==> FromSomebody(x) && x.sender == a;
  }

  lemma {:induction false} MovesOne(x: Transfer, c: Column, a: Address)
    ensures Of(FlowOf(x, a), c) == MoveAt(x, c, a)
  {
    OfPlus(Out(x, a), In(x, a), c);
    InMovesOne(x, c, a);
    OutMovesOne(x, c, a);
  }

  lemma {:induction false} MoverIsParty(x: Transfer, c: Column)
    ensures Mover(x, c) !in Parties([x]) ==> ShareOf(x, c) == 0
  {
    PartiesOne(x);
  }

  lemma {:induction false} AtMoves(base: Totals, x: Transfer, b: Address)
    ensures At(Add(base, [x]), b) == Plus(At(base, b), FlowOf(x, b))
  {
    AddedAt(base, [x], b);
    FlowOne(x, b);
  }

  lemma {:induction false} OfMoves(i: Income, x: Transfer, c: Column, b: Address)
    ensures Of(Plus(i, FlowOf(x, b)), c) == Of(i, c) + MoveAt(x, c, b)
  {
    OfPlus(i, FlowOf(x, b), c);
    MovesOne(x, c, b);
  }

  lemma {:induction false} ColumnMoves(base: Totals, x: Transfer, c: Column, b: Address)
    ensures Of(At(Add(base, [x]), b), c) == Of(At(base, b), c) + MoveAt(x, c, b)
  {
    AtMoves(base, x, b);
    OfMoves(At(base, b), x, c, b);
  }

  lemma KeysGrow(base: Totals, xs: seq<Transfer>)
    ensures Add(base, xs).Keys == base.Keys + Parties(xs)
  {
  }

  lemma NothingAbsent(t: Totals, c: Column, b: Address)
    ensures b !in t ==> ColumnOf(t, c)(b) == 0
  {
  }

  lemma {:induction false} Raised(t: Totals, u: Totals, c: Column, a: Address, v: int)
    requires t.Keys <= u.Keys && (a !in u ==> v == 0)
    requires forall b :: Of(At(u, b), c) == Of(At(t, b), c) + if b == a then v else 0
    ensures Total(u, c) == Total(t, c) + v
  {
    forall b | b in u.Keys - t.Keys ensures ColumnOf(t, c)(b) == 0 {
      NothingAbsent(t, c, b);
    }
    SumSetShift(u.Keys, t.Keys, ColumnOf(t, c), ColumnOf(u, c), a, v);
  }

  /** One transfer adds its share. */
  lemma {:induction false} OneTransfer(base: Totals, x: Transfer, c: Column)
    ensures Total(Add(base, [x]), c) == Total(base, c) + ShareOf(x, c)
  {
    KeysGrow(base, [x]);
    forall b ensures Of(At(Add(base, [x]), b), c) == Of(At(base, b), c) + if b == Mover(x, c) then ShareOf(x, c) else 0 {
      ColumnMoves(base, x, c, b);
    }
    MoverIsParty(x, c);
    Raised(base, Add(base, [x]), c, Mover(x, c), ShareOf(x, c));
  }

  lemma {:induction false} TotalOfAppend(base: Totals, pre: seq<Transfer>, x: Transfer, c: Column)
    ensures Total(Add(base, pre + [x]), c) == Total(Add(base, pre), c) + ShareOf(x, c)
  {
    AddAppend(base, pre, [x]);
    OneTransfer(Add(base, pre), x, c);
  }

  lemma {:induction false} AddNothing(base: Totals)
    ensures Add(base, []) == base
  {
  }

  /** Whatever the transfers: each column of the totals, over all addresses, grows by what the transfers
      with a real party on that side carry, and by their number. */
  lemma {:induction false} TotalsGrow(base: Totals, xs: seq<Transfer>, c: Column)
    ensures Total(Add(base, xs), c) == Total(base, c) + SumSeq(xs, Share(c))
  {
    if xs == [] {
      AddNothing(base);
    } else {
      var pre, x := xs[..|xs| - 1], xs[|xs| - 1];
      TotalsGrow(base, pre, c);
      TotalOfAppend(base, pre, x, c);
      assert pre + [x] == xs;
    }
  }

  /** What comes from nobody. */
  function FromNobody(x: Transfer): int {
    if FromSomebody(x) then 0 else x.amount
  }

  /** What goes to no valid address, or to the empty one. */
  function ToNobody(x: Transfer): int {
    if ToSomebody(x) then 0 else x.amount
  }

  lemma {:induction false} SharesDiffer(xs: seq<Transfer>)
    ensures SumSeq(xs, Share(InFlow)) - SumSeq(xs, Share(OutFlow)) == SumSeq(xs, FromNobody) - SumSeq(xs, ToNobody)
  {
    if xs == [] {
    } else {
      SharesDiffer(xs[..|xs| - 1]);
    }
  }

  /** Income less outgo of all addresses together changes only by transfers with one real side: those from
      nobody add to it, those to nobody take from it. */
  lemma FlowsAreConserved(base: Totals, xs: seq<Transfer>)
    ensures Total(Add(base, xs), InFlow) - Total(Add(base, xs), OutFlow) ==
            Total(base, InFlow) - Total(base, OutFlow) + SumSeq(xs, FromNobody) - SumSeq(xs, ToNobody)
  {
    TotalsGrow(base, xs, InFlow);
    TotalsGrow(base, xs, OutFlow);
    SharesDiffer(xs);
  }
}
