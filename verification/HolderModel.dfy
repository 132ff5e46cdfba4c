/** The token-holder table, the operations on it, and two meanings of a list of operations:
    `Fold` applies them one at a time, `Batch` is what the batched engine computes. */
module HolderModel {
  import opened Wrappers

  datatype Token = Token(contract: string, id: nat)

  datatype Key = Key(contract: string, holder: string, id: nat) {
    function Tok(): Token {
      Token(contract, id)
    }
  }

  datatype Holding = Holding(ercType: nat, value: int)

  /** The holder table; (contract, holder, token id) is its unique key. */
  type Table = map<Key, Holding>

  datatype Kind = Mint721 | Burn721 | Transfer721 | Mint1155 | Burn1155 | Transfer1155

  datatype Op = Op(kind: Kind, contract: string, from: string, to: string, id: nat, ercType: nat, value: int) {
    function FromKey(): Key {
      Key(contract, from, id)
    }

    function ToKey(): Key {
      Key(contract, to, id)
    }

    function Tok(): Token {
      Token(contract, id)
    }

    predicate Is721() {
      kind.Mint721? || kind.Burn721? || kind.Transfer721?
    }

    /** A 721 operation that gives the token a holder again. */
    predicate Reissues() {
      kind.Mint721? || kind.Transfer721?
    }

    predicate Credits() {
      kind.Mint1155? || kind.Transfer1155?
    }

    predicate Debits() {
      kind.Burn1155? || kind.Transfer1155?
    }
  }

  /******* One operation at a time *******/

  function Credit(t: Table, k: Key, ercType: nat, v: int): Table {
    t[k := Holding(ercType, (if k in t then t[k].value else 0) + v)]
  }

  /** None is the underflow error. A missing row is not one: the debit is dropped. */
  function Debit(t: Table, k: Key, v: int): Option<Table> {
    if k !in t then Some(t)
    else if t[k].value < v then None
    else if t[k].value == v then Some(t - {k})
    else Some(t[k := t[k].(value := t[k].value - v)])
  }

  function DropToken(t: Table, tok: Token): Table {
    map k | k in t && k.Tok() != tok :: t[k]
  }

  function Apply(t: Table, op: Op): Option<Table> {
    match op.kind
    case Mint721 => Some(t[op.ToKey() := Holding(op.ercType, 1)])
    case Burn721 => Some(DropToken(t, op.Tok()))
    case Transfer721 => Some((t - {op.FromKey()})[op.ToKey() := Holding(op.ercType, 1)])
    case Mint1155 => Some(Credit(t, op.ToKey(), op.ercType, op.value))
    case Burn1155 => Debit(t, op.FromKey(), op.value)
    case Transfer1155 =>
      var d :- Debit(t, op.FromKey(), op.value);
      Some(Credit(d, op.ToKey(), op.ercType, op.value))
  }

  function Fold(t: Table, ops: seq<Op>): Option<Table> {
    if ops == [] then Some(t)
    else
      var f :- Fold(t, ops[..|ops| - 1]);
      Apply(f, ops[|ops| - 1])
  }

  /******* The batched engine *******/

  /** The three maps the engine keeps in memory until it flushes them. */
  datatype Pending = Pending(states: Table, byKey: set<Key>, byToken: set<Token>)

  /** The rows the engine reads before it starts: those an 1155 operation touches, and no others. */
  function Touched(ops: seq<Op>): set<Key> {
    (set i | 0 <= i < |ops| && ops[i].Credits() :: ops[i].ToKey())
    + (set i | 0 <= i < |ops| && ops[i].Debits() :: ops[i].FromKey())
  }

  function Preload(t: Table, ops: seq<Op>): Pending {
    Pending(map k | k in t && k in Touched(ops) :: t[k], {}, {})
  }

  function NegativeDelta(p: Pending, k: Key, v: int): Option<Pending> {
    if k !in p.states then Some(p)
    else if p.states[k].value < v then None
    else if p.states[k].value == v then Some(p.(states := p.states - {k}, byKey := p.byKey + {k}))
    else Some(p.(states := p.states[k := p.states[k].(value := p.states[k].value - v)]))
  }

  function PositiveDelta(p: Pending, k: Key, ercType: nat, v: int): Pending {
    p.(states := Credit(p.states, k, ercType, v))
  }

  function Step(p: Pending, op: Op): Option<Pending> {
    match op.kind
    case Mint721 =>
      Some(p.(byToken := p.byToken - {op.Tok()}, states := p.states[op.ToKey() := Holding(op.ercType, 1)]))
    case Burn721 =>
      Some(p.(byToken := p.byToken + {op.Tok()}, states := DropToken(p.states, op.Tok())))
    case Transfer721 =>
      Some(Pending((p.states - {op.FromKey()})[op.ToKey() := Holding(op.ercType, 1)],
                   p.byKey + {op.FromKey()},
                   p.byToken - {op.Tok()}))
    case Mint1155 => Some(PositiveDelta(p, op.ToKey(), op.ercType, op.value))
    case Burn1155 => NegativeDelta(p, op.FromKey(), op.value)
    case Transfer1155 =>
      var d :- NegativeDelta(p, op.FromKey(), op.value);
      Some(PositiveDelta(d, op.ToKey(), op.ercType, op.value))
  }

  function Run(p: Pending, ops: seq<Op>): Option<Pending> {
    if ops == [] then Some(p)
    else
      var q :- Run(p, ops[..|ops| - 1]);
      Step(q, ops[|ops| - 1])
  }

  /** Token deletes, then key deletes, then upserts. */
  function Flush(t: Table, p: Pending): Table {
    (map k | k in t && k.Tok() !in p.byToken && k !in p.byKey :: t[k]) + p.states
  }

  function Batch(t: Table, ops: seq<Op>): Option<Table> {
    var p :- Run(Preload(t, ops), ops);
    Some(Flush(t, p))
  }

  /******* Which tokens a list burns, and which it leaves burned *******/

  function Burned(ops: seq<Op>): set<Token> {
    set i | 0 <= i < |ops| && ops[i].kind.Burn721? :: ops[i].Tok()
  }

  /** Tokens whose last 721 operation in the list is a burn. */
  function Closed(ops: seq<Op>): set<Token> {
    if ops == [] then {}
    else
      var c, op := Closed(ops[..|ops| - 1]), ops[|ops| - 1];
      if op.kind.Burn721? then c + {op.Tok()}
      else if op.Reissues() then c - {op.Tok()}
      else c
  }

  /** No token is burned and then ends the list minted or transferred again. */
  predicate ReissueFree(ops: seq<Op>) {
    Burned(ops) <= Closed(ops)
  }
}
