/** Values shared by every component: identifiers, orders, executions and the messages on the two topics. */
module Types {

  datatype Option<+T> = None | Some(value: T)

  /** A 128-bit identifier. Only equality and the reserved nil value matter to the system. */
  type Uuid = nat
  const NIL: Uuid := 0

  type Byte = x: int | 0 <= x < 256
  /** Go strings are byte strings: symbols and venue names are compared and sorted bytewise. */
  type Text = seq<Byte>

  datatype Side = Buy | Sell
  {
    function Opposite(): Side { if this == Buy then Sell else Buy }
  }
  datatype OrderType = Market | Limit
  datatype Tif = IOC | GTC

  /** The book's view of an order (internal/book/book.go:75-86). Quantities are 1e-6 shares, prices cents. */
  datatype Order = Order(
    id: Uuid, account: Uuid, side: Side, typ: OrderType, tif: Tif,
    qty: int, remaining: int, limitPrice: int, refPrice: int, seqNo: nat)

  /** Derived, never random: a fill generated again after a crash has the identity it had before. */
  datatype FillId = FillId(shard: int, venue: Text, symbol: Text, bookSeq: nat)
  datatype Role = Taker | Maker
  datatype EventId = FillEvent(fill: FillId, role: Role) | LedgerEvent(account: Uuid, accountSeq: nat)

  datatype Fill = Fill(
    id: FillId, price: int, qty: int,
    takerOrder: Uuid, takerAccount: Uuid, takerSide: Side,
    makerOrder: Uuid, makerAccount: Uuid)

  datatype Disposition = Rested | Cancelled | Complete
  datatype Reason = NoReason | Duplicate | IocRemainder | CollarBreach | BookExhausted | ClientCancel | AlreadyTerminal

  function Min(a: int, b: int): int { if a <= b then a else b }
  function Max(a: int, b: int): int { if a >= b then a else b }
}
