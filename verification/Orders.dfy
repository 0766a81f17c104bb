/** The vocabulary every component shares: orders, fills, sides, and the way an
    order id carries the number of the bot that issued it. */
module Orders {

  type Id = int

  datatype Option<+T> = None | Some(value: T)

  // Strings of the source after strings.ToLower; every other spelling is one value.
  datatype Side = Buy | Sell | OtherSide
  datatype Kind = Limit | Market | Cancel | OtherKind
  datatype Status = Accepted | Cancelled | Rejected | OtherStatus

  datatype Order = Order(id: Id, kind: Kind, side: Side, price: int, qty: int)

  datatype Fill = Fill(orderId: Id, qty: int, price: int, matchedWith: Id)

  const BOT_UNIT: int := 0x1_0000_0000
  const TWO_TO_64: nat := 0x1_0000_0000_0000_0000

  /** `orderID >> 32`: arithmetic shift, hence floor division. */
  function BotId(id: Id): int { id / BOT_UNIT }

  function Min(a: int, b: int): int { if a < b then a else b }

  function Abs(a: int): int { if a < 0 then -a else a }

  function Opposite(s: Side): Side {
    match s
    case Buy => Sell
    case Sell => Buy
    case OtherSide => OtherSide
  }

  /** Rank of a price on one side of the book: smaller is better. */
  function Key(side: Side, price: int): int { if side.Buy? then -price else price }
}
