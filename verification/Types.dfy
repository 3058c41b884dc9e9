// Core types shared by every part of the model: src/types.rs.

module Types {

  const TWO_TO_64: int := 0x1_0000_0000_0000_0000

  type u64 = x: int | 0 <= x < 0x1_0000_0000_0000_0000
  type u32 = x: int | 0 <= x < 0x1_0000_0000
  type u8 = x: int | 0 <= x < 0x100
  type i64 = x: int | -0x8000_0000_0000_0000 <= x < 0x8000_0000_0000_0000

  type OrderId = u64
  type Price = i64
  type Qty = u64
  type Symbol = u32

  datatype Option<+T> = None | Some(value: T)

  datatype Side = Bid | Ask {
    function Opposite(): Side {
      if Bid? then Ask else Bid
    }
  }

  datatype OType = Limit | Market

  datatype Tif = Gtc | Ioc | Fok | PostOnly

  datatype Command =
    | New(orderId: OrderId, side: Side, otype: OType, price: Price, qty: Qty, tif: Tif)
    | Cancel(orderId: OrderId)
    | Replace(orderId: OrderId, price: Price, qty: Qty)

  datatype RejectReason =
    | InvalidQty
    | InvalidPrice
    | DuplicateOrderId
    | UnknownOrderId
    | PostOnlyWouldCross
    | FokCannotFill
    | BookFull

  datatype CloseReason = Filled | Cancelled | Expired

  datatype Event =
    | Accepted(orderId: OrderId, leavesQty: Qty)
    | Rejected(orderId: OrderId, reject: RejectReason)
    | Trade(maker: OrderId, taker: OrderId, price: Price, qty: Qty)
    | Closed(orderId: OrderId, reason: CloseReason)
    | Replaced(orderId: OrderId, price: Price, qty: Qty)

  // A resting order; qty is the leaves quantity.
  datatype RestingOrder = RestingOrder(orderId: OrderId, side: Side, tif: Tif, price: Price, qty: Qty)

  datatype IndexKind = LadderKind | TreeKind

  datatype BookConfig = BookConfig(priceMin: Price, priceMax: Price, maxOrders: nat, index: IndexKind)

  // Strictly closer to the top of the book on `side`.
  predicate Better(side: Side, p: Price, q: Price) {
    if side.Bid? then p > q else p < q
  }

  // u64 arithmetic as the release profile compiles it: wrap-around, no overflow check.
  function Wrap(x: int): u64 {
    x % TWO_TO_64
  }

  lemma WrapAdd(a: int, b: int)
    ensures Wrap(Wrap(a) + b) == Wrap(a + b)
    ensures Wrap(Wrap(a) - b) == Wrap(a - b)
  {
    var k := a / TWO_TO_64;
    assert a == TWO_TO_64 * k + Wrap(a);
    WrapShift(Wrap(a) + b, k);
    WrapShift(Wrap(a) - b, k);
  }

  lemma {:induction false} WrapShift(a: int, k: int)
    ensures Wrap(a + TWO_TO_64 * k) == Wrap(a)
  {
    var q := a / TWO_TO_64;
    assert a + TWO_TO_64 * k == TWO_TO_64 * (q + k) + Wrap(a);
  }
}
