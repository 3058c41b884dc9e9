// The matching contract as a book of two priority-ordered
// sequences of resting orders, and a pure function from a command to the next
// book and the events it emits. No levels, chunks, bitmaps or hash table.

module SpecBook {
  import opened Types

  datatype Book = Book(bids: seq<RestingOrder>, asks: seq<RestingOrder>, seqNo: nat, cfg: BookConfig) {
    function Own(side: Side): seq<RestingOrder> {
      if side.Bid? then bids else asks
    }

    function Opp(side: Side): seq<RestingOrder> {
      if side.Bid? then asks else bids
    }

    function WithOwn(side: Side, s: seq<RestingOrder>): Book {
      if side.Bid? then this.(bids := s) else this.(asks := s)
    }

    function WithOpp(side: Side, s: seq<RestingOrder>): Book {
      if side.Bid? then this.(asks := s) else this.(bids := s)
    }
  }

  function EmptyBook(cfg: BookConfig): Book {
    Book([], [], 0, cfg)
  }

  // ---- sequences of resting orders ---------------------------------------

  function Ids(s: seq<RestingOrder>): set<OrderId> {
    set i | 0 <= i < |s| :: s[i].orderId
  }

  function SumQty(s: seq<RestingOrder>): nat {
    if s == [] then 0 else s[0].qty + SumQty(s[1..])
  }

  // The orders resting at exactly `p`, in order.
  function AtPrice(s: seq<RestingOrder>, p: Price): seq<RestingOrder> {
    if s == [] then []
    else (if s[0].price == p then [s[0]] else []) + AtPrice(s[1..], p)
  }

  function Without(s: seq<RestingOrder>, id: OrderId): seq<RestingOrder> {
    if s == [] then []
    else (if s[0].orderId == id then [] else [s[0]]) + Without(s[1..], id)
  }

  function WithQty(s: seq<RestingOrder>, id: OrderId, qty: Qty): seq<RestingOrder> {
    if s == [] then []
    else [if s[0].orderId == id then s[0].(qty := qty) else s[0]] + WithQty(s[1..], id, qty)
  }

  // Behind every order with a price at least as good: the back of its level.
  function Insert(s: seq<RestingOrder>, o: RestingOrder): seq<RestingOrder> {
    if s == [] || Better(o.side, o.price, s[0].price) then [o] + s
    else [s[0]] + Insert(s[1..], o)
  }

  function Lookup(s: seq<RestingOrder>, id: OrderId): Option<RestingOrder> {
    if s == [] then None
    else if s[0].orderId == id then Some(s[0])
    else Lookup(s[1..], id)
  }

  function Find(b: Book, id: OrderId): Option<RestingOrder> {
    var f := Lookup(b.bids, id);
    if f.Some? then f else Lookup(b.asks, id)
  }

  // ---- matching -----------------------------------------------------------

  // May a taker on `side` with this bound trade at the resting price `p`?
  predicate Crosses(side: Side, bound: Option<Price>, p: Price) {
    bound.None? || (if side.Bid? then p <= bound.value else p >= bound.value)
  }

  datatype CrossResult = CrossResult(opp: seq<RestingOrder>, qty: Qty, events: seq<Event>)

  function Cross(side: Side, bound: Option<Price>, taker: OrderId, qty: Qty, opp: seq<RestingOrder>): CrossResult
    decreases |opp|
  {
    if qty == 0 || opp == [] || !Crosses(side, bound, opp[0].price) then
      CrossResult(opp, qty, [])
    else
      var m := opp[0];
      if qty < m.qty then
        CrossResult([m.(qty := m.qty - qty)] + opp[1..], 0, [Trade(m.orderId, taker, m.price, qty)])
      else
        var r := Cross(side, bound, taker, qty - m.qty, opp[1..]);
        r.(events := [Trade(m.orderId, taker, m.price, m.qty), Closed(m.orderId, Filled)] + r.events)
  }

  // Quantity a taker could trade against.
  function Available(side: Side, bound: Option<Price>, opp: seq<RestingOrder>): nat {
    if opp == [] then 0
    else (if Crosses(side, bound, opp[0].price) then opp[0].qty else 0) + Available(side, bound, opp[1..])
  }

  // ---- commands -----------------------------------------------------------

  datatype Outcome = Outcome(book: Book, events: seq<Event>)

  predicate PriceOk(cfg: BookConfig, p: Price) {
    if cfg.index.LadderKind? then cfg.priceMin <= p <= cfg.priceMax else p > 0
  }

  // A price an index under this configuration can hold.
  predicate Holdable(cfg: BookConfig, p: Price) {
    cfg.index.LadderKind? ==> cfg.priceMin <= p <= cfg.priceMax
  }

  function Done(b: Book, events: seq<Event>): Outcome {
    Outcome(b.(seqNo := b.seqNo + |events|), events)
  }

  function Refuse(b: Book, id: OrderId, reason: RejectReason): Outcome {
    Done(b, [Rejected(id, reason)])
  }

  predicate ReachesBest(b: Book, side: Side, price: Price) {
    b.Opp(side) != [] && Crosses(side, Some(price), b.Opp(side)[0].price)
  }

  // The fill-or-kill check adds u64 totals without an overflow check.
  predicate FokRefused(b: Book, side: Side, price: Price, qty: Qty) {
    Wrap(Available(side, Some(price), b.Opp(side))) < qty
  }

  // The first failing check, in the order src/book.rs:132-169 makes them.
  function NewRefusal(b: Book, c: Command): Option<RejectReason>
    requires c.New?
  {
    if c.qty == 0 then Some(InvalidQty)
    else if c.otype.Limit? && !PriceOk(b.cfg, c.price) then Some(InvalidPrice)
    else if Find(b, c.orderId).Some? then Some(DuplicateOrderId)
    else if |b.bids| + |b.asks| >= b.cfg.maxOrders then Some(BookFull)
    else if c.otype.Limit? && c.tif.PostOnly? && ReachesBest(b, c.side, c.price) then Some(PostOnlyWouldCross)
    else if c.otype.Limit? && c.tif.Fok? && FokRefused(b, c.side, c.price, c.qty) then Some(FokCannotFill)
    else None
  }

  function Bound(c: Command): Option<Price>
    requires c.New?
  {
    if c.otype.Limit? then Some(c.price) else None
  }

  predicate Rests(c: Command)
    requires c.New?
  {
    c.otype.Limit? && (c.tif.Gtc? || c.tif.PostOnly?)
  }

  function ApplyNew(b: Book, c: Command): Outcome
    requires c.New?
  {
    var refusal := NewRefusal(b, c);
    if refusal.Some? then Refuse(b, c.orderId, refusal.value)
    else
      var r := Cross(c.side, Bound(c), c.orderId, c.qty, b.Opp(c.side));
      var b' := b.WithOpp(c.side, r.opp);
      if r.qty == 0 then
        Done(b', r.events + [Closed(c.orderId, Filled)])
      else if Rests(c) then
        var o := RestingOrder(c.orderId, c.side, c.tif, c.price, r.qty);
        Done(b'.WithOwn(c.side, Insert(b.Own(c.side), o)), r.events + [Accepted(c.orderId, r.qty)])
      else
        Done(b', r.events + [Closed(c.orderId, Expired)])
  }

  function ApplyCancel(b: Book, id: OrderId): Outcome {
    var f := Find(b, id);
    if f.None? then Refuse(b, id, UnknownOrderId)
    else
      var side := f.value.side;
      Done(b.WithOwn(side, Without(b.Own(side), id)), [Closed(id, Cancelled)])
  }

  function ReplaceRefusal(b: Book, c: Command): Option<RejectReason>
    requires c.Replace?
  {
    if Find(b, c.orderId).None? then Some(UnknownOrderId)
    else if c.qty == 0 then Some(InvalidQty)
    else if !PriceOk(b.cfg, c.price) then Some(InvalidPrice)
    else None
  }

  predicate KeepsPriority(o: RestingOrder, c: Command)
    requires c.Replace?
  {
    c.price == o.price && c.qty <= o.qty
  }

  function ApplyReplace(b: Book, c: Command): Outcome
    requires c.Replace?
  {
    var refusal := ReplaceRefusal(b, c);
    if refusal.Some? then Refuse(b, c.orderId, refusal.value)
    else
      var o := Find(b, c.orderId).value;
      if KeepsPriority(o, c) then
        Done(b.WithOwn(o.side, WithQty(b.Own(o.side), c.orderId, c.qty)), [Replaced(c.orderId, c.price, c.qty)])
      else
        var own := Without(b.Own(o.side), c.orderId);
        var r := Cross(o.side, Some(c.price), c.orderId, c.qty, b.Opp(o.side));
        var b' := b.WithOpp(o.side, r.opp);
        if r.qty == 0 then
          Done(b'.WithOwn(o.side, own), r.events + [Closed(c.orderId, Filled)])
        else
          var o' := RestingOrder(c.orderId, o.side, o.tif, c.price, r.qty);
          Done(b'.WithOwn(o.side, Insert(own, o')), r.events + [Replaced(c.orderId, c.price, r.qty)])
  }

  function Apply(b: Book, c: Command): Outcome {
    match c
    case New(_, _, _, _, _, _) => ApplyNew(b, c)
    case Cancel(id) => ApplyCancel(b, id)
    case Replace(_, _, _) => ApplyReplace(b, c)
  }

  function Run(b: Book, cs: seq<Command>): Outcome
    decreases |cs|
  {
    if cs == [] then Outcome(b, [])
    else
      var first := Apply(b, cs[0]);
      var rest := Run(first.book, cs[1..]);
      Outcome(rest.book, first.events + rest.events)
  }

  // The events as a sink sees them: paired with dense sequence numbers.
  function Numbered(from: nat, events: seq<Event>): seq<(nat, Event)> {
    seq(|events|, i requires 0 <= i < |events| => (from + 1 + i, events[i]))
  }
}
