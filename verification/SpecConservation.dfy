// Conservation of quantity over commands and whole runs of the reference book.

module SpecConservation {
  import opened Types
  import opened SpecBook
  import opened SpecInvariant
  import opened SpecQueues
  import opened SpecProperties

  function Resting(b: Book): nat {
    SumQty(b.bids) + SumQty(b.asks)
  }

  // Quantity brought in by an admitted New or a Replace that loses priority.
  function Entered(b: Book, c: Command): nat {
    match c
    case New(_, _, _, _, _, _) => if NewRefusal(b, c).None? then c.qty else 0
    case Cancel(_) => 0
    case Replace(_, _, _) =>
      if ReplaceRefusal(b, c).None? && !KeepsPriority(Find(b, c.orderId).value, c) then c.qty else 0
  }

  // Quantity taken out without trading: expired, cancelled, reduced or replaced away.
  function Withdrawn(b: Book, c: Command): nat {
    match c
    case New(id, side, _, _, qty, _) =>
      if NewRefusal(b, c).None? && !Rests(c) then Cross(side, Bound(c), id, qty, b.Opp(side)).qty else 0
    case Cancel(id) => if Find(b, id).Some? then Find(b, id).value.qty else 0
    case Replace(_, _, _) =>
      if ReplaceRefusal(b, c).Some? then 0
      else
        var o := Find(b, c.orderId).value;
        if KeepsPriority(o, c) then o.qty - c.qty else o.qty
  }

  lemma {:induction false} SumWithout(s: seq<RestingOrder>, id: OrderId)
    requires UniqueIds(s) && Lookup(s, id).Some?
    ensures SumQty(Without(s, id)) == SumQty(s) - Lookup(s, id).value.qty
  {
    UniqueTail(s);
    if s[0].orderId == id {
      WithoutAbsent(s[1..], id);
      assert Without(s, id) == s[1..];
    } else {
      SumWithout(s[1..], id);
      assert Without(s, id)[1..] == Without(s[1..], id);
    }
  }

  lemma {:induction false} SumWithQty(s: seq<RestingOrder>, id: OrderId, qty: Qty)
    requires UniqueIds(s) && Lookup(s, id).Some?
    ensures SumQty(WithQty(s, id, qty)) == SumQty(s) - Lookup(s, id).value.qty + qty
  {
    UniqueTail(s);
    if s[0].orderId == id {
      WithQtyNone(s[1..], id, qty);
    } else {
      SumWithQty(s[1..], id, qty);
    }
    assert WithQty(s, id, qty)[1..] == WithQty(s[1..], id, qty);
  }

  lemma NewConserves(b: Book, c: Command)
    requires WellFormed(b) && c.New?
    ensures var out := ApplyNew(b, c);
            Resting(b) + Entered(b, c) == Resting(out.book) + Withdrawn(b, c) + 2 * Traded(out.events)
  {
    hide Sorted, UniqueIds, Ids, Cross, Insert, Find, Available, FokRefused, Traded, SumQty;
    if NewRefusal(b, c).None? {
      var opp := b.Opp(c.side);
      CrossTrades(c.side, Bound(c), c.orderId, c.qty, opp);
      var r := Cross(c.side, Bound(c), c.orderId, c.qty, opp);
      if r.qty == 0 {
        TradedLast(r.events, Closed(c.orderId, Filled));
      } else if Rests(c) {
        TradedLast(r.events, Accepted(c.orderId, r.qty));
        FindOk(b, c.orderId);
        InsertOk(c.side, b.cfg, b.Own(c.side), RestingOrder(c.orderId, c.side, c.tif, c.price, r.qty));
      } else {
        TradedLast(r.events, Closed(c.orderId, Expired));
      }
    } else {
      TradedNone();
      TradedLast([], Rejected(c.orderId, NewRefusal(b, c).value));
      assert [] + [Rejected(c.orderId, NewRefusal(b, c).value)] == [Rejected(c.orderId, NewRefusal(b, c).value)];
    }
  }

  lemma RequoteConserves(b: Book, c: Command, o: RestingOrder)
    requires WellFormed(b) && c.Replace? && ReplaceRefusal(b, c).None?
    requires Find(b, c.orderId) == Some(o) && !KeepsPriority(o, c)
    ensures var out := ApplyReplace(b, c);
            Resting(b) + c.qty == Resting(out.book) + o.qty + 2 * Traded(out.events)
  {
    hide Sorted, UniqueIds, Ids, Cross, Insert, Without, Find, Traded, SumQty, Lookup;
    FindOk(b, c.orderId);
    var own, opp := b.Own(o.side), b.Opp(o.side);
    LookupUnique(own, o);
    SumWithout(own, c.orderId);
    WithoutOk(o.side, b.cfg, own, c.orderId);
    CrossTrades(o.side, Some(c.price), c.orderId, c.qty, opp);
    var r := Cross(o.side, Some(c.price), c.orderId, c.qty, opp);
    if r.qty == 0 {
      TradedLast(r.events, Closed(c.orderId, Filled));
    } else {
      TradedLast(r.events, Replaced(c.orderId, c.price, r.qty));
      InsertOk(o.side, b.cfg, Without(own, c.orderId), RestingOrder(c.orderId, o.side, o.tif, c.price, r.qty));
    }
  }

  lemma ReplaceConserves(b: Book, c: Command)
    requires WellFormed(b) && c.Replace?
    ensures var out := ApplyReplace(b, c);
            Resting(b) + Entered(b, c) == Resting(out.book) + Withdrawn(b, c) + 2 * Traded(out.events)
  {
    if ReplaceRefusal(b, c).None? {
      FindOk(b, c.orderId);
      var o := Find(b, c.orderId).value;
      if KeepsPriority(o, c) {
        LookupUnique(b.Own(o.side), o);
        SumWithQty(b.Own(o.side), c.orderId, c.qty);
      } else {
        RequoteConserves(b, c, o);
      }
    }
  }

  lemma ApplyConserves(b: Book, c: Command)
    requires WellFormed(b)
    ensures var out := Apply(b, c);
            Resting(b) + Entered(b, c) == Resting(out.book) + Withdrawn(b, c) + 2 * Traded(out.events)
  {
    match c
    case New(_, _, _, _, _, _) => NewConserves(b, c);
    case Replace(_, _, _) => ReplaceConserves(b, c);
    case Cancel(id) =>
      FindOk(b, id);
      if Find(b, id).Some? {
        var o := Find(b, id).value;
        LookupUnique(b.Own(o.side), o);
        SumWithout(b.Own(o.side), id);
      }
  }

  function RunEntered(b: Book, cs: seq<Command>): nat
    decreases |cs|
  {
    if cs == [] then 0 else Entered(b, cs[0]) + RunEntered(Apply(b, cs[0]).book, cs[1..])
  }

  function RunWithdrawn(b: Book, cs: seq<Command>): nat
    decreases |cs|
  {
    if cs == [] then 0 else Withdrawn(b, cs[0]) + RunWithdrawn(Apply(b, cs[0]).book, cs[1..])
  }

  // Over any run from an empty book: what entered left, traded (counted once
  // for each party) or still rests.
  lemma {:induction false} RunConserves(b: Book, cs: seq<Command>)
    requires WellFormed(b)
    ensures var out := Run(b, cs);
            Resting(b) + RunEntered(b, cs) == Resting(out.book) + RunWithdrawn(b, cs) + 2 * Traded(out.events)
    decreases |cs|
  {
    if cs != [] {
      var first := Apply(b, cs[0]);
      ApplyKeeps(b, cs[0]);
      ApplyConserves(b, cs[0]);
      RunConserves(first.book, cs[1..]);
      TradedAppend(first.events, Run(first.book, cs[1..]).events);
    }
  }
}
