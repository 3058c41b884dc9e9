// One reference book under two configurations: a snapshot rebuilds every book
// under the engine's default one (src/snapshot.rs:123-131), whatever its own was.

module SpecConfig {
  import opened Types
  import opened SpecBook
  import opened SpecInvariant

  // ---- the same orders under another configuration -----------------------------

  // Can a book under `cfg` hold the orders of `b`?
  ghost predicate Fits(cfg: BookConfig, b: Book) {
    && |b.bids| + |b.asks| <= cfg.maxOrders
    && (forall o :: o in b.bids || o in b.asks ==> Holdable(cfg, o.price))
  }

  lemma SideUnder(side: Side, cfg: BookConfig, cfg': BookConfig, s: seq<RestingOrder>)
    requires SideOk(side, cfg, s)
    ensures SideOk(side, cfg', s) <==> forall o :: o in s ==> Holdable(cfg', o.price)
  {
    hide Sorted, UniqueIds, Holdable;
    if forall o :: o in s ==> Holdable(cfg', o.price) {
      forall i | 0 <= i < |s|
        ensures OrderOk(side, cfg', s[i])
      {
        assert OrderOk(side, cfg, s[i]);
      }
    }
    if SideOk(side, cfg', s) {
      forall o | o in s
        ensures Holdable(cfg', o.price)
      {
        var i :| 0 <= i < |s| && s[i] == o;
        assert OrderOk(side, cfg', s[i]);
      }
    }
  }

  // A book is well formed under another configuration exactly when that one can
  // hold its orders.
  lemma WellFormedUnder(b: Book, cfg: BookConfig)
    requires WellFormed(b)
    ensures WellFormed(b.(cfg := cfg)) <==> Fits(cfg, b)
  {
    hide SideOk, AllMayRest, Ids, Uncrossed, Holdable;
    SideUnder(Bid, b.cfg, cfg, b.bids);
    SideUnder(Ask, b.cfg, cfg, b.asks);
    FitsParts(cfg, b);
  }

  // Only the capacity and a ladder's range limit what a book can hold.
  lemma FitsIs(cfg: BookConfig, b: Book)
    ensures Fits(cfg, b) <==>
              && |b.bids| + |b.asks| <= cfg.maxOrders
              && (cfg.index.LadderKind? ==>
                    forall o :: o in b.bids || o in b.asks ==> cfg.priceMin <= o.price && o.price <= cfg.priceMax)
  {
  }

  lemma FitsParts(cfg: BookConfig, b: Book)
    ensures Fits(cfg, b) <==>
              && |b.bids| + |b.asks| <= cfg.maxOrders
              && (forall o :: o in b.bids ==> Holdable(cfg, o.price))
              && (forall o :: o in b.asks ==> Holdable(cfg, o.price))
  {
  }

  // ---- configurations with the same rules ----------------------------------------

  // The range of acceptable prices.
  function Lowest(cfg: BookConfig): Price {
    if cfg.index.LadderKind? then cfg.priceMin else 1
  }

  function Highest(cfg: BookConfig): Price {
    if cfg.index.LadderKind? then cfg.priceMax else 0x7FFF_FFFF_FFFF_FFFF
  }

  // Both accept the same prices and as many orders.
  predicate SameRules(cfg: BookConfig, cfg': BookConfig) {
    Lowest(cfg) == Lowest(cfg') && Highest(cfg) == Highest(cfg') && cfg.maxOrders == cfg'.maxOrders
  }

  lemma PriceRange(cfg: BookConfig, p: Price)
    ensures PriceOk(cfg, p) <==> Lowest(cfg) <= p <= Highest(cfg)
  {
  }

  // What a command does under another configuration.
  ghost predicate SameOutcome(b: Book, cfg: BookConfig, c: Command) {
    var (out, out') := (Apply(b, c), Apply(b.(cfg := cfg), c));
    out.book.cfg == b.cfg && out' == Outcome(out.book.(cfg := cfg), out.events)
  }

  // One command that makes room checks and price checks come out alike.
  lemma NewSame(b: Book, cfg: BookConfig, c: Command)
    requires c.New? && (c.otype.Limit? ==> (PriceOk(b.cfg, c.price) <==> PriceOk(cfg, c.price)))
    requires |b.bids| + |b.asks| >= b.cfg.maxOrders <==> |b.bids| + |b.asks| >= cfg.maxOrders
    ensures SameOutcome(b, cfg, c)
  {
    hide Cross, Insert, Lookup, FokRefused, PriceOk;
    var b' := b.(cfg := cfg);
    assert Find(b, c.orderId) == Find(b', c.orderId);
    FokSame(b, cfg, c);
    assert NewRefusal(b, c) == NewRefusal(b', c);
  }

  lemma FokSame(b: Book, cfg: BookConfig, c: Command)
    requires c.New?
    ensures forall q :: FokRefused(b, c.side, c.price, q) <==> FokRefused(b.(cfg := cfg), c.side, c.price, q)
  {
    hide Available, Wrap;
  }

  lemma ReplaceSame(b: Book, cfg: BookConfig, c: Command)
    requires c.Replace? && (PriceOk(b.cfg, c.price) <==> PriceOk(cfg, c.price))
    ensures SameOutcome(b, cfg, c)
  {
    hide Cross, Insert, Lookup, Without, WithQty, PriceOk;
    assert Find(b, c.orderId) == Find(b.(cfg := cfg), c.orderId);
    assert ReplaceRefusal(b, c) == ReplaceRefusal(b.(cfg := cfg), c);
  }

  lemma CancelSame(b: Book, cfg: BookConfig, id: OrderId)
    ensures SameOutcome(b, cfg, Cancel(id))
  {
    hide Lookup, Without;
    assert Find(b, id) == Find(b.(cfg := cfg), id);
  }

  lemma ApplySame(b: Book, cfg: BookConfig, c: Command)
    requires SameRules(b.cfg, cfg)
    ensures SameOutcome(b, cfg, c)
  {
    hide SameOutcome, PriceOk;
    if !c.Cancel? {
      PriceRange(b.cfg, c.price);
      PriceRange(cfg, c.price);
    }
    match c
    case New(_, _, _, _, _, _) => NewSame(b, cfg, c);
    case Cancel(id) => CancelSame(b, cfg, id);
    case Replace(_, _, _) => ReplaceSame(b, cfg, c);
  }

  // Under the same rules every later run goes the same way.
  lemma {:induction false} RunSameRules(b: Book, cfg: BookConfig, cs: seq<Command>)
    requires SameRules(b.cfg, cfg)
    ensures Run(b.(cfg := cfg), cs) == Outcome(Run(b, cs).book.(cfg := cfg), Run(b, cs).events)
    decreases |cs|
  {
    hide Apply;
    if cs != [] {
      ApplySame(b, cfg, cs[0]);
      RunSameRules(Apply(b, cs[0]).book, cfg, cs[1..]);
    }
  }

  // ---- configurations with different rules -----------------------------------------

  // The book and the same orders under `cfg` emit the same events for `cs`.
  ghost predicate SameEvents(b: Book, cfg: BookConfig, cs: seq<Command>) {
    Run(b, cs).events == Run(b.(cfg := cfg), cs).events
  }

  lemma RunOne(b: Book, c: Command)
    ensures Run(b, [c]) == Apply(b, c)
  {
    assert [c][1..] == [];
    assert Run(Apply(b, c).book, []) == Outcome(Apply(b, c).book, []);
    assert Apply(b, c).events + [] == Apply(b, c).events;
  }

  // An order at a price that only one of them accepts.
  lemma PriceDiffers(b: Book, cfg: BookConfig, p: Price)
    requires PriceOk(b.cfg, p) != PriceOk(cfg, p)
    ensures !SameEvents(b, cfg, [New(0, Bid, Limit, p, 1, Ioc)])
  {
    hide Cross, Insert, Lookup, PriceOk;
    var (c, b') := (New(0, Bid, Limit, p, 1, Ioc), b.(cfg := cfg));
    RunOne(b, c);
    RunOne(b', c);
    RefusedFor(b, c);
    RefusedFor(b', c);
  }

  // Events tell an invalid price from every other outcome.
  lemma RefusedFor(b: Book, c: Command)
    requires c.New? && c.qty > 0
    ensures Apply(b, c).events == [Rejected(c.orderId, InvalidPrice)] <==> c.otype.Limit? && !PriceOk(b.cfg, c.price)
    ensures Apply(b, c).events == [Rejected(c.orderId, BookFull)] <==> NewRefusal(b, c) == Some(BookFull)
  {
    hide Cross, Insert, Lookup, PriceOk, FokRefused;
    if NewRefusal(b, c).None? {
      var out := Apply(b, c).events;
      assert !out[|out| - 1].Rejected?;
    }
  }

  // An order that joins the book without trading: behind the best order of its
  // side, or at any acceptable price of an empty book.
  function Joining(b: Book, id: OrderId): Command {
    if b.bids != [] then New(id, Bid, Limit, b.bids[0].price, 1, Gtc)
    else if b.asks != [] then New(id, Ask, Limit, b.asks[0].price, 1, Gtc)
    else New(id, Bid, Limit, Lowest(b.cfg), 1, Gtc)
  }

  lemma JoiningPrice(b: Book, id: OrderId)
    requires WellFormed(b) && BookPriced(b) && Lowest(b.cfg) <= Highest(b.cfg)
    ensures PriceOk(b.cfg, Joining(b, id).price)
    ensures !ReachesBest(b, Joining(b, id).side, Joining(b, id).price)
  {
    if b.bids != [] {
      assert b.bids[0] in b.bids;
    } else if b.asks != [] {
      assert b.asks[0] in b.asks;
    } else {
      PriceRange(b.cfg, Lowest(b.cfg));
    }
  }

  // It is refused only by a full book, and otherwise adds one order.
  lemma JoiningApplies(b: Book, id: OrderId)
    requires WellFormed(b) && BookPriced(b) && Lowest(b.cfg) <= Highest(b.cfg) && Find(b, id).None?
    ensures var c := Joining(b, id);
            if |b.bids| + |b.asks| >= b.cfg.maxOrders then NewRefusal(b, c) == Some(BookFull)
            else
              NewRefusal(b, c).None?
              && var b1 := Apply(b, c).book; |b1.bids| + |b1.asks| == |b.bids| + |b.asks| + 1
  {
    hide WellFormed, BookPriced, Insert, Lookup, PriceOk, Find, FokRefused;
    var c := Joining(b, id);
    JoiningPrice(b, id);
    if |b.bids| + |b.asks| < b.cfg.maxOrders {
      var opp := b.Opp(c.side);
      assert Cross(c.side, Some(c.price), id, 1, opp) == CrossResult(opp, 1, []);
      InsertLonger(b.Own(c.side), RestingOrder(id, c.side, Gtc, c.price, 1));
    }
  }

  lemma {:induction false} InsertLonger(s: seq<RestingOrder>, o: RestingOrder)
    ensures |Insert(s, o)| == |s| + 1
  {
    if s != [] && !Better(o.side, o.price, s[0].price) {
      InsertLonger(s[1..], o);
    }
  }

  // Fewer than 2^64 ids are in use, so one is free.
  lemma {:induction false} UnusedId(used: set<OrderId>, from: nat) returns (id: OrderId)
    requires from + |used| < TWO_TO_64 && forall x :: x in used ==> x >= from
    ensures id !in used && id >= from
    decreases |used|
  {
    if from !in used {
      id := from;
    } else {
      var rest := used - {from};
      id := UnusedId(rest, from + 1);
    }
  }

  lemma {:induction false} IdsCount(s: seq<RestingOrder>)
    ensures |Ids(s)| <= |s|
  {
    if s != [] {
      IdsTail(s);
      IdsCount(s[1..]);
    }
  }

  lemma FreshId(b: Book) returns (id: OrderId)
    requires WellFormed(b) && b.cfg.maxOrders < TWO_TO_64
    ensures Find(b, id).None?
  {
    IdsCount(b.bids);
    IdsCount(b.asks);
    id := UnusedId(Ids(b.bids) + Ids(b.asks), 0);
    FindOk(b, id);
  }

  // Orders that join until the smaller book is full: the next is refused by one
  // book and accepted by the other.
  lemma {:induction false} RoomDiffers(b: Book, cfg: BookConfig) returns (cs: seq<Command>)
    requires WellFormed(b) && BookPriced(b) && Lowest(b.cfg) == Lowest(cfg) <= Highest(cfg) == Highest(b.cfg)
    requires b.cfg.maxOrders < cfg.maxOrders < TWO_TO_64
    ensures !SameEvents(b, cfg, cs)
    decreases b.cfg.maxOrders - (|b.bids| + |b.asks|)
  {
    hide WellFormed, BookPriced, Joining, Find, NewRefusal, Apply;
    var id := FreshId(b);
    var c := Joining(b, id);
    JoiningApplies(b, id);
    JoiningNew(b, id);
    if |b.bids| + |b.asks| >= b.cfg.maxOrders {
      cs := [c];
      RunOne(b, c);
      RunOne(b.(cfg := cfg), c);
      RefusedFor(b, c);
      RefusedFor(b.(cfg := cfg), c);
      RoomLeft(b, cfg, c);
    } else {
      PriceRange(b.cfg, c.price);
      PriceRange(cfg, c.price);
      NewSame(b, cfg, c);
      ApplyKeeps(b, c);
      ApplyPriced(b, c);
      var rest := RoomDiffers(Apply(b, c).book, cfg);
      cs := [c] + rest;
      DiffersLater(b, cfg, c, rest);
    }
  }

  lemma JoiningNew(b: Book, id: OrderId)
    ensures Joining(b, id).New? && Joining(b, id).qty == 1 && Joining(b, id).orderId == id
  {
  }

  lemma RoomLeft(b: Book, cfg: BookConfig, c: Command)
    requires WellFormed(b) && c.New? && b.cfg.maxOrders < cfg.maxOrders
    ensures NewRefusal(b.(cfg := cfg), c) != Some(BookFull)
  {
  }

  lemma DiffersLater(b: Book, cfg: BookConfig, c: Command, rest: seq<Command>)
    requires SameOutcome(b, cfg, c) && !SameEvents(Apply(b, c).book, cfg, rest)
    ensures !SameEvents(b, cfg, [c] + rest)
  {
    hide Apply;
    assert ([c] + rest)[1..] == rest;
    var out := Apply(b, c);
    var (more, more') := (Run(out.book, rest).events, Run(out.book.(cfg := cfg), rest).events);
    assert (out.events + more)[|out.events|..] == more;
    assert (out.events + more')[|out.events|..] == more';
  }

  lemma DiffersBack(b: Book, cfg: BookConfig, cs: seq<Command>)
    requires !SameEvents(b.(cfg := cfg), b.cfg, cs)
    ensures !SameEvents(b, cfg, cs)
  {
    assert b.(cfg := cfg).(cfg := b.cfg) == b;
  }

  lemma RulesDiffer(b: Book, cfg: BookConfig) returns (cs: seq<Command>)
    requires WellFormed(b) && BookPriced(b) && Fits(cfg, b) && !SameRules(b.cfg, cfg)
    requires Lowest(b.cfg) <= Highest(b.cfg) && Lowest(cfg) <= Highest(cfg)
    requires b.cfg.maxOrders < TWO_TO_64 && cfg.maxOrders < TWO_TO_64
    ensures !SameEvents(b, cfg, cs)
  {
    hide WellFormed, BookPriced, SameEvents, PriceOk, Fits;
    if Lowest(b.cfg) != Lowest(cfg) || Highest(b.cfg) != Highest(cfg) {
      var p := if Lowest(b.cfg) < Lowest(cfg) then Lowest(b.cfg)
      else if Lowest(cfg) < Lowest(b.cfg) then Lowest(cfg)
      else if Highest(b.cfg) < Highest(cfg) then Highest(cfg) else Highest(b.cfg);
      PriceRange(b.cfg, p);
      PriceRange(cfg, p);
      PriceDiffers(b, cfg, p);
      cs := [New(0, Bid, Limit, p, 1, Ioc)];
    } else if b.cfg.maxOrders < cfg.maxOrders {
      cs := RoomDiffers(b, cfg);
    } else {
      SameRange(b, cfg);
      cs := RoomDiffers(b.(cfg := cfg), b.cfg);
      DiffersBack(b, cfg, cs);
    }
  }

  lemma SameRange(b: Book, cfg: BookConfig)
    requires WellFormed(b) && BookPriced(b) && Fits(cfg, b)
    requires Lowest(b.cfg) == Lowest(cfg) && Highest(b.cfg) == Highest(cfg)
    ensures WellFormed(b.(cfg := cfg)) && BookPriced(b.(cfg := cfg))
  {
    hide WellFormed, Fits;
    WellFormedUnder(b, cfg);
  }

  // A book and the same orders under another configuration emit the same events
  // for every later run exactly when the two configurations have the same rules.
  lemma ContinuesIff(b: Book, cfg: BookConfig)
    requires WellFormed(b) && BookPriced(b) && Fits(cfg, b)
    requires Lowest(b.cfg) <= Highest(b.cfg) && Lowest(cfg) <= Highest(cfg)
    requires b.cfg.maxOrders < TWO_TO_64 && cfg.maxOrders < TWO_TO_64
    ensures SameRules(b.cfg, cfg) <==> forall cs :: SameEvents(b, cfg, cs)
  {
    hide WellFormed, BookPriced, Fits, SameRules, Lowest, Highest, SameEvents;
    if SameRules(b.cfg, cfg) {
      forall cs
        ensures SameEvents(b, cfg, cs)
      {
        SameLater(b, cfg, cs);
      }
    } else {
      var cs := RulesDiffer(b, cfg);
    }
  }

  lemma SameLater(b: Book, cfg: BookConfig, cs: seq<Command>)
    requires SameRules(b.cfg, cfg)
    ensures SameEvents(b, cfg, cs)
  {
    RunSameRules(b, cfg, cs);
  }

  lemma FirstRests(cfg: BookConfig, c: Command)
    requires c.New? && c.side.Bid? && Rests(c) && c.tif.Gtc? && c.qty > 0 && PriceOk(cfg, c.price) && cfg.maxOrders > 0
    ensures Apply(EmptyBook(cfg), c) ==
            Outcome(Book([RestingOrder(c.orderId, Bid, Gtc, c.price, c.qty)], [], 1, cfg), [Accepted(c.orderId, c.qty)])
  {
    assert Cross(c.side, Bound(c), c.orderId, c.qty, []) == CrossResult([], c.qty, []);
  }

  lemma SecondRests(b: Book, c: Command)
    requires c.New? && c.side.Bid? && Rests(c) && c.tif.Gtc? && c.qty > 0 && PriceOk(b.cfg, c.price)
    requires |b.bids| == 1 < b.cfg.maxOrders && b.asks == [] && b.bids[0].orderId != c.orderId
    ensures Apply(b, c).events == [Accepted(c.orderId, c.qty)]
  {
    assert Lookup(b.bids[1..], c.orderId).None?;
    assert Cross(c.side, Bound(c), c.orderId, c.qty, []) == CrossResult([], c.qty, []);
  }

  // A book that was registered with its own, narrower range: rebuilt under the
  // engine's default it accepts an order that it used to refuse.
  lemma OwnConfigWitness()
    ensures var own := BookConfig(0, 10, 8, LadderKind);
            var default := BookConfig(0, 100, 8, LadderKind);
            var b := Run(EmptyBook(own), [New(1, Bid, Limit, 5, 3, Gtc)]).book;
            var c := New(2, Bid, Limit, 50, 1, Gtc);
            && WellFormed(b) && Fits(default, b)
            && Run(b, [c]).events == [Rejected(2, InvalidPrice)]
            && Run(b.(cfg := default), [c]).events == [Accepted(2, 1)]
  {
    var own := BookConfig(0, 10, 8, LadderKind);
    var default := BookConfig(0, 100, 8, LadderKind);
    var first := New(1, Bid, Limit, 5, 3, Gtc);
    RunOne(EmptyBook(own), first);
    FirstRests(own, first);
    var b := Apply(EmptyBook(own), first).book;
    ApplyKeeps(EmptyBook(own), first);
    var c := New(2, Bid, Limit, 50, 1, Gtc);
    RunOne(b, c);
    RunOne(b.(cfg := default), c);
    SecondRests(b.(cfg := default), c);
  }
}
