// Whole runs of the reference book: from an empty book, and under either price
// index.

module SpecRuns {
  import opened Types
  import opened SpecBook
  import opened SpecInvariant
  import opened SpecProperties
  import opened SpecConservation
  import opened SpecEvents
  import opened SpecConfig

  // ---- every run from an empty book ----------------------------------------

  // The book is well formed and never crossed, sequence numbers are dense, the
  // events alone give the live orders, and quantity is conserved.
  lemma RunFromEmpty(cfg: BookConfig, cs: seq<Command>)
    ensures var out := Run(EmptyBook(cfg), cs);
            && WellFormed(out.book)
            && out.book.seqNo == |out.events|
            && Describes(FollowAll(map[], out.events), out.book)
            && RunEntered(EmptyBook(cfg), cs) == Resting(out.book) + RunWithdrawn(EmptyBook(cfg), cs)
               + 2 * Traded(out.events)
  {
    hide Run, FollowAll, RunEntered, RunWithdrawn, Traded;
    var b := EmptyBook(cfg);
    var live: map<OrderId, Qty> := map[];
    assert live.Keys == Ids(b.bids) + Ids(b.asks);
    RunKeeps(b, cs);
    RunFollows(live, b, cs);
    RunConserves(b, cs);
  }

  // ---- index independence -------------------------------------------------

  // The prices both index kinds accept.
  predicate InBothRanges(cfg: BookConfig, c: Command) {
    match c
    case New(_, _, otype, price, _, _) => otype.Market? || (1 <= price && cfg.priceMin <= price <= cfg.priceMax)
    case Cancel(_) => true
    case Replace(_, price, _) => 1 <= price && cfg.priceMin <= price <= cfg.priceMax
  }

  function WithIndex(b: Book, kind: IndexKind): Book {
    b.(cfg := b.cfg.(index := kind))
  }

  lemma ApplyIndexIndependent(b: Book, kind: IndexKind, c: Command)
    requires InBothRanges(b.cfg, c)
    ensures Apply(WithIndex(b, kind), c) == Outcome(WithIndex(Apply(b, c).book, kind), Apply(b, c).events)
    ensures Apply(b, c).book.cfg == b.cfg
  {
    hide Apply;
    var cfg := b.cfg.(index := kind);
    match c
    case New(_, _, _, _, _, _) => NewSame(b, cfg, c);
    case Cancel(id) => CancelSame(b, cfg, id);
    case Replace(_, _, _) => ReplaceSame(b, cfg, c);
  }

  // A ladder book and a tree book emit the same events and hold the same
  // orders over every run of commands whose prices both accept.
  lemma {:induction false} RunIndexIndependent(b: Book, kind: IndexKind, cs: seq<Command>)
    requires forall i :: 0 <= i < |cs| ==> InBothRanges(b.cfg, cs[i])
    ensures Run(WithIndex(b, kind), cs) == Outcome(WithIndex(Run(b, cs).book, kind), Run(b, cs).events)
    decreases |cs|
  {
    if cs != [] {
      ApplyIndexIndependent(b, kind, cs[0]);
      RunIndexIndependent(Apply(b, cs[0]).book, kind, cs[1..]);
    }
  }
}
