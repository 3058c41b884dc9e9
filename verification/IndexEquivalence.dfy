// The two price indexes are interchangeable: src/index.rs:1-11.

module IndexEquivalence {
  import opened Types
  import opened SpecBook
  import opened SpecRuns
  import opened Chunks
  import opened OrderBooks
  import Probing

  // A ladder book and a tree book emit the same events for every run of
  // commands whose prices both accept, whatever their hashes.
  method RunBoth(cfg: BookConfig, mixA: Probing.Hash, mixB: Probing.Hash, cmds: seq<Command>)
    returns (ladder: VecSink, tree: VecSink)
    requires cfg.maxOrders <= MAX_ORDERS && RangeOk(cfg.(index := LadderKind))
    requires forall i :: 0 <= i < |cmds| ==> InBothRanges(cfg, cmds[i])
    ensures ladder.events == tree.events == Numbered(0, Run(EmptyBook(cfg.(index := LadderKind)), cmds).events)
  {
    hide OrderBook.Valid, Run, Numbered, InBothRanges;
    var a := new OrderBook(cfg.(index := LadderKind), mixA);
    var b := new OrderBook(cfg.(index := TreeKind), mixB);
    ladder := new VecSink();
    tree := new VecSink();
    a.ApplyBatch(cmds, ladder);
    b.ApplyBatch(cmds, tree);
    SameRange(cfg, cmds);
    RunIndexIndependent(EmptyBook(cfg.(index := LadderKind)), TreeKind, cmds);
  }

  lemma SameRange(cfg: BookConfig, cmds: seq<Command>)
    requires forall i :: 0 <= i < |cmds| ==> InBothRanges(cfg, cmds[i])
    ensures forall i :: 0 <= i < |cmds| ==> InBothRanges(cfg.(index := LadderKind), cmds[i])
  {
  }
}
