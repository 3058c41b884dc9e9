// Writing books to a snapshot and rebuilding them: src/snapshot.rs:15-54 and
// src/snapshot.rs:123-131.

module SnapshotStore {
  import opened Types
  import opened SpecBook
  import opened SpecInvariant
  import opened SpecConfig
  import opened JsonFlat
  import opened CommandText
  import opened Snapshot
  import opened Chunks
  import opened BookState
  import opened BookOrder
  import opened OrderBooks
  import Probing
  import PriceIndexes

  // ---- lines ------------------------------------------------------------------------

  method WriteHeader(cfg: BookConfig, out: string) returns (out': string)
    ensures out' == out + ObjectText(HeaderFields(cfg)) + ['\n']
    ensures out' == out + HeaderLine(cfg) + ['\n']
  {
    hide OpenText, Pattern, ObjectText, Decimal, SignedDecimal, IndexText, HeaderLine;
    HeaderIs(cfg);
    SnapPieces();
    OpenFirst("format", "matcher-snap/1");
    ghost var fs := HeaderFields(cfg);
    out' := out + "{\"format\":\"" + "matcher-snap/1" + "\"";
    assert fs[..1] == [Field("format", Text("matcher-snap/1"))];
    assert out' == out + OpenText(fs[..1]);
    out' := PutNumber(out', ",\"pmin\":", SignedDecimal(cfg.priceMin), fs[..1], "pmin", out);
    assert fs[..1] + [fs[1]] == fs[..2];
    out' := PutNumber(out', ",\"pmax\":", SignedDecimal(cfg.priceMax), fs[..2], "pmax", out);
    assert fs[..2] + [fs[2]] == fs[..3];
    out' := PutNumber(out', ",\"max_orders\":", Decimal(cfg.maxOrders), fs[..3], "max_orders", out);
    assert fs[..3] + [fs[3]] == fs[..4];
    out' := PutText(out', ",\"index\":\"", IndexText(cfg.index), fs[..4], "index", out);
    assert fs[..4] + [fs[4]] == fs;
    OpenClosed(out, fs);
    assert "}\n" == ['}'] + ['\n'];
    assert out' + "}\n" == out' + ['}'] + ['\n'];
    out' := out' + "}\n";
  }

  method WriteBookLine(sym: Symbol, seqNo: nat, out: string) returns (out': string)
    ensures out' == out + ObjectText(BookFields(sym, seqNo)) + ['\n']
    ensures out' == out + BookHeadLine(sym, seqNo) + ['\n']
  {
    hide OpenText, Pattern, ObjectText, Decimal, BookHeadLine;
    BookHeadIs(sym, seqNo);
    Pieces();
    SnapPieces();
    OpenFirst("rec", "book");
    ghost var fs := BookFields(sym, seqNo);
    out' := out + "{\"rec\":\"" + "book" + "\"";
    assert fs[..1] == [Field("rec", Text("book"))];
    assert out' == out + OpenText(fs[..1]);
    out' := PutNumber(out', ",\"symbol\":", Decimal(sym), fs[..1], "symbol", out);
    assert fs[..1] + [fs[1]] == fs[..2];
    out' := PutNumber(out', ",\"seq\":", Decimal(seqNo), fs[..2], "seq", out);
    assert fs[..2] + [fs[2]] == fs;
    OpenClosed(out, fs);
    assert "}\n" == ['}'] + ['\n'];
    assert out' + "}\n" == out' + ['}'] + ['\n'];
    out' := out' + "}\n";
  }

  method WriteOrder(o: RestingOrder, out: string) returns (out': string)
    ensures out' == out + ObjectText(OrderFields(o)) + ['\n']
    ensures out' == out + RestingLine(o) + ['\n']
  {
    hide OpenText, Pattern, ObjectText, Decimal, SignedDecimal, SideText, TifText, RestingLine;
    RestingIs(o);
    Pieces();
    SnapPieces();
    OpenFirst("rec", "order");
    ghost var fs := OrderFields(o);
    out' := out + "{\"rec\":\"" + "order" + "\"";
    assert fs[..1] == [Field("rec", Text("order"))];
    assert out' == out + OpenText(fs[..1]);
    out' := PutNumber(out', ",\"order_id\":", Decimal(o.orderId), fs[..1], "order_id", out);
    assert fs[..1] + [fs[1]] == fs[..2];
    out' := PutText(out', ",\"side\":\"", SideText(o.side), fs[..2], "side", out);
    assert fs[..2] + [fs[2]] == fs[..3];
    out' := PutText(out', ",\"otype\":\"", "limit", fs[..3], "otype", out);
    assert fs[..3] + [fs[3]] == fs[..4];
    out' := PutText(out', ",\"tif\":\"", TifText(o.tif), fs[..4], "tif", out);
    assert fs[..4] + [fs[4]] == fs[..5];
    out' := PutNumber(out', ",\"price\":", SignedDecimal(o.price), fs[..5], "price", out);
    assert fs[..5] + [fs[5]] == fs[..6];
    out' := PutNumber(out', ",\"qty\":", Decimal(o.qty), fs[..6], "qty", out);
    assert fs[..6] + [fs[6]] == fs;
    OpenClosed(out, fs);
    assert "}\n" == ['}'] + ['\n'];
    assert out' + "}\n" == out' + ['}'] + ['\n'];
    out' := out' + "}\n";
  }

  lemma LinesSnoc(out: string, lines: seq<string>, line: string)
    ensures out + TextOf(lines) + line + ['\n'] == out + TextOf(lines + [line])
  {
    TextAppend(lines, [line]);
    assert TextOf([line]) == line + ['\n'] by { assert [line][1..] == []; assert line + ['\n'] + [] == line + ['\n']; }
    assert out + TextOf(lines) + line + ['\n'] == out + (TextOf(lines) + (line + ['\n']));
  }

  lemma {:induction false} OrderLinesNext(orders: seq<RestingOrder>, o: RestingOrder)
    ensures OrderLines(orders + [o]) == OrderLines(orders) + [ObjectText(OrderFields(o))]
  {
    hide ObjectText, OrderFields;
    if orders == [] {
      assert (orders + [o])[1..] == [];
    } else {
      assert (orders + [o])[1..] == orders[1..] + [o];
      OrderLinesNext(orders[1..], o);
    }
  }

  // ---- books ---------------------------------------------------------------------------

  // What a document says of a book.
  ghost function Block(b: OrderBook, sym: Symbol): SnapshotBook
    requires b.seqNo < TWO_TO_64
    reads b
  {
    SnapshotBook(sym, b.seqNo, b.q.bids + b.q.asks)
  }

  // One book: its header line, then its resting orders in book order.
  method WriteBook(b: OrderBook, sym: Symbol, out: string) returns (out': string)
    requires b.Inv(None, None) && b.seqNo < TWO_TO_64
    ensures out' == out + TextOf(BookLines(Block(b, sym)))
  {
    hide ObjectText, BookFields, OrderFields, TextOf, OrderBook.Inv;
    var head := ObjectText(BookFields(sym, b.seqNo));
    out' := WriteBookLine(sym, b.seqNo, out);
    NoText(out);
    LinesSnoc(out, [], head);
    assert [] + [head] == [head];
    ghost var lines := [head];
    var orders := b.RestingOrders();
    assert orders[..0] == [];
    for i := 0 to |orders|
      invariant lines == [head] + OrderLines(orders[..i]) && out' == out + TextOf(lines)
    {
      var line := ObjectText(OrderFields(orders[i]));
      out' := WriteOrder(orders[i], out');
      LinesSnoc(out, lines, line);
      OrderLinesNext(orders[..i], orders[i]);
      assert orders[..i] + [orders[i]] == orders[..i + 1];
      lines := lines + [line];
    }
    assert orders[..|orders|] == orders;
  }

  lemma NoText(out: string)
    ensures out + TextOf([]) == out
  {
  }

  // ---- engines ---------------------------------------------------------------------------

  // `blocks` are the books of the engine outside `rest`, in ascending symbol order.
  ghost predicate Dumped(books: map<Symbol, OrderBook>, rest: set<Symbol>, blocks: seq<SnapshotBook>)
    requires forall s :: s in books ==> books[s].seqNo < TWO_TO_64
    reads set s | s in books :: books[s]
  {
    && rest <= books.Keys
    && (forall i :: 0 <= i < |blocks| ==> BlockOf(books, blocks[i]) && blocks[i].symbol !in rest)
    && (forall i, j :: 0 <= i < j < |blocks| ==> blocks[i].symbol < blocks[j].symbol)
    && (forall i, s :: 0 <= i < |blocks| && s in rest ==> blocks[i].symbol < s)
    && (forall s :: s in books && s !in rest ==> HasBlock(blocks, s))
  }

  ghost predicate BlockOf(books: map<Symbol, OrderBook>, block: SnapshotBook)
    requires forall s :: s in books ==> books[s].seqNo < TWO_TO_64
    reads set s | s in books :: books[s]
  {
    block.symbol in books && block == Block(books[block.symbol], block.symbol)
  }

  ghost predicate HasBlock(blocks: seq<SnapshotBook>, s: Symbol) {
    exists i :: 0 <= i < |blocks| && blocks[i].symbol == s
  }

  lemma BlockSymbol(b: OrderBook, sym: Symbol)
    requires b.seqNo < TWO_TO_64
    ensures Block(b, sym).symbol == sym
  {
  }

  lemma DumpNext(books: map<Symbol, OrderBook>, rest: set<Symbol>, blocks: seq<SnapshotBook>, sym: Symbol)
    requires forall s :: s in books ==> books[s].seqNo < TWO_TO_64
    requires Dumped(books, rest, blocks) && sym in rest && forall s :: s in rest ==> sym <= s
    ensures Dumped(books, rest - {sym}, blocks + [Block(books[sym], sym)])
  {
    hide Block;
    var block := Block(books[sym], sym);
    var blocks' := blocks + [block];
    BlockSymbol(books[sym], sym);
    MoreBlocks(blocks, block);
    assert BlockOf(books, block);
    forall i | 0 <= i < |blocks'|
      ensures BlockOf(books, blocks'[i]) && blocks'[i].symbol !in rest - {sym}
    {
      if i < |blocks| { assert BlockOf(books, blocks[i]); }
    }
  }

  // `text` is the document of an engine: the header, then every book sorted by symbol.
  ghost predicate Document(cfg: BookConfig, books: map<Symbol, OrderBook>, text: string)
    requires forall s :: s in books ==> books[s].seqNo < TWO_TO_64
    reads set s | s in books :: books[s]
  {
    exists blocks: seq<SnapshotBook> :: Dumped(books, {}, blocks) && text == TextOf(EngineLines(cfg, blocks))
  }

  method WriteEngine(cfg: BookConfig, books: map<Symbol, OrderBook>, out: string) returns (out': string)
    requires forall s :: s in books ==> books[s].Inv(None, None) && books[s].seqNo < TWO_TO_64
    ensures out <= out' && Document(cfg, books, out'[|out|..])
  {
    hide ObjectText, HeaderFields, TextOf, BookLines, EngineLines, Block, Dumped, OrderBook.Inv;
    var head := ObjectText(HeaderFields(cfg));
    out' := WriteHeader(cfg, out);
    NoText(out);
    LinesSnoc(out, [], head);
    ghost var blocks: seq<SnapshotBook> := [];
    EngineStart(cfg);
    DumpStart(books);
    var rest := books.Keys;
    while rest != {}
      invariant out' == out + TextOf(EngineLines(cfg, blocks)) && Dumped(books, rest, blocks) && rest <= books.Keys
      decreases |rest|
    {
      HasLeast(rest);
      var sym :| sym in rest && forall s :: s in rest ==> sym <= s;
      ghost var block := Block(books[sym], sym);
      ghost var lines, more := EngineLines(cfg, blocks), BookLines(block);
      out' := WriteBook(books[sym], sym, out');
      TextAppend(lines, more);
      EngineNext(cfg, blocks, block);
      assert out + TextOf(lines) + TextOf(more) == out + (TextOf(lines) + TextOf(more));
      DumpNext(books, rest, blocks, sym);
      blocks := blocks + [block];
      rest := rest - {sym};
    }
    assert out'[|out|..] == TextOf(EngineLines(cfg, blocks));
  }

  lemma EngineStart(cfg: BookConfig)
    ensures [] + [ObjectText(HeaderFields(cfg))] == EngineLines(cfg, [])
  {
  }

  lemma DumpStart(books: map<Symbol, OrderBook>)
    requires forall s :: s in books ==> books[s].seqNo < TWO_TO_64
    ensures Dumped(books, books.Keys, [])
  {
  }

  lemma {:induction false} HasLeast(s: set<Symbol>)
    requires s != {}
    ensures exists m :: m in s && forall x :: x in s ==> m <= x
  {
    var values: set<Price> := s;
    PriceIndexes.HasMin(values);
  }

  lemma MoreBlocks(blocks: seq<SnapshotBook>, block: SnapshotBook)
    ensures HasBlock(blocks + [block], block.symbol)
    ensures forall s :: HasBlock(blocks, s) ==> HasBlock(blocks + [block], s)
  {
    assert (blocks + [block])[|blocks|] == block;
    forall s | HasBlock(blocks, s)
      ensures HasBlock(blocks + [block], s)
    {
      var i :| 0 <= i < |blocks| && blocks[i].symbol == s;
      assert (blocks + [block])[i] == blocks[i];
    }
  }

  lemma {:induction false} BooksNext(blocks: seq<SnapshotBook>, block: SnapshotBook)
    ensures BooksLines(blocks + [block]) == BooksLines(blocks) + BookLines(block)
  {
    hide BookLines;
    if blocks == [] {
      assert (blocks + [block])[1..] == [];
    } else {
      assert (blocks + [block])[1..] == blocks[1..] + [block];
      BooksNext(blocks[1..], block);
    }
  }

  lemma EngineNext(cfg: BookConfig, blocks: seq<SnapshotBook>, block: SnapshotBook)
    ensures EngineLines(cfg, blocks + [block]) == EngineLines(cfg, blocks) + BookLines(block)
  {
    hide BooksLines, BookLines, ObjectText;
    BooksNext(blocks, block);
  }

  // The last block of a symbol is the one that counts.
  function LastBlock(blocks: seq<SnapshotBook>, s: Symbol): Option<SnapshotBook> {
    if blocks == [] then None
    else if blocks[|blocks| - 1].symbol == s then Some(blocks[|blocks| - 1])
    else LastBlock(blocks[..|blocks| - 1], s)
  }

  // `b` is the book a block describes, under the document's configuration; it is
  // well formed exactly when the block's orders are loadable.
  ghost predicate Rebuilt(b: OrderBook, block: SnapshotBook, cfg: BookConfig)
    reads b, b.store, b.idsRepr, b.bidsRepr, b.asksRepr
  {
    && b.Inv(None, None) && b.View() == AsBook(Loaded(block.orders), block.seqNo, cfg)
    && (b.Valid() <==> Loadable(cfg, block.orders))
  }

  // Every block becomes a book under the document's configuration.
  method RestoreEngine(parsed: ParsedSnapshot, mix: Probing.Hash) returns (books: map<Symbol, OrderBook>)
    requires parsed.cfg.maxOrders <= MAX_ORDERS && RangeOk(parsed.cfg)
    requires forall i :: 0 <= i < |parsed.books| ==> Insertable(parsed.cfg, parsed.books[i].orders)
    ensures forall s :: s in books <==> LastBlock(parsed.books, s).Some?
    ensures forall s :: s in books ==>
              fresh(books[s]) && Rebuilt(books[s], LastBlock(parsed.books, s).value, parsed.cfg)
    ensures forall i :: 0 <= i < |parsed.books| && NoneLater(parsed.books, i) ==>
              parsed.books[i].symbol in books && Rebuilt(books[parsed.books[i].symbol], parsed.books[i], parsed.cfg)
  {
    hide OrderBook.Valid, OrderBook.Inv, OrderBook.View, Loaded, Insertable, Loadable;
    books := map[];
    for i := 0 to |parsed.books|
      invariant forall s :: s in books <==> LastBlock(parsed.books[..i], s).Some?
      invariant forall s :: s in books ==>
                  fresh(books[s]) && Rebuilt(books[s], LastBlock(parsed.books[..i], s).value, parsed.cfg)
    {
      var block := parsed.books[i];
      var b := Restore(parsed.cfg, mix, block.seqNo, block.orders);
      assert parsed.books[..i + 1][..i] == parsed.books[..i];
      books := books[block.symbol := b];
    }
    assert parsed.books[..|parsed.books|] == parsed.books;
    forall i | 0 <= i < |parsed.books| && NoneLater(parsed.books, i)
      ensures LastBlock(parsed.books, parsed.books[i].symbol) == Some(parsed.books[i])
    {
      LastOf(parsed.books, i);
    }
  }

  // No block after the i-th has its symbol.
  ghost predicate NoneLater(blocks: seq<SnapshotBook>, i: nat)
    requires i < |blocks|
  {
    forall j :: i < j < |blocks| ==> blocks[j].symbol != blocks[i].symbol
  }

  lemma {:induction false} LastOf(blocks: seq<SnapshotBook>, i: nat)
    requires i < |blocks| && NoneLater(blocks, i)
    ensures LastBlock(blocks, blocks[i].symbol) == Some(blocks[i])
  {
    var n := |blocks| - 1;
    if i < n {
      assert blocks[n].symbol != blocks[i].symbol;
      LastOf(blocks[..n], i);
    }
  }

  // ---- save and restore -------------------------------------------------------------------

  // A dump has one block per symbol, so it is also the last.
  lemma LastIsOnly(blocks: seq<SnapshotBook>, i: nat)
    requires i < |blocks| && forall j, k :: 0 <= j < k < |blocks| ==> blocks[j].symbol < blocks[k].symbol
    ensures LastBlock(blocks, blocks[i].symbol) == Some(blocks[i])
  {
    LastOf(blocks, i);
  }

  lemma {:induction false} LastHas(blocks: seq<SnapshotBook>, s: Symbol)
    ensures LastBlock(blocks, s).Some? <==> HasBlock(blocks, s)
  {
    if blocks != [] {
      var n := |blocks| - 1;
      LastHas(blocks[..n], s);
      MoreBlocks(blocks[..n], blocks[n]);
      assert blocks[..n] + [blocks[n]] == blocks;
      if HasBlock(blocks, s) && blocks[n].symbol != s {
        var i :| 0 <= i < |blocks| && blocks[i].symbol == s;
        assert blocks[..n][i].symbol == s;
      }
    }
  }

  // The blocks of a dump are exactly those of its books.
  lemma DumpBlocks(books: map<Symbol, OrderBook>, blocks: seq<SnapshotBook>, s: Symbol)
    requires forall s :: s in books ==> books[s].seqNo < TWO_TO_64
    requires Dumped(books, {}, blocks)
    ensures LastBlock(blocks, s) == if s in books then Some(Block(books[s], s)) else None
  {
    hide Block;
    LastHas(blocks, s);
    if HasBlock(blocks, s) {
      var i :| 0 <= i < |blocks| && blocks[i].symbol == s;
      assert BlockOf(books, blocks[i]);
      LastIsOnly(blocks, i);
    }
  }

  lemma DumpInsertable(books: map<Symbol, OrderBook>, blocks: seq<SnapshotBook>, cfg: BookConfig)
    requires forall s :: s in books ==> books[s].Valid() && books[s].seqNo < TWO_TO_64 && Fits(cfg, books[s].View())
    requires Dumped(books, {}, blocks)
    ensures forall i :: 0 <= i < |blocks| ==> Insertable(cfg, blocks[i].orders)
  {
    hide Insertable, Loadable, Loaded, WellFormed, Fits;
    forall i | 0 <= i < |blocks|
      ensures Insertable(cfg, blocks[i].orders)
    {
      assert BlockOf(books, blocks[i]);
      BookLoadable(books[blocks[i].symbol].View(), cfg);
    }
  }

  lemma RebuiltSame(b: OrderBook, c: OrderBook, sym: Symbol, cfg: BookConfig)
    requires b.Valid() && b.seqNo < TWO_TO_64 && Fits(cfg, b.View()) && Rebuilt(c, Block(b, sym), cfg)
    ensures RestoredAs(c, b.View(), cfg)
  {
    hide Insertable, Loadable, Loaded, WellFormed, Fits, OrderBook.Inv;
    BookLoadable(b.View(), cfg);
  }

  // The restored book: the saved one under the document's configuration. It stands
  // for the same reference book exactly when that was its own.
  ghost predicate RestoredAs(c: OrderBook, b: Book, cfg: BookConfig)
    reads c, c.store, c.idsRepr, c.bidsRepr, c.asksRepr
  {
    c.Valid() && c.View() == b.(cfg := cfg) && (c.View() == b <==> b.cfg == cfg)
  }

  ghost predicate Ascending(blocks: seq<SnapshotBook>) {
    forall j, k :: 0 <= j < k < |blocks| ==> blocks[j].symbol < blocks[k].symbol
  }

  lemma LastOfFront(a: seq<SnapshotBook>, s: Symbol)
    requires Ascending(a) && a != []
    ensures LastBlock(a[..|a| - 1], s) == if s == a[|a| - 1].symbol then None else LastBlock(a, s)
  {
    var n := |a| - 1;
    LastHas(a[..n], s);
    assert forall i :: 0 <= i < n ==> a[..n][i].symbol < a[n].symbol;
  }

  lemma LastNotAfter(a: seq<SnapshotBook>, s: Symbol)
    requires Ascending(a) && LastBlock(a, s).Some?
    ensures a != [] && s <= a[|a| - 1].symbol
  {
    LastHas(a, s);
    var i :| 0 <= i < |a| && a[i].symbol == s;
    assert i < |a| - 1 ==> a[i].symbol < a[|a| - 1].symbol;
  }

  // Ascending documents that agree on every symbol are the same.
  lemma {:induction false} AscendingSame(a: seq<SnapshotBook>, b: seq<SnapshotBook>)
    requires Ascending(a) && Ascending(b) && forall s: Symbol :: LastBlock(a, s) == LastBlock(b, s)
    ensures a == b
    decreases |a|
  {
    if a == [] {
      assert b != [] ==> LastBlock(b, b[|b| - 1].symbol).Some?;
    } else {
      var (n, s) := (|a| - 1, a[|a| - 1].symbol);
      assert LastBlock(a, s) == Some(a[n]);
      LastNotAfter(b, s);
      var (m, t) := (|b| - 1, b[|b| - 1].symbol);
      assert LastBlock(b, t) == Some(b[m]);
      LastNotAfter(a, t);
      forall x: Symbol
        ensures LastBlock(a[..n], x) == LastBlock(b[..m], x)
      {
        LastOfFront(a, x);
        LastOfFront(b, x);
      }
      AscendingSame(a[..n], b[..m]);
      assert a == a[..n] + [a[n]] && b == b[..m] + [b[m]];
    }
  }

  // Writing an engine's books, of any configurations, parsing the document and
  // rebuilding it gives for the same symbols the same orders and sequence numbers
  // under the document's configuration. All it takes is that this one can hold the
  // orders: the source stops at one that has no room or no level for them.
  method SaveAndRestore(cfg: BookConfig, books: map<Symbol, OrderBook>, mix: Probing.Hash)
    returns (text: string, books': map<Symbol, OrderBook>)
    requires cfg.maxOrders <= MAX_ORDERS && RangeOk(cfg)
    requires forall s :: s in books ==> books[s].Valid() && books[s].seqNo < TWO_TO_64 && Fits(cfg, books[s].View())
    ensures Document(cfg, books, text)
    ensures books'.Keys == books.Keys
    ensures forall s :: s in books ==> RestoredAs(books'[s], books[s].View(), cfg)
  {
    hide OrderBook.Valid, OrderBook.View, OrderBook.Inv, Dumped, Block, Rebuilt, RestoredAs, Fits;
    hide TextOf, EngineLines, ParsedText, Insertable, Loadable, Loaded, LastBlock;
    ValidInv(books);
    text := WriteEngine(cfg, books, "");
    assert text[|""|..] == text;
    ghost var blocks: seq<SnapshotBook> :| Dumped(books, {}, blocks) && text == TextOf(EngineLines(cfg, blocks));
    ParseInvertsWrite(cfg, blocks);
    var parsed := Parse(text);
    DumpInsertable(books, blocks, cfg);
    forall s: Symbol
      ensures LastBlock(blocks, s) == if s in books then Some(Block(books[s], s)) else None
    {
      DumpBlocks(books, blocks, s);
    }
    books' := RestoreEngine(parsed.value, mix);
    forall s | s in books
      ensures RestoredAs(books'[s], books[s].View(), cfg)
    {
      RebuiltSame(books[s], books'[s], s, cfg);
    }
  }

  lemma ValidInv(books: map<Symbol, OrderBook>)
    requires forall s :: s in books ==> books[s].Valid()
    ensures forall s :: s in books ==> books[s].Inv(None, None)
  {
    hide OrderBook.Inv;
  }

  // And writing the rebuilt books gives the same document.
  method SaveAgain(cfg: BookConfig, books: map<Symbol, OrderBook>, mix: Probing.Hash)
    returns (text: string, again: string)
    requires cfg.maxOrders <= MAX_ORDERS && RangeOk(cfg)
    requires forall s :: s in books ==> books[s].Valid() && books[s].seqNo < TWO_TO_64 && Fits(cfg, books[s].View())
    ensures Document(cfg, books, text) && again == text
  {
    hide OrderBook.Valid, OrderBook.Inv, Document, Fits;
    var books';
    text, books' := SaveAndRestore(cfg, books, mix);
    ValidInv(books');
    again := WriteEngine(cfg, books', "");
    assert again[|""|..] == again;
    DocumentSame(cfg, books, books', text, again);
  }

  // A document says nothing of a book but its orders and its sequence number:
  // books that agree on these have one document, whatever their configurations.
  lemma DocumentSame(cfg: BookConfig, books: map<Symbol, OrderBook>, books': map<Symbol, OrderBook>, text: string,
                     text': string)
    requires books'.Keys == books.Keys
    requires forall s :: s in books ==> books[s].seqNo < TWO_TO_64
    requires forall s :: s in books' ==> books'[s].seqNo < TWO_TO_64
    requires forall s :: s in books ==> books'[s].q == books[s].q && books'[s].seqNo == books[s].seqNo
    requires Document(cfg, books, text) && Document(cfg, books', text')
    ensures text == text'
  {
    hide Dumped, TextOf, EngineLines, LastBlock;
    var blocks: seq<SnapshotBook> :| Dumped(books, {}, blocks) && text == TextOf(EngineLines(cfg, blocks));
    var blocks': seq<SnapshotBook> :| Dumped(books', {}, blocks') && text' == TextOf(EngineLines(cfg, blocks'));
    forall s: Symbol
      ensures LastBlock(blocks, s) == LastBlock(blocks', s)
    {
      DumpBlocks(books, blocks, s);
      DumpBlocks(books', blocks', s);
    }
    DumpAscends(books, blocks);
    DumpAscends(books', blocks');
    AscendingSame(blocks, blocks');
  }

  lemma DumpAscends(books: map<Symbol, OrderBook>, blocks: seq<SnapshotBook>)
    requires forall s :: s in books ==> books[s].seqNo < TWO_TO_64
    requires Dumped(books, {}, blocks)
    ensures Ascending(blocks)
  {
  }
}
