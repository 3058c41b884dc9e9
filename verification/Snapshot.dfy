// The snapshot document and its inverse: src/snapshot.rs:15-131.

module Snapshot {
  import opened Types
  import opened JsonFlat
  import opened CommandText

  // One book of a document: symbol, last sequence number, resting orders in book order.
  datatype SnapshotBook = SnapshotBook(symbol: Symbol, seqNo: u64, orders: seq<RestingOrder>)

  datatype ParsedSnapshot = ParsedSnapshot(cfg: BookConfig, books: seq<SnapshotBook>)

  // ---- the document ---------------------------------------------------------------

  function IndexText(k: IndexKind): string {
    if k.LadderKind? then "ladder" else "tree"
  }

  function HeaderFields(cfg: BookConfig): seq<Field> {
    [Field("format", Text("matcher-snap/1")), Field("pmin", Number(SignedDecimal(cfg.priceMin))),
     Field("pmax", Number(SignedDecimal(cfg.priceMax))), Field("max_orders", Number(Decimal(cfg.maxOrders))),
     Field("index", Text(IndexText(cfg.index)))]
  }

  function BookFields(sym: Symbol, seqNo: nat): seq<Field> {
    [Field("rec", Text("book")), Field("symbol", Number(Decimal(sym))), Field("seq", Number(Decimal(seqNo)))]
  }

  function OrderFields(o: RestingOrder): seq<Field> {
    [Field("rec", Text("order")), Field("order_id", Number(Decimal(o.orderId))), Field("side", Text(SideText(o.side))),
     Field("otype", Text("limit")), Field("tif", Text(TifText(o.tif))), Field("price", Number(SignedDecimal(o.price))),
     Field("qty", Number(Decimal(o.qty)))]
  }

  function OrderLines(orders: seq<RestingOrder>): seq<string> {
    if orders == [] then [] else [ObjectText(OrderFields(orders[0]))] + OrderLines(orders[1..])
  }

  function BookLines(b: SnapshotBook): seq<string> {
    [ObjectText(BookFields(b.symbol, b.seqNo))] + OrderLines(b.orders)
  }

  function BooksLines(books: seq<SnapshotBook>): seq<string> {
    if books == [] then [] else BookLines(books[0]) + BooksLines(books[1..])
  }

  function EngineLines(cfg: BookConfig, books: seq<SnapshotBook>): seq<string> {
    [ObjectText(HeaderFields(cfg))] + BooksLines(books)
  }

  // Each line with its line feed.
  function TextOf(lines: seq<string>): string {
    if lines == [] then [] else lines[0] + ['\n'] + TextOf(lines[1..])
  }

  // ---- the lines, written out ---------------------------------------------------------

  function HeaderLine(cfg: BookConfig): string {
    "{\"format\":\"" + "matcher-snap/1" + "\"" + ",\"pmin\":" + SignedDecimal(cfg.priceMin)
    + ",\"pmax\":" + SignedDecimal(cfg.priceMax) + ",\"max_orders\":" + Decimal(cfg.maxOrders)
    + ",\"index\":\"" + (match cfg.index case LadderKind => "ladder" case TreeKind => "tree") + "\"" + "}"
  }

  function BookHeadLine(sym: Symbol, seqNo: nat): string {
    "{\"rec\":\"" + "book" + "\"" + ",\"symbol\":" + Decimal(sym) + ",\"seq\":" + Decimal(seqNo) + "}"
  }

  function RestingLine(o: RestingOrder): string {
    RestingStart(o)
    + ",\"tif\":\""
    + (match o.tif case Gtc => "gtc" case Ioc => "ioc" case Fok => "fok" case PostOnly => "post_only") + "\""
    + ",\"price\":" + SignedDecimal(o.price) + ",\"qty\":" + Decimal(o.qty) + "}"
  }

  function RestingStart(o: RestingOrder): string {
    "{\"rec\":\"" + "order" + "\"" + ",\"order_id\":" + Decimal(o.orderId)
    + ",\"side\":\"" + (match o.side case Bid => "bid" case Ask => "ask") + "\""
    + ",\"otype\":\"" + "limit" + "\""
  }

  lemma SnapPieces()
    ensures "{\"rec\":\"" == ['{'] + Pattern("rec") + ['"']
    ensures "{\"format\":\"" == ['{'] + Pattern("format") + ['"']
    ensures ",\"seq\":" == [','] + Pattern("seq")
    ensures ",\"pmin\":" == [','] + Pattern("pmin")
    ensures ",\"pmax\":" == [','] + Pattern("pmax")
    ensures ",\"max_orders\":" == [','] + Pattern("max_orders")
    ensures ",\"index\":\"" == [','] + Pattern("index") + "\""
  {
  }

  lemma FirstText(key: string, text: string, piece: string)
    requires piece == ['{'] + Pattern(key) + ['"']
    ensures OpenText([Field(key, Text(text))]) == piece + text + "\""
  {
    hide OpenText, Pattern;
    OpenFirst(key, text);
  }

  lemma HeaderIs(cfg: BookConfig)
    ensures ObjectText(HeaderFields(cfg)) == HeaderLine(cfg)
  {
    hide OpenText, ObjectText, Pattern, Decimal, SignedDecimal;
    SnapPieces();
    var fs0 := [Field("format", Text("matcher-snap/1"))];
    var fs1 := fs0 + [Field("pmin", Number(SignedDecimal(cfg.priceMin)))];
    var fs2 := fs1 + [Field("pmax", Number(SignedDecimal(cfg.priceMax)))];
    var fs3 := fs2 + [Field("max_orders", Number(Decimal(cfg.maxOrders)))];
    var fs4 := fs3 + [Field("index", Text(IndexText(cfg.index)))];
    FirstText("format", "matcher-snap/1", "{\"format\":\"");
    NumberNext(fs0, OpenText(fs0), ",\"pmin\":", "pmin", SignedDecimal(cfg.priceMin));
    NumberNext(fs1, OpenText(fs1), ",\"pmax\":", "pmax", SignedDecimal(cfg.priceMax));
    NumberNext(fs2, OpenText(fs2), ",\"max_orders\":", "max_orders", Decimal(cfg.maxOrders));
    TextNext(fs3, OpenText(fs3), ",\"index\":\"", "index", IndexText(cfg.index));
    assert fs4 == HeaderFields(cfg);
    LineClosed(fs4);
  }

  lemma BookHeadIs(sym: Symbol, seqNo: nat)
    ensures ObjectText(BookFields(sym, seqNo)) == BookHeadLine(sym, seqNo)
  {
    hide OpenText, ObjectText, Pattern, Decimal;
    Pieces();
    SnapPieces();
    var fs0 := [Field("rec", Text("book"))];
    var fs1 := fs0 + [Field("symbol", Number(Decimal(sym)))];
    var fs2 := fs1 + [Field("seq", Number(Decimal(seqNo)))];
    FirstText("rec", "book", "{\"rec\":\"");
    NumberNext(fs0, OpenText(fs0), ",\"symbol\":", "symbol", Decimal(sym));
    NumberNext(fs1, OpenText(fs1), ",\"seq\":", "seq", Decimal(seqNo));
    assert fs2 == BookFields(sym, seqNo);
    LineClosed(fs2);
  }

  lemma RestingStarts(o: RestingOrder)
    ensures OpenText([Field("rec", Text("order"))] + [Field("order_id", Number(Decimal(o.orderId)))]
                     + [Field("side", Text(SideText(o.side)))] + [Field("otype", Text("limit"))])
            == RestingStart(o)
  {
    hide OpenText, Pattern, Decimal;
    Pieces();
    SnapPieces();
    var fs0 := [Field("rec", Text("order"))];
    var fs1 := fs0 + [Field("order_id", Number(Decimal(o.orderId)))];
    var fs2 := fs1 + [Field("side", Text(SideText(o.side)))];
    FirstText("rec", "order", "{\"rec\":\"");
    NumberNext(fs0, OpenText(fs0), ",\"order_id\":", "order_id", Decimal(o.orderId));
    TextNext(fs1, OpenText(fs1), ",\"side\":\"", "side", SideText(o.side));
    TextNext(fs2, OpenText(fs2), ",\"otype\":\"", "otype", "limit");
  }

  lemma RestingIs(o: RestingOrder)
    ensures ObjectText(OrderFields(o)) == RestingLine(o)
  {
    hide OpenText, ObjectText, Pattern, Decimal, SignedDecimal, RestingStart, SideText;
    Pieces();
    RestingStarts(o);
    var fs3 := [Field("rec", Text("order"))] + [Field("order_id", Number(Decimal(o.orderId)))]
    + [Field("side", Text(SideText(o.side)))] + [Field("otype", Text("limit"))];
    var fs4 := fs3 + [Field("tif", Text(TifText(o.tif)))];
    var fs5 := fs4 + [Field("price", Number(SignedDecimal(o.price)))];
    var fs6 := fs5 + [Field("qty", Number(Decimal(o.qty)))];
    TextNext(fs3, OpenText(fs3), ",\"tif\":\"", "tif", TifText(o.tif));
    NumberNext(fs4, OpenText(fs4), ",\"price\":", "price", SignedDecimal(o.price));
    NumberNext(fs5, OpenText(fs5), ",\"qty\":", "qty", Decimal(o.qty));
    assert fs6 == OrderFields(o);
    LineClosed(fs6);
  }

  // ---- lines ------------------------------------------------------------------------

  function StripCr(s: string): string {
    if s != [] && s[|s| - 1] == '\r' then s[..|s| - 1] else s
  }

  // `str::lines`: split at line feeds, dropping a carriage return before one.
  function Lines(text: string): seq<string>
    decreases |text|
  {
    if text == [] then []
    else
      var l := Until(text, {'\n'});
      if |l| == |text| then [l] else [StripCr(l)] + Lines(text[|l| + 1..])
  }

  predicate OneLine(s: string) {
    forall i :: 0 <= i < |s| ==> s[i] != '\n' && s[i] != '\r'
  }

  lemma LinesNext(line: string, rest: string)
    requires OneLine(line)
    ensures Lines(line + ['\n'] + rest) == [line] + Lines(rest)
  {
    var text := line + ['\n'] + rest;
    assert text == line + (['\n'] + rest);
    UntilStop(line, ['\n'] + rest, {'\n'});
    assert text[|line| + 1..] == rest;
  }

  // A line may also end in carriage return and line feed.
  lemma LinesNextCr(line: string, rest: string)
    requires OneLine(line)
    ensures Lines(line + ['\r', '\n'] + rest) == [line] + Lines(rest)
  {
    var l := line + ['\r'];
    var text := line + ['\r', '\n'] + rest;
    assert text == l + (['\n'] + rest);
    UntilStop(l, ['\n'] + rest, {'\n'});
    assert text[|l| + 1..] == rest;
    assert l[..|l| - 1] == line;
  }

  lemma {:induction false} LinesOfText(lines: seq<string>)
    requires forall i :: 0 <= i < |lines| ==> OneLine(lines[i])
    ensures Lines(TextOf(lines)) == lines
  {
    hide Lines, OneLine;
    if lines == [] {
      NoLines();
    } else {
      LinesNext(lines[0], TextOf(lines[1..]));
      LinesOfText(lines[1..]);
    }
  }

  lemma NoLines()
    ensures Lines([]) == []
  {
  }

  lemma {:induction false} TextAppend(a: seq<string>, b: seq<string>)
    ensures TextOf(a + b) == TextOf(a) + TextOf(b)
  {
    if a == [] {
      assert a + b == b;
    } else {
      assert (a + b)[1..] == a[1..] + b;
      TextAppend(a[1..], b);
      assert a[0] + ['\n'] + (TextOf(a[1..]) + TextOf(b)) == a[0] + ['\n'] + TextOf(a[1..]) + TextOf(b);
    }
  }

  // An object of plain fields is one line.
  lemma {:induction false} FieldsOneLine(fs: seq<Field>)
    requires forall i :: 0 <= i < |fs| ==> FieldOk(fs[i])
    ensures OneLine(FieldsText(fs, ['}']))
  {
    if fs != [] {
      FieldsOneLine(fs[1..]);
      FieldOneLine(fs[0]);
    }
  }

  lemma FieldOneLine(f: Field)
    requires FieldOk(f)
    ensures OneLine(FieldText(f))
  {
    assert forall i :: 0 <= i < |f.key| ==> PlainChar(f.key[i]);
    assert forall i :: 0 <= i < |f.value.text| ==> PlainChar(f.value.text[i]);
  }

  lemma ObjectOneLine(fs: seq<Field>)
    requires forall i :: 0 <= i < |fs| ==> FieldOk(fs[i])
    ensures OneLine(ObjectText(fs))
  {
    FieldsOneLine(fs);
  }

  // ---- parsing -------------------------------------------------------------------------

  function OrElse<T>(o: Option<T>, d: T): T {
    if o.Some? then o.value else d
  }

  // The header; None where the source panics.
  function ParseHeader(line: string): Option<BookConfig> {
    if GetStr(line, "format") != Some("matcher-snap/1") then None
    else Some(BookConfig(OrElse(GetI64(line, "pmin"), 0), OrElse(GetI64(line, "pmax"), 1_000_000),
                         OrElse(GetU64(line, "max_orders"), 65_536),
                         if GetStr(line, "index") == Some("tree") then TreeKind else LadderKind))
  }

  function ParseBook(line: string): SnapshotBook {
    SnapshotBook(OrElse(GetU64(line, "symbol"), 0) % 0x1_0000_0000, OrElse(GetU64(line, "seq"), 0), [])
  }

  function ParseOrder(line: string): Option<RestingOrder> {
    var id := GetU64(line, "order_id");
    var side := if GetStr(line, "side") == Some("ask") then Ask else Bid;
    var tif := OrElse(ParseTif(GetStr(line, "tif")), Gtc);
    var price := GetI64(line, "price");
    var qty := GetU64(line, "qty");
    if id.None? || price.None? || qty.None? then None
    else Some(RestingOrder(id.value, side, tif, price.value, qty.value))
  }

  // One line after the header.
  function ParseLine(books: seq<SnapshotBook>, line: string): Option<seq<SnapshotBook>> {
    if line == [] then Some(books)
    else
      var rec := GetStr(line, "rec");
      if rec == Some("book") then Some(books + [ParseBook(line)])
      else if rec == Some("order") then
        var o := ParseOrder(line);
        if o.None? || books == [] then None
        else
          var last := books[|books| - 1];
          Some(books[..|books| - 1] + [last.(orders := last.orders + [o.value])])
      else None
  }

  function ParseLines(books: seq<SnapshotBook>, lines: seq<string>): Option<seq<SnapshotBook>>
    decreases |lines|
  {
    if lines == [] then Some(books)
    else
      var next := ParseLine(books, lines[0]);
      if next.None? then None else ParseLines(next.value, lines[1..])
  }

  function ParsedText(text: string): Option<ParsedSnapshot> {
    var lines := Lines(text);
    if lines == [] then None
    else
      var cfg := ParseHeader(lines[0]);
      var books := ParseLines([], lines[1..]);
      if cfg.None? || books.None? then None else Some(ParsedSnapshot(cfg.value, books.value))
  }

  // None where the source panics on a malformed document.
  method Parse(text: string) returns (r: Option<ParsedSnapshot>)
    ensures r == ParsedText(text)
  {
    hide ParseLine, ParseHeader, Lines;
    var lines := Lines(text);
    if lines == [] {
      return None;
    }
    var cfg := ParseHeader(lines[0]);
    if cfg.None? {
      return None;
    }
    var books := [];
    for i := 1 to |lines|
      invariant ParseLines([], lines[1..]) == ParseLines(books, lines[i..])
    {
      assert lines[i..][1..] == lines[i + 1..];
      var next := ParseLine(books, lines[i]);
      if next.None? {
        return None;
      }
      books := next.value;
    }
    r := Some(ParsedSnapshot(cfg.value, books));
  }

  // ---- what is parsed ----------------------------------------------------------------------

  // The number a text says, or the default where it says none.
  ghost predicate U64Or(t: Option<string>, d: u64, v: u64) {
    SaysU64(t, v) || (v == d && forall x: u64 :: !SaysU64(t, x))
  }

  ghost predicate I64Or(t: Option<string>, d: i64, v: i64) {
    SaysI64(t, v) || (v == d && forall x: i64 :: !SaysI64(t, x))
  }

  lemma NumberOr(line: string, key: string, d: u64, v: u64)
    ensures OrElse(GetU64(line, key), d) == v <==> U64Or(GetStr(line, key), d, v)
  {
    hide GetStr, GetU64, SaysU64;
    forall x: u64
      ensures GetU64(line, key) == Some(x) <==> SaysU64(GetStr(line, key), x)
    {
      NumbersExact(line, key, x, 0);
    }
  }

  lemma SignedOr(line: string, key: string, d: i64, v: i64)
    ensures OrElse(GetI64(line, key), d) == v <==> I64Or(GetStr(line, key), d, v)
  {
    hide GetStr, GetI64, SaysI64;
    forall x: i64
      ensures GetI64(line, key) == Some(x) <==> SaysI64(GetStr(line, key), x)
    {
      NumbersExact(line, key, 0, x);
    }
  }

  ghost predicate SaysHeader(fs: seq<Field>, cfg: BookConfig) {
    && Lookup(fs, "format") == Some("matcher-snap/1")
    && I64Or(Lookup(fs, "pmin"), 0, cfg.priceMin) && I64Or(Lookup(fs, "pmax"), 1_000_000, cfg.priceMax)
    && cfg.maxOrders < TWO_TO_64 && U64Or(Lookup(fs, "max_orders"), 65_536, cfg.maxOrders)
    && (cfg.index.TreeKind? <==> Lookup(fs, "index") == Some("tree"))
  }

  // A flat object is the header of exactly this configuration.
  lemma HeaderExact(fs: seq<Field>, cfg: BookConfig)
    requires forall i :: 0 <= i < |fs| ==> FieldOk(fs[i])
    ensures ParseHeader("{" + Written(fs) + "}") == Some(cfg) <==> SaysHeader(fs, cfg)
  {
    hide GetStr, GetU64, GetI64, ObjectText, Lookup, FieldOk, Written, U64Or, I64Or, Plain;
    ObjectWritten(fs);
    SnapKeysPlain();
    var line := ObjectText(fs);
    GetObjectField(fs, "format");
    GetObjectField(fs, "pmin");
    GetObjectField(fs, "pmax");
    GetObjectField(fs, "max_orders");
    GetObjectField(fs, "index");
    SignedOr(line, "pmin", 0, cfg.priceMin);
    SignedOr(line, "pmax", 1_000_000, cfg.priceMax);
    if cfg.maxOrders < TWO_TO_64 { NumberOr(line, "max_orders", 65_536, cfg.maxOrders); }
  }

  // A book record opens a book, its numbers 0 where they are missing.
  lemma BookExact(books: seq<SnapshotBook>, fs: seq<Field>, sym: u64, seqNo: u64)
    requires (forall i :: 0 <= i < |fs| ==> FieldOk(fs[i])) && Lookup(fs, "rec") == Some("book")
    requires U64Or(Lookup(fs, "symbol"), 0, sym) && U64Or(Lookup(fs, "seq"), 0, seqNo)
    ensures ParseLine(books, "{" + Written(fs) + "}") == Some(books + [SnapshotBook(sym % 0x1_0000_0000, seqNo, [])])
  {
    hide GetStr, GetU64, FieldsText, Lookup, FieldOk, Written, U64Or, Plain;
    ObjectWritten(fs);
    SnapKeysPlain();
    KeysPlain();
    var line := ObjectText(fs);
    GetObjectField(fs, "rec");
    GetObjectField(fs, "symbol");
    GetObjectField(fs, "seq");
    NumberOr(line, "symbol", 0, sym);
    NumberOr(line, "seq", 0, seqNo);
  }

  // A side that is not "ask" is the bid, a time in force of no other name is gtc.
  ghost predicate SaysOrder(fs: seq<Field>, o: RestingOrder) {
    && SaysU64(Lookup(fs, "order_id"), o.orderId)
    && (o.side.Ask? <==> Lookup(fs, "side") == Some("ask"))
    && (o.tif.Ioc? <==> Lookup(fs, "tif") == Some("ioc"))
    && (o.tif.Fok? <==> Lookup(fs, "tif") == Some("fok"))
    && (o.tif.PostOnly? <==> Lookup(fs, "tif") == Some("post_only"))
    && SaysI64(Lookup(fs, "price"), o.price) && SaysU64(Lookup(fs, "qty"), o.qty)
  }

  lemma OrderParsed(fs: seq<Field>, o: RestingOrder)
    requires forall i :: 0 <= i < |fs| ==> FieldOk(fs[i])
    ensures ParseOrder(ObjectText(fs)) == Some(o) <==> SaysOrder(fs, o)
  {
    hide GetStr, GetU64, GetI64, ObjectText, Lookup, FieldOk, SaysU64, SaysI64;
    var line := ObjectText(fs);
    ReadKeys(fs);
    NumbersExact(line, "order_id", o.orderId, 0);
    NumbersExact(line, "qty", o.qty, 0);
    NumbersExact(line, "price", 0, o.price);
  }

  // What the line loop does with an order record.
  lemma OrderRecord(books: seq<SnapshotBook>, line: string)
    requires line != [] && GetStr(line, "rec") == Some("order")
    ensures ParseLine(books, line) ==
            if ParseOrder(line).None? || books == [] then None
            else
              var last := books[|books| - 1];
              Some(books[..|books| - 1] + [last.(orders := last.orders + [ParseOrder(line).value])])
  {
    hide GetStr, ParseOrder;
  }

  lemma RecordOf(fs: seq<Field>)
    requires forall i :: 0 <= i < |fs| ==> FieldOk(fs[i])
    ensures ObjectText(fs) != [] && GetStr(ObjectText(fs), "rec") == Lookup(fs, "rec")
  {
    hide GetStr, FieldsText, Lookup, FieldOk, Plain;
    SnapKeysPlain();
    GetObjectField(fs, "rec");
  }

  // An order record adds exactly the order it says to the last book.
  lemma OrderExact(books: seq<SnapshotBook>, fs: seq<Field>, o: RestingOrder)
    requires (forall i :: 0 <= i < |fs| ==> FieldOk(fs[i])) && Lookup(fs, "rec") == Some("order")
    requires books != [] && SaysOrder(fs, o)
    ensures var last := books[|books| - 1];
            ParseLine(books, "{" + Written(fs) + "}")
            == Some(books[..|books| - 1] + [last.(orders := last.orders + [o])])
  {
    hide GetStr, ParseOrder, ParseLine, ObjectText, Lookup, FieldOk, Written, SaysOrder;
    ObjectWritten(fs);
    RecordOf(fs);
    OrderParsed(fs, o);
    OrderRecord(books, ObjectText(fs));
  }

  // Without a book to add to, or an order to add, the document is malformed.
  lemma OrderMalformed(books: seq<SnapshotBook>, fs: seq<Field>)
    requires (forall i :: 0 <= i < |fs| ==> FieldOk(fs[i])) && Lookup(fs, "rec") == Some("order")
    requires books == [] || forall o :: !SaysOrder(fs, o)
    ensures ParseLine(books, "{" + Written(fs) + "}") == None
  {
    hide GetStr, ParseOrder, ParseLine, ObjectText, Lookup, FieldOk, Written, SaysOrder;
    ObjectWritten(fs);
    RecordOf(fs);
    OrderRecord(books, ObjectText(fs));
    if ParseOrder(ObjectText(fs)).Some? {
      OrderParsed(fs, ParseOrder(ObjectText(fs)).value);
    }
  }

  // An empty line is skipped.
  lemma EmptySkipped(books: seq<SnapshotBook>)
    ensures ParseLine(books, "") == Some(books)
  {
  }

  // Any other record is malformed.
  lemma OtherExact(books: seq<SnapshotBook>, fs: seq<Field>)
    requires (forall i :: 0 <= i < |fs| ==> FieldOk(fs[i]))
    requires Lookup(fs, "rec") != Some("book") && Lookup(fs, "rec") != Some("order")
    ensures ParseLine(books, "{" + Written(fs) + "}") == None
  {
    hide GetStr, ObjectText, Lookup, FieldOk, Written;
    ObjectWritten(fs);
    RecordOf(fs);
  }

  // ---- the round trip --------------------------------------------------------------------

  lemma SnapKeysPlain()
    ensures Plain("format") && Plain("pmin") && Plain("pmax") && Plain("max_orders") && Plain("index")
    ensures Plain("rec") && Plain("seq")
  {
  }

  lemma SnapNamesPlain(k: IndexKind)
    ensures Plain("matcher-snap/1") && Plain("book") && Plain("order") && Plain("limit") && Plain(IndexText(k))
  {
  }

  lemma HeaderOk(cfg: BookConfig)
    ensures forall i :: 0 <= i < |HeaderFields(cfg)| ==> FieldOk(HeaderFields(cfg)[i])
  {
    hide Plain, Decimal, SignedDecimal;
    SnapKeysPlain();
    SnapNamesPlain(cfg.index);
    SignedPlain(cfg.priceMin);
    SignedPlain(cfg.priceMax);
    DigitsPlain(cfg.maxOrders);
  }

  lemma BookFieldsOk(sym: Symbol, seqNo: nat)
    ensures forall i :: 0 <= i < |BookFields(sym, seqNo)| ==> FieldOk(BookFields(sym, seqNo)[i])
  {
    hide Plain, Decimal;
    SnapKeysPlain();
    KeysPlain();
    SnapNamesPlain(LadderKind);
    DigitsPlain(sym);
    DigitsPlain(seqNo);
  }

  lemma OrderFieldsOk(o: RestingOrder)
    ensures forall i :: 0 <= i < |OrderFields(o)| ==> FieldOk(OrderFields(o)[i])
  {
    hide Plain, Decimal, SignedDecimal;
    SnapKeysPlain();
    KeysPlain();
    SnapNamesPlain(LadderKind);
    SideTextPlain(o.side);
    TifTextPlain(o.tif);
    DigitsPlain(o.orderId);
    DigitsPlain(o.qty);
    SignedPlain(o.price);
  }

  // A key of a written line reads back the value at its position.
  lemma ReadAt(fs: seq<Field>, i: nat, key: string)
    requires forall j :: 0 <= j < |fs| ==> FieldOk(fs[j])
    requires i < |fs| && fs[i].key == key && forall j :: 0 <= j < i ==> fs[j].key != key
    requires key != []
    ensures GetStr(ObjectText(fs), key) == Some(fs[i].value.text)
  {
    hide GetStr, ObjectText, Lookup;
    assert FieldOk(fs[i]);
    GetObjectField(fs, key);
    LookupAt(fs, i, key);
  }

  lemma HeaderParses(cfg: BookConfig)
    requires cfg.maxOrders < TWO_TO_64
    ensures ParseHeader(ObjectText(HeaderFields(cfg))) == Some(cfg)
  {
    hide GetStr, ObjectText, FieldOk, ParseU64, ParseI64, Decimal, SignedDecimal;
    var fs := HeaderFields(cfg);
    HeaderOk(cfg);
    ReadAt(fs, 0, "format");
    ReadAt(fs, 1, "pmin");
    ReadAt(fs, 2, "pmax");
    ReadAt(fs, 3, "max_orders");
    ReadAt(fs, 4, "index");
    ParseSigned(cfg.priceMin);
    ParseSigned(cfg.priceMax);
    ParseDecimal(cfg.maxOrders);
  }

  // A header that names only the format gets the default configuration.
  lemma HeaderDefaults()
    ensures ParseHeader(ObjectText([Field("format", Text("matcher-snap/1"))]))
         == Some(BookConfig(0, 1_000_000, 65_536, LadderKind))
  {
    hide GetStr, ObjectText, Plain;
    var fs := [Field("format", Text("matcher-snap/1"))];
    SnapKeysPlain();
    SnapNamesPlain(LadderKind);
    ReadAt(fs, 0, "format");
    GetObjectField(fs, "pmin");
    GetObjectField(fs, "pmax");
    GetObjectField(fs, "max_orders");
    GetObjectField(fs, "index");
  }

  lemma BookParses(sym: Symbol, seqNo: u64)
    ensures var line := ObjectText(BookFields(sym, seqNo));
            line != [] && GetStr(line, "rec") == Some("book") && ParseBook(line) == SnapshotBook(sym, seqNo, [])
  {
    hide GetStr, FieldsText, FieldOk, ParseU64, Decimal;
    var fs := BookFields(sym, seqNo);
    BookFieldsOk(sym, seqNo);
    ReadAt(fs, 0, "rec");
    ReadAt(fs, 1, "symbol");
    ReadAt(fs, 2, "seq");
    ParseDecimal(sym);
    ParseDecimal(seqNo);
  }

  lemma OrderParses(o: RestingOrder)
    ensures var line := ObjectText(OrderFields(o));
            line != [] && GetStr(line, "rec") == Some("order") && ParseOrder(line) == Some(o)
  {
    hide GetStr, FieldsText, FieldOk, ParseU64, ParseI64, Decimal, SignedDecimal;
    var fs := OrderFields(o);
    OrderFieldsOk(o);
    ReadAt(fs, 0, "rec");
    ReadAt(fs, 1, "order_id");
    ReadAt(fs, 2, "side");
    ReadAt(fs, 4, "tif");
    ReadAt(fs, 5, "price");
    ReadAt(fs, 6, "qty");
    ParseDecimal(o.orderId);
    NamesParse(o.side, Limit, o.tif);
    ParseSigned(o.price);
    ParseDecimal(o.qty);
  }

  lemma ParseNext(books: seq<SnapshotBook>, line: string, rest: seq<string>, next: seq<SnapshotBook>)
    requires ParseLine(books, line) == Some(next)
    ensures ParseLines(books, [line] + rest) == ParseLines(next, rest)
  {
    hide ParseLine;
    assert ([line] + rest)[1..] == rest;
  }

  lemma ParseNone(books: seq<SnapshotBook>)
    ensures ParseLines(books, []) == Some(books)
  {
  }

  // A written order line extends the last book, a written book line opens one.
  lemma OrderLine(books: seq<SnapshotBook>, b: SnapshotBook, o: RestingOrder)
    ensures ParseLine(books + [b], ObjectText(OrderFields(o))) == Some(books + [b.(orders := b.orders + [o])])
  {
    hide ParseOrder, ObjectText, OrderFields, GetStr;
    OrderParses(o);
    assert (books + [b])[..|books|] == books;
  }

  lemma BookLine(books: seq<SnapshotBook>, sym: Symbol, seqNo: u64)
    ensures ParseLine(books, ObjectText(BookFields(sym, seqNo))) == Some(books + [SnapshotBook(sym, seqNo, [])])
  {
    hide ParseBook, ObjectText, BookFields, GetStr;
    BookParses(sym, seqNo);
  }

  lemma OrderLinesFront(orders: seq<RestingOrder>, rest: seq<string>)
    ensures orders == [] ==> OrderLines(orders) + rest == rest
    ensures orders != [] ==>
              OrderLines(orders) + rest == [ObjectText(OrderFields(orders[0]))] + (OrderLines(orders[1..]) + rest)
  {
    hide ObjectText, OrderFields;
  }

  lemma {:induction false} OrdersParse(books: seq<SnapshotBook>, b: SnapshotBook, orders: seq<RestingOrder>,
                                       rest: seq<string>)
    ensures ParseLines(books + [b], OrderLines(orders) + rest)
            == ParseLines(books + [b.(orders := b.orders + orders)], rest)
    decreases |orders|
  {
    hide ParseLine, ParseLines, ObjectText, OrderFields, OrderLines;
    OrderLinesFront(orders, rest);
    if orders == [] {
      assert b.(orders := b.orders + orders) == b;
    } else {
      var line := ObjectText(OrderFields(orders[0]));
      var b1 := b.(orders := b.orders + [orders[0]]);
      OrderLine(books, b, orders[0]);
      ParseNext(books + [b], line, OrderLines(orders[1..]) + rest, books + [b1]);
      OrdersParse(books, b1, orders[1..], rest);
      assert b.orders + [orders[0]] + orders[1..] == b.orders + orders;
    }
  }

  lemma {:induction false} BooksParse(before: seq<SnapshotBook>, books: seq<SnapshotBook>)
    ensures ParseLines(before, BooksLines(books)) == Some(before + books)
    decreases |books|
  {
    hide ParseLine, ParseLines, ObjectText, BookFields, OrderLines;
    if books == [] {
      ParseNone(before);
      assert before + books == before;
    } else {
      var b := books[0];
      var line := ObjectText(BookFields(b.symbol, b.seqNo));
      var rest := BooksLines(books[1..]);
      var empty := SnapshotBook(b.symbol, b.seqNo, []);
      BookLine(before, b.symbol, b.seqNo);
      ParseNext(before, line, OrderLines(b.orders) + rest, before + [empty]);
      assert BooksLines(books) == [line] + (OrderLines(b.orders) + rest);
      OrdersParse(before, empty, b.orders, rest);
      assert [] + b.orders == b.orders;
      BooksParse(before + [b], books[1..]);
      assert before + [b] + books[1..] == before + books;
    }
  }

  lemma {:induction false} OrderLinesOk(orders: seq<RestingOrder>)
    ensures forall i :: 0 <= i < |OrderLines(orders)| ==> OneLine(OrderLines(orders)[i])
  {
    hide OneLine;
    if orders != [] {
      OrderFieldsOk(orders[0]);
      ObjectOneLine(OrderFields(orders[0]));
      OrderLinesOk(orders[1..]);
    }
  }

  lemma {:induction false} BooksLinesOk(books: seq<SnapshotBook>)
    ensures forall i :: 0 <= i < |BooksLines(books)| ==> OneLine(BooksLines(books)[i])
  {
    hide OneLine;
    if books != [] {
      var b := books[0];
      BookFieldsOk(b.symbol, b.seqNo);
      ObjectOneLine(BookFields(b.symbol, b.seqNo));
      OrderLinesOk(b.orders);
      BooksLinesOk(books[1..]);
    }
  }

  // Parsing a written document gives back its configuration and every book's
  // symbol, sequence number and orders, in order.
  lemma ParseInvertsWrite(cfg: BookConfig, books: seq<SnapshotBook>)
    requires cfg.maxOrders < TWO_TO_64
    ensures ParsedText(TextOf(EngineLines(cfg, books))) == Some(ParsedSnapshot(cfg, books))
  {
    hide Lines, TextOf, ParseHeader, ParseLines, OneLine, ObjectText;
    var lines := EngineLines(cfg, books);
    HeaderOk(cfg);
    ObjectOneLine(HeaderFields(cfg));
    BooksLinesOk(books);
    LinesOfText(lines);
    HeaderParses(cfg);
    BooksParse([], books);
    assert lines[1..] == BooksLines(books) && [] + books == books;
  }
}
