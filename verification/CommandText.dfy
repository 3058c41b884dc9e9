// Canonical command lines: the printer of src/types.rs:131-191 and the parser
// of src/jsonflat.rs:30-69, proved inverse.

module CommandText {
  import opened Types
  import opened JsonFlat

  // ---- names ----------------------------------------------------------------------

  function SideText(s: Side): string {
    if s.Bid? then "bid" else "ask"
  }

  function OTypeText(t: OType): string {
    if t.Limit? then "limit" else "market"
  }

  function TifText(t: Tif): string {
    match t
    case Gtc => "gtc"
    case Ioc => "ioc"
    case Fok => "fok"
    case PostOnly => "post_only"
  }

  function ParseSide(s: Option<string>): Option<Side> {
    if s == Some("bid") then Some(Bid) else if s == Some("ask") then Some(Ask) else None
  }

  function ParseOType(s: Option<string>): Option<OType> {
    if s == Some("limit") then Some(Limit) else if s == Some("market") then Some(Market) else None
  }

  function ParseTif(s: Option<string>): Option<Tif> {
    if s == Some("gtc") then Some(Gtc)
    else if s == Some("ioc") then Some(Ioc)
    else if s == Some("fok") then Some(Fok)
    else if s == Some("post_only") then Some(PostOnly)
    else None
  }

  lemma NamesParse(s: Side, o: OType, t: Tif)
    ensures ParseSide(Some(SideText(s))) == Some(s)
    ensures ParseOType(Some(OTypeText(o))) == Some(o)
    ensures ParseTif(Some(TifText(t))) == Some(t)
  {
  }

  // ---- parsing -----------------------------------------------------------------------

  function ParseNew(line: string): Option<Command> {
    var side := ParseSide(GetStr(line, "side"));
    var otype := ParseOType(GetStr(line, "otype"));
    var tif := ParseTif(GetStr(line, "tif"));
    var id := GetU64(line, "order_id");
    var price := GetI64(line, "price");
    var qty := GetU64(line, "qty");
    if side.None? || otype.None? || tif.None? || id.None? || price.None? || qty.None? then None
    else Some(New(id.value, side.value, otype.value, price.value, qty.value, tif.value))
  }

  function ParseReplace(line: string): Option<Command> {
    var id := GetU64(line, "order_id");
    var price := GetI64(line, "price");
    var qty := GetU64(line, "qty");
    if id.None? || price.None? || qty.None? then None else Some(Replace(id.value, price.value, qty.value))
  }

  function ParseCancel(line: string): Option<Command> {
    var id := GetU64(line, "order_id");
    if id.None? then None else Some(Cancel(id.value))
  }

  function ParseCommand(line: string): Option<Command> {
    var cmd := GetStr(line, "cmd");
    if cmd == Some("new") then ParseNew(line)
    else if cmd == Some("cancel") then ParseCancel(line)
    else if cmd == Some("replace") then ParseReplace(line)
    else None
  }

  // ---- what is parsed -----------------------------------------------------------------

  ghost predicate SaysU64(t: Option<string>, v: int) {
    t.Some? && U64Text(t.value, v)
  }

  ghost predicate SaysI64(t: Option<string>, v: int) {
    t.Some? && I64Text(t.value, v)
  }

  ghost predicate SaysSide(t: Option<string>, s: Side) {
    match s
    case Bid => t == Some("bid")
    case Ask => t == Some("ask")
  }

  ghost predicate SaysOType(t: Option<string>, o: OType) {
    match o
    case Limit => t == Some("limit")
    case Market => t == Some("market")
  }

  ghost predicate SaysTif(t: Option<string>, f: Tif) {
    match f
    case Gtc => t == Some("gtc")
    case Ioc => t == Some("ioc")
    case Fok => t == Some("fok")
    case PostOnly => t == Some("post_only")
  }

  // The fields name the command and all its parts.
  ghost predicate Says(fs: seq<Field>, c: Command) {
    match c
    case New(id, side, otype, price, qty, tif) =>
      && Lookup(fs, "cmd") == Some("new") && SaysU64(Lookup(fs, "order_id"), id)
      && SaysSide(Lookup(fs, "side"), side) && SaysOType(Lookup(fs, "otype"), otype)
      && SaysI64(Lookup(fs, "price"), price) && SaysU64(Lookup(fs, "qty"), qty) && SaysTif(Lookup(fs, "tif"), tif)
    case Cancel(id) =>
      Lookup(fs, "cmd") == Some("cancel") && SaysU64(Lookup(fs, "order_id"), id)
    case Replace(id, price, qty) =>
      && Lookup(fs, "cmd") == Some("replace") && SaysU64(Lookup(fs, "order_id"), id)
      && SaysI64(Lookup(fs, "price"), price) && SaysU64(Lookup(fs, "qty"), qty)
  }

  lemma NamesExact(t: Option<string>, s: Side, o: OType, f: Tif)
    ensures ParseSide(t) == Some(s) <==> SaysSide(t, s)
    ensures ParseOType(t) == Some(o) <==> SaysOType(t, o)
    ensures ParseTif(t) == Some(f) <==> SaysTif(t, f)
  {
  }

  lemma NumbersExact(line: string, key: string, u: u64, i: i64)
    ensures GetU64(line, key) == Some(u) <==> SaysU64(GetStr(line, key), u)
    ensures GetI64(line, key) == Some(i) <==> SaysI64(GetStr(line, key), i)
  {
    hide GetStr, ParseU64, ParseI64, U64Text, I64Text;
    var s := GetStr(line, key);
    if s.Some? {
      ParseU64Exact(s.value, u);
      ParseI64Exact(s.value, i);
    }
  }

  lemma ReadKeys(fs: seq<Field>)
    requires forall i :: 0 <= i < |fs| ==> FieldOk(fs[i])
    ensures var line := ObjectText(fs);
            && GetStr(line, "cmd") == Lookup(fs, "cmd") && GetStr(line, "order_id") == Lookup(fs, "order_id")
            && GetStr(line, "side") == Lookup(fs, "side") && GetStr(line, "otype") == Lookup(fs, "otype")
            && GetStr(line, "price") == Lookup(fs, "price") && GetStr(line, "qty") == Lookup(fs, "qty")
            && GetStr(line, "tif") == Lookup(fs, "tif")
  {
    hide GetStr, ObjectText, Lookup, FieldOk, Plain;
    KeysPlain();
    GetObjectField(fs, "cmd");
    GetObjectField(fs, "order_id");
    GetObjectField(fs, "side");
    GetObjectField(fs, "otype");
    GetObjectField(fs, "price");
    GetObjectField(fs, "qty");
    GetObjectField(fs, "tif");
  }

  // A flat object parses to a command exactly when its fields say that command: the
  // names are these, the numbers decimals in range.
  lemma ParseExact(fs: seq<Field>, c: Command)
    requires forall i :: 0 <= i < |fs| ==> FieldOk(fs[i])
    ensures ParseCommand("{" + Written(fs) + "}") == Some(c) <==> Says(fs, c)
  {
    hide GetStr, ObjectText, Lookup, FieldOk, Written, GetU64, GetI64, SaysU64, SaysI64;
    hide SaysSide, SaysOType, SaysTif, ParseSide, ParseOType, ParseTif;
    ObjectWritten(fs);
    var line := ObjectText(fs);
    ReadKeys(fs);
    NumbersExact(line, "order_id", c.orderId, 0);
    match c
    case New(id, side, otype, price, qty, tif) =>
      NumbersExact(line, "qty", qty, 0);
      NumbersExact(line, "price", 0, price);
      NamesExact(Lookup(fs, "side"), side, otype, tif);
      NamesExact(Lookup(fs, "otype"), side, otype, tif);
      NamesExact(Lookup(fs, "tif"), side, otype, tif);
    case Cancel(id) =>
    case Replace(id, price, qty) =>
      NumbersExact(line, "qty", qty, 0);
      NumbersExact(line, "price", 0, price);
  }

  // ---- printing ------------------------------------------------------------------------

  function SymbolFields(sym: Option<Symbol>): seq<Field> {
    if sym.None? then [] else [Field("symbol", Number(Decimal(sym.value)))]
  }

  function CommandName(c: Command): string {
    match c
    case New(_, _, _, _, _, _) => "new"
    case Cancel(_) => "cancel"
    case Replace(_, _, _) => "replace"
  }

  function BodyFields(c: Command): seq<Field> {
    match c
    case New(id, side, otype, price, qty, tif) =>
      [Field("order_id", Number(Decimal(id))), Field("side", Text(SideText(side))),
       Field("otype", Text(OTypeText(otype))), Field("price", Number(SignedDecimal(price))),
       Field("qty", Number(Decimal(qty))), Field("tif", Text(TifText(tif)))]
    case Cancel(id) =>
      [Field("order_id", Number(Decimal(id)))]
    case Replace(id, price, qty) =>
      [Field("order_id", Number(Decimal(id))), Field("price", Number(SignedDecimal(price))),
       Field("qty", Number(Decimal(qty)))]
  }

  function CommandFields(c: Command, sym: Option<Symbol>): seq<Field> {
    [Field("cmd", Text(CommandName(c)))] + SymbolFields(sym) + BodyFields(c)
  }

  // ---- the round trip -----------------------------------------------------------------------

  lemma {:induction false} LookupAppend(a: seq<Field>, b: seq<Field>, key: string)
    ensures Lookup(a + b, key) == if Lookup(a, key).Some? then Lookup(a, key) else Lookup(b, key)
  {
    if a == [] {
      assert a + b == b;
    } else {
      assert (a + b)[1..] == a[1..] + b;
      LookupAppend(a[1..], b, key);
    }
  }

  lemma LookupBody(c: Command, sym: Option<Symbol>, key: string)
    requires key != "cmd" && key != "symbol"
    ensures Lookup(CommandFields(c, sym), key) == Lookup(BodyFields(c), key)
  {
    LookupAppend([Field("cmd", Text(CommandName(c)))] + SymbolFields(sym), BodyFields(c), key);
    LookupAppend([Field("cmd", Text(CommandName(c)))], SymbolFields(sym), key);
  }

  lemma {:induction false} LookupAt(fs: seq<Field>, i: nat, key: string)
    requires i < |fs| && fs[i].key == key && forall j :: 0 <= j < i ==> fs[j].key != key
    ensures Lookup(fs, key) == Some(fs[i].value.text)
  {
    if i > 0 {
      assert fs[0].key != key;
      assert forall j :: 0 <= j < i - 1 ==> fs[1..][j] == fs[j + 1];
      LookupAt(fs[1..], i - 1, key);
    }
  }

  lemma NewLookups(c: Command)
    requires c.New?
    ensures var fs := BodyFields(c);
            && Lookup(fs, "order_id") == Some(Decimal(c.orderId)) && Lookup(fs, "side") == Some(SideText(c.side))
            && Lookup(fs, "otype") == Some(OTypeText(c.otype)) && Lookup(fs, "price") == Some(SignedDecimal(c.price))
            && Lookup(fs, "qty") == Some(Decimal(c.qty)) && Lookup(fs, "tif") == Some(TifText(c.tif))
  {
    hide Lookup, Decimal, SignedDecimal, SideText, OTypeText, TifText;
    var fs := BodyFields(c);
    LookupAt(fs, 0, "order_id");
    LookupAt(fs, 1, "side");
    LookupAt(fs, 2, "otype");
    LookupAt(fs, 3, "price");
    LookupAt(fs, 4, "qty");
    LookupAt(fs, 5, "tif");
  }

  lemma ReplaceLookups(c: Command)
    requires c.Replace?
    ensures var fs := BodyFields(c);
            && Lookup(fs, "order_id") == Some(Decimal(c.orderId)) && Lookup(fs, "price") == Some(SignedDecimal(c.price))
            && Lookup(fs, "qty") == Some(Decimal(c.qty))
  {
    hide Lookup, Decimal, SignedDecimal;
    var fs := BodyFields(c);
    LookupAt(fs, 0, "order_id");
    LookupAt(fs, 1, "price");
    LookupAt(fs, 2, "qty");
  }

  lemma DigitsPlain(n: nat)
    ensures Plain(Decimal(n))
  {
    DecimalDigits(n);
    var s := Decimal(n);
    forall i | 0 <= i < |s|
      ensures PlainChar(s[i])
    {
      assert IsDigit(s[i]);
    }
  }

  lemma SignedPlain(i: int)
    ensures Plain(SignedDecimal(i)) && SignedDecimal(i) != []
  {
    DigitsPlain(if i < 0 then -i else i);
  }

  lemma KeysPlain()
    ensures Plain("cmd") && Plain("symbol") && Plain("order_id") && Plain("side") && Plain("otype")
    ensures Plain("price") && Plain("qty") && Plain("tif")
  {
  }

  lemma NamesPlain(c: Command)
    ensures Plain(CommandName(c))
    ensures c.New? ==> Plain(SideText(c.side)) && Plain(OTypeText(c.otype)) && Plain(TifText(c.tif))
  {
    hide Plain, SideText, OTypeText, TifText;
    CommandNamePlain(c);
    if c.New? {
      SideTextPlain(c.side);
      OTypeTextPlain(c.otype);
      TifTextPlain(c.tif);
    }
  }

  lemma CommandNamePlain(c: Command)
    ensures Plain(CommandName(c))
  {
  }

  lemma SideTextPlain(s: Side)
    ensures Plain(SideText(s))
  {
  }

  lemma OTypeTextPlain(t: OType)
    ensures Plain(OTypeText(t))
  {
  }

  lemma TifTextPlain(t: Tif)
    ensures Plain(TifText(t))
  {
  }

  // Every field of a command line can be read back.
  lemma FieldsOk(c: Command, sym: Option<Symbol>)
    ensures forall i :: 0 <= i < |CommandFields(c, sym)| ==> FieldOk(CommandFields(c, sym)[i])
  {
    hide Plain, Decimal, SignedDecimal;
    KeysPlain();
    NamesPlain(c);
    if sym.Some? { DigitsPlain(sym.value); }
    DigitsPlain(c.orderId);
    if !c.Cancel? {
      DigitsPlain(c.qty);
      SignedPlain(c.price);
    }
  }

  // Reading a key of a canonical line.
  lemma ReadField(c: Command, sym: Option<Symbol>, key: string)
    requires Plain(key) && key != [] && key != "cmd" && key != "symbol"
    ensures GetStr(ObjectText(CommandFields(c, sym)), key) == Lookup(BodyFields(c), key)
  {
    hide FieldOk, GetStr, Lookup, ObjectText, CommandFields, BodyFields;
    FieldsOk(c, sym);
    GetObjectField(CommandFields(c, sym), key);
    LookupBody(c, sym, key);
  }

  lemma ReadName(c: Command, sym: Option<Symbol>)
    ensures GetStr(ObjectText(CommandFields(c, sym)), "cmd") == Some(CommandName(c))
  {
    hide FieldOk, GetStr, Lookup, ObjectText, BodyFields;
    FieldsOk(c, sym);
    KeysPlain();
    GetObjectField(CommandFields(c, sym), "cmd");
    LookupAt(CommandFields(c, sym), 0, "cmd");
  }

  // Parsing the canonical line of a command, with or without a symbol, gives it back.
  lemma ParseInvertsPrint(c: Command, sym: Option<Symbol>)
    ensures ParseCommand(ObjectText(CommandFields(c, sym))) == Some(c)
  {
    hide GetStr, Lookup, ObjectText, CommandFields, BodyFields, Plain, ParseU64;
    hide ParseI64, Decimal, SignedDecimal, ParseSide, ParseOType, ParseTif;
    KeysPlain();
    ReadName(c, sym);
    ReadField(c, sym, "order_id");
    ParseDecimal(c.orderId);
    match c
    case New(_, side, otype, price, qty, tif) =>
      ReadField(c, sym, "side");
      ReadField(c, sym, "otype");
      ReadField(c, sym, "price");
      ReadField(c, sym, "qty");
      ReadField(c, sym, "tif");
      NewLookups(c);
      NamesParse(side, otype, tif);
      ParseSigned(price);
      ParseDecimal(qty);
    case Cancel(_) =>
      CancelLookup(c);
    case Replace(_, price, qty) =>
      ReadField(c, sym, "price");
      ReadField(c, sym, "qty");
      ReplaceLookups(c);
      ParseSigned(price);
      ParseDecimal(qty);
  }

  lemma CancelLookup(c: Command)
    requires c.Cancel?
    ensures Lookup(BodyFields(c), "order_id") == Some(Decimal(c.orderId))
  {
    hide Decimal;
  }

  // ---- the writer ------------------------------------------------------------------------

  method PutNumber(out: string, piece: string, text: string, ghost fs: seq<Field>, ghost key: string,
                   ghost start: string)
    returns (out': string)
    requires fs != [] && piece == [','] + Pattern(key) && out == start + OpenText(fs)
    ensures out' == start + OpenText(fs + [Field(key, Number(text))])
  {
    hide OpenText, Pattern;
    OpenNext(start, fs, Field(key, Number(text)));
    out' := out + piece + text;
  }

  method PutText(out: string, piece: string, text: string, ghost fs: seq<Field>, ghost key: string, ghost start: string)
    returns (out': string)
    requires fs != [] && piece == [','] + Pattern(key) + "\"" && out == start + OpenText(fs)
    ensures out' == start + OpenText(fs + [Field(key, Text(text))])
  {
    hide OpenText, Pattern;
    OpenNext(start, fs, Field(key, Text(text)));
    out' := out + piece + text + "\"";
    assert out' == out + ([','] + Pattern(key)) + (['"'] + text + ['"']);
  }

  lemma Pieces()
    ensures ",\"symbol\":" == [','] + Pattern("symbol")
    ensures ",\"order_id\":" == [','] + Pattern("order_id")
    ensures ",\"side\":\"" == [','] + Pattern("side") + "\""
    ensures ",\"otype\":\"" == [','] + Pattern("otype") + "\""
    ensures ",\"price\":" == [','] + Pattern("price")
    ensures ",\"qty\":" == [','] + Pattern("qty")
    ensures ",\"tif\":\"" == [','] + Pattern("tif") + "\""
    ensures "{\"cmd\":\"" == ['{'] + Pattern("cmd") + ['"']
  {
  }

  // What follows the command's name and symbol, command by command.
  method WriteBody(c: Command, out: string, ghost before: seq<Field>, ghost start: string) returns (out': string)
    requires before != [] && out == start + OpenText(before)
    ensures out' == start + OpenText(before + BodyFields(c))
  {
    hide OpenText, Pattern, Decimal, SignedDecimal, SideText, OTypeText, TifText;
    Pieces();
    ghost var fs := before;
    match c {
      case New(id, side, otype, price, qty, tif) =>
        out' := PutNumber(out, ",\"order_id\":", Decimal(id), fs, "order_id", start);
        fs := fs + [Field("order_id", Number(Decimal(id)))];
        out' := PutText(out', ",\"side\":\"", SideText(side), fs, "side", start);
        fs := fs + [Field("side", Text(SideText(side)))];
        out' := PutText(out', ",\"otype\":\"", OTypeText(otype), fs, "otype", start);
        fs := fs + [Field("otype", Text(OTypeText(otype)))];
        out' := PutNumber(out', ",\"price\":", SignedDecimal(price), fs, "price", start);
        fs := fs + [Field("price", Number(SignedDecimal(price)))];
        out' := PutNumber(out', ",\"qty\":", Decimal(qty), fs, "qty", start);
        fs := fs + [Field("qty", Number(Decimal(qty)))];
        out' := PutText(out', ",\"tif\":\"", TifText(tif), fs, "tif", start);
        fs := fs + [Field("tif", Text(TifText(tif)))];
      case Cancel(id) =>
        out' := PutNumber(out, ",\"order_id\":", Decimal(id), fs, "order_id", start);
        fs := fs + [Field("order_id", Number(Decimal(id)))];
      case Replace(id, price, qty) =>
        out' := PutNumber(out, ",\"order_id\":", Decimal(id), fs, "order_id", start);
        fs := fs + [Field("order_id", Number(Decimal(id)))];
        out' := PutNumber(out', ",\"price\":", SignedDecimal(price), fs, "price", start);
        fs := fs + [Field("price", Number(SignedDecimal(price)))];
        out' := PutNumber(out', ",\"qty\":", Decimal(qty), fs, "qty", start);
        fs := fs + [Field("qty", Number(Decimal(qty)))];
    }
    assert fs == before + BodyFields(c);
  }

  // The canonical line, written out.
  function CanonicalLine(c: Command, sym: Option<Symbol>): string {
    match c
    case New(id, side, otype, price, qty, tif) =>
      NewStart(id, side, otype, sym) + ",\"price\":" + SignedDecimal(price) + ",\"qty\":" + Decimal(qty) + ",\"tif\":\""
      + (match tif case Gtc => "gtc" case Ioc => "ioc" case Fok => "fok" case PostOnly => "post_only") + "\"" + "}"
    case Cancel(id) =>
      "{\"cmd\":\"" + "cancel" + "\"" + SymbolPart(sym) + ",\"order_id\":" + Decimal(id) + "}"
    case Replace(id, price, qty) =>
      "{\"cmd\":\"" + "replace" + "\"" + SymbolPart(sym) + ",\"order_id\":" + Decimal(id)
      + ",\"price\":" + SignedDecimal(price) + ",\"qty\":" + Decimal(qty) + "}"
  }

  function NewStart(id: OrderId, side: Side, otype: OType, sym: Option<Symbol>): string {
    "{\"cmd\":\"" + "new" + "\"" + SymbolPart(sym) + ",\"order_id\":" + Decimal(id)
    + ",\"side\":\"" + (match side case Bid => "bid" case Ask => "ask") + "\""
    + ",\"otype\":\"" + (match otype case Limit => "limit" case Market => "market") + "\""
  }

  function SymbolPart(sym: Option<Symbol>): string {
    if sym.None? then "" else ",\"symbol\":" + Decimal(sym.value)
  }

  // One more number, one more text in the line of `fs`.
  lemma NumberNext(fs: seq<Field>, line: string, piece: string, key: string, text: string)
    requires fs != [] && line == OpenText(fs) && piece == [','] + Pattern(key)
    ensures OpenText(fs + [Field(key, Number(text))]) == line + piece + text
  {
    hide OpenText, Pattern;
    OpenNext("", fs, Field(key, Number(text)));
    assert "" + OpenText(fs + [Field(key, Number(text))]) == OpenText(fs + [Field(key, Number(text))]);
    assert "" + OpenText(fs) == OpenText(fs);
  }

  lemma TextNext(fs: seq<Field>, line: string, piece: string, key: string, text: string)
    requires fs != [] && line == OpenText(fs) && piece == [','] + Pattern(key) + "\""
    ensures OpenText(fs + [Field(key, Text(text))]) == line + piece + text + "\""
  {
    hide OpenText, Pattern;
    OpenNext("", fs, Field(key, Text(text)));
    assert "" + OpenText(fs + [Field(key, Text(text))]) == OpenText(fs + [Field(key, Text(text))]);
    assert "" + OpenText(fs) == OpenText(fs);
    assert line + piece + text + "\"" == line + ([','] + Pattern(key)) + (['"'] + text + ['"']);
  }

  lemma FirstPart(c: Command, sym: Option<Symbol>)
    ensures var fs := [Field("cmd", Text(CommandName(c)))] + SymbolFields(sym);
            OpenText(fs) == "{\"cmd\":\"" + CommandName(c) + "\"" + SymbolPart(sym)
  {
    hide OpenText, Pattern, Decimal, CommandName;
    Pieces();
    OpenFirst("cmd", CommandName(c));
    var (fs, line) := ([Field("cmd", Text(CommandName(c)))], "{\"cmd\":\"" + CommandName(c) + "\"");
    assert OpenText(fs) == line;
    if sym.Some? {
      NumberNext(fs, line, ",\"symbol\":", "symbol", Decimal(sym.value));
      assert line + ",\"symbol\":" + Decimal(sym.value) == line + SymbolPart(sym);
    } else {
      assert fs + [] == fs && line + "" == line;
    }
  }

  lemma LineClosed(fs: seq<Field>)
    ensures ObjectText(fs) == OpenText(fs) + "}"
  {
    hide OpenText, ObjectText;
    OpenClosed("", fs);
    assert "" + OpenText(fs) == OpenText(fs) && "" + ObjectText(fs) == ObjectText(fs) && "}" == ['}'];
  }

  lemma NewStarts(c: Command, sym: Option<Symbol>)
    requires c.New?
    ensures var fs := [Field("cmd", Text(CommandName(c)))] + SymbolFields(sym);
            OpenText(fs + [Field("order_id", Number(Decimal(c.orderId)))] + [Field("side", Text(SideText(c.side)))]
                     + [Field("otype", Text(OTypeText(c.otype)))])
            == NewStart(c.orderId, c.side, c.otype, sym)
  {
    hide OpenText, Pattern, Decimal, SymbolFields, SymbolPart;
    FirstPart(c, sym);
    Pieces();
    var fs0 := [Field("cmd", Text(CommandName(c)))] + SymbolFields(sym);
    var fs1 := fs0 + [Field("order_id", Number(Decimal(c.orderId)))];
    var fs2 := fs1 + [Field("side", Text(SideText(c.side)))];
    NumberNext(fs0, OpenText(fs0), ",\"order_id\":", "order_id", Decimal(c.orderId));
    TextNext(fs1, OpenText(fs1), ",\"side\":\"", "side", SideText(c.side));
    TextNext(fs2, OpenText(fs2), ",\"otype\":\"", "otype", OTypeText(c.otype));
  }

  lemma NewIs(c: Command, sym: Option<Symbol>)
    requires c.New?
    ensures ObjectText(CommandFields(c, sym)) == CanonicalLine(c, sym)
  {
    hide OpenText, ObjectText, Pattern, Decimal, SignedDecimal;
    hide SymbolFields, NewStart, SideText, OTypeText, CommandName;
    NewStarts(c, sym);
    Pieces();
    var fs3 := [Field("cmd", Text(CommandName(c)))] + SymbolFields(sym)
    + [Field("order_id", Number(Decimal(c.orderId)))] + [Field("side", Text(SideText(c.side)))]
    + [Field("otype", Text(OTypeText(c.otype)))];
    var fs4 := fs3 + [Field("price", Number(SignedDecimal(c.price)))];
    var fs5 := fs4 + [Field("qty", Number(Decimal(c.qty)))];
    var fs6 := fs5 + [Field("tif", Text(TifText(c.tif)))];
    NumberNext(fs3, OpenText(fs3), ",\"price\":", "price", SignedDecimal(c.price));
    NumberNext(fs4, OpenText(fs4), ",\"qty\":", "qty", Decimal(c.qty));
    TextNext(fs5, OpenText(fs5), ",\"tif\":\"", "tif", TifText(c.tif));
    assert fs6 == CommandFields(c, sym);
    LineClosed(fs6);
  }

  lemma OtherIs(c: Command, sym: Option<Symbol>)
    requires !c.New?
    ensures ObjectText(CommandFields(c, sym)) == CanonicalLine(c, sym)
  {
    hide OpenText, ObjectText, Pattern, Decimal, SignedDecimal, SymbolFields, SymbolPart;
    FirstPart(c, sym);
    Pieces();
    var fs0 := [Field("cmd", Text(CommandName(c)))] + SymbolFields(sym);
    NumberNext(fs0, OpenText(fs0), ",\"order_id\":", "order_id", Decimal(c.orderId));
    var fs1 := fs0 + [Field("order_id", Number(Decimal(c.orderId)))];
    if c.Cancel? {
      assert fs1 == CommandFields(c, sym);
      LineClosed(fs1);
    } else {
      NumberNext(fs1, OpenText(fs1), ",\"price\":", "price", SignedDecimal(c.price));
      var fs2 := fs1 + [Field("price", Number(SignedDecimal(c.price)))];
      NumberNext(fs2, OpenText(fs2), ",\"qty\":", "qty", Decimal(c.qty));
      var fs3 := fs2 + [Field("qty", Number(Decimal(c.qty)))];
      assert fs3 == CommandFields(c, sym);
      LineClosed(fs3);
    }
  }

  // The fields of a command make exactly that line.
  lemma CanonicalIs(c: Command, sym: Option<Symbol>)
    ensures ObjectText(CommandFields(c, sym)) == CanonicalLine(c, sym)
  {
    if c.New? { NewIs(c, sym); } else { OtherIs(c, sym); }
  }

  // The canonical line of a command, appended to `out`; with a symbol it is the
  // engine journal's variant.
  method WriteInner(c: Command, sym: Option<Symbol>, out: string) returns (out': string)
    ensures out' == out + ObjectText(CommandFields(c, sym))
    ensures out' == out + CanonicalLine(c, sym)
  {
    hide OpenText, Pattern, ObjectText, Decimal, BodyFields, CommandName, CanonicalLine;
    Pieces();
    OpenFirst("cmd", CommandName(c));
    ghost var fs := [Field("cmd", Text(CommandName(c)))];
    out' := out + "{\"cmd\":\"" + CommandName(c) + "\"";
    assert out' == out + OpenText(fs);
    if sym.Some? {
      out' := PutNumber(out', ",\"symbol\":", Decimal(sym.value), fs, "symbol", out);
    }
    assert sym.None? ==> fs + SymbolFields(sym) == fs;
    fs := fs + SymbolFields(sym);
    assert out' == out + OpenText(fs);
    CanonicalIs(c, sym);
    out' := WriteBody(c, out', fs, out);
    fs := fs + BodyFields(c);
    assert fs == CommandFields(c, sym);
    assert out' == out + OpenText(fs);
    OpenClosed(out, fs);
    assert "}" == ['}'];
    out' := out' + "}";
  }
}
