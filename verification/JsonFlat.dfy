// The flat JSON reader: src/jsonflat.rs:8-28, and the decimals it must invert.

module JsonFlat {
  import opened Types

  // ---- searching ------------------------------------------------------------------

  predicate Starts(s: string, pat: string) {
    pat <= s
  }

  // Where `pat` first occurs in `s`.
  function Find(s: string, pat: string): (r: Option<nat>)
    ensures r.Some? ==> r.value + |pat| <= |s|
  {
    if Starts(s, pat) then Some(0)
    else if s == [] then None
    else
      var r := Find(s[1..], pat);
      if r.None? then None else Some(r.value + 1)
  }

  // `Find` is the first occurrence, and finds one whenever there is one.
  lemma {:induction false} FindIsFirst(s: string, pat: string)
    ensures Find(s, pat).Some? ==> Starts(s[Find(s, pat).value..], pat)
    ensures forall i :: 0 <= i <= |s| && Starts(s[i..], pat) ==> Find(s, pat).Some? && Find(s, pat).value <= i
  {
    hide Starts;
    assert s[0..] == s;
    if s == [] || Starts(s, pat) {
    } else {
      FindIsFirst(s[1..], pat);
      forall i | 0 < i <= |s|
        ensures s[1..][i - 1..] == s[i..]
      {
      }
      forall i | 0 <= i <= |s| && Starts(s[i..], pat)
        ensures Find(s, pat).Some? && Find(s, pat).value <= i
      {
        assert i > 0;
        assert s[1..][i - 1..] == s[i..];
      }
    }
  }

  // Up to the first of the given characters, or everything.
  function Until(s: string, stop: set<char>): (r: string)
    ensures r <= s && forall i :: 0 <= i < |r| ==> r[i] !in stop
  {
    if s == [] || s[0] in stop then [] else [s[0]] + Until(s[1..], stop)
  }

  lemma {:induction false} UntilStop(a: string, b: string, stop: set<char>)
    requires (forall i :: 0 <= i < |a| ==> a[i] !in stop) && (b == [] || b[0] in stop)
    ensures Until(a + b, stop) == a
  {
    if a == [] {
      assert a + b == b;
    } else {
      assert (a + b)[1..] == a[1..] + b;
      UntilStop(a[1..], b, stop);
    }
  }

  // Unicode White_Space.
  predicate IsWhite(c: char) {
    var n := c as int;
    9 <= n <= 13 || n == 0x20 || n == 0x85 || n == 0xA0 || n == 0x1680 || 0x2000 <= n <= 0x200A
    || n == 0x2028 || n == 0x2029 || n == 0x202F || n == 0x205F || n == 0x3000
  }

  function TrimStart(s: string): string {
    if s != [] && IsWhite(s[0]) then TrimStart(s[1..]) else s
  }

  function TrimEnd(s: string): string {
    if s != [] && IsWhite(s[|s| - 1]) then TrimEnd(s[..|s| - 1]) else s
  }

  function Trim(s: string): string {
    TrimEnd(TrimStart(s))
  }

  predicate AllWhite(s: string) {
    forall i :: 0 <= i < |s| ==> IsWhite(s[i])
  }

  lemma {:induction false} TrimStartOk(s: string) returns (a: string)
    ensures AllWhite(a) && s == a + TrimStart(s) && (TrimStart(s) != [] ==> !IsWhite(TrimStart(s)[0]))
  {
    hide IsWhite;
    a := [];
    if s != [] && IsWhite(s[0]) {
      var rest := TrimStartOk(s[1..]);
      a := [s[0]] + rest;
    }
  }

  lemma {:induction false} TrimEndOk(s: string) returns (b: string)
    ensures AllWhite(b) && s == TrimEnd(s) + b && (TrimEnd(s) != [] ==> !IsWhite(TrimEnd(s)[|TrimEnd(s)| - 1]))
  {
    hide IsWhite;
    b := [];
    if s != [] && IsWhite(s[|s| - 1]) {
      var rest := TrimEndOk(s[..|s| - 1]);
      b := rest + [s[|s| - 1]];
    }
  }

  // Trimming takes off white space at both ends, all of it and nothing else.
  lemma TrimOk(s: string) returns (a: string, b: string)
    ensures AllWhite(a) && AllWhite(b) && s == a + Trim(s) + b
    ensures Trim(s) != [] ==> !IsWhite(Trim(s)[0]) && !IsWhite(Trim(s)[|Trim(s)| - 1])
  {
    hide IsWhite;
    a := TrimStartOk(s);
    b := TrimEndOk(TrimStart(s));
    assert Trim(s) != [] ==> TrimStart(s)[0] == Trim(s)[0];
  }

  // `"key":`
  function Pattern(key: string): string {
    ['"'] + key + ['"', ':']
  }

  // The text between quotes, or up to the next ',' or '}'.
  function ValueIn(rest: string): Option<string> {
    if rest != [] && rest[0] == '"' then
      var quoted := rest[1..];
      var end := Find(quoted, ['"']);
      if end.None? then None else Some(quoted[..end.value])
    else
      Some(Trim(Until(rest, {',', '}'})))
  }

  // The value of `key`: what follows the first `"key":`.
  function GetStr(line: string, key: string): Option<string> {
    var at := Find(line, Pattern(key));
    if at.None? then None else ValueIn(line[at.value + |Pattern(key)|..])
  }

  // ---- decimals ------------------------------------------------------------------------

  function Digit(d: nat): char
    requires d < 10
  {
    '0' + d as char
  }

  function Decimal(n: nat): (s: string)
    ensures s != []
  {
    if n < 10 then [Digit(n)] else Decimal(n / 10) + [Digit(n % 10)]
  }

  function SignedDecimal(i: int): string {
    if i < 0 then ['-'] + Decimal(-i) else Decimal(i)
  }

  predicate IsDigit(c: char) {
    '0' <= c <= '9'
  }

  function DigitValue(c: char): nat
    requires IsDigit(c)
  {
    c as int - '0' as int
  }

  predicate AllDigits(s: string) {
    s != [] && forall i :: 0 <= i < |s| ==> IsDigit(s[i])
  }

  function DigitsValue(s: string): nat
    requires forall i :: 0 <= i < |s| ==> IsDigit(s[i])
  {
    if s == [] then 0 else 10 * DigitsValue(s[..|s| - 1]) + DigitValue(s[|s| - 1])
  }

  // `str::parse::<u64>`: an optional '+', at least one digit, no overflow.
  function ParseU64(s: string): Option<u64> {
    var digits := if s != [] && s[0] == '+' then s[1..] else s;
    if AllDigits(digits) && DigitsValue(digits) < TWO_TO_64 then Some(DigitsValue(digits)) else None
  }

  // `str::parse::<i64>`: an optional sign.
  function ParseI64(s: string): Option<i64> {
    var signed := s != [] && (s[0] == '+' || s[0] == '-');
    var digits := if signed then s[1..] else s;
    if !AllDigits(digits) then None
    else
      var d: int := DigitsValue(digits);
      var v := if s[0] == '-' then -d else d;
      if -0x8000_0000_0000_0000 <= v < 0x8000_0000_0000_0000 then Some(v) else None
  }

  function GetU64(line: string, key: string): Option<u64> {
    var s := GetStr(line, key);
    if s.None? then None else ParseU64(s.value)
  }

  function GetI64(line: string, key: string): Option<i64> {
    var s := GetStr(line, key);
    if s.None? then None else ParseI64(s.value)
  }

  lemma {:induction false} DecimalDigits(n: nat)
    ensures AllDigits(Decimal(n)) && DigitsValue(Decimal(n)) == n
  {
    if n < 10 {
      assert [Digit(n)][..0] == [];
    } else {
      DecimalDigits(n / 10);
      var s := Decimal(n);
      assert s[..|s| - 1] == Decimal(n / 10);
    }
  }

  // Parsing inverts printing; a number out of range does not parse.
  lemma ParseDecimal(n: nat)
    ensures ParseU64(Decimal(n)) == if n < TWO_TO_64 then Some(n) else None
  {
    DecimalDigits(n);
    assert IsDigit(Decimal(n)[0]);
  }

  lemma ParseSigned(i: int)
    ensures ParseI64(SignedDecimal(i)) == if -0x8000_0000_0000_0000 <= i < 0x8000_0000_0000_0000 then Some(i) else None
  {
    DecimalDigits(if i < 0 then -i else i);
    if i < 0 {
      assert SignedDecimal(i)[1..] == Decimal(-i);
    } else {
      assert IsDigit(Decimal(i)[0]);
    }
  }

  // ---- decimals, digit by digit -------------------------------------------------------------

  // The digits of `s`, most significant first, denote `v`.
  ghost predicate Denotes(s: string, v: nat)
    decreases |s|
  {
    && s != [] && s[|s| - 1] == "0123456789"[v % 10]
    && if |s| == 1 then v < 10 else Denotes(s[..|s| - 1], v / 10)
  }

  lemma DigitTable(c: char, d: nat)
    requires d < 10
    ensures c == "0123456789"[d] <==> IsDigit(c) && DigitValue(c) == d
    ensures Digit(d) == "0123456789"[d]
  {
  }

  lemma {:induction false} DigitsDenote(s: string, v: nat)
    ensures Denotes(s, v) <==> AllDigits(s) && DigitsValue(s) == v
    decreases |s|
  {
    hide IsDigit, DigitValue;
    if s != [] {
      var (n, d) := (|s| - 1, v % 10);
      DigitTable(s[n], d);
      AllDigitsSnoc(s);
      if n > 0 { DigitsDenote(s[..n], v / 10); }
      if IsDigit(s[n]) { DigitBelow(s[n]); }
    }
  }

  lemma DigitBelow(c: char)
    requires IsDigit(c)
    ensures DigitValue(c) < 10
  {
  }

  lemma AllDigitsSnoc(s: string)
    requires s != []
    ensures var n := |s| - 1;
            AllDigits(s) <==> IsDigit(s[n]) && (n == 0 || AllDigits(s[..n]))
  {
    hide IsDigit;
    assert s == s[..|s| - 1] + [s[|s| - 1]];
  }

  // A decimal number is printed without leading zeros, a negative one after a sign.
  lemma {:induction false} DecimalDenotes(n: nat)
    ensures Denotes(Decimal(n), n) && (n > 0 ==> Decimal(n)[0] != '0')
  {
    DecimalDigits(n);
    DigitsDenote(Decimal(n), n);
    if n >= 10 {
      DecimalDenotes(n / 10);
    }
  }

  lemma SignedDenotes(i: int)
    ensures i >= 0 ==> SignedDecimal(i) == Decimal(i)
    ensures i < 0 ==> SignedDecimal(i) == ['-'] + Decimal(-i)
  {
  }

  // Digits, perhaps after a plus sign.
  ghost predicate PlusDenotes(s: string, v: nat) {
    Denotes(s, v) || (s != [] && s[0] == '+' && Denotes(s[1..], v))
  }

  ghost predicate U64Text(s: string, v: int) {
    0 <= v < 0x1_0000_0000_0000_0000 && PlusDenotes(s, v)
  }

  ghost predicate I64Text(s: string, v: int) {
    && -0x8000_0000_0000_0000 <= v < 0x8000_0000_0000_0000
    && ((v >= 0 && PlusDenotes(s, v)) || (v <= 0 && s != [] && s[0] == '-' && Denotes(s[1..], -v)))
  }

  // Exactly these texts parse, and to exactly these numbers.
  lemma ParseU64Exact(s: string, v: int)
    ensures (ParseU64(s).Some? && ParseU64(s).value == v) <==> U64Text(s, v)
  {
    hide Denotes, DigitsValue;
    if v >= 0 {
      DigitsDenote(s, v);
      if s != [] { DigitsDenote(s[1..], v); }
    }
  }

  lemma ParseI64Exact(s: string, v: int)
    ensures (ParseI64(s).Some? && ParseI64(s).value == v) <==> I64Text(s, v)
  {
    hide Denotes, DigitsValue;
    if v >= 0 {
      DigitsDenote(s, v);
      if s != [] { DigitsDenote(s[1..], v); }
    }
    if v <= 0 && s != [] {
      DigitsDenote(s[1..], -v);
    }
  }

  // ---- flat objects ----------------------------------------------------------------------

  datatype Value = Number(text: string) | Text(text: string)

  datatype Field = Field(key: string, value: Value)

  predicate PlainChar(c: char) {
    c != '"' && c != ':' && c != ',' && c != '{' && c != '}' && !IsWhite(c)
  }

  // Keys and values that need no escaping.
  predicate Plain(s: string) {
    forall i :: 0 <= i < |s| ==> PlainChar(s[i])
  }

  predicate FieldOk(f: Field) {
    Plain(f.key) && Plain(f.value.text) && f.value.text != []
  }

  function ValueText(v: Value): string {
    match v
    case Number(t) => t
    case Text(t) => ['"'] + t + ['"']
  }

  function FieldText(f: Field): string {
    Pattern(f.key) + ValueText(f.value)
  }

  // The fields separated by ',' and followed by `end`.
  function FieldsText(fs: seq<Field>, end: string): string {
    if fs == [] then end
    else FieldText(fs[0]) + (if |fs| == 1 then end else [','] + FieldsText(fs[1..], end))
  }

  function ObjectText(fs: seq<Field>): string {
    ['{'] + FieldsText(fs, ['}'])
  }

  // The text of an object, written out: quoted keys, colons, commas and braces.
  function Written(fs: seq<Field>): string {
    if fs == [] then ""
    else "\"" + fs[0].key + "\":"
         + (match fs[0].value case Number(t) => t case Text(t) => "\"" + t + "\"")
         + (if |fs| == 1 then "" else "," + Written(fs[1..]))
  }

  lemma {:induction false} FieldsWritten(fs: seq<Field>)
    ensures FieldsText(fs, ['}']) == Written(fs) + "}"
  {
    hide FieldsText, FieldText;
    if fs == [] {
      NoFields(['}']);
    } else {
      FieldsUnfold(fs, ['}']);
      FieldWritten(fs[0]);
      var head := FieldText(fs[0]);
      if |fs| > 1 {
        FieldsWritten(fs[1..]);
        assert head + ([','] + (Written(fs[1..]) + "}")) == head + ("," + Written(fs[1..])) + "}";
      } else {
        assert head + "" == head;
      }
    }
  }

  lemma FieldWritten(f: Field)
    ensures FieldText(f) == "\"" + f.key + "\":"
                            + (match f.value case Number(t) => t case Text(t) => "\"" + t + "\"")
  {
    assert Pattern(f.key) == "\"" + f.key + "\":";
  }

  lemma ObjectWritten(fs: seq<Field>)
    ensures ObjectText(fs) == "{" + Written(fs) + "}"
  {
    hide FieldsText, Written;
    FieldsWritten(fs);
    assert ['{'] + (Written(fs) + "}") == "{" + Written(fs) + "}";
  }

  function Lookup(fs: seq<Field>, key: string): Option<string> {
    if fs == [] then None
    else if fs[0].key == key then Some(fs[0].value.text)
    else Lookup(fs[1..], key)
  }

  // ---- where a key pattern can occur --------------------------------------------------------

  function Shift(n: nat, r: Option<nat>): Option<nat> {
    if r.None? then None else Some(n + r.value)
  }

  // A pattern starts with a quote, so it does not start inside quote-free text.
  lemma {:induction false} FindSkips(a: string, b: string, pat: string)
    requires pat != [] && pat[0] == '"' && forall i :: 0 <= i < |a| ==> a[i] != '"'
    ensures Find(a + b, pat) == Shift(|a|, Find(b, pat))
  {
    hide Starts;
    if a == [] {
      assert a + b == b;
    } else {
      assert (a + b)[1..] == a[1..] + b;
      NotHere(a + b, pat);
      FindSkips(a[1..], b, pat);
    }
  }

  lemma NotHere(s: string, pat: string)
    requires s != [] && pat != [] && s[0] != pat[0]
    ensures !Starts(s, pat)
  {
  }

  // A quote-free word before a quote is determined by the text.
  lemma {:induction false} WordBeforeQuote(k: string, s: string, t: string)
    requires (forall i :: 0 <= i < |k| ==> k[i] != '"') && (forall i :: 0 <= i < |s| ==> s[i] != '"')
    requires k + ['"'] <= s + ['"'] + t
    ensures k == s
  {
    var (a, b) := (k + ['"'], s + ['"'] + t);
    assert forall i :: 0 <= i < |a| ==> a[i] == b[i];
    assert a[|k|] == '"' && b[|s|] == '"';
    assert forall i :: 0 <= i < |k| ==> a[i] == k[i];
    assert forall i :: 0 <= i < |s| ==> b[i] == s[i];
  }

  lemma StartsAfter(c: char, s: string, pat: string)
    ensures Starts([c] + s, [c] + pat) <==> Starts(s, pat)
  {
    assert ([c] + s)[1..] == s && ([c] + pat)[1..] == pat;
  }

  // A quote that does not open the key is passed over.
  lemma QuoteMiss(rest: string, k: string)
    requires !Starts(rest, k + ['"', ':'])
    ensures Find(['"'] + rest, Pattern(k)) == Shift(1, Find(rest, Pattern(k)))
  {
    assert (['"'] + rest)[1..] == rest;
    assert Pattern(k) == ['"'] + (k + ['"', ':']);
    StartsAfter('"', rest, k + ['"', ':']);
  }

  lemma OtherStart(rest: string, k: string)
    requires Plain(k) && k != [] && rest != [] && !PlainChar(rest[0])
    ensures !Starts(rest, k + ['"', ':'])
  {
    assert PlainChar(k[0]);
    assert (k + ['"', ':'])[0] == k[0];
  }

  lemma OtherWord(word: string, k: string, rest: string)
    requires Plain(word) && Plain(k) && (word != k || (rest != [] && rest[0] != ':'))
    ensures !Starts(word + (['"'] + rest), k + ['"', ':'])
  {
    hide Plain, PlainChar;
    PlainQuotes(word);
    PlainQuotes(k);
    var s := word + ['"'] + rest;
    assert s == word + (['"'] + rest);
    assert rest != [] ==> s[|word| + 1] == rest[0];
    assert (k + ['"', ':'])[|k| + 1] == ':';
    if Starts(s, k + ['"', ':']) {
      assert k + ['"'] <= s by { assert k + ['"', ':'] == k + ['"'] + [':']; }
      WordBeforeQuote(k, word, rest);
    }
  }

  lemma PatternQuote(k: string)
    ensures Pattern(k) != [] && Pattern(k)[0] == '"'
  {
  }

  lemma PlainQuotes(s: string)
    requires Plain(s)
    ensures forall i :: 0 <= i < |s| ==> s[i] != '"'
  {
  }

  // A quoted word that is not the key, before something that is not ':'.
  lemma WordSkipped(word: string, k: string, rest: string)
    requires Plain(word) && Plain(k) && k != [] && rest != [] && !PlainChar(rest[0])
    requires word != k || rest[0] != ':'
    ensures Find(['"'] + (word + (['"'] + rest)), Pattern(k)) == Shift(|word| + 2, Find(rest, Pattern(k)))
  {
    hide Find, Starts, Plain, PlainChar, Pattern;
    var tail := ['"'] + rest;
    PatternQuote(k);
    OtherStart(rest, k);
    QuoteMiss(rest, k);
    PlainQuotes(word);
    FindSkips(word, tail, Pattern(k));
    OtherWord(word, k, rest);
    QuoteMiss(word + tail, k);
  }

  lemma ValueSkipped(v: Value, k: string, sep: char, rest: string)
    requires Plain(v.text) && Plain(k) && k != [] && (sep == ',' || sep == '}')
    ensures Find(ValueText(v) + ([sep] + rest), Pattern(k)) == Shift(|ValueText(v)| + 1, Find(rest, Pattern(k)))
  {
    hide Find, Starts, Plain, PlainChar, Pattern;
    var t := v.text;
    ColonComma();
    PatternQuote(k);
    PlainQuotes(t);
    FindSkips([sep], rest, Pattern(k));
    match v
    case Number(_) =>
      FindSkips(t, [sep] + rest, Pattern(k));
    case Text(_) =>
      WordSkipped(t, k, [sep] + rest);
      RegroupText(t, [sep] + rest);
  }

  lemma RegroupText(t: string, rest: string)
    ensures ['"'] + t + ['"'] + rest == ['"'] + (t + (['"'] + rest))
  {
  }

  // A field under another key is passed over.
  lemma FieldSkipped(f: Field, k: string, sep: char, rest: string)
    requires FieldOk(f) && Plain(k) && k != [] && f.key != k && (sep == ',' || sep == '}')
    ensures var s := FieldText(f) + [sep];
            Find(s + rest, Pattern(k)) == Shift(|s|, Find(rest, Pattern(k)))
  {
    hide Find, Starts, Plain, PlainChar, ValueText;
    var after := ValueText(f.value) + ([sep] + rest);
    ColonComma();
    PatternQuote(k);
    ValueSkipped(f.value, k, sep, rest);
    FindSkips([':'], after, Pattern(k));
    WordSkipped(f.key, k, [':'] + after);
    Regroup(f.key, ValueText(f.value), sep, rest);
  }

  lemma Regroup(key: string, v: string, sep: char, rest: string)
    ensures Pattern(key) + v + [sep] + rest == ['"'] + (key + (['"'] + ([':'] + (v + ([sep] + rest)))))
  {
    assert Pattern(key) == ['"'] + (key + (['"'] + [':']));
  }

  lemma ColonComma()
    ensures !PlainChar(':') && !PlainChar(',') && !PlainChar('}')
  {
  }

  lemma GetSkips(a: string, b: string, key: string)
    requires Find(a + b, Pattern(key)) == Shift(|a|, Find(b, Pattern(key)))
    ensures GetStr(a + b, key) == GetStr(b, key)
  {
    hide Find, ValueIn, Pattern;
    var at := Find(b, Pattern(key));
    if at.Some? {
      var n := at.value + |Pattern(key)|;
      assert (a + b)[|a| + n..] == b[n..];
    }
  }

  lemma {:induction false} TrimPlain(s: string)
    requires Plain(s)
    ensures Trim(s) == s
  {
  }

  lemma FindQuote(s: string)
    requires s != [] && s[0] == '"'
    ensures Find(s, ['"']) == Some(0)
  {
  }

  // A quoted value ends at the next quote.
  lemma QuotedValue(t: string, closing: string)
    requires Plain(t) && closing != [] && closing[0] == '"'
    ensures ValueIn(['"'] + (t + closing)) == Some(t)
  {
    hide Find, Trim, Until, IsWhite;
    var rest := ['"'] + (t + closing);
    assert rest[1..] == t + closing && (t + closing)[..|t|] == t;
    FindQuote(closing);
    FindSkips(t, closing, ['"']);
  }

  // Any other ends before the next separator.
  lemma BareValue(t: string, tail: string)
    requires Plain(t) && t != [] && tail != [] && (tail[0] == ',' || tail[0] == '}')
    ensures ValueIn(t + tail) == Some(t)
  {
    hide Find, Trim, IsWhite;
    UntilStop(t, tail, {',', '}'});
    TrimPlain(t);
    assert (t + tail)[0] == t[0];
  }

  // The ASCII white space: tab, line feed, vertical tab, form feed, carriage return, space.
  lemma AsciiWhite(c: char)
    requires c as int < 0x80
    ensures IsWhite(c) <==> c as int in {0x09, 0x0A, 0x0B, 0x0C, 0x0D, 0x20}
  {
  }

  lemma {:induction false} TrimStartSkips(a: string, s: string)
    requires AllWhite(a) && s != [] && !IsWhite(s[0])
    ensures TrimStart(a + s) == s
  {
    hide IsWhite;
    if a == [] {
      assert a + s == s;
    } else {
      assert (a + s)[1..] == a[1..] + s;
      TrimStartSkips(a[1..], s);
    }
  }

  lemma {:induction false} TrimEndSkips(s: string, b: string)
    requires AllWhite(b) && s != [] && !IsWhite(s[|s| - 1])
    ensures TrimEnd(s + b) == s
  {
    hide IsWhite;
    if b == [] {
      assert s + b == s;
    } else {
      var n := |b| - 1;
      assert (s + b)[..|s + b| - 1] == s + b[..n];
      TrimEndSkips(s, b[..n]);
    }
  }

  lemma WhiteIsPlainFree(a: string)
    requires AllWhite(a)
    ensures forall i :: 0 <= i < |a| ==> a[i] != '"' && a[i] != ',' && a[i] != '}'
  {
  }

  // White space around an unquoted value is dropped.
  lemma SpacedValue(a: string, t: string, b: string, tail: string)
    requires AllWhite(a) && AllWhite(b) && Plain(t) && t != []
    requires tail == [] || tail[0] == ',' || tail[0] == '}'
    ensures ValueIn(a + t + b + tail) == Some(t)
  {
    hide Find, TrimStart, TrimEnd, IsWhite, AllWhite;
    WhiteIsPlainFree(a);
    WhiteIsPlainFree(b);
    var inner := a + t + b;
    assert forall i :: 0 <= i < |t| ==> PlainChar(t[i]);
    forall i | 0 <= i < |inner|
      ensures inner[i] != '"' && inner[i] !in {',', '}'}
    {
      assert inner[i] == if i < |a| then a[i] else if i < |a| + |t| then t[i - |a|] else b[i - |a| - |t|];
    }
    UntilStop(inner, tail, {',', '}'});
    assert inner == a + (t + b) && (inner + tail)[0] == inner[0];
    TrimStartSkips(a, t + b);
    TrimEndSkips(t, b);
  }

  // A quote that is never closed gives no value.
  lemma UnclosedQuote(t: string)
    requires forall i :: 0 <= i < |t| ==> t[i] != '"'
    ensures ValueIn(['"'] + t) == None
  {
    hide Find;
    assert (['"'] + t)[1..] == t && t + [] == t;
    FindSkips(t, [], ['"']);
    NoQuote();
  }

  lemma NoQuote()
    ensures Find([], ['"']) == None
  {
  }

  // Reading a key whose pattern first occurs after `before`, white space and all.
  lemma GetSpaced(before: string, key: string, rest: string, a: string, t: string, b: string, tail: string)
    requires AllWhite(a) && AllWhite(b) && Plain(t) && t != []
    requires tail == [] || tail[0] == ',' || tail[0] == '}'
    requires rest == a + t + b + tail && Find(before + Pattern(key) + rest, Pattern(key)) == Some(|before|)
    ensures GetStr(before + Pattern(key) + rest, key) == Some(t)
  {
    hide Find, ValueIn, AllWhite, Plain, Pattern;
    SpacedValue(a, t, b, tail);
    AfterPattern(before, Pattern(key), rest);
  }

  lemma AfterPattern(before: string, pat: string, rest: string)
    ensures (before + pat + rest)[|before| + |pat|..] == rest
  {
  }

  // The value right after its key.
  lemma GetHere(f: Field, sep: char, rest: string)
    requires FieldOk(f) && (sep == ',' || sep == '}')
    ensures GetStr(FieldText(f) + [sep] + rest, f.key) == Some(f.value.text)
  {
    hide Trim, IsWhite, ValueIn, Plain;
    var pat, t := Pattern(f.key), f.value.text;
    var line := FieldText(f) + [sep] + rest;
    var after := ValueText(f.value) + [sep] + rest;
    assert line == pat + after && line[|pat|..] == after;
    match f.value
    case Number(_) =>
      BareValue(t, [sep] + rest);
      assert after == t + ([sep] + rest);
    case Text(_) =>
      QuotedValue(t, ['"'] + ([sep] + rest));
      assert after == ['"'] + (t + (['"'] + ([sep] + rest)));
  }

  lemma NoFields(end: string)
    ensures FieldsText([], end) == end
  {
  }

  lemma FieldsUnfold(fs: seq<Field>, end: string)
    requires fs != []
    ensures FieldsText(fs, end) == FieldText(fs[0]) + (if |fs| == 1 then end else [','] + FieldsText(fs[1..], end))
  {
  }

  lemma FieldsCons(fs: seq<Field>, sep: char, rest: string)
    requires fs != [] && sep == (if |fs| == 1 then '}' else ',')
    requires rest == if |fs| == 1 then [] else FieldsText(fs[1..], ['}'])
    ensures FieldsText(fs, ['}']) == FieldText(fs[0]) + [sep] + rest
  {
    hide FieldText, FieldsText;
    FieldsUnfold(fs, ['}']);
    assert [sep] + rest == if |fs| == 1 then ['}'] else [','] + rest;
    assert FieldText(fs[0]) + ([sep] + rest) == FieldText(fs[0]) + [sep] + rest;
  }

  // Reading any key of a flat object gives its first value.
  lemma {:induction false} GetField(fs: seq<Field>, key: string)
    requires (forall i :: 0 <= i < |fs| ==> FieldOk(fs[i])) && Plain(key) && key != []
    ensures GetStr(FieldsText(fs, ['}']), key) == Lookup(fs, key)
  {
    hide GetStr, Find, Starts, FieldOk, Plain, FieldText, FieldsText, Pattern, Shift;
    if fs == [] {
      NoFields(['}']);
      NothingIn(key);
    } else {
      var f := fs[0];
      var sep := if |fs| == 1 then '}' else ',';
      var rest := if |fs| == 1 then [] else FieldsText(fs[1..], ['}']);
      FieldsCons(fs, sep, rest);
      if f.key == key {
        GetHere(f, sep, rest);
      } else {
        FieldSkipped(f, key, sep, rest);
        GetSkips(FieldText(f) + [sep], rest, key);
        if |fs| == 1 { NothingIn(key); } else { GetField(fs[1..], key); }
      }
    }
  }

  lemma NothingIn(key: string)
    ensures GetStr([], key) == None && GetStr(['}'], key) == None
  {
  }

  lemma GetObjectField(fs: seq<Field>, key: string)
    requires (forall i :: 0 <= i < |fs| ==> FieldOk(fs[i])) && Plain(key) && key != []
    ensures GetStr(ObjectText(fs), key) == Lookup(fs, key)
  {
    hide GetStr, Find, FieldOk, Plain;
    FindSkips(['{'], FieldsText(fs, ['}']), Pattern(key));
    GetSkips(['{'], FieldsText(fs, ['}']), key);
    GetField(fs, key);
  }

  // ---- writing an object piece by piece -------------------------------------------------------

  lemma {:induction false} FieldsEnd(fs: seq<Field>, end: string, more: string)
    ensures FieldsText(fs, end) + more == FieldsText(fs, end + more)
  {
    hide FieldText, FieldsText;
    if fs == [] {
      NoFields(end);
      NoFields(end + more);
    } else {
      FieldsUnfold(fs, end);
      FieldsUnfold(fs, end + more);
      var (head, tail) := (FieldText(fs[0]), FieldsText(fs[1..], end));
      if |fs| == 1 {
        assert head + end + more == head + (end + more);
      } else {
        FieldsEnd(fs[1..], end, more);
        assert head + ([','] + tail) + more == head + ([','] + (tail + more));
      }
    }
  }

  // Appending `,"key":value` adds a field.
  lemma {:induction false} FieldsNext(fs: seq<Field>, f: Field, end: string)
    requires fs != []
    ensures FieldsText(fs + [f], end) == FieldsText(fs, [','] + FieldText(f) + end)
  {
    if |fs| == 1 {
      assert (fs + [f])[1..] == [f];
      assert [','] + (FieldText(f) + end) == [','] + FieldText(f) + end;
    } else {
      assert (fs + [f])[1..] == fs[1..] + [f];
      FieldsNext(fs[1..], f, end);
    }
  }

  // An object that still lacks its closing brace.
  function OpenText(fs: seq<Field>): string {
    ['{'] + FieldsText(fs, [])
  }

  lemma OpenFirst(key: string, text: string)
    ensures OpenText([Field(key, Text(text))]) == ['{'] + Pattern(key) + ['"'] + text + ['"']
  {
    assert FieldText(Field(key, Text(text))) + [] == FieldText(Field(key, Text(text)));
  }

  lemma OpenNext(out: string, fs: seq<Field>, f: Field)
    requires fs != []
    ensures out + OpenText(fs + [f]) == out + OpenText(fs) + ([','] + Pattern(f.key)) + ValueText(f.value)
  {
    hide FieldsText, Pattern, ValueText;
    var more := [','] + FieldText(f);
    FieldsNext(fs, f, []);
    FieldsEnd(fs, [], more);
    assert more + [] == more && [] + more == more;
    assert more == [','] + Pattern(f.key) + ValueText(f.value);
  }

  lemma OpenClosed(out: string, fs: seq<Field>)
    ensures out + OpenText(fs) + ['}'] == out + ObjectText(fs)
  {
    FieldsEnd(fs, [], ['}']);
    assert [] + ['}'] == ['}'];
  }
}
