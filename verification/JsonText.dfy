/** `json.dumps` and the bytes of its output (section 7 of RFC 8259, section 3 of RFC 3629). */
module JsonText {
  import opened Json
  import opened Lists

  /** How a document is written: `ensure_ascii`, and compact or default separators. */
  datatype Style = Style(ascii: bool, compact: bool)

  const WORST: Style := Style(true, false)

  function HexDigit(n: nat): char
    requires n < 16
  {
    if n < 10 then ('0' as int + n) as char else ('a' as int + n - 10) as char
  }

  function Hex4(n: nat): string
    requires n < 0x10000
  {
    [HexDigit(n / 0x1000), HexDigit(n / 0x100 % 16), HexDigit(n / 16 % 16), HexDigit(n % 16)]
  }

  /** Characters with a two-character escape, and the letter of that escape. */
  predicate HasShortEscape(c: char) {
    c == '\"' || c == '\\' || c == '\n' || c == '\r' || c == '\t' || c as int == 0x0C || c as int == 0x08
  }

  function ShortEscape(c: char): char {
    if c == '\n' then 'n' else if c == '\r' then 'r' else if c == '\t' then 't'
    else if c as int == 0x0C then 'f' else if c as int == 0x08 then 'b' else c
  }

  function UnicodeEscape(n: nat): string
    requires n < 0x10000
  {
    ['\\', 'u'] + Hex4(n)
  }

  /** The escape of one character inside a JSON string, as Python writes it. */
  function EscapeChar(c: char, ascii: bool): string {
    var n := c as int;
    if HasShortEscape(c) then ['\\', ShortEscape(c)]
    else if n < 0x20 || (ascii && 0x7F <= n < 0x10000) then UnicodeEscape(n)
    else if ascii && n >= 0x10000 then
      UnicodeEscape(0xD800 + (n - 0x10000) / 0x400) + UnicodeEscape(0xDC00 + (n - 0x10000) % 0x400)
    else [c]
  }

  ghost predicate IsHexDigit(c: char, n: int) {
    ('0' <= c <= '9' && n == c as int - '0' as int) || ('a' <= c <= 'f' && n == 10 + c as int - 'a' as int)
  }

  /** The code unit that a six-character escape stands for. */
  ghost predicate IsUnit(e: string, n: int) {
    |e| == 6 && e[0] == '\\' && e[1] == 'u'
    && exists a, b, c, d :: IsHexDigit(e[2], a) && IsHexDigit(e[3], b) && IsHexDigit(e[4], c) && IsHexDigit(e[5], d)
         && n == 0x1000 * a + 0x100 * b + 0x10 * c + d
  }

  ghost predicate IsPair(e: string, n: int, h: int, l: int) {
    |e| == 12 && IsUnit(e[..6], h) && IsUnit(e[6..], l) && 0xD800 <= h < 0xDC00 <= l < 0xE000
    && n == 0x10000 + (h - 0xD800) * 0x400 + (l - 0xDC00)
  }

  /** The two-character escapes. */
  ghost predicate IsShort(e: string, n: int) {
    |e| == 2 && e[0] == '\\'
    && match e[1]
       case 'b' => n == 0x08
       case 't' => n == 0x09
       case 'n' => n == 0x0A
       case 'f' => n == 0x0C
       case 'r' => n == 0x0D
       case c => n == c as int && (n == 0x22 || n == 0x5C)
  }

  /** The character that a text stands for inside a JSON string: itself, an escape of two or of six
      characters, or two of six for a surrogate pair. */
  ghost predicate StandsFor(e: string, n: int) {
    || (|e| == 1 && e[0] as int == n && n >= 0x20 && n != 0x22 && n != 0x5C)
    || IsShort(e, n) || IsUnit(e, n) || exists h, l :: IsPair(e, n, h, l)
  }

  lemma HexDigitIs(n: nat)
    requires n < 16
    ensures IsHexDigit(HexDigit(n), n)
  {
  }

  lemma HexParts(n: nat)
    requires n < 0x10000
    ensures n == 0x1000 * (n / 0x1000) + 0x100 * (n / 0x100 % 16) + 0x10 * (n / 16 % 16) + n % 16
  {
    assert n / 16 == 16 * (n / 0x100) + n / 16 % 16;
    assert n / 0x100 == 16 * (n / 0x1000) + n / 0x100 % 16;
  }

  lemma UnicodeEscapeIsUnit(n: nat)
    requires n < 0x10000
    ensures IsUnit(UnicodeEscape(n), n)
  {
    HexParts(n);
    HexDigitIs(n / 0x1000);
    HexDigitIs(n / 0x100 % 16);
    HexDigitIs(n / 16 % 16);
    HexDigitIs(n % 16);
    var e := UnicodeEscape(n);
    assert IsHexDigit(e[2], n / 0x1000) && IsHexDigit(e[3], n / 0x100 % 16);
    assert IsHexDigit(e[4], n / 16 % 16) && IsHexDigit(e[5], n % 16);
  }

  lemma PairIsEscape(n: nat)
    requires 0x10000 <= n < 0x11_0000
    ensures var h, l := 0xD800 + (n - 0x10000) / 0x400, 0xDC00 + (n - 0x10000) % 0x400;
            IsPair(UnicodeEscape(h) + UnicodeEscape(l), n, h, l)
  {
    var h, l := 0xD800 + (n - 0x10000) / 0x400, 0xDC00 + (n - 0x10000) % 0x400;
    var e := UnicodeEscape(h) + UnicodeEscape(l);
    UnicodeEscapeIsUnit(h);
    UnicodeEscapeIsUnit(l);
    assert e[..6] == UnicodeEscape(h) && e[6..] == UnicodeEscape(l);
  }

  /** An escaped character can be read back. */
  lemma EscapeReadsBack(c: char, ascii: bool)
    ensures StandsFor(EscapeChar(c, ascii), c as int)
  {
    if c as int < 0x10000 {
      UnicodeEscapeIsUnit(c as int);
    } else {
      PairIsEscape(c as int);
    }
  }

  /** An ASCII escape is printable ASCII. */
  lemma AsciiEscapeIsAscii(c: char)
    ensures forall x :: x in EscapeChar(c, true) ==> ' ' <= x <= '~'
  {
  }

  function FlatMap(f: char -> string, s: string): string {
    if s == "" then "" else f(s[0]) + FlatMap(f, s[1..])
  }

  function Escaper(ascii: bool): char -> string { c => EscapeChar(c, ascii) }

  function Escape(s: string, ascii: bool): string { FlatMap(Escaper(ascii), s) }

  function Quote(s: string, ascii: bool): string { "\"" + Escape(s, ascii) + "\"" }

  function Digits(n: nat): string {
    if n < 10 then [HexDigit(n)] else Digits(n / 10) + [HexDigit(n % 10)]
  }

  /** The number that decimal digits spell. */
  ghost function Number(s: string): int {
    if s == "" then 0 else Number(s[..|s| - 1]) * 10 + s[|s| - 1] as int - '0' as int
  }

  lemma {:induction false} DigitsAreTheNumber(n: nat)
    ensures |Digits(n)| >= 1 && Number(Digits(n)) == n
  {
    if n < 10 {
      assert Digits(n)[..0] == "";
    } else {
      DigitsAreTheNumber(n / 10);
      assert Digits(n)[..|Digits(n)| - 1] == Digits(n / 10);
    }
  }

  function IntText(n: int): string { if n < 0 then "-" + Digits(-n) else Digits(n) }

  /** An integer reads back as itself. */
  lemma IntTextReads(n: int)
    ensures if n < 0 then IntText(n)[..1] == "-" && Number(IntText(n)[1..]) == -n else Number(IntText(n)) == n
  {
    DigitsAreTheNumber(if n < 0 then -n else n);
  }

  function Comma(st: Style): string { if st.compact then "," else ", " }

  function Colon(st: Style): string { if st.compact then ":" else ": " }

  /** `json.dumps`; `repr` writes a float. */
  function Dumps(v: Value, st: Style, repr: real -> string): string
    decreases v, 0
  {
    match v
    case Null => "null"
    case Bool(b) => if b then "true" else "false"
    case Int(n) => IntText(n)
    case Real(x) => repr(x)
    case Str(s) => Quote(s, st.ascii)
    case Arr(items) => "[" + DumpsItems(items, st, repr) + "]"
    case Obj(fields) => "{" + DumpsFields(fields, st, repr) + "}"
  }

  function DumpsItems(items: seq<Value>, st: Style, repr: real -> string): string
    decreases items, 1
  {
    if items == [] then ""
    else Dumps(items[0], st, repr) + (if |items| == 1 then "" else Comma(st)) + DumpsItems(items[1..], st, repr)
  }

  function DumpsField(f: (string, Value), st: Style, repr: real -> string): string
    decreases f, 1
  {
    Quote(f.0, st.ascii) + Colon(st) + Dumps(f.1, st, repr)
  }

  function DumpsFields(fields: seq<(string, Value)>, st: Style, repr: real -> string): string
    decreases fields, 1
  {
    if fields == [] then ""
    else
      DumpsField(fields[0], st, repr)
      + (if |fields| == 1 then "" else Comma(st)) + DumpsFields(fields[1..], st, repr)
  }

  /** Separators are one character in compact form and two otherwise; literals are written in full. */
  lemma SeparatorsAndLiterals(st: Style, b: bool, repr: real -> string)
    ensures |Comma(st)| == |Colon(st)| == (if st.compact then 1 else 2) && Comma(st)[0] == ',' && Colon(st)[0] == ':'
    ensures |Dumps(Bool(b), st, repr)| == (if b then 4 else 5) && |Dumps(Null, st, repr)| == 4
  {
  }

  // ---------------------------------------------------------------- bytes

  function Utf8Len(c: char): nat {
    var n := c as int;
    if n < 0x80 then 1 else if n < 0x800 then 2 else if n < 0x10000 then 3 else 4
  }

  /** A character takes the fewest bytes whose payload (7, 11, 16 or 21 bits) holds it. */
  lemma Utf8LenIsLeast(c: char)
    ensures var n, k := c as int, Utf8Len(c);
            1 <= k <= 4 && (n < 0x80 <==> k == 1) && (n < 0x800 <==> k <= 2) && (n < 0x1_0000 <==> k <= 3)
  {
  }

  function Bytes(s: string): nat { if s == "" then 0 else Utf8Len(s[0]) + Bytes(s[1..]) }

  lemma {:induction false} BytesAppend(s: string, t: string)
    ensures Bytes(s + t) == Bytes(s) + Bytes(t)
  {
    if s == "" {
      assert s + t == t;
    } else {
      BytesAppend(s[1..], t);
      assert (s + t)[1..] == s[1..] + t;
    }
  }

  lemma {:induction false} FlatMapAppend(f: char -> string, s: string, t: string)
    ensures FlatMap(f, s + t) == FlatMap(f, s) + FlatMap(f, t)
  {
    if s == "" {
      assert s + t == t;
    } else {
      var rest := s[1..];
      FlatMapAppend(f, rest, t);
      Associate(f(s[0]), FlatMap(f, rest), FlatMap(f, t));
      assert [s[0]] + (rest + t) == s + t && [s[0]] + rest == s;
    }
  }

  /** A character never costs more bytes than its ASCII escape. */
  lemma EscapeCharWorst(c: char, ascii: bool)
    ensures Bytes(EscapeChar(c, ascii)) <= Bytes(EscapeChar(c, true))
  {
    if !ascii && c as int >= 0x7F {
      assert EscapeChar(c, false) == [c] && Bytes([c]) <= 4;
      assert |EscapeChar(c, true)| >= 6;
      BytesAtLeastLength(EscapeChar(c, true));
    }
  }

  lemma BytesAtLeastLength(s: string)
    ensures Bytes(s) >= |s|
  {
  }

  lemma {:induction false} FlatMapWorst(f: char -> string, g: char -> string, s: string)
    requires forall c :: Bytes(f(c)) <= Bytes(g(c))
    ensures Bytes(FlatMap(f, s)) <= Bytes(FlatMap(g, s))
  {
    if s != "" {
      FlatMapWorst(f, g, s[1..]);
      BytesAppend(f(s[0]), FlatMap(f, s[1..]));
      BytesAppend(g(s[0]), FlatMap(g, s[1..]));
    }
  }

  lemma EscapeWorst(s: string, ascii: bool)
    ensures Bytes(Escape(s, ascii)) <= Bytes(Escape(s, true))
  {
    var f, g := Escaper(ascii), Escaper(true);
    forall c ensures Bytes(f(c)) <= Bytes(g(c)) {
      EscapeCharWorst(c, ascii);
    }
    FlatMapWorst(f, g, s);
  }

  lemma QuoteBytes(s: string, ascii: bool)
    ensures Bytes(Quote(s, ascii)) == Bytes(Escape(s, ascii)) + 2
  {
    BytesAppend("\"" + Escape(s, ascii), "\"");
    BytesAppend("\"", Escape(s, ascii));
  }

  lemma SeparatorsWorst(st: Style)
    ensures Bytes(Comma(st)) <= Bytes(Comma(WORST)) == 2 && Bytes(Colon(st)) <= Bytes(Colon(WORST)) == 2
  {
    assert Bytes(", ") == 2 && Bytes(": ") == 2 && Bytes(",") == 1 && Bytes(":") == 1;
  }

  /** ASCII escapes and default separators are the longest way to write any document. */
  lemma {:induction false} DumpsWorst(v: Value, st: Style, repr: real -> string)
    ensures Bytes(Dumps(v, st, repr)) <= Bytes(Dumps(v, WORST, repr))
    decreases v, 0
  {
    match v
    case Str(s) =>
      EscapeWorst(s, st.ascii);
      QuoteBytes(s, st.ascii);
      QuoteBytes(s, true);
    case Arr(items) =>
      ItemsWorst(items, st, repr);
      BracketBytes("[", DumpsItems(items, st, repr), "]");
      BracketBytes("[", DumpsItems(items, WORST, repr), "]");
    case Obj(fields) =>
      FieldsWorst(fields, st, repr);
      BracketBytes("{", DumpsFields(fields, st, repr), "}");
      BracketBytes("{", DumpsFields(fields, WORST, repr), "}");
    case _ =>
  }

  lemma BracketBytes(a: string, s: string, b: string)
    ensures Bytes(a + s + b) == Bytes(a) + Bytes(s) + Bytes(b)
  {
    BytesAppend(a + s, b);
    BytesAppend(a, s);
  }

  lemma {:induction false} ItemsWorst(items: seq<Value>, st: Style, repr: real -> string)
    ensures Bytes(DumpsItems(items, st, repr)) <= Bytes(DumpsItems(items, WORST, repr))
    decreases items, 1
  {
    if items != [] {
      DumpsWorst(items[0], st, repr);
      ItemsWorst(items[1..], st, repr);
      SeparatorsWorst(st);
      BracketBytes(Dumps(items[0], st, repr), if |items| == 1 then "" else Comma(st),
                   DumpsItems(items[1..], st, repr));
      BracketBytes(Dumps(items[0], WORST, repr), if |items| == 1 then "" else Comma(WORST),
                   DumpsItems(items[1..], WORST, repr));
    }
  }

  lemma {:induction false} FieldWorst(f: (string, Value), st: Style, repr: real -> string)
    ensures Bytes(DumpsField(f, st, repr)) <= Bytes(DumpsField(f, WORST, repr))
    decreases f, 1
  {
    DumpsWorst(f.1, st, repr);
    EscapeWorst(f.0, st.ascii);
    QuoteBytes(f.0, st.ascii);
    QuoteBytes(f.0, true);
    SeparatorsWorst(st);
    BracketBytes(Quote(f.0, st.ascii), Colon(st), Dumps(f.1, st, repr));
    BracketBytes(Quote(f.0, true), Colon(WORST), Dumps(f.1, WORST, repr));
  }

  lemma {:induction false} FieldsWorst(fields: seq<(string, Value)>, st: Style, repr: real -> string)
    ensures Bytes(DumpsFields(fields, st, repr)) <= Bytes(DumpsFields(fields, WORST, repr))
    decreases fields, 1
  {
    if fields != [] {
      var f := fields[0];
      FieldWorst(f, st, repr);
      SeparatorsWorst(st);
      FieldsWorst(fields[1..], st, repr);
      BracketBytes(DumpsField(f, st, repr), if |fields| == 1 then "" else Comma(st),
                   DumpsFields(fields[1..], st, repr));
      BracketBytes(DumpsField(f, WORST, repr), if |fields| == 1 then "" else Comma(WORST),
                   DumpsFields(fields[1..], WORST, repr));
    }
  }
}
