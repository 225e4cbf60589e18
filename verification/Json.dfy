/**
 Canonical JSON text as `json.dumps` writes it: strings escaped down to ASCII
 (section 7 of RFC 8259), arrays and objects with the given separators. Equal
 text means equal data.
 */
module Json {
  import opened Prelude

  datatype Json = Text(text: string) | Array(items: seq<Json>) | Object(fields: seq<Field>)

  datatype Field = Field(name: string, value: Json)

  /** `json.dumps` separators: `", "` and `": "` by default, `","` and `":"` when compact. */
  datatype Style = Style(item: string, key: string)

  const SPACED := Style(", ", ": ")
  const COMPACT := Style(",", ":")

  predicate GoodStyle(st: Style) { st.item != "" && st.item[0] == ',' }

  function HexDigit(n: nat): char
    requires n < 16
  {
    if n < 10 then ('0' as int + n) as char else ('a' as int + n - 10) as char
  }

  function Hex4(n: nat): string
    requires n < 0x10000
  {
    [HexDigit(n / 16 / 16 / 16), HexDigit(n / 16 / 16 % 16), HexDigit(n / 16 % 16), HexDigit(n % 16)]
  }

  function ShortEscape(c: char): string {
    if c == '\"' then "\\\"" else if c == '\\' then "\\\\" else if c == '\n' then "\\n"
    else if c == '\r' then "\\r" else if c == '\t' then "\\t" else if c as int == 8 then "\\b"
    else if c as int == 12 then "\\f" else ""
  }

  /** One character: printable ASCII as itself, the rest as an escape, astral ones as a surrogate pair. */
  function Code(c: char): (s: string)
    ensures s != ""
  {
    if ShortEscape(c) != "" then ShortEscape(c)
    else if ' ' <= c <= '~' then [c]
    else if c as int < 0x10000 then "\\u" + Hex4(c as int)
    else "\\u" + Hex4(0xD800 + (c as int - 0x10000) / 0x400) + "\\u" + Hex4(0xDC00 + (c as int - 0x10000) % 0x400)
  }

  function Codes(s: string): string { if s == "" then "" else Code(s[0]) + Codes(s[1..]) }

  function Quoted(s: string): string { "\"" + Codes(s) + "\"" }

  function Encode(v: Json, st: Style): string
    decreases v
  {
    match v
    case Text(text) => Quoted(text)
    case Array(items) => if items == [] then "[]" else "[" + Encode(items[0], st) + MoreItems(items[1..], st)
    case Object(fields) =>
      if fields == [] then "{}" else "{" + Quoted(fields[0].name) + st.key + Encode(fields[0].value, st) + MoreFields(fields[1..], st)
  }

  function MoreItems(items: seq<Json>, st: Style): string
    decreases items
  {
    if items == [] then "]" else st.item + Encode(items[0], st) + MoreItems(items[1..], st)
  }

  function MoreFields(fields: seq<Field>, st: Style): string
    decreases fields
  {
    if fields == [] then "}"
    else st.item + Quoted(fields[0].name) + st.key + Encode(fields[0].value, st) + MoreFields(fields[1..], st)
  }

  predicate Plain(s: string) { forall i :: 0 <= i < |s| ==> ' ' <= s[i] <= '~' && s[i] != '\"' && s[i] != '\\' }

  /** Printable ASCII without quotes and backslashes is written as it is. */
  lemma {:induction false} PlainIsItself(s: string)
    requires Plain(s)
    ensures Codes(s) == s && Encode(Text(s), COMPACT) == "\"" + s + "\""
  {
    if s != "" {
      PlainIsItself(s[1..]);
      assert [s[0]] + s[1..] == s;
    }
  }

  /** The separators: the bare comma when compact, a space after each by default. */
  lemma {:induction false} PairAsWritten(x: Json, y: Json)
    ensures Encode(Array([x, y]), COMPACT) == "[" + Encode(x, COMPACT) + "," + Encode(y, COMPACT) + "]"
  {
    assert [x, y][1..] == [y] && [y][1..] == [];
    assert MoreItems([], COMPACT) == "]";
    assert MoreItems([y], COMPACT) == "," + Encode(y, COMPACT) + "]";
  }

  lemma {:induction false} FieldAsWritten(name: string, x: Json)
    ensures Encode(Object([Field(name, x)]), SPACED) == "{" + Quoted(name) + ": " + Encode(x, SPACED) + "}"
  {
    assert [Field(name, x)][1..] == [];
    assert MoreFields([], SPACED) == "}";
  }

  // ---- the text determines the data ----

  lemma {:induction false} DigitIsInjective(n: nat, m: nat)
    requires n < 16 && m < 16 && HexDigit(n) == HexDigit(m)
    ensures n == m
  {
  }

  lemma {:induction false} HexIsInjective(n: nat, m: nat)
    requires n < 0x10000 && m < 0x10000 && Hex4(n) == Hex4(m)
    ensures n == m
  {
    var a, b := Hex4(n), Hex4(m);
    assert a[0] == b[0] && a[1] == b[1] && a[2] == b[2] && a[3] == b[3];
    hide HexDigit;
    DigitIsInjective(n / 16 / 16 / 16, m / 16 / 16 / 16);
    DigitIsInjective(n / 16 / 16 % 16, m / 16 / 16 % 16);
    DigitIsInjective(n / 16 % 16, m / 16 % 16);
    DigitIsInjective(n % 16, m % 16);
  }

  predicate Escaped(c: char) { ShortEscape(c) == "" && !(' ' <= c <= '~') }

  /** A code unit escape splits off four hex digits. */
  lemma {:induction false} UnitSplits(n: nat, x: string, m: nat, y: string)
    requires n < 0x10000 && m < 0x10000
    requires "\\u" + Hex4(n) + x == "\\u" + Hex4(m) + y
    ensures n == m && x == y
  {
    Cut("\\u" + Hex4(n), x, "\\u" + Hex4(m), y);
    assert Hex4(n) == ("\\u" + Hex4(n))[2..] && Hex4(m) == ("\\u" + Hex4(m))[2..];
    HexIsInjective(n, m);
  }

  /** The first code unit of an escaped character, and what follows it. */
  function FirstUnit(c: char): (n: nat)
    requires Escaped(c)
    ensures n < 0x10000 && (0xD800 <= n < 0xDC00 <==> c as int >= 0x10000)
  {
    if c as int < 0x10000 then c as int else 0xD800 + (c as int - 0x10000) / 0x400
  }

  function SecondUnit(c: char): string
    requires Escaped(c)
  {
    if c as int < 0x10000 then "" else "\\u" + Hex4(0xDC00 + (c as int - 0x10000) % 0x400)
  }

  lemma {:induction false} EscapedCode(c: char, x: string)
    requires Escaped(c)
    ensures Code(c) + x == "\\u" + Hex4(FirstUnit(c)) + (SecondUnit(c) + x)
  {
  }

  lemma {:induction false} EscapedSplits(c: char, x: string, d: char, y: string)
    requires Escaped(c) && Escaped(d) && Code(c) + x == Code(d) + y
    ensures c == d && x == y
  {
    EscapedCode(c, x);
    EscapedCode(d, y);
    UnitSplits(FirstUnit(c), SecondUnit(c) + x, FirstUnit(d), SecondUnit(d) + y);
    assert "" + x == x && "" + y == y;
    if c as int >= 0x10000 {
      UnitSplits(0xDC00 + (c as int - 0x10000) % 0x400, x, 0xDC00 + (d as int - 0x10000) % 0x400, y);
    }
  }

  lemma {:induction false} ShortSplits(c: char, x: string, d: char, y: string)
    requires !Escaped(c) && !Escaped(d) && Code(c) + x == Code(d) + y
    ensures c == d && x == y
  {
    assert (Code(c) + x)[0] == Code(c)[0] && (Code(d) + y)[0] == Code(d)[0];
    assert |Code(c)| == if ShortEscape(c) != "" then 2 else 1;
    assert |Code(d)| == if ShortEscape(d) != "" then 2 else 1;
    Cut(Code(c), x, Code(d), y);
  }

  lemma {:induction false} EscapeIsMarked(c: char, x: string)
    requires Escaped(c)
    ensures |Code(c) + x| >= 2 && (Code(c) + x)[0] == '\\' && (Code(c) + x)[1] == 'u'
  {
  }

  lemma {:induction false} ShortIsNotMarked(c: char, x: string)
    requires !Escaped(c)
    ensures !(|Code(c) + x| >= 2 && (Code(c) + x)[0] == '\\' && (Code(c) + x)[1] == 'u')
  {
    if ShortEscape(c) != "" {
      assert (Code(c) + x)[1] == Code(c)[1];
    } else {
      assert (Code(c) + x)[0] == c;
    }
  }

  /** The code of a character is never the start of another's. */
  lemma {:induction false} CodeSplits(c: char, x: string, d: char, y: string)
    requires Code(c) + x == Code(d) + y
    ensures c == d && x == y
  {
    if Escaped(c) {
      EscapeIsMarked(c, x);
      if Escaped(d) {
        EscapedSplits(c, x, d, y);
      } else {
        ShortIsNotMarked(d, y);
      }
    } else {
      ShortIsNotMarked(c, x);
      if Escaped(d) {
        EscapeIsMarked(d, y);
      } else {
        ShortSplits(c, x, d, y);
      }
    }
  }

  lemma {:induction false} OnlyEmptyStartsWithQuote(a: string, x: string)
    ensures (Codes(a) + "\"" + x)[0] == '\"' <==> a == ""
  {
    if a != "" {
      assert (Codes(a) + "\"" + x)[0] == Code(a[0])[0];
    }
  }

  lemma {:induction false} CodesShape(a: string, x: string)
    requires a != ""
    ensures Codes(a) + "\"" + x == Code(a[0]) + (Codes(a[1..]) + "\"" + x)
  {
    hide Code;
  }

  /** A quoted string is self-delimiting and determines its characters. */
  lemma {:induction false} CodesSplit(a: string, x: string, b: string, y: string)
    requires Codes(a) + "\"" + x == Codes(b) + "\"" + y
    ensures a == b && x == y
  {
    var s, t := Codes(a) + "\"" + x, Codes(b) + "\"" + y;
    OnlyEmptyStartsWithQuote(a, x);
    OnlyEmptyStartsWithQuote(b, y);
    if a == "" {
      assert s[1..] == x && t[1..] == y;
    } else {
      hide Code, Codes;
      var p, q := Codes(a[1..]) + "\"" + x, Codes(b[1..]) + "\"" + y;
      CodesShape(a, x);
      CodesShape(b, y);
      hide Code, Codes;
      CodeSplits(a[0], p, b[0], q);
      CodesSplit(a[1..], x, b[1..], y);
      assert a == [a[0]] + a[1..] && b == [b[0]] + b[1..];
    }
  }

  lemma {:induction false} QuotedShape(a: string, x: string)
    ensures Quoted(a) + x == "\"" + (Codes(a) + "\"" + x)
  {
    hide Codes;
  }

  lemma {:induction false} QuotedSplits(a: string, x: string, b: string, y: string)
    requires Quoted(a) + x == Quoted(b) + y
    ensures a == b && x == y
  {
    QuotedShape(a, x);
    QuotedShape(b, y);
    hide Codes, Quoted;
    Unprefix("\"", Codes(a) + "\"" + x, Codes(b) + "\"" + y);
    CodesSplit(a, x, b, y);
  }

  function Opening(v: Json): char {
    match v case Text(_) => '\"' case Array(_) => '[' case Object(_) => '{'
  }

  lemma {:induction false} EncodeOpens(v: Json, st: Style)
    ensures Encode(v, st) != "" && Encode(v, st)[0] == Opening(v)
  {
  }

  /** Every value is self-delimiting: two encodings with anything after them agree only if the values do. */
  lemma {:induction false} EncodeSplits(v: Json, x: string, w: Json, y: string, st: Style)
    requires GoodStyle(st) && Encode(v, st) + x == Encode(w, st) + y
    ensures v == w && x == y
    decreases v, 0
  {
    EncodeOpens(v, st);
    EncodeOpens(w, st);
    assert (Encode(v, st) + x)[0] == Opening(v) && (Encode(w, st) + y)[0] == Opening(w);
    match v
    case Text(text) => QuotedSplits(text, x, w.text, y);
    case Array(items) => ArraySplits(items, x, w.items, y, st);
    case Object(fields) => ObjectSplits(fields, x, w.fields, y, st);
  }

  /** What follows the opening bracket. */
  function Items(a: seq<Json>, x: string, st: Style): string {
    if a == [] then "]" + x else Encode(a[0], st) + (MoreItems(a[1..], st) + x)
  }

  lemma {:induction false} ArrayShape(a: seq<Json>, x: string, st: Style)
    ensures Encode(Array(a), st) + x == "[" + Items(a, x, st)
  {
  }

  lemma {:induction false} ItemsOpen(a: seq<Json>, x: string, st: Style)
    ensures Items(a, x, st) != "" && (Items(a, x, st)[0] == ']' <==> a == [])
  {
    if a != [] { EncodeOpens(a[0], st); }
  }

  lemma {:induction false} MoreItemsShape(a: seq<Json>, x: string, st: Style)
    ensures MoreItems(a, st) + x
         == if a == [] then "]" + x else st.item + (Encode(a[0], st) + (MoreItems(a[1..], st) + x))
  {
  }

  lemma {:induction false} ArraySplits(a: seq<Json>, x: string, b: seq<Json>, y: string, st: Style)
    requires GoodStyle(st) && Encode(Array(a), st) + x == Encode(Array(b), st) + y
    ensures a == b && x == y
    decreases a, 1
  {
    ArrayShape(a, x, st);
    ArrayShape(b, y, st);
    ItemsOpen(a, x, st);
    ItemsOpen(b, y, st);
    hide Encode, MoreItems;
    Unprefix("[", Items(a, x, st), Items(b, y, st));
    if a == [] {
      Unprefix("]", x, y);
    } else {
      EncodeSplits(a[0], MoreItems(a[1..], st) + x, b[0], MoreItems(b[1..], st) + y, st);
      MoreItemsSplit(a[1..], x, b[1..], y, st);
      assert a == [a[0]] + a[1..] && b == [b[0]] + b[1..];
    }
  }

  lemma {:induction false} MoreItemsSplit(a: seq<Json>, x: string, b: seq<Json>, y: string, st: Style)
    requires GoodStyle(st) && MoreItems(a, st) + x == MoreItems(b, st) + y
    ensures a == b && x == y
    decreases a, 0
  {
    MoreItemsShape(a, x, st);
    MoreItemsShape(b, y, st);
    hide Encode, MoreItems;
    var s := MoreItems(a, st) + x;
    var t := MoreItems(b, st) + y;
    assert s[0] == (if a == [] then ']' else ',') && t[0] == if b == [] then ']' else ',';
    if a == [] {
      Unprefix("]", x, y);
    } else {
      Unprefix(st.item, Encode(a[0], st) + (MoreItems(a[1..], st) + x), Encode(b[0], st) + (MoreItems(b[1..], st) + y));
      EncodeSplits(a[0], MoreItems(a[1..], st) + x, b[0], MoreItems(b[1..], st) + y, st);
      MoreItemsSplit(a[1..], x, b[1..], y, st);
      assert a == [a[0]] + a[1..] && b == [b[0]] + b[1..];
    }
  }

  function Fields(a: seq<Field>, x: string, st: Style): string {
    if a == [] then "}" + x else FieldText(a[0], MoreFields(a[1..], st) + x, st)
  }

  lemma {:induction false} ObjectShape(a: seq<Field>, x: string, st: Style)
    ensures Encode(Object(a), st) + x == "{" + Fields(a, x, st)
  {
  }

  lemma {:induction false} FieldsOpen(a: seq<Field>, x: string, st: Style)
    ensures Fields(a, x, st) != "" && (Fields(a, x, st)[0] == '}' <==> a == [])
  {
    hide Codes;
  }

  lemma {:induction false} MoreFieldsShape(a: seq<Field>, x: string, st: Style)
    ensures MoreFields(a, st) + x
         == if a == [] then "}" + x else st.item + FieldText(a[0], MoreFields(a[1..], st) + x, st)
  {
  }

  lemma {:induction false} ObjectSplits(a: seq<Field>, x: string, b: seq<Field>, y: string, st: Style)
    requires GoodStyle(st) && Encode(Object(a), st) + x == Encode(Object(b), st) + y
    ensures a == b && x == y
    decreases a, 1
  {
    ObjectShape(a, x, st);
    ObjectShape(b, y, st);
    FieldsOpen(a, x, st);
    FieldsOpen(b, y, st);
    hide Encode, MoreFields, FieldText;
    Unprefix("{", Fields(a, x, st), Fields(b, y, st));
    if a == [] {
      Unprefix("}", x, y);
    } else {
      FieldSplits(a[0], MoreFields(a[1..], st) + x, b[0], MoreFields(b[1..], st) + y, st);
      MoreFieldsSplit(a[1..], x, b[1..], y, st);
      assert a == [a[0]] + a[1..] && b == [b[0]] + b[1..];
    }
  }

  function FieldText(f: Field, rest: string, st: Style): string {
    Quoted(f.name) + (st.key + (Encode(f.value, st) + rest))
  }

  lemma {:induction false} FieldSplits(f: Field, x: string, g: Field, y: string, st: Style)
    requires GoodStyle(st) && FieldText(f, x, st) == FieldText(g, y, st)
    ensures f == g && x == y
    decreases f, 1
  {
    var s, t := st.key + (Encode(f.value, st) + x), st.key + (Encode(g.value, st) + y);
    QuotedSplits(f.name, s, g.name, t);
    assert s[|st.key|..] == Encode(f.value, st) + x && t[|st.key|..] == Encode(g.value, st) + y;
    EncodeSplits(f.value, x, g.value, y, st);
  }

  lemma {:induction false} MoreFieldsSplit(a: seq<Field>, x: string, b: seq<Field>, y: string, st: Style)
    requires GoodStyle(st) && MoreFields(a, st) + x == MoreFields(b, st) + y
    ensures a == b && x == y
    decreases a, 0
  {
    MoreFieldsShape(a, x, st);
    MoreFieldsShape(b, y, st);
    hide Encode, MoreFields, FieldText;
    var s := MoreFields(a, st) + x;
    var t := MoreFields(b, st) + y;
    assert s[0] == (if a == [] then '}' else ',') && t[0] == if b == [] then '}' else ',';
    if a == [] {
      Unprefix("}", x, y);
    } else {
      Unprefix(st.item, FieldText(a[0], MoreFields(a[1..], st) + x, st), FieldText(b[0], MoreFields(b[1..], st) + y, st));
      FieldSplits(a[0], MoreFields(a[1..], st) + x, b[0], MoreFields(b[1..], st) + y, st);
      MoreFieldsSplit(a[1..], x, b[1..], y, st);
      assert a == [a[0]] + a[1..] && b == [b[0]] + b[1..];
    }
  }

  /** Equal text if and only if equal data. */
  lemma {:induction false} TextIsIdentity(v: Json, w: Json, st: Style)
    requires GoodStyle(st)
    ensures Encode(v, st) == Encode(w, st) <==> v == w
  {
    if Encode(v, st) == Encode(w, st) {
      assert Encode(v, st) + "" == Encode(w, st) + "";
      EncodeSplits(v, "", w, "", st);
    }
  }
}
