/**
 control.toml: the printer that regenerates the whole file and the readers
 behind it. The reader covers the part of TOML v1.0.0 the printer writes:
 comments, table headers, bare keys, basic strings and decimal numbers.
 */
module ControlToml {
  import opened Prelude

  /** A number with a fractional part stands as Python prints it. */
  datatype Value = Text(text: string) | Number(n: nat) | Fraction(repr: string)

  datatype Kind = FloatKind | IntKind | TextKind

  datatype Setting = Setting(key: string, kind: Kind, standard: Value)

  type Table = map<string, Value>

  type Doc = map<string, Table>

  datatype Flaw = BadToml | BadPort | UnknownKey | BadValue

  /** What the file holds: the machine's address block and every tier-2 value. */
  datatype Fields = Fields(ip: string, port: nat, origin: string, values: Table)

  const CONTROL := "control"
  const SETTINGS_TABLE := "settings"
  const CONTROL_IP := "control_ip"
  const CONTROL_PORT := "control_port"
  const BROWSER_ORIGIN := "browser_origin"
  const DEFAULT_CONTROL_PORT: nat := 443

  // ---- printing ----

  function Escape(s: string): string {
    if s == "" then ""
    else (if s[0] == '\\' then "\\\\" else if s[0] == '\"' then "\\\"" else [s[0]]) + Escape(s[1..])
  }

  function Digits(n: nat): (s: string)
    ensures s != ""
  {
    (if n < 10 then "" else Digits(n / 10)) + [('0' as int + n % 10) as char]
  }

  function Literal(v: Value): string {
    match v
    case Text(text) => "\"" + Escape(text) + "\""
    case Number(n) => Digits(n)
    case Fraction(repr) => repr
  }

  function EntryLine(e: (string, Value)): string { e.0 + " = " + Literal(e.1) }

  /** Lines joined by newlines, with one at the end. */
  function Lines(lines: seq<string>): string {
    if lines == [] then "" else lines[0] + "\n" + Lines(lines[1..])
  }

  function EntryLines(es: seq<(string, Value)>): seq<string> {
    if es == [] then [] else [EntryLine(es[0])] + EntryLines(es[1..])
  }

  function When(present: bool, e: (string, Value), rest: seq<(string, Value)>): seq<(string, Value)> {
    if present then [e] + rest else rest
  }

  /** Absent fields and the default port are not printed. */
  function ControlEntries(f: Fields): seq<(string, Value)>
  {
    When(f.ip != "", (CONTROL_IP, Text(f.ip)),
         When(f.port != DEFAULT_CONTROL_PORT, (CONTROL_PORT, Number(f.port)),
              When(f.origin != "", (BROWSER_ORIGIN, Text(f.origin)), [])))
  }

  function Overlaid(schema: seq<Setting>, values: Table): seq<(string, Value)> {
    if schema == [] then []
    else
      var s := schema[0];
      (if s.key in values && values[s.key] != s.standard then [(s.key, values[s.key])] else []) + Overlaid(schema[1..], values)
  }

  /** `about` and `notes` are the fixed comment lines above and below the first table header. */
  function RenderLines(schema: seq<Setting>, about: seq<string>, notes: seq<string>, f: Fields): seq<string>
  {
    var offDefault := Overlaid(schema, f.values);
    about + ["", "[" + CONTROL + "]"] + notes + EntryLines(ControlEntries(f))
    + (if offDefault == [] then [] else ["", "[" + SETTINGS_TABLE + "]"] + EntryLines(offDefault))
  }

  // ---- reading ----

  predicate BareChar(c: char) { 'a' <= c <= 'z' || 'A' <= c <= 'Z' || '0' <= c <= '9' || c == '_' || c == '-' }

  predicate BareKey(s: string) { s != "" && forall i :: 0 <= i < |s| ==> BareChar(s[i]) }

  /** Characters TOML v1.0.0, section "String", admits in no basic string and no comment. */
  predicate ControlChar(c: char) { (c < ' ' && c != '\t') || c == 127 as char }

  predicate Printable(s: string) { forall i :: 0 <= i < |s| ==> !ControlChar(s[i]) }

  predicate DigitChar(c: char) { '0' <= c <= '9' }

  predicate Decimal(s: string) { s != "" && (|s| > 1 ==> s[0] != '0') && forall i :: 0 <= i < |s| ==> DigitChar(s[i]) }

  predicate FractionText(s: string) {
    && s != "" && DigitChar(s[0]) && ('.' in s || 'e' in s)
    && forall i :: 0 <= i < |s| ==> DigitChar(s[i]) || s[i] in ".e+-"
  }

  function LineEnd(s: string): (n: nat)
    ensures n <= |s| && (n < |s| ==> s[n] == '\n')
    ensures forall i :: 0 <= i < n ==> s[i] != '\n'
  {
    if s == "" || s[0] == '\n' then 0 else 1 + LineEnd(s[1..])
  }

  function KeyEnd(s: string): (n: nat)
    ensures n <= |s| && (n < |s| ==> !BareChar(s[n]))
    ensures forall i :: 0 <= i < n ==> BareChar(s[i])
  {
    if s == "" || !BareChar(s[0]) then 0 else 1 + KeyEnd(s[1..])
  }

  function ToNat(s: string): nat
    requires forall i :: 0 <= i < |s| ==> DigitChar(s[i])
  {
    if s == "" then 0
    else
      assert DigitChar(s[|s| - 1]);
      10 * ToNat(s[..|s| - 1]) + (s[|s| - 1] as int - '0' as int)
  }

  /** The rest of a basic string after its opening quote. */
  function Scan(s: string): (r: Result<(string, string), Flaw>)
    ensures r.Ok? ==> |r.value.1| < |s|
  {
    if s == "" || ControlChar(s[0]) then Err(BadToml)
    else if s[0] == '\"' then Ok(("", s[1..]))
    else if s[0] == '\\' then
      if |s| == 1 || (s[1] != '\\' && s[1] != '\"') then Err(BadToml)
      else match Scan(s[2..])
        case Err(e) => Err(e)
        case Ok((text, rest)) => Ok(([s[1]] + text, rest))
    else match Scan(s[1..])
      case Err(e) => Err(e)
      case Ok((text, rest)) => Ok(([s[0]] + text, rest))
  }

  function ReadValue(s: string): (r: Result<(Value, string), Flaw>)
    ensures r.Ok? ==> |r.value.1| <= |s|
  {
    if s != "" && s[0] == '\"' then
      match Scan(s[1..])
      case Err(e) => Err(e)
      case Ok((text, rest)) => Ok((Text(text), rest))
    else
      var n := LineEnd(s);
      if Decimal(s[..n]) then Ok((Number(ToNat(s[..n])), s[n..]))
      else if FractionText(s[..n]) then Ok((Fraction(s[..n]), s[n..]))
      else Err(BadToml)
  }

  function Parse(s: string, table: string, doc: Doc): Result<Doc, Flaw>
    requires table in doc
    decreases |s|, 1
  {
    if s == "" then Ok(doc)
    else if s[0] == '\n' then Parse(s[1..], table, doc)
    else if s[0] == '#' then
      var n := LineEnd(s);
      if Printable(s[..n]) then Parse(s[n..], table, doc) else Err(BadToml)
    else if s[0] == '[' then ParseHeader(s, doc)
    else ParseEntry(s, table, doc)
  }

  function ParseEntry(s: string, table: string, doc: Doc): Result<Doc, Flaw>
    requires table in doc
    decreases |s|, 0
  {
    var n := KeyEnd(s);
    var key := s[..n];
    if n == 0 || !(" = " <= s[n..]) || key in doc[table] then Err(BadToml)
    else match ReadValue(s[n + 3..])
      case Err(e) => Err(e)
      case Ok((v, rest)) =>
        if rest != "" && rest[0] != '\n' then Err(BadToml)
        else Parse(rest, table, doc[table := doc[table][key := v]])
  }

  function ParseHeader(s: string, doc: Doc): Result<Doc, Flaw>
    requires s != "" && s[0] == '['
    decreases |s|, 0
  {
    var n := LineEnd(s);
    if n < 3 || s[n - 1] != ']' || !BareKey(s[1..n - 1]) || s[1..n - 1] in doc then Err(BadToml)
    else Parse(s[n..], s[1..n - 1], doc[s[1..n - 1] := map[]])
  }

  function TableOf(doc: Doc, name: string): Table { if name in doc then doc[name] else map[] }

  function TextAt(t: Table, key: string): string { if key in t && t[key].Text? then t[key].text else "" }

  function Coerce(kind: Kind, v: Value): Result<Value, Flaw> {
    match kind
    case TextKind => if v.Text? && v.text != "" then Ok(v) else Err(BadValue)
    case IntKind => if v.Number? && v.n > 0 then Ok(v) else Err(BadValue)
    case FloatKind => if (v.Number? && v.n > 0) || v.Fraction? then Ok(v) else Err(BadValue)
  }

  function Defaults(schema: seq<Setting>): Table {
    if schema == [] then map[] else Defaults(schema[1..])[schema[0].key := schema[0].standard]
  }

  /** Defaults overlaid with the table; an unknown key or a malformed value fails closed. */
  function Overlay(schema: seq<Setting>, t: Table): Result<Table, Flaw> {
    if exists k :: k in t && k !in Defaults(schema) then Err(UnknownKey)
    else if exists s :: s in schema && s.key in t && Coerce(s.kind, t[s.key]).Err? then Err(BadValue)
    else Ok(Defaults(schema) + t)
  }

  datatype Address = Address(ip: string, port: nat, origin: string)

  /** What a build without a control.toml stands for. */
  const NO_ADDRESS := Address("", DEFAULT_CONTROL_PORT, "")

  /** The three machine-written fields; an absent port is 443, a malformed one fails closed. */
  function AddressOf(doc: Doc): Result<Address, Flaw> {
    var c := TableOf(doc, CONTROL);
    if CONTROL_PORT in c && !(c[CONTROL_PORT].Number? && 1 <= c[CONTROL_PORT].n <= 65535) then Err(BadPort)
    else
      Ok(Address(TextAt(c, CONTROL_IP), if CONTROL_PORT in c then c[CONTROL_PORT].n else DEFAULT_CONTROL_PORT,
                 TextAt(c, BROWSER_ORIGIN)))
  }

  function ReadAddress(text: string): Result<Address, Flaw> {
    match Parse(text, "", map["" := map[]])
    case Err(e) => Err(e)
    case Ok(doc) => AddressOf(doc)
  }

  function ReadValues(schema: seq<Setting>, text: string): Result<Table, Flaw> {
    match Parse(text, "", map["" := map[]])
    case Err(e) => Err(e)
    case Ok(doc) => Overlay(schema, TableOf(doc, SETTINGS_TABLE))
  }

  /** A value a setting of this kind takes. */
  predicate Acceptable(kind: Kind, v: Value) {
    match kind
    case TextKind => v.Text? && v.text != ""
    case IntKind => v.Number? && v.n > 0
    case FloatKind => v.Fraction? || (v.Number? && v.n > 0)
  }

  lemma {:induction false} DefaultsOf(schema: seq<Setting>, s: Setting)
    requires s in schema
    ensures s.key in Defaults(schema) && (Schema(schema) ==> Defaults(schema)[s.key] == s.standard)
  {
    if s != schema[0] {
      DefaultsOf(schema[1..], s);
      if Schema(schema) {
        HasKey(schema[1..], s);
      }
    }
  }

  lemma {:induction false} HasKey(schema: seq<Setting>, s: Setting)
    requires s in schema
    ensures Has(schema, s.key)
  {
    if s != schema[0] {
      HasKey(schema[1..], s);
    }
  }

  lemma {:induction false} DefaultsComeFrom(schema: seq<Setting>, k: string)
    requires k in Defaults(schema)
    ensures exists s :: s in schema && s.key == k
  {
    if k != schema[0].key {
      DefaultsComeFrom(schema[1..], k);
      var s :| s in schema[1..] && s.key == k;
      assert s in schema;
    } else {
      assert schema[0] in schema;
    }
  }

  /** The settings table is taken exactly when every key is known and every value acceptable; what it leaves out has its default. */
  lemma {:induction false} OverlayIff(schema: seq<Setting>, t: Table)
    requires Schema(schema)
    ensures Overlay(schema, t).Ok?
       <==> && (forall k :: k in t ==> exists s :: s in schema && s.key == k)
            && (forall s :: s in schema && s.key in t ==> Acceptable(s.kind, t[s.key]))
    ensures Overlay(schema, t).Ok? ==>
      forall s :: s in schema ==>
        s.key in Overlay(schema, t).value && Overlay(schema, t).value[s.key] == if s.key in t then t[s.key] else s.standard
  {
    forall k ensures k in Defaults(schema) <==> exists s :: s in schema && s.key == k {
      if k in Defaults(schema) {
        DefaultsComeFrom(schema, k);
      }
      if s :| s in schema && s.key == k {
        DefaultsOf(schema, s);
      }
    }
    forall s | s in schema ensures s.key in Defaults(schema) && Defaults(schema)[s.key] == s.standard {
      DefaultsOf(schema, s);
    }
    hide Defaults, Schema;
  }

  /** An absent port is 443, a malformed one is refused; an address that is absent or no text is empty. */
  lemma {:induction false} AddressIff(doc: Doc)
    ensures
      var c := if "control" in doc then doc["control"] else map[];
      && (AddressOf(doc).Err? <==> "control_port" in c && !(c["control_port"].Number? && 1 <= c["control_port"].n <= 65535))
      && (AddressOf(doc).Ok? ==>
            AddressOf(doc).value == Address(
              if "control_ip" in c && c["control_ip"].Text? then c["control_ip"].text else "",
              if "control_port" in c then c["control_port"].n else 443,
              if "browser_origin" in c && c["browser_origin"].Text? then c["browser_origin"].text else ""))
  {
  }

  // ---- one value, one line ----

  lemma {:induction false} ScanEscape(v: string, rest: string)
    ensures Scan(Escape(v) + "\"" + rest) == if Printable(v) then Ok((v, rest)) else Err(BadToml)
  {
    var s := Escape(v) + "\"" + rest;
    if v == "" {
      assert s[1..] == rest;
    } else {
      var tail := v[1..];
      ScanEscape(tail, rest);
      assert Printable(v) <==> !ControlChar(v[0]) && Printable(tail);
      assert Printable(v) ==> [v[0]] + tail == v;
      if v[0] == '\\' || v[0] == '\"' {
        assert s[2..] == Escape(tail) + "\"" + rest;
      } else {
        assert s[1..] == Escape(tail) + "\"" + rest;
      }
    }
  }

  lemma {:induction false} DigitsRead(n: nat)
    ensures Decimal(Digits(n)) && ToNat(Digits(n)) == n
    ensures n > 0 ==> Digits(n)[0] != '0'
  {
    var s := Digits(n);
    if n >= 10 {
      DigitsRead(n / 10);
      assert s[..|s| - 1] == Digits(n / 10);
    }
  }

  lemma {:induction false} LineEndAt(s: string, rest: string)
    requires forall i :: 0 <= i < |s| ==> s[i] != '\n'
    ensures LineEnd(s + "\n" + rest) == |s|
  {
    if s != "" {
      assert (s + "\n" + rest)[1..] == s[1..] + "\n" + rest;
      LineEndAt(s[1..], rest);
    }
  }

  lemma {:induction false} KeyEndAt(key: string, rest: string)
    requires BareKey(key) && rest != "" && !BareChar(rest[0])
    ensures KeyEnd(key + rest) == |key|
  {
    if |key| > 1 {
      assert (key + rest)[1..] == key[1..] + rest;
      KeyEndAt(key[1..], rest);
    } else {
      assert (key + rest)[1..] == rest;
    }
  }

  predicate ValueIsClean(v: Value) { v.Text? ==> Printable(v.text) }

  predicate WellFormed(v: Value) { v.Fraction? ==> FractionText(v.repr) && !Decimal(v.repr) }

  lemma {:induction false} TokenReads(token: string, rest: string)
    requires token != "" && token[0] != '\"' && forall i :: 0 <= i < |token| ==> token[i] != '\n'
    ensures ReadValue(token + "\n" + rest)
         == if Decimal(token) then Ok((Number(ToNat(token)), "\n" + rest))
            else if FractionText(token) then Ok((Fraction(token), "\n" + rest)) else Err(BadToml)
  {
    var s := token + "\n" + rest;
    LineEndAt(token, rest);
    hide Decimal, FractionText, ToNat;
    assert s[0] == token[0];
    assert s[..|token|] == token && s[|token|..] == "\n" + rest;
  }

  lemma {:induction false} LiteralReads(v: Value, rest: string)
    requires WellFormed(v)
    ensures ReadValue(Literal(v) + "\n" + rest) == if ValueIsClean(v) then Ok((v, "\n" + rest)) else Err(BadToml)
  {
    match v
    case Text(text) =>
      hide Escape, Scan;
      ScanEscape(text, "\n" + rest);
      assert (Literal(v) + "\n" + rest)[1..] == Escape(text) + "\"" + ("\n" + rest);
    case Number(n) =>
      DigitsRead(n);
      hide Digits, ToNat, ReadValue;
      TokenReads(Digits(n), rest);
    case Fraction(repr) =>
      hide ReadValue, ToNat;
      TokenReads(repr, rest);
  }

  lemma {:induction false} NewlineReads(rest: string, table: string, doc: Doc)
    requires table in doc
    ensures Parse("\n" + rest, table, doc) == Parse(rest, table, doc)
  {
    assert ("\n" + rest)[1..] == rest;
  }

  lemma {:induction false} EntryReads(e: (string, Value), rest: string, table: string, doc: Doc)
    requires BareKey(e.0) && WellFormed(e.1) && table in doc && e.0 !in doc[table]
    ensures Parse(EntryLine(e) + "\n" + rest, table, doc)
         == if ValueIsClean(e.1) then Parse(rest, table, doc[table := doc[table][e.0 := e.1]]) else Err(BadToml)
  {
    var (key, v) := e;
    var tail := Literal(v) + "\n" + rest;
    var s := EntryLine(e) + "\n" + rest;
    assert s == key + (" = " + tail);
    EntryDispatches(key, tail, table, doc);
    LiteralReads(v, rest);
    NewlineReads(rest, table, doc[table := doc[table][key := v]]);
  }

  lemma {:induction false} EntryDispatches(key: string, tail: string, table: string, doc: Doc)
    requires BareKey(key) && table in doc && key !in doc[table]
    ensures Parse(key + (" = " + tail), table, doc)
         == match ReadValue(tail)
            case Err(e) => Err(e)
            case Ok((v, rest)) =>
              if rest != "" && rest[0] != '\n' then Err(BadToml)
              else Parse(rest, table, doc[table := doc[table][key := v]])
  {
    var after := " = " + tail;
    var s := key + after;
    assert s[0] == key[0] && BareChar(s[0]);
    assert Parse(s, table, doc) == ParseEntry(s, table, doc);
    hide Parse, ReadValue, KeyEnd;
    KeyEndAt(key, after);
    assert s[..|key|] == key && s[|key|..] == after && s[|key| + 3..] == tail;
  }

  predicate Comment(line: string) { line == "" || (line[0] == '#' && Printable(line)) }

  lemma {:induction false} CommentReads(line: string, rest: string, table: string, doc: Doc)
    requires Comment(line) && table in doc
    ensures Parse(line + "\n" + rest, table, doc) == Parse(rest, table, doc)
  {
    var s := line + "\n" + rest;
    if line == "" {
      assert s[1..] == rest;
    } else {
      LineEndAt(line, rest);
      assert s[..|line|] == line && s[|line|..] == "\n" + rest;
      NewlineReads(rest, table, doc);
    }
  }

  lemma {:induction false} HeaderReads(name: string, rest: string, table: string, doc: Doc)
    requires BareKey(name) && table in doc && name !in doc
    ensures Parse("[" + name + "]" + "\n" + rest, table, doc) == Parse(rest, name, doc[name := map[]])
  {
    var line := "[" + name + "]";
    var s := line + "\n" + rest;
    assert Parse(s, table, doc) == ParseHeader(s, doc);
    hide Parse;
    LineEndAt(line, rest);
    NewlineReads(rest, name, doc[name := map[]]);
    assert s[1..|line| - 1] == name && s[|line|..] == "\n" + rest && s[|line| - 1] == ']';
  }

  // ---- whole files ----

  lemma {:induction false} LinesJoin(a: seq<string>, b: seq<string>)
    ensures Lines(a + b) == Lines(a) + Lines(b)
  {
    if a == [] {
      assert a + b == b;
    } else {
      assert (a + b)[1..] == a[1..] + b;
      LinesJoin(a[1..], b);
    }
  }

  predicate Comments(lines: seq<string>) { forall i :: 0 <= i < |lines| ==> Comment(lines[i]) }

  lemma {:induction false} CommentsRead(lines: seq<string>, rest: string, table: string, doc: Doc)
    requires Comments(lines) && table in doc
    ensures Parse(Lines(lines) + rest, table, doc) == Parse(rest, table, doc)
  {
    hide Parse;
    if lines == [] {
      assert Lines(lines) + rest == rest;
    } else {
      assert Lines(lines) + rest == lines[0] + "\n" + (Lines(lines[1..]) + rest);
      CommentReads(lines[0], Lines(lines[1..]) + rest, table, doc);
      CommentsRead(lines[1..], rest, table, doc);
    }
  }

  function Added(t: Table, es: seq<(string, Value)>): Table
    decreases |es|
  {
    if es == [] then t else Added(t[es[0].0 := es[0].1], es[1..])
  }

  /** Bare keys new to the table and to each other, printable in principle. */
  predicate Entries(es: seq<(string, Value)>, t: Table)
    decreases |es|
  {
    es == [] || (BareKey(es[0].0) && WellFormed(es[0].1) && es[0].0 !in t && Entries(es[1..], t[es[0].0 := es[0].1]))
  }

  predicate EntriesAreClean(es: seq<(string, Value)>) {
    es == [] || (ValueIsClean(es[0].1) && EntriesAreClean(es[1..]))
  }

  lemma {:induction false} EntriesRead(es: seq<(string, Value)>, rest: string, table: string, doc: Doc)
    requires table in doc && Entries(es, doc[table])
    ensures Parse(Lines(EntryLines(es)) + rest, table, doc)
         == if EntriesAreClean(es) then Parse(rest, table, doc[table := Added(doc[table], es)]) else Err(BadToml)
    decreases |es|
  {
    hide Parse, EntryLine;
    if es == [] {
      assert Lines(EntryLines(es)) + rest == rest;
      assert doc[table := doc[table]] == doc;
    } else {
      var more := Lines(EntryLines(es[1..])) + rest;
      var next := doc[table := doc[table][es[0].0 := es[0].1]];
      assert Lines(EntryLines(es)) + rest == EntryLine(es[0]) + "\n" + more;
      EntryReads(es[0], more, table, doc);
      EntriesRead(es[1..], rest, table, next);
      assert next[table := Added(next[table], es[1..])] == doc[table := Added(doc[table], es)];
    }
  }

  // ---- the settings table ----

  predicate Has(schema: seq<Setting>, k: string) { schema != [] && (schema[0].key == k || Has(schema[1..], k)) }

  /** Bare and distinct keys; defaults the printer can print. */
  predicate Schema(schema: seq<Setting>) {
    schema == [] ||
    (BareKey(schema[0].key) && ValueIsClean(schema[0].standard) && !Has(schema[1..], schema[0].key) && Schema(schema[1..]))
  }

  /** Every key of the schema has a value its own kind accepts. */
  predicate Coerced(schema: seq<Setting>, values: Table) {
    schema == [] ||
    (&& schema[0].key in values && WellFormed(values[schema[0].key])
     && Coerce(schema[0].kind, values[schema[0].key]).Ok?
     && Coerced(schema[1..], values))
  }

  predicate Legal(schema: seq<Setting>, f: Fields) {
    1 <= f.port <= 65535 && Coerced(schema, f.values) && f.values.Keys == Defaults(schema).Keys
  }

  predicate FieldsAreClean(f: Fields) {
    Printable(f.ip) && Printable(f.origin) && forall k :: k in f.values ==> ValueIsClean(f.values[k])
  }

  /** The value of this key is printed: it differs from the shipped default. */
  predicate Off(schema: seq<Setting>, values: Table, k: string) {
    && schema != []
    && ((schema[0].key == k && k in values && values[k] != schema[0].standard) || Off(schema[1..], values, k))
  }

  lemma {:induction false} OffIsHad(schema: seq<Setting>, values: Table, k: string)
    ensures Off(schema, values, k) ==> Has(schema, k) && k in values
  {
    if schema != [] { OffIsHad(schema[1..], values, k); }
  }

  lemma {:induction false} DefaultsAre(schema: seq<Setting>, values: Table, k: string)
    requires Schema(schema)
    ensures k in Defaults(schema) <==> Has(schema, k)
    ensures k in Defaults(schema) && k in values && !Off(schema, values, k) ==> values[k] == Defaults(schema)[k]
  {
    if schema != [] {
      DefaultsAre(schema[1..], values, k);
      OffIsHad(schema[1..], values, k);
    }
  }

  lemma {:induction false} OverlaidAdds(schema: seq<Setting>, values: Table, t: Table, k: string)
    requires Schema(schema)
    ensures
      var u := Added(t, Overlaid(schema, values));
      && (k in u <==> k in t || Off(schema, values, k))
      && (Off(schema, values, k) ==> k in values && u[k] == values[k])
      && (!Off(schema, values, k) && k in t ==> u[k] == t[k])
    decreases |schema|
  {
    if schema != [] {
      var s := schema[0];
      OffIsHad(schema, values, k);
      OffIsHad(schema[1..], values, k);
      if s.key in values && values[s.key] != s.standard {
        var es := Overlaid(schema, values);
        assert es[0] == (s.key, values[s.key]) && es[1..] == Overlaid(schema[1..], values);
        OverlaidAdds(schema[1..], values, t[s.key := values[s.key]], k);
      } else {
        assert Overlaid(schema, values) == Overlaid(schema[1..], values);
        OverlaidAdds(schema[1..], values, t, k);
      }
    }
  }

  predicate ValuesAreClean(schema: seq<Setting>, values: Table)
    requires Coerced(schema, values)
  {
    schema == [] || (ValueIsClean(values[schema[0].key]) && ValuesAreClean(schema[1..], values))
  }

  lemma {:induction false} CleanEverywhere(schema: seq<Setting>, values: Table, k: string)
    requires Schema(schema) && Coerced(schema, values)
    ensures Has(schema, k) ==> k in values && (ValuesAreClean(schema, values) ==> ValueIsClean(values[k]))
  {
    if schema != [] { CleanEverywhere(schema[1..], values, k); }
  }

  lemma {:induction false} SomeUnclean(schema: seq<Setting>, values: Table)
    requires Coerced(schema, values)
    ensures ValuesAreClean(schema, values) || exists k :: k in values && !ValueIsClean(values[k])
  {
    if schema != [] { SomeUnclean(schema[1..], values); }
  }

  lemma {:induction false} OverlaidIsEntries(schema: seq<Setting>, values: Table, t: Table)
    requires Schema(schema) && Coerced(schema, values)
    requires forall k :: k in t ==> !Has(schema, k)
    ensures Entries(Overlaid(schema, values), t)
    ensures EntriesAreClean(Overlaid(schema, values)) <==> ValuesAreClean(schema, values)
    decreases |schema|
  {
    if schema != [] {
      var s := schema[0];
      if values[s.key] != s.standard {
        var es := Overlaid(schema, values);
        assert es[0] == (s.key, values[s.key]) && es[1..] == Overlaid(schema[1..], values);
        OverlaidIsEntries(schema[1..], values, t[s.key := values[s.key]]);
      } else {
        assert Overlaid(schema, values) == Overlaid(schema[1..], values);
        OverlaidIsEntries(schema[1..], values, t);
      }
    }
  }

  /** Overlaying the printed settings on the defaults gives every value back. */
  lemma {:induction false} OverlayRestores(schema: seq<Setting>, values: Table)
    requires Schema(schema) && Coerced(schema, values) && values.Keys == Defaults(schema).Keys
    ensures Overlay(schema, Added(map[], Overlaid(schema, values))) == Ok(values)
  {
    var t := Added(map[], Overlaid(schema, values));
    forall k ensures k in t ==> k in values && t[k] == values[k] {
      OverlaidAdds(schema, values, map[], k);
      OffIsHad(schema, values, k);
    }
    forall k | k in values ensures k in Defaults(schema) && (Defaults(schema) + t)[k] == values[k] {
      OverlaidAdds(schema, values, map[], k);
      DefaultsAre(schema, values, k);
    }
    CoercedEverywhere(schema, values);
    assert (Defaults(schema) + t).Keys == values.Keys;
    assert Defaults(schema) + t == values;
  }

  lemma {:induction false} CoercedEverywhere(schema: seq<Setting>, values: Table)
    requires Coerced(schema, values)
    ensures forall s :: s in schema ==> s.key in values && Coerce(s.kind, values[s.key]).Ok?
  {
    if schema != [] { CoercedEverywhere(schema[1..], values); }
  }

  lemma {:induction false} CleanIffValuesAre(schema: seq<Setting>, values: Table)
    requires Schema(schema) && Coerced(schema, values) && values.Keys == Defaults(schema).Keys
    ensures ValuesAreClean(schema, values) <==> forall k :: k in values ==> ValueIsClean(values[k])
  {
    if ValuesAreClean(schema, values) {
      forall k | k in values ensures ValueIsClean(values[k]) {
        DefaultsAre(schema, values, k);
        CleanEverywhere(schema, values, k);
      }
    } else {
      SomeUnclean(schema, values);
    }
  }

  // ---- the round trip ----

  function ControlTable(f: Fields): Table
  {
    Added(map[], ControlEntries(f))
  }

  lemma {:induction false} ControlReads(f: Fields)
    requires 1 <= f.port <= 65535
    ensures Entries(ControlEntries(f), map[])
    ensures EntriesAreClean(ControlEntries(f)) <==> Printable(f.ip) && Printable(f.origin)
    ensures
      var c := ControlTable(f);
      && TextAt(c, CONTROL_IP) == f.ip && TextAt(c, BROWSER_ORIGIN) == f.origin
      && (if CONTROL_PORT in c then c[CONTROL_PORT] == Number(f.port) else f.port == DEFAULT_CONTROL_PORT)
  {
    var third := When(f.origin != "", (BROWSER_ORIGIN, Text(f.origin)), []);
    var second := When(f.port != DEFAULT_CONTROL_PORT, (CONTROL_PORT, Number(f.port)), third);
    var t1: Table := if f.ip != "" then map[CONTROL_IP := Text(f.ip)] else map[];
    var t2 := if f.port != DEFAULT_CONTROL_PORT then t1[CONTROL_PORT := Number(f.port)] else t1;
    ControlKeys();
    WhenAdds(f.ip != "", (CONTROL_IP, Text(f.ip)), second, map[]);
    WhenAdds(f.port != DEFAULT_CONTROL_PORT, (CONTROL_PORT, Number(f.port)), third, t1);
    WhenAdds(f.origin != "", (BROWSER_ORIGIN, Text(f.origin)), [], t2);
  }

  lemma {:induction false} WhenAdds(present: bool, e: (string, Value), rest: seq<(string, Value)>, t: Table)
    ensures Added(t, When(present, e, rest)) == Added(if present then t[e.0 := e.1] else t, rest)
    ensures EntriesAreClean(When(present, e, rest)) <==> (present ==> ValueIsClean(e.1)) && EntriesAreClean(rest)
    ensures Entries(When(present, e, rest), t)
       <==> if present then BareKey(e.0) && WellFormed(e.1) && e.0 !in t && Entries(rest, t[e.0 := e.1]) else Entries(rest, t)
  {
    if present {
      assert ([e] + rest)[1..] == rest;
    }
  }

  lemma {:induction false} ControlKeys()
    ensures BareKey(CONTROL_IP) && BareKey(CONTROL_PORT) && BareKey(BROWSER_ORIGIN)
    ensures BareKey(CONTROL) && BareKey(SETTINGS_TABLE) && CONTROL != SETTINGS_TABLE
    ensures CONTROL_IP != CONTROL_PORT && CONTROL_PORT != BROWSER_ORIGIN && CONTROL_IP != BROWSER_ORIGIN
  {
    assert |CONTROL_IP| == 10 && |CONTROL_PORT| == 12 && |BROWSER_ORIGIN| == 14 && |CONTROL| == 7 && |SETTINGS_TABLE| == 8;
  }

  function FinalDoc(schema: seq<Setting>, f: Fields): Doc
  {
    var doc := map["" := map[], CONTROL := ControlTable(f)];
    if Overlaid(schema, f.values) == [] then doc
    else doc[SETTINGS_TABLE := Added(map[], Overlaid(schema, f.values))]
  }

  /**
   Reading back what the printer printed gives the same fields, if and only if
   no printed string holds a control character other than tab; otherwise the
   file does not parse at all.
   */
  lemma {:induction false} RenderReadsBack(schema: seq<Setting>, about: seq<string>, notes: seq<string>, f: Fields)
    requires Schema(schema) && Legal(schema, f) && Comments(about) && Comments(notes)
    ensures
      var text := Lines(RenderLines(schema, about, notes, f));
      && ReadAddress(text) == (if FieldsAreClean(f) then Ok(Address(f.ip, f.port, f.origin)) else Err(BadToml))
      && ReadValues(schema, text) == if FieldsAreClean(f) then Ok(f.values) else Err(BadToml)
  {
    RenderParses(schema, about, notes, f);
    CleanIffValuesAre(schema, f.values);
    OverlayRestores(schema, f.values);
    ControlReads(f);
    ControlKeys();
    hide Overlay, Parse, Added, Schema, Coerced, ControlEntries;
    var doc := FinalDoc(schema, f);
    assert TableOf(doc, CONTROL) == ControlTable(f);
    assert TableOf(doc, SETTINGS_TABLE) == Added(map[], Overlaid(schema, f.values)) by {
      if Overlaid(schema, f.values) == [] {
        NothingAdded(map[]);
      }
    }
  }

  lemma {:induction false} NothingAdded(t: Table)
    ensures Added(t, []) == t
  {
  }

  lemma {:induction false} RenderParses(schema: seq<Setting>, about: seq<string>, notes: seq<string>, f: Fields)
    requires Schema(schema) && Legal(schema, f) && Comments(about) && Comments(notes)
    ensures Parse(Lines(RenderLines(schema, about, notes, f)), "", map["" := map[]])
         == if Printable(f.ip) && Printable(f.origin) && ValuesAreClean(schema, f.values) then Ok(FinalDoc(schema, f)) else Err(BadToml)
  {
    var es, offDefault := ControlEntries(f), Overlaid(schema, f.values);
    var bottom := if offDefault == [] then [] else ["", "[" + SETTINGS_TABLE + "]"] + EntryLines(offDefault);
    RenderSplits(schema, about, notes, f, bottom);
    OverlaidIsEntries(schema, f.values, map[]);
    ControlKeys();
    ControlReads(f);
    hide *;
    TopParses(about, notes, f, Lines(bottom));
    BottomParses(offDefault, bottom, map["" := map[], CONTROL := ControlTable(f)]);
    assert Parse(Lines(bottom), CONTROL, map["" := map[], CONTROL := ControlTable(f)])
        == if ValuesAreClean(schema, f.values) then Ok(FinalDoc(schema, f)) else Err(BadToml);
  }

  lemma {:induction false} TopParses(about: seq<string>, notes: seq<string>, f: Fields, rest: string)
    requires 1 <= f.port <= 65535 && Comments(about) && Comments(notes)
    ensures Parse(Lines(about + [""]) + ("[" + CONTROL + "]" + "\n" + (Lines(notes) + (Lines(EntryLines(ControlEntries(f))) + rest))),
                  "", map["" := map[]])
         == if Printable(f.ip) && Printable(f.origin) then Parse(rest, CONTROL, map["" := map[], CONTROL := ControlTable(f)]) else Err(BadToml)
  {
    var es := ControlEntries(f);
    var d0: Doc := map["" := map[]];
    var d1 := d0[CONTROL := map[]];
    assert d1[CONTROL := ControlTable(f)] == map["" := map[], CONTROL := ControlTable(f)];
    var tail := Lines(notes) + (Lines(EntryLines(es)) + rest);
    ControlKeys();
    ControlReads(f);
    assert Comments(about + [""]);
    hide Parse, Lines, ControlEntries, EntryLines, Entries, EntriesAreClean, Printable, BareKey, Comment;
    CommentsRead(about + [""], "[" + CONTROL + "]" + "\n" + tail, "", d0);
    HeaderReads(CONTROL, tail, "", d0);
    CommentsRead(notes, Lines(EntryLines(es)) + rest, CONTROL, d1);
    EntriesRead(es, rest, CONTROL, d1);
  }

  lemma {:induction false} RenderSplits(schema: seq<Setting>, about: seq<string>, notes: seq<string>, f: Fields, bottom: seq<string>)
    requires bottom == if Overlaid(schema, f.values) == [] then [] else ["", "[" + SETTINGS_TABLE + "]"] + EntryLines(Overlaid(schema, f.values))
    ensures Lines(RenderLines(schema, about, notes, f))
         == Lines(about + [""]) + ("[" + CONTROL + "]" + "\n" + (Lines(notes) + (Lines(EntryLines(ControlEntries(f))) + Lines(bottom))))
  {
    SplitLines(about, "[" + CONTROL + "]", notes, EntryLines(ControlEntries(f)), bottom);
  }

  lemma {:induction false} SplitLines(a: seq<string>, header: string, n: seq<string>, e: seq<string>, b: seq<string>)
    ensures Lines(a + ["", header] + n + e + b) == Lines(a + [""]) + (header + "\n" + (Lines(n) + (Lines(e) + Lines(b))))
  {
    var top := a + ["", header];
    assert top == a + [""] + [header];
    OneLine(header);
    hide Lines;
    LinesJoin(a + [""], [header]);
    LinesJoin(top, n);
    LinesJoin(top + n, e);
    LinesJoin(top + n + e, b);
    Reassociate(Lines(a + [""]), header + "\n", Lines(n), Lines(e), Lines(b));
  }

  lemma {:induction false} OneLine(line: string)
    ensures Lines([line]) == line + "\n"
  {
    assert [line][1..] == [];
  }

  lemma {:induction false} Reassociate(p: string, q: string, r: string, s: string, t: string)
    ensures p + q + r + s + t == p + (q + (r + (s + t)))
  {
  }

  lemma {:induction false} BlankThenHeader(header: string, lines: seq<string>)
    ensures Lines(["", header] + lines) == "\n" + (header + "\n" + Lines(lines))
  {
    var all := ["", header] + lines;
    assert all[1..] == [header] + lines && ([header] + lines)[1..] == lines;
    assert Lines(all) == "" + "\n" + Lines(all[1..]);
  }

  lemma {:induction false} BottomParses(offDefault: seq<(string, Value)>, bottom: seq<string>, doc: Doc)
    requires bottom == if offDefault == [] then [] else ["", "[" + SETTINGS_TABLE + "]"] + EntryLines(offDefault)
    requires Entries(offDefault, map[]) && CONTROL in doc && SETTINGS_TABLE !in doc
    ensures Parse(Lines(bottom), CONTROL, doc)
         == if EntriesAreClean(offDefault) then Ok(if offDefault == [] then doc else doc[SETTINGS_TABLE := Added(map[], offDefault)]) else Err(BadToml)
  {
    if offDefault != [] {
      var header := "[" + SETTINGS_TABLE + "]";
      var lines := EntryLines(offDefault);
      BlankThenHeader(header, lines);
      assert Lines(lines) + "" == Lines(lines);
      assert Parse("", SETTINGS_TABLE, doc[SETTINGS_TABLE := Added(map[], offDefault)]) == Ok(doc[SETTINGS_TABLE := Added(map[], offDefault)]);
      ControlKeys();
      hide Parse, Lines, Added, Entries, EntriesAreClean, EntryLines, BareKey;
      NewlineReads(header + "\n" + Lines(lines), CONTROL, doc);
      HeaderReads(SETTINGS_TABLE, Lines(lines), CONTROL, doc);
      var d := doc[SETTINGS_TABLE := map[]];
      EntriesRead(offDefault, "", SETTINGS_TABLE, d);
      assert d[SETTINGS_TABLE := Added(d[SETTINGS_TABLE], offDefault)] == doc[SETTINGS_TABLE := Added(map[], offDefault)];
    }
  }

  // ---- what is read is printable, and the text determines the address ----

  lemma {:induction false} ScanIsClean(s: string)
    ensures Scan(s).Ok? ==> Printable(Scan(s).value.0)
  {
    if s != "" && !ControlChar(s[0]) && s[0] != '\"' {
      if s[0] == '\\' {
        if |s| > 1 { ScanIsClean(s[2..]); }
      } else {
        ScanIsClean(s[1..]);
      }
    }
  }

  predicate TableIsClean(t: Table) { forall k :: k in t ==> ValueIsClean(t[k]) }

  predicate DocIsClean(doc: Doc) { forall n :: n in doc ==> TableIsClean(doc[n]) }

  lemma {:induction false} ParseIsClean(s: string, table: string, doc: Doc)
    requires table in doc && DocIsClean(doc)
    ensures Parse(s, table, doc).Ok? ==> DocIsClean(Parse(s, table, doc).value)
    decreases |s|
  {
    if s == "" {
    } else if s[0] == '\n' {
      ParseIsClean(s[1..], table, doc);
    } else if s[0] == '#' {
      var n := LineEnd(s);
      ParseIsClean(s[n..], table, doc);
    } else if s[0] == '[' {
      var n := LineEnd(s);
      if ParseHeader(s, doc).Ok? {
        ParseIsClean(s[n..], s[1..n - 1], doc[s[1..n - 1] := map[]]);
      }
    } else if ParseEntry(s, table, doc).Ok? {
      EntryIsClean(s, table, doc);
      var n := KeyEnd(s);
      var (v, rest) := ReadValue(s[n + 3..]).value;
      ParseIsClean(rest, table, doc[table := doc[table][s[..n] := v]]);
    }
  }

  lemma {:induction false} EntryIsClean(s: string, table: string, doc: Doc)
    requires table in doc && DocIsClean(doc) && ParseEntry(s, table, doc).Ok?
    ensures
      var n := KeyEnd(s);
      && n + 3 <= |s| && ReadValue(s[n + 3..]).Ok?
      && DocIsClean(doc[table := doc[table][s[..n] := ReadValue(s[n + 3..]).value.0]])
  {
    hide Parse, Scan;
    var after := s[KeyEnd(s) + 3..];
    if after != "" && after[0] == '\"' {
      ScanIsClean(after[1..]);
    }
  }

  /** An address that reads at all has a legal port and printable strings. */
  lemma {:induction false} AddressIsClean(text: string)
    requires ReadAddress(text).Ok?
    ensures
      var a := ReadAddress(text).value;
      1 <= a.port <= 65535 && Printable(a.ip) && Printable(a.origin)
  {
    ParseIsClean(text, "", map["" := map[]]);
    hide Parse;
    var doc := Parse(text, "", map["" := map[]]).value;
    assert TableIsClean(TableOf(doc, CONTROL));
  }

  /** Two files with the same settings and printable addresses are the same text only for the same address. */
  lemma {:induction false} TextDeterminesAddress(schema: seq<Setting>, about: seq<string>, notes: seq<string>, f: Fields, g: Fields)
    requires f.values == g.values && 1 <= f.port <= 65535 && 1 <= g.port <= 65535
    requires Printable(f.ip) && Printable(f.origin) && Printable(g.ip) && Printable(g.origin)
    requires Lines(RenderLines(schema, about, notes, f)) == Lines(RenderLines(schema, about, notes, g))
    ensures f.ip == g.ip && f.port == g.port && f.origin == g.origin
  {
    var offDefault := Overlaid(schema, f.values);
    var bottom := if offDefault == [] then [] else ["", "[" + SETTINGS_TABLE + "]"] + EntryLines(offDefault);
    RenderSplits(schema, about, notes, f, bottom);
    RenderSplits(schema, about, notes, g, bottom);
    ControlReads(f);
    ControlReads(g);
    var header := "[" + CONTROL + "]" + "\n";
    var x, y := Lines(EntryLines(ControlEntries(f))), Lines(EntryLines(ControlEntries(g)));
    hide *;
    Unprefix(Lines(about + [""]), header + (Lines(notes) + (x + Lines(bottom))), header + (Lines(notes) + (y + Lines(bottom))));
    Unprefix(header, Lines(notes) + (x + Lines(bottom)), Lines(notes) + (y + Lines(bottom)));
    Unprefix(Lines(notes), x + Lines(bottom), y + Lines(bottom));
    Unsuffix(x, y, Lines(bottom));
    SameEntriesSameFields(f, g);
  }

  lemma {:induction false} SameEntriesSameFields(f: Fields, g: Fields)
    requires 1 <= f.port <= 65535 && 1 <= g.port <= 65535
    requires Printable(f.ip) && Printable(f.origin) && Printable(g.ip) && Printable(g.origin)
    requires Lines(EntryLines(ControlEntries(f))) == Lines(EntryLines(ControlEntries(g)))
    ensures f.ip == g.ip && f.port == g.port && f.origin == g.origin
  {
    var text := Lines(EntryLines(ControlEntries(f)));
    var doc: Doc := map[CONTROL := map[]];
    ControlReads(f);
    ControlReads(g);
    assert Parse("", CONTROL, doc[CONTROL := ControlTable(f)]).Ok? && Parse("", CONTROL, doc[CONTROL := ControlTable(g)]).Ok?;
    assert Parse("", CONTROL, doc[CONTROL := ControlTable(f)]).value == doc[CONTROL := ControlTable(f)];
    assert Parse("", CONTROL, doc[CONTROL := ControlTable(g)]).value == doc[CONTROL := ControlTable(g)];
    hide Parse, Lines, EntryLines, ControlEntries, Entries, EntriesAreClean, Printable, Added;
    EntriesRead(ControlEntries(f), "", CONTROL, doc);
    EntriesRead(ControlEntries(g), "", CONTROL, doc);
    assert doc[CONTROL := ControlTable(f)][CONTROL] == doc[CONTROL := ControlTable(g)][CONTROL];
  }

  // ---- the shipped schema, and the printer as it runs ----

  const INSTALLER_HOST := "https://github.com/snowfoxbuilds"
  const INSTALLER_RELEASE := "/the-ozolith/releases/latest/download"
  const INSTALLER_FILE := "/install-nodedaemon.sh"

  const SETTINGS: seq<Setting> := [
    Setting("heartbeat_seconds", FloatKind, Number(60)),
    Setting("zombie_grace_seconds", FloatKind, Number(600)),
    Setting("janitor_sweep_seconds", FloatKind, Number(60)),
    Setting("activation_window_seconds", FloatKind, Number(60)),
    Setting("tail_budget_bytes", IntKind, Number(10737418240)),
    Setting("terminal_session_cap", IntKind, Number(8)),
    Setting("session_days", FloatKind, Number(30)),
    Setting("offpin_beats", IntKind, Number(3)),
    Setting("stop_grace_seconds", FloatKind, Number(30)),
    Setting("bootstrap_port", IntKind, Number(6965)),
    Setting("installer_url", TextKind,
            Text(INSTALLER_HOST + INSTALLER_RELEASE + INSTALLER_FILE))]

  lemma {:induction false} NotHad(schema: seq<Setting>, k: string)
    requires forall i :: 0 <= i < |schema| ==> schema[i].key != k
    ensures !Has(schema, k)
  {
    if schema != [] { NotHad(schema[1..], k); }
  }

  lemma {:induction false} SchemaIsGood(schema: seq<Setting>)
    requires forall i :: 0 <= i < |schema| ==> BareKey(schema[i].key) && ValueIsClean(schema[i].standard)
    requires forall i, j :: 0 <= i < j < |schema| ==> schema[i].key != schema[j].key
    ensures Schema(schema)
  {
    if schema != [] {
      NotHad(schema[1..], schema[0].key);
      SchemaIsGood(schema[1..]);
    }
  }

  lemma {:induction false} PrintableJoin(a: string, b: string)
    requires Printable(a) && Printable(b)
    ensures Printable(a + b)
  {
  }

  lemma {:induction false} TimingKeysAreBare()
    ensures BareKey("heartbeat_seconds")
    ensures BareKey("zombie_grace_seconds")
    ensures BareKey("janitor_sweep_seconds")
    ensures BareKey("activation_window_seconds")
  {
  }

  lemma {:induction false} CapKeysAreBare()
    ensures BareKey("tail_budget_bytes")
    ensures BareKey("terminal_session_cap")
    ensures BareKey("session_days")
    ensures BareKey("offpin_beats")
  {
  }

  lemma {:induction false} OtherKeysAreBare()
    ensures BareKey("stop_grace_seconds")
    ensures BareKey("bootstrap_port")
    ensures BareKey("installer_url")
  {
  }

  lemma {:induction false} ShippedKeysAreBare(i: nat)
    requires i < |SETTINGS|
    ensures BareKey(SETTINGS[i].key)
  {
    TimingKeysAreBare();
    CapKeysAreBare();
    OtherKeysAreBare();
    hide BareKey;
    var keys := ["heartbeat_seconds", "zombie_grace_seconds", "janitor_sweep_seconds", "activation_window_seconds", "tail_budget_bytes", "terminal_session_cap", "session_days", "offpin_beats", "stop_grace_seconds", "bootstrap_port", "installer_url"];
    assert SETTINGS[i].key == keys[i];
  }

  lemma {:induction false} ShippedDefaultsAreClean(i: nat)
    requires i < |SETTINGS|
    ensures ValueIsClean(SETTINGS[i].standard)
  {
    if i == 10 {
      PrintableJoin(INSTALLER_HOST, INSTALLER_RELEASE);
      PrintableJoin(INSTALLER_HOST + INSTALLER_RELEASE, INSTALLER_FILE);
    }
  }

  /** Length and second letter, which together tell the shipped keys apart. */
  ghost function MarkOfShippedKey(i: nat): (nat, char)
    requires i < 11
  {
    ([17, 20, 21, 25, 17, 20, 12, 12, 18, 14, 13][i], "eoacaeefton"[i])
  }

  lemma {:induction false} KeyMarked(i: nat)
    requires i < |SETTINGS|
    ensures (|SETTINGS[i].key|, SETTINGS[i].key[1]) == MarkOfShippedKey(i)
  {
    match i
    case 0 => assert |"heartbeat_seconds"| == 17 && "heartbeat_seconds"[1] == 'e';
    case 1 => assert |"zombie_grace_seconds"| == 20 && "zombie_grace_seconds"[1] == 'o';
    case 2 => assert |"janitor_sweep_seconds"| == 21 && "janitor_sweep_seconds"[1] == 'a';
    case 3 => assert |"activation_window_seconds"| == 25 && "activation_window_seconds"[1] == 'c';
    case 4 => assert |"tail_budget_bytes"| == 17 && "tail_budget_bytes"[1] == 'a';
    case 5 => assert |"terminal_session_cap"| == 20 && "terminal_session_cap"[1] == 'e';
    case 6 => assert |"session_days"| == 12 && "session_days"[1] == 'e';
    case 7 => assert |"offpin_beats"| == 12 && "offpin_beats"[1] == 'f';
    case 8 => assert |"stop_grace_seconds"| == 18 && "stop_grace_seconds"[1] == 't';
    case 9 => assert |"bootstrap_port"| == 14 && "bootstrap_port"[1] == 'o';
    case 10 => assert |"installer_url"| == 13 && "installer_url"[1] == 'n';
  }

  /** Two shipped keys differ in length, or else in their second letter. */
  lemma {:induction false} ShippedKeysAreDistinct(i: nat, j: nat)
    requires i < j < |SETTINGS|
    ensures SETTINGS[i].key != SETTINGS[j].key
  {
    KeyMarked(i);
    KeyMarked(j);
  }

  /** The round trip holds of the schema as shipped. */
  lemma {:induction false} ShippedSchemaIsGood()
    ensures Schema(SETTINGS)
  {
    forall i | 0 <= i < |SETTINGS| ensures BareKey(SETTINGS[i].key) && ValueIsClean(SETTINGS[i].standard) {
      ShippedKeysAreBare(i);
      ShippedDefaultsAreClean(i);
    }
    forall i, j | 0 <= i < j < |SETTINGS| ensures SETTINGS[i].key != SETTINGS[j].key {
      ShippedKeysAreDistinct(i, j);
    }
    SchemaIsGood(SETTINGS);
  }

  /** The [control] lines: absent fields and the default port are left out. */
  method ControlLines(f: Fields) returns (lines: seq<string>)
    ensures lines == EntryLines(ControlEntries(f))
  {
    var origin := When(f.origin != "", (BROWSER_ORIGIN, Text(f.origin)), []);
    LinesOfWhen(f.origin != "", (BROWSER_ORIGIN, Text(f.origin)), []);
    LinesOfWhen(f.port != DEFAULT_CONTROL_PORT, (CONTROL_PORT, Number(f.port)), origin);
    LinesOfWhen(f.ip != "", (CONTROL_IP, Text(f.ip)), When(f.port != DEFAULT_CONTROL_PORT, (CONTROL_PORT, Number(f.port)), origin));
    lines := [];
    if f.ip != "" {
      lines := lines + [CONTROL_IP + " = " + Literal(Text(f.ip))];
    }
    if f.port != DEFAULT_CONTROL_PORT {
      lines := lines + [CONTROL_PORT + " = " + Literal(Number(f.port))];
    }
    if f.origin != "" {
      lines := lines + [BROWSER_ORIGIN + " = " + Literal(Text(f.origin))];
    }
  }

  lemma {:induction false} LinesOfWhen(present: bool, e: (string, Value), rest: seq<(string, Value)>)
    ensures EntryLines(When(present, e, rest)) == (if present then [EntryLine(e)] else []) + EntryLines(rest)
  {
    if present {
      assert ([e] + rest)[1..] == rest;
    }
  }

  lemma {:induction false} OverlaidGrows(schema: seq<Setting>, s: Setting, values: Table)
    ensures
      var es := EntryLines(Overlaid(schema, values));
      EntryLines(Overlaid(schema + [s], values))
      == if s.key in values && values[s.key] != s.standard then es + [EntryLine((s.key, values[s.key]))] else es
  {
    hide EntryLine;
    if schema == [] {
      assert schema + [s] == [s] && [s][1..] == [];
      if s.key in values && values[s.key] != s.standard {
        assert Overlaid([s], values) == [(s.key, values[s.key])] + [];
        LinesOfWhen(true, (s.key, values[s.key]), []);
      }
    } else {
      var first := schema[0];
      var here := first.key in values && values[first.key] != first.standard;
      assert (schema + [s])[0] == first && (schema + [s])[1..] == schema[1..] + [s];
      OverlaidGrows(schema[1..], s, values);
      if here {
        LinesOfWhen(true, (first.key, values[first.key]), Overlaid(schema[1..], values));
        LinesOfWhen(true, (first.key, values[first.key]), Overlaid(schema[1..] + [s], values));
      } else {
        assert Overlaid(schema, values) == Overlaid(schema[1..], values);
        assert Overlaid(schema + [s], values) == Overlaid(schema[1..] + [s], values);
      }
    }
  }

  lemma {:induction false} NothingOverlaid(values: Table)
    ensures EntryLines(Overlaid([], values)) == []
  {
  }

  /** The [settings] lines: only values off their shipped default. */
  method SettingsLines(schema: seq<Setting>, values: Table) returns (lines: seq<string>)
    ensures lines == EntryLines(Overlaid(schema, values))
  {
    hide EntryLines, Overlaid, EntryLine;
    lines := [];
    NothingOverlaid(values);
    assert schema[..0] == [];
    for i := 0 to |schema|
      invariant lines == EntryLines(Overlaid(schema[..i], values))
    {
      var s := schema[i];
      OverlaidGrows(schema[..i], s, values);
      assert schema[..i + 1] == schema[..i] + [s];
      if s.key in values && values[s.key] != s.standard {
        lines := lines + [EntryLine((s.key, values[s.key]))];
      }
    }
    assert schema[..|schema|] == schema;
  }

  lemma {:induction false} NoLines(es: seq<(string, Value)>)
    ensures EntryLines(es) == [] <==> es == []
  {
  }

  /** The whole file, regenerated from the fixed schema. */
  method Render(schema: seq<Setting>, about: seq<string>, notes: seq<string>, f: Fields) returns (text: string)
    ensures text == Lines(RenderLines(schema, about, notes, f))
  {
    hide Lines, EntryLines, ControlEntries, Overlaid;
    var control := ControlLines(f);
    var offDefault := SettingsLines(schema, f.values);
    var lines := about + ["", "[" + CONTROL + "]"] + notes + control;
    ghost var top := lines;
    if offDefault != [] {
      lines := lines + ["", "[" + SETTINGS_TABLE + "]"] + offDefault;
      assert lines == top + (["", "[" + SETTINGS_TABLE + "]"] + offDefault);
    } else {
      assert lines == top + [];
    }
    NoLines(Overlaid(schema, f.values));
    text := Joined(lines);
  }

  method Joined(lines: seq<string>) returns (text: string)
    ensures text == Lines(lines)
  {
    text := "";
    for i := 0 to |lines|
      invariant text + Lines(lines[i..]) == Lines(lines)
    {
      assert lines[i..][1..] == lines[i + 1..];
      text := text + lines[i] + "\n";
    }
  }
}
