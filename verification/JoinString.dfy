/**
 The join string: a fixed-width binary layout with a checksum, in unpadded
 base64url (section 5 of RFC 4648), and the node's reader of it.
 */
module JoinString {
  import opened Prelude

  type Byte = n: int | 0 <= n < 256

  const PREFIX := "ozjoin1"
  const PREFIX_BYTES: seq<Byte> := [111, 122, 106, 111, 105, 110, 49]
  const TOKEN_BYTES: nat := 16
  const FINGERPRINT_BYTES: nat := 32
  const FIXED: nat := 52

  /** SHA-256 as far as the layout needs it: at least four bytes of digest. */
  type Sha = seq<Byte> -> seq<Byte>

  ghost predicate GoodSha(sha: Sha) { forall b: seq<Byte> :: |sha(b)| >= 4 }

  datatype Refusal =
    | TokenLength | NotHex | FingerprintLength | NoAddress | ExpiryRange
    | Malformed | Truncated | Altered | NotUtf8 | BadPort

  datatype Ticket = Ticket(expiry: int, fingerprint: seq<Byte>, token: seq<Byte>, addr: string)

  // ---- hex, as bytes.fromhex reads it ----

  predicate Space(c: char) { c == ' ' || c == '\t' || c == '\n' || c == '\r' || c as int == 11 || c as int == 12 }

  function Nibble(c: char): Option<nat> {
    if '0' <= c <= '9' then Some(c as int - '0' as int)
    else if 'a' <= c <= 'f' then Some(c as int - 'a' as int + 10)
    else if 'A' <= c <= 'F' then Some(c as int - 'A' as int + 10)
    else None
  }

  /** The digest covers the prefix as it is written. */
  lemma {:induction false} PrefixIsWritten()
    ensures PREFIX == "ozjoin1" && PREFIX_BYTES == Utf8("ozjoin1")
  {
    var s := "ozjoin1";
    forall i | 0 <= i <= 7 ensures Utf8(s[i..]) == PREFIX_BYTES[i..] {
      AsciiBytes(s[i..]);
      assert forall j :: 0 <= j < 7 ==> s[j] as int == PREFIX_BYTES[j];
    }
    assert s[0..] == s && PREFIX_BYTES[0..] == PREFIX_BYTES;
  }

  lemma {:induction false} AsciiBytes(s: string)
    requires forall i :: 0 <= i < |s| ==> (s[i] as int) < 128
    ensures |Utf8(s)| == |s| && forall i :: 0 <= i < |s| ==> Utf8(s)[i] == s[i] as int
  {
    if s != "" {
      AsciiBytes(s[1..]);
    }
  }

  /** Whitespace may stand between bytes but not inside one. */
  function FromHex(s: string): Option<seq<Byte>> {
    if s == "" then Some([])
    else if Space(s[0]) then FromHex(s[1..])
    else if |s| < 2 || Nibble(s[0]).None? || Nibble(s[1]).None? then None
    else
      var rest := FromHex(s[2..]);
      if rest.None? then None else Some([HexByte(s[0], s[1])] + rest.value)
  }

  function HexByte(c: char, d: char): Byte
    requires Nibble(c).Some? && Nibble(d).Some?
  {
    16 * Nibble(c).value + Nibble(d).value
  }

  /** The lower-case digits of the bytes, as a certificate fingerprint is printed. */
  function ToHex(b: seq<Byte>): string {
    if b == [] then ""
    else ["0123456789abcdef"[b[0] / 16], "0123456789abcdef"[b[0] % 16]] + ToHex(b[1..])
  }

  lemma {:induction false} NibbleReadsBack(n: nat)
    requires n < 16
    ensures Nibble("0123456789abcdef"[n]) == Some(n) && !Space("0123456789abcdef"[n])
  {
  }

  /** A printed fingerprint is read back byte for byte. */
  lemma {:induction false} HexReadsBack(b: seq<Byte>)
    ensures FromHex(ToHex(b)) == Some(b)
  {
    if b != [] {
      NibbleReadsBack(b[0] / 16);
      NibbleReadsBack(b[0] % 16);
      HexReadsBack(b[1..]);
      assert ToHex(b)[2..] == ToHex(b[1..]);
      assert [b[0]] + b[1..] == b;
    }
  }

  // ---- UTF-8 ----

  function CharBytes(c: char): (b: seq<Byte>)
    ensures b != []
  {
    var n := c as int;
    if n < 0x80 then [n]
    else if n < 0x800 then [0xC0 + n / 64, 0x80 + n % 64]
    else if n < 0x10000 then [0xE0 + n / 64 / 64, 0x80 + n / 64 % 64, 0x80 + n % 64]
    else [0xF0 + n / 64 / 64 / 64, 0x80 + n / 64 / 64 % 64, 0x80 + n / 64 % 64, 0x80 + n % 64]
  }

  function Utf8(s: string): seq<Byte> { if s == "" then [] else CharBytes(s[0]) + Utf8(s[1..]) }

  predicate Continues(b: seq<Byte>, n: nat) { |b| > n && forall i :: 1 <= i <= n ==> 0x80 <= b[i] < 0xC0 }

  function Extend(high: int, continuation: Byte): int { high * 64 + (continuation as int - 0x80) }

  predicate Scalar(n: int) { 0 <= n < 0xD800 || 0xE000 <= n < 0x110000 }

  /** The first character and its width; overlong forms, surrogates and stray bytes are refused. */
  function FirstChar(b: seq<Byte>): (r: Option<(char, nat)>)
    requires b != []
    ensures r.Some? ==> 1 <= r.value.1 <= |b|
  {
    if b[0] < 0x80 then Some((b[0] as char, 1))
    else if 0xC2 <= b[0] < 0xE0 && Continues(b, 1) then Some((Extend(b[0] - 0xC0, b[1]) as char, 2))
    else if 0xE0 <= b[0] < 0xF0 && Continues(b, 2) then
      var n := Extend(Extend(b[0] - 0xE0, b[1]), b[2]);
      if n >= 0x800 && Scalar(n) then Some((n as char, 3)) else None
    else if 0xF0 <= b[0] < 0xF5 && Continues(b, 3) then
      var n := Extend(Extend(Extend(b[0] - 0xF0, b[1]), b[2]), b[3]);
      if n >= 0x10000 && Scalar(n) then Some((n as char, 4)) else None
    else None
  }

  function FromUtf8(b: seq<Byte>): Option<string> {
    if b == [] then Some("")
    else match FirstChar(b)
      case None => None
      case Some((c, n)) =>
        var rest := FromUtf8(b[n..]);
        if rest.None? then None else Some([c] + rest.value)
  }

  // ---- unpadded base64url ----

  function Symbol(n: nat): char
    requires n < 64
  {
    if n < 26 then ('A' as int + n) as char
    else if n < 52 then ('a' as int + n - 26) as char
    else if n < 62 then ('0' as int + n - 52) as char
    else if n == 62 then '-' else '_'
  }

  function SymbolValue(c: char): (r: Option<nat>)
    ensures r.Some? ==> r.value < 64
  {
    if 'A' <= c <= 'Z' then Some(c as int - 'A' as int)
    else if 'a' <= c <= 'z' then Some(c as int - 'a' as int + 26)
    else if '0' <= c <= '9' then Some(c as int - '0' as int + 52)
    else if c == '-' then Some(62) else if c == '_' then Some(63) else None
  }

  /** The six-bit groups of up to three bytes. */
  function Sextets(b: seq<Byte>): (v: seq<nat>)
    requires 1 <= |b| <= 3
    ensures |v| == |b| + 1 && Sixes(v)
  {
    if |b| == 1 then [b[0] / 4, b[0] % 4 * 16]
    else if |b| == 2 then [b[0] / 4, b[0] % 4 * 16 + b[1] / 16, b[1] % 16 * 4]
    else [b[0] / 4, b[0] % 4 * 16 + b[1] / 16, b[1] % 16 * 4 + b[2] / 64, b[2] % 64]
  }

  predicate Sixes(v: seq<nat>) { forall i :: 0 <= i < |v| ==> v[i] < 64 }

  function Spell(v: seq<nat>): string
    requires Sixes(v)
  {
    seq(|v|, i requires 0 <= i < |v| => Symbol(v[i]))
  }

  function Base64(b: seq<Byte>): string {
    if b == [] then "" else Spell(Sextets(b[..Min(3, |b|)])) + Base64(b[Min(3, |b|)..])
  }

  function Unspell(s: string): (r: Option<seq<nat>>)
    ensures r.Some? ==> |r.value| == |s| && Sixes(r.value)
  {
    if forall i :: 0 <= i < |s| ==> SymbolValue(s[i]).Some?
    then Some(seq(|s|, i requires 0 <= i < |s| => SymbolValue(s[i]).value))
    else None
  }

  function FromBase64(s: string): Option<seq<Byte>> {
    if s == "" then Some([])
    else
      var n := Min(4, |s|);
      var v := Unspell(s[..n]);
      if v.None? || n == 1 then None
      else
        var rest := FromBase64(s[n..]);
        if rest.None? then None else Some(Group(v.value) + rest.value)
  }

  /** Two, three or four symbols give one, two or three bytes. */
  function Group(v: seq<nat>): seq<Byte>
    requires 2 <= |v| <= 4 && Sixes(v)
  {
    [v[0] * 4 + v[1] / 16]
    + (if |v| < 3 then [] else [v[1] % 16 * 16 + v[2] / 4])
    + (if |v| < 4 then [] else [v[2] % 4 * 64 + v[3]])
  }

  // ---- composing and reading ----

  function Truncate(x: real): int { if x >= 0.0 then x.Floor else -(-x).Floor }

  /** The whole part: a fraction of a second is dropped, towards zero. */
  lemma {:induction false} TruncateDropsTheFraction(x: real)
    ensures x >= 0.0 ==> 0.0 <= x - Truncate(x) as real < 1.0
    ensures x < 0.0 ==> 0.0 <= Truncate(x) as real - x < 1.0
  {
  }

  function U32(n: int): seq<Byte>
    requires 0 <= n < 0x1_0000_0000
  {
    [n / 256 / 256 / 256, n / 256 / 256 % 256, n / 256 % 256, n % 256]
  }

  function Append(high: int, low: Byte): int { high * 256 + low as int }

  function FromU32(b: seq<Byte>): int
    requires |b| == 4
  {
    Append(Append(Append(b[0], b[1]), b[2]), b[3])
  }

  function Payload(t: Ticket): seq<Byte>
    requires 0 <= t.expiry < 0x1_0000_0000
  {
    U32(t.expiry) + t.fingerprint + t.token + Utf8(t.addr)
  }

  function Seal(sha: Sha, payload: seq<Byte>): seq<Byte>
    requires |sha(PREFIX_BYTES + payload)| >= 4
  {
    payload + sha(PREFIX_BYTES + payload)[..4]
  }

  /** The checks in the order the code makes them. */
  function Checked(addr: string, hex: string, token: seq<Byte>, expires: real): Result<Ticket, Refusal> {
    if |token| != TOKEN_BYTES then Err(TokenLength)
    else
      var fingerprint := FromHex(hex);
      if fingerprint.None? then Err(NotHex)
      else if |fingerprint.value| != FINGERPRINT_BYTES then Err(FingerprintLength)
      else if addr == "" then Err(NoAddress)
      else if !(0 <= Truncate(expires) < 0x1_0000_0000) then Err(ExpiryRange)
      else Ok(Ticket(Truncate(expires), fingerprint.value, token, addr))
  }

  ghost function Compose(sha: Sha, addr: string, hex: string, token: seq<Byte>, expires: real): Result<string, Refusal>
    requires GoodSha(sha)
  {
    match Checked(addr, hex, token, expires)
    case Err(e) => Err(e)
    case Ok(t) => Ok(PREFIX + ":" + Base64(Seal(sha, Payload(t))))
  }

  /** What follows the last colon, if there is one. */
  function Port(addr: string): Option<string> {
    if addr == "" then None
    else if addr[|addr| - 1] == ':' then Some("")
    else
      var front := Port(addr[..|addr| - 1]);
      if front.None? then None else Some(front.value + [addr[|addr| - 1]])
  }

  lemma {:induction false} PortFollowsLastColon(addr: string)
    ensures Port(addr).None? <==> ':' !in addr
    ensures Port(addr).Some? ==>
      ':' !in Port(addr).value && exists host: string :: addr == host + ":" + Port(addr).value
  {
    if addr != "" {
      var front, last := addr[..|addr| - 1], addr[|addr| - 1];
      assert addr == front + [last];
      PortFollowsLastColon(front);
      if last != ':' && Port(front).Some? {
        var host: string :| front == host + ":" + Port(front).value;
        assert addr == host + ":" + Port(addr).value;
      }
      if last == ':' {
        assert addr == front + ":" + "";
      }
    }
  }

  /** `decimal` is how the reader takes text for a number. */
  predicate PortIsGood(decimal: string -> Option<int>, addr: string) {
    Port(addr).Some? ==> decimal(Port(addr).value).Some? && 0 < decimal(Port(addr).value).value < 65536
  }

  ghost function Parse(sha: Sha, decimal: string -> Option<int>, text: string): Result<Ticket, Refusal>
    requires GoodSha(sha)
  {
    if !(PREFIX + ":" < text) then Err(Malformed)
    else
      var blob := FromBase64(text[|PREFIX| + 1..]);
      if blob.None? then Err(Malformed)
      else if |blob.value| < FIXED + 1 + 4 then Err(Truncated)
      else
        var payload, sum := blob.value[..|blob.value| - 4], blob.value[|blob.value| - 4..];
        if sum != sha(PREFIX_BYTES + payload)[..4] then Err(Altered)
        else
          var addr := FromUtf8(payload[FIXED..]);
          if addr.None? then Err(NotUtf8)
          else if !PortIsGood(decimal, addr.value) then Err(BadPort)
          else Ok(Ticket(FromU32(payload[..4]), payload[4..36], payload[36..FIXED], addr.value))
  }

  // ---- each layer reads back ----

  lemma {:induction false} CharReadsBack(c: char, rest: seq<Byte>)
    ensures FirstChar(CharBytes(c) + rest) == Some((c, |CharBytes(c)|))
  {
    var n, b := c as int, CharBytes(c) + rest;
    if 0x80 <= n < 0x800 {
      assert Continues(b, 1);
    } else if 0x800 <= n < 0x10000 {
      assert Continues(b, 2);
    } else if n >= 0x10000 {
      assert Continues(b, 3);
    }
  }

  lemma {:induction false} Utf8ReadsBack(s: string)
    ensures FromUtf8(Utf8(s)) == Some(s)
  {
    if s != "" {
      CharReadsBack(s[0], Utf8(s[1..]));
      assert Utf8(s)[|CharBytes(s[0])|..] == Utf8(s[1..]);
      Utf8ReadsBack(s[1..]);
      assert [s[0]] + s[1..] == s;
    }
  }

  lemma {:induction false} SpellingReadsBack(v: seq<nat>)
    requires Sixes(v)
    ensures Unspell(Spell(v)) == Some(v)
  {
    var s := Spell(v);
    forall i | 0 <= i < |s| ensures SymbolValue(s[i]) == Some(v[i]) {
      SymbolReadsBack(v[i]);
    }
    assert Unspell(s).value == v;
  }

  lemma {:induction false} SymbolReadsBack(n: nat)
    requires n < 64
    ensures SymbolValue(Symbol(n)) == Some(n)
  {
  }

  lemma {:induction false} GroupReadsBack(b: seq<Byte>)
    requires 1 <= |b| <= 3
    ensures Group(Sextets(b)) == b
  {
  }

  lemma {:induction false} Base64ReadsBack(b: seq<Byte>)
    ensures FromBase64(Base64(b)) == Some(b)
  {
    if b != [] {
      var n := Min(3, |b|);
      var v, rest := Sextets(b[..n]), Base64(b[n..]);
      hide Sextets, Spell, Unspell, Group;
      SpellingReadsBack(v);
      GroupReadsBack(b[..n]);
      Base64ReadsBack(b[n..]);
      SpellingLength(v);
      assert b[n..] == [] ==> rest == "";
      assert Base64(b)[..n + 1] == Spell(v) && Base64(b)[n + 1..] == rest;
      assert Min(4, |Base64(b)|) == n + 1;
      assert b[..n] + b[n..] == b;
    }
  }

  lemma {:induction false} SpellingLength(v: seq<nat>)
    requires Sixes(v)
    ensures |Spell(v)| == |v|
  {
  }

  lemma {:induction false} U32ReadsBack(n: int)
    requires 0 <= n < 0x1_0000_0000
    ensures FromU32(U32(n)) == n
  {
  }

  lemma {:induction false} Utf8IsLonger(s: string)
    ensures |Utf8(s)| >= |s|
  {
    if s != "" { Utf8IsLonger(s[1..]); }
  }

  /**
   Whatever compose returns, the node reads back: expiry, fingerprint, token and
   address, unless a colon in the address is followed by no port number, which
   compose does not check.
   */
  lemma {:induction false} JoinStringsDecode(sha: Sha, decimal: string -> Option<int>, addr: string, hex: string,
                                             token: seq<Byte>, expires: real)
    requires GoodSha(sha)
    requires Compose(sha, addr, hex, token, expires).Ok?
    ensures Parse(sha, decimal, Compose(sha, addr, hex, token, expires).value)
         == var port := Port(addr);
            if port.None? || (decimal(port.value).Some? && 1 <= decimal(port.value).value <= 65535)
            then Ok(Ticket(Truncate(expires), FromHex(hex).value, token, addr)) else Err(BadPort)
  {
    var t := Checked(addr, hex, token, expires).value;
    var payload := Payload(t);
    var blob := Seal(sha, payload);
    var text := PREFIX + ":" + Base64(blob);
    Utf8IsLonger(addr);
    Base64ReadsBack(blob);
    Utf8ReadsBack(addr);
    U32ReadsBack(t.expiry);
    assert blob[..|blob| - 4] == payload;
    PayloadParts(t);
    hide Base64, FromBase64, Utf8, FromUtf8, Payload;
    assert text[|PREFIX| + 1..] == Base64(blob);
  }

  lemma {:induction false} PayloadParts(t: Ticket)
    requires 0 <= t.expiry < 0x1_0000_0000 && |t.fingerprint| == FINGERPRINT_BYTES && |t.token| == TOKEN_BYTES
    ensures
      var p := Payload(t);
      && |p| == FIXED + |Utf8(t.addr)|
      && p[..4] == U32(t.expiry) && p[4..36] == t.fingerprint && p[36..FIXED] == t.token && p[FIXED..] == Utf8(t.addr)
  {
  }

  /** Hence compose is injective on what it carries; the fingerprint is its bytes, whatever the hex's case or spacing. */
  lemma {:induction false} ComposeIsInjective(sha: Sha, a: string, h: string, t: seq<Byte>, x: real, b: string, g: string, u: seq<Byte>, y: real)
    requires GoodSha(sha)
    requires Compose(sha, a, h, t, x).Ok? && Compose(sha, a, h, t, x) == Compose(sha, b, g, u, y)
    ensures a == b && t == u && FromHex(h) == FromHex(g) && Truncate(x) == Truncate(y)
  {
    var anyPort: string -> Option<int> := port => Some(1);
    JoinStringsDecode(sha, anyPort, a, h, t, x);
    JoinStringsDecode(sha, anyPort, b, g, u, y);
  }

  /** Compose refuses exactly a wrong token length, a fingerprint that is not 32 bytes of hex, no address, or an expiry past 32 bits. */
  lemma {:induction false} ComposeAcceptsIff(sha: Sha, addr: string, hex: string, token: seq<Byte>, expires: real)
    requires GoodSha(sha)
    ensures Compose(sha, addr, hex, token, expires).Ok?
       <==> |token| == 16 && FromHex(hex).Some? && |FromHex(hex).value| == 32 && addr != "" && -1.0 < expires < 4294967296.0
  {
  }
}
