/** ECMAScript `encodeURIComponent` (ECMA-262, "URI Handling Functions"):
    every character outside the unreserved set is written as the `%XX`
    escapes of its UTF-8 bytes (RFC 3629), in the percent-encoding of
    section 2.1 of RFC 3986. `Decode` is `decodeURIComponent`, its inverse.

    Dafny characters are Unicode scalar values, so the lone-surrogate
    URIError of `encodeURIComponent` cannot arise. */
module Uri {
  import opened Wrappers

  type Byte = b: int | 0 <= b < 256

  /** Characters `encodeURIComponent` copies unchanged: ASCII letters and
      digits and `- _ . ! ~ * ' ( )`. */
  predicate IsUnreserved(c: char) {
    || ('A' <= c <= 'Z') || ('a' <= c <= 'z') || ('0' <= c <= '9')
    || c == '-' || c == '_' || c == '.' || c == '!' || c == '~'
    || c == '*' || c == '\'' || c == '(' || c == ')'
  }

  /** Upper-case hexadecimal digit, as `encodeURIComponent` writes them. */
  function HexDigit(n: int): (c: char)
    requires 0 <= n < 16
    ensures ('0' <= c <= '9') || ('A' <= c <= 'F')
  {
    if n < 10 then ('0' as int + n) as char else ('A' as int + n - 10) as char
  }

  /** Value of a hexadecimal digit of either case. */
  function HexValue(c: char): (r: Option<int>)
    ensures r.Some? ==> 0 <= r.value < 16
    ensures r.Some? <==> ('0' <= c <= '9') || ('A' <= c <= 'F') || ('a' <= c <= 'f')
  {
    if '0' <= c <= '9' then Some(c as int - '0' as int)
    else if 'A' <= c <= 'F' then Some(c as int - 'A' as int + 10)
    else if 'a' <= c <= 'f' then Some(c as int - 'a' as int + 10)
    else None
  }

  lemma HexRoundTrip(n: int)
    requires 0 <= n < 16
    ensures HexValue(HexDigit(n)) == Some(n)
  {
  }

  // ---------------------------------------------------------------------
  // encoding

  /** The UTF-8 bytes of one code point. */
  function Utf8(c: char): (r: seq<Byte>)
    ensures 1 <= |r| <= 4
  {
    var n := c as int;
    if n < 0x80 then [n]
    else if n < 0x800 then [0xC0 + n / 64, 0x80 + n % 64]
    else if n < 0x10000 then [0xE0 + (n / 64) / 64, 0x80 + (n / 64) % 64, 0x80 + n % 64]
    else [0xF0 + ((n / 64) / 64) / 64, 0x80 + ((n / 64) / 64) % 64, 0x80 + (n / 64) % 64, 0x80 + n % 64]
  }

  /** `%XX` for each byte. */
  function Escape(bytes: seq<Byte>): (r: string)
    ensures |r| == 3 * |bytes|
  {
    if bytes == [] then [] else ['%', HexDigit(bytes[0] / 16), HexDigit(bytes[0] % 16)] + Escape(bytes[1..])
  }

  function EncodeChar(c: char): string {
    if IsUnreserved(c) then [c] else Escape(Utf8(c))
  }

  /** `encodeURIComponent(s)`. */
  function Encode(s: string): (r: string)
    ensures |s| <= |r| <= 12 * |s|
  {
    if s == [] then [] else EncodeChar(s[0]) + Encode(s[1..])
  }

  /** A string of unreserved characters is left as it is. */
  lemma {:induction false} EncodeKeepsUnreserved(s: string)
    requires forall i :: 0 <= i < |s| ==> IsUnreserved(s[i])
    ensures Encode(s) == s
  {
    if s != [] {
      EncodeKeepsUnreserved(s[1..]);
      assert [s[0]] + s[1..] == s;
    }
  }

  /** A one-character string encodes as that character when it is
      unreserved and as the `%XX` escapes of its UTF-8 bytes otherwise. */
  lemma EncodeSingle(c: char)
    ensures Encode([c]) == if IsUnreserved(c) then [c] else Escape(Utf8(c))
  {
    assert [c][1..] == [];
  }

  /** Encoding works character by character, so it distributes over
      concatenation. */
  lemma {:induction false} EncodeAppend(a: string, b: string)
    ensures Encode(a + b) == Encode(a) + Encode(b)
  {
    if a == [] {
      assert a + b == b;
    } else {
      assert (a + b)[0] == a[0];
      assert (a + b)[1..] == a[1..] + b;
      EncodeAppend(a[1..], b);
    }
  }

  /** Characters that can appear in the output of `encodeURIComponent`. */
  predicate IsEncodedChar(c: char) {
    IsUnreserved(c) || c == '%' || ('0' <= c <= '9') || ('A' <= c <= 'F')
  }

  predicate AllEncodedChars(t: string) {
    forall i :: 0 <= i < |t| ==> IsEncodedChar(t[i])
  }

  /** The output holds only unreserved characters and `%XX` escapes, so it
      never holds a delimiter of a URL query such as `&`, `#`, `=` or `?`. */
  lemma EncodeIsQuerySafe(s: string)
    ensures AllEncodedChars(Encode(s))
    ensures '?' !in Encode(s) && '&' !in Encode(s) && '#' !in Encode(s) && '=' !in Encode(s)
  {
    EncodeOnlyEncodedChars(s);
  }

  lemma {:induction false} EncodeOnlyEncodedChars(s: string)
    ensures AllEncodedChars(Encode(s))
  {
    if s != [] {
      EncodeOnlyEncodedChars(s[1..]);
      EscapeIsQuerySafe(Utf8(s[0]));
      var e, rest := EncodeChar(s[0]), Encode(s[1..]);
      assert AllEncodedChars(e);
      assert Encode(s) == e + rest;
      forall i | 0 <= i < |e + rest| ensures IsEncodedChar((e + rest)[i]) {
        if i >= |e| { assert (e + rest)[i] == rest[i - |e|]; }
        else { assert (e + rest)[i] == e[i]; }
      }
    }
  }

  lemma {:induction false} EscapeIsQuerySafe(bytes: seq<Byte>)
    ensures AllEncodedChars(Escape(bytes))
  {
    if bytes != [] {
      EscapeIsQuerySafe(bytes[1..]);
      var head := ['%', HexDigit(bytes[0] / 16), HexDigit(bytes[0] % 16)];
      var rest := Escape(bytes[1..]);
      forall i | 0 <= i < |head + rest| ensures IsEncodedChar((head + rest)[i]) {
        if i >= 3 { assert (head + rest)[i] == rest[i - 3]; }
      }
    }
  }

  // ---------------------------------------------------------------------
  // decoding

  /** The byte written as `%XX` at the start of `t`, if there is one. */
  function ByteAt(t: string): Option<Byte> {
    if |t| >= 3 && t[0] == '%' && HexValue(t[1]).Some? && HexValue(t[2]).Some?
    then Some(16 * HexValue(t[1]).value + HexValue(t[2]).value)
    else None
  }

  /** `count` consecutive `%XX` escapes at the start of `t`. */
  function ReadBytes(t: string, count: nat): (r: Option<seq<Byte>>)
    ensures r.Some? ==> |r.value| == count && 3 * count <= |t|
  {
    if count == 0 then Some([])
    else match ByteAt(t)
      case None => None
      case Some(b) =>
        match ReadBytes(t[3..], count - 1)
        case None => None
        case Some(bs) => Some([b] + bs)
  }

  /** Length of the UTF-8 sequence a lead byte announces; 0 for a byte that
      cannot lead one. */
  function SequenceLength(b: Byte): nat {
    if b < 0x80 then 1
    else if 0xC0 <= b < 0xE0 then 2
    else if 0xE0 <= b < 0xF0 then 3
    else if 0xF0 <= b < 0xF8 then 4
    else 0
  }

  predicate IsContinuation(b: Byte) {
    0x80 <= b < 0xC0
  }

  /** The code point a well-formed UTF-8 sequence of 1 to 4 bytes encodes. */
  function CodePoint(bytes: seq<Byte>): int
    requires 1 <= |bytes| <= 4
  {
    var b := seq(|bytes|, i requires 0 <= i < |bytes| => bytes[i] as int);
    if |b| == 1 then b[0]
    else if |b| == 2 then (b[0] - 0xC0) * 64 + (b[1] - 0x80)
    else if |b| == 3 then ((b[0] - 0xE0) * 64 + (b[1] - 0x80)) * 64 + (b[2] - 0x80)
    else (((b[0] - 0xF0) * 64 + (b[1] - 0x80)) * 64 + (b[2] - 0x80)) * 64 + (b[3] - 0x80)
  }

  /** Smallest code point that needs `n` bytes; a smaller one is an
      over-long encoding, which `decodeURIComponent` rejects. */
  function MinCodePoint(n: int): int {
    if n == 2 then 0x80 else if n == 3 then 0x800 else if n == 4 then 0x10000 else 0
  }

  predicate IsScalarValue(n: int) {
    (0 <= n < 0xD800) || (0xE000 <= n < 0x11_0000)
  }

  /** Decodes the escape sequence at the start of `t` into one character,
      also giving how many characters of `t` it took. */
  function DecodeEscape(t: string): (r: Option<(char, nat)>)
    ensures r.Some? ==> 3 <= r.value.1 <= |t|
  {
    match ByteAt(t)
    case None => None
    case Some(lead) =>
      var n := SequenceLength(lead);
      if n == 0 then None
      else match ReadBytes(t, n)
        case None => None
        case Some(bytes) =>
          if exists i :: 1 <= i < n && !IsContinuation(bytes[i]) then None
          else
            var cp := CodePoint(bytes);
            if cp < MinCodePoint(n) || !IsScalarValue(cp) then None
            else Some((cp as char, 3 * n))
  }

  /** `decodeURIComponent(t)`; `None` where it throws URIError. */
  function Decode(t: string): (r: Option<string>)
    ensures r.Some? ==> |r.value| <= |t|
    ensures '%' !in t ==> r == Some(t)
    decreases |t|
  {
    if t == [] then Some([])
    else if t[0] != '%' then
      assert '%' !in t ==> '%' !in t[1..];
      match Decode(t[1..])
      case None => None
      case Some(rest) => assert '%' !in t ==> [t[0]] + rest == t; Some([t[0]] + rest)
    else
      match DecodeEscape(t)
      case None => None
      case Some((c, k)) =>
        match Decode(t[k..])
        case None => None
        case Some(rest) => Some([c] + rest)
  }

  // ---------------------------------------------------------------------
  // round trip

  lemma {:induction false} ReadEscaped(bytes: seq<Byte>, rest: string)
    ensures ReadBytes(Escape(bytes) + rest, |bytes|) == Some(bytes)
  {
    if bytes != [] {
      var b := bytes[0];
      var t := Escape(bytes) + rest;
      HexRoundTrip(b / 16);
      HexRoundTrip(b % 16);
      assert t[0] == '%' && t[1] == HexDigit(b / 16) && t[2] == HexDigit(b % 16);
      assert ByteAt(t) == Some(b);
      assert t[3..] == Escape(bytes[1..]) + rest;
      ReadEscaped(bytes[1..], rest);
      assert [b] + bytes[1..] == bytes;
    }
  }

  /** The UTF-8 bytes of a character form a well-formed, shortest sequence
      that encodes that character. */
  lemma Utf8WellFormed(c: char)
    ensures SequenceLength(Utf8(c)[0]) == |Utf8(c)|
    ensures forall i :: 1 <= i < |Utf8(c)| ==> IsContinuation(Utf8(c)[i])
    ensures CodePoint(Utf8(c)) == c as int
    ensures c as int >= MinCodePoint(|Utf8(c)|)
  {
    var n := c as int;
    var q1, r1 := n / 64, n % 64;
    var q2, r2 := q1 / 64, q1 % 64;
    var q3, r3 := q2 / 64, q2 % 64;
    assert n == 64 * q1 + r1;
    assert q1 == 64 * q2 + r2;
    assert q2 == 64 * q3 + r3;
  }

  lemma DecodeEncodedChar(c: char, rest: string)
    requires !IsUnreserved(c)
    ensures DecodeEscape(Escape(Utf8(c)) + rest) == Some((c, 3 * |Utf8(c)|))
  {
    var bytes := Utf8(c);
    var t := Escape(bytes) + rest;
    Utf8WellFormed(c);
    ReadEscaped(bytes, rest);
    ReadEscaped([bytes[0]], Escape(bytes[1..]) + rest);
    assert Escape(bytes) == Escape([bytes[0]]) + Escape(bytes[1..]);
    assert t == Escape([bytes[0]]) + (Escape(bytes[1..]) + rest);
    assert ByteAt(t) == Some(bytes[0]);
  }

  /** `decodeURIComponent(encodeURIComponent(s)) == s`. */
  lemma {:induction false} DecodeEncode(s: string)
    ensures Decode(Encode(s)) == Some(s)
  {
    if s != [] {
      var c := s[0];
      var t := Encode(s);
      DecodeEncode(s[1..]);
      assert t == EncodeChar(c) + Encode(s[1..]);
      if IsUnreserved(c) {
        assert t[0] == c && t[1..] == Encode(s[1..]);
      } else {
        DecodeEncodedChar(c, Encode(s[1..]));
        assert t[0] == '%';
        assert t[3 * |Utf8(c)|..] == Encode(s[1..]);
      }
      assert [c] + s[1..] == s;
    }
  }
}
