/** Opaque page cursors: base64url (RFC 4648, section 5, with padding) over a decimal id or "timestamp|uuid". */
module Cursors {
  import opened Common

  newtype byte = x: int | 0 <= x < 256

  // ------------------------------------------------------------------- base64url

  const PAD := '='

  /** The character of a 6-bit value. */
  function Char(v: int): char
    requires 0 <= v < 64
  {
    if v < 26 then ('A' as int + v) as char
    else if v < 52 then ('a' as int + v - 26) as char
    else if v < 62 then ('0' as int + v - 52) as char
    else if v == 62 then '-' else '_'
  }

  /** The 6-bit value of a character of the alphabet. */
  function Value(c: char): (v: Option<int>)
    ensures v.Some? ==> 0 <= v.value < 64
  {
    if 'A' <= c <= 'Z' then Some(c as int - 'A' as int)
    else if 'a' <= c <= 'z' then Some(c as int - 'a' as int + 26)
    else if '0' <= c <= '9' then Some(c as int - '0' as int + 52)
    else if c == '-' then Some(62)
    else if c == '_' then Some(63)
    else None
  }

  lemma ValueOfChar(v: int)
    requires 0 <= v < 64
    ensures Value(Char(v)) == Some(v) && Char(v) != PAD
  {
  }

  /** Table 2 of section 5 of RFC 4648: the capitals, the small letters, the digits, then the two others. */
  lemma AlphabetIsTable2(v: int)
    requires 0 <= v < 63
    ensures Char(0) == 'A' && Char(25) == 'Z' && Char(26) == 'a' && Char(51) == 'z'
    ensures Char(52) == '0' && Char(61) == '9' && Char(62) == '-' && Char(63) == '_'
    ensures v !in {25, 51, 61, 62} ==> Char(v + 1) as int == Char(v) as int + 1
  {
  }

  function Encode(b: seq<byte>): string {
    if b == [] then ""
    else if |b| == 1 then
      [Char(b[0] as int / 4), Char(b[0] as int % 4 * 16), PAD, PAD]
    else if |b| == 2 then
      [Char(b[0] as int / 4), Char(b[0] as int % 4 * 16 + b[1] as int / 16), Char(b[1] as int % 16 * 4), PAD]
    else
      [Char(b[0] as int / 4), Char(b[0] as int % 4 * 16 + b[1] as int / 16),
       Char(b[1] as int % 16 * 4 + b[2] as int / 64), Char(b[2] as int % 64)]
      + Encode(b[3..])
  }

  /** One quantum of four characters; only the last may be padded. */
  function DecodeQuad(q: string, last: bool): Option<seq<byte>>
    requires |q| == 4
  {
    var (v0, v1) := (Value(q[0]), Value(q[1]));
    if v0.None? || v1.None? then None
    else
      var b0 := (v0.value * 4 + v1.value / 16) as byte;
      if q[2] == PAD && q[3] == PAD then if last then Some([b0]) else None
      else
        var v2 := Value(q[2]);
        if v2.None? then None
        else
          var b1 := (v1.value % 16 * 16 + v2.value / 4) as byte;
          if q[3] == PAD then if last then Some([b0, b1]) else None
          else
            var v3 := Value(q[3]);
            if v3.None? then None else Some([b0, b1, (v2.value % 4 * 64 + v3.value) as byte])
  }

  function Decode(s: string): Option<seq<byte>> {
    if s == "" then Some([])
    else if |s| < 4 then None
    else
      var head := DecodeQuad(s[..4], |s| == 4);
      var tail := Decode(s[4..]);
      if head.None? || tail.None? then None else Some(head.value + tail.value)
  }

  /** Decoding undoes encoding on every byte string. */
  lemma {:induction false} DecodeOfEncode(b: seq<byte>)
    ensures Decode(Encode(b)) == Some(b)
  {
    if 0 < |b| < 3 {
      QuadOfGroup(b, true);
      assert Encode(b)[..4] == Encode(b) && Encode(b)[4..] == "";
      assert Decode("") == Some([]) && b + [] == b;
    } else if b != [] {
      QuadOfGroup(b[..3], |b| == 3);
      EncodeSplits(b);
      DecodeOfEncode(b[3..]);
      EncodeLength(b[3..]);
      assert Encode(b)[..4] == Encode(b[..3]) && Encode(b)[4..] == Encode(b[3..]);
      assert b == b[..3] + b[3..];
    }
  }

  lemma EncodeSplits(b: seq<byte>)
    requires |b| >= 3
    ensures Encode(b) == Encode(b[..3]) + Encode(b[3..]) && |Encode(b[..3])| == 4
  {
    var g := b[..3];
    assert g[3..] == [] && Encode(g[3..]) == "";
  }

  lemma QuadOfGroup(g: seq<byte>, last: bool)
    requires 1 <= |g| <= 3 && (|g| < 3 ==> last)
    ensures |Encode(g)| == 4 && DecodeQuad(Encode(g), last) == Some(g)
  {
    if |g| == 1 {
      QuadOfOne(g[0]);
      assert g == [g[0]];
    } else if |g| == 2 {
      QuadOfTwo(g[0], g[1]);
      assert g == [g[0], g[1]];
    } else {
      QuadOfThree(g[0], g[1], g[2], last);
      assert g == [g[0], g[1], g[2]];
    }
  }

  lemma HighBits(x: int, y: int)
    requires 0 <= x < 256 && 0 <= y < 256
    ensures x / 4 * 4 + (x % 4 * 16 + y / 16) / 16 == x
    ensures (x % 4 * 16 + y / 16) % 16 == y / 16
  {
  }

  lemma MiddleBits(y: int, z: int)
    requires 0 <= y < 256 && 0 <= z < 256
    ensures y / 16 * 16 + (y % 16 * 4 + z / 64) / 4 == y
    ensures (y % 16 * 4 + z / 64) % 4 * 64 + z % 64 == z
  {
  }

  lemma QuadOfOne(x: byte)
    ensures |Encode([x])| == 4 && DecodeQuad(Encode([x]), true) == Some([x])
  {
    ValueOfChar(x as int / 4);
    ValueOfChar(x as int % 4 * 16);
    HighBits(x as int, 0);
  }

  lemma QuadOfTwo(x: byte, y: byte)
    ensures |Encode([x, y])| == 4 && DecodeQuad(Encode([x, y]), true) == Some([x, y])
  {
    ValueOfChar(x as int / 4);
    ValueOfChar(x as int % 4 * 16 + y as int / 16);
    ValueOfChar(y as int % 16 * 4);
    HighBits(x as int, y as int);
    MiddleBits(y as int, 0);
  }

  lemma QuadOfThree(x: byte, y: byte, z: byte, last: bool)
    ensures |Encode([x, y, z])| == 4 && DecodeQuad(Encode([x, y, z]), last) == Some([x, y, z])
  {
    var b := [x, y, z];
    assert b[3..] == [] && Encode(b[3..]) == "";
    ValueOfChar(x as int / 4);
    ValueOfChar(x as int % 4 * 16 + y as int / 16);
    ValueOfChar(y as int % 16 * 4 + z as int / 64);
    ValueOfChar(z as int % 64);
    HighBits(x as int, y as int);
    MiddleBits(y as int, z as int);
  }

  /** Four characters for every three bytes begun. */
  lemma {:induction false} EncodeLength(b: seq<byte>)
    ensures |Encode(b)| == (|b| + 2) / 3 * 4
  {
    if |b| >= 3 {
      EncodeLength(b[3..]);
      EncodeSplits(b);
      OneQuantumMore(|b|);
    }
  }

  lemma OneQuantumMore(n: nat)
    requires n >= 3
    ensures (n + 2) / 3 * 4 == 4 + (n - 1) / 3 * 4
  {
  }

  predicate UrlSafe(c: char) {
    'A' <= c <= 'Z' || 'a' <= c <= 'z' || '0' <= c <= '9' || c == '-' || c == '_' || c == PAD
  }

  /** The text can stand in a query string as it is. */
  lemma {:induction false} EncodedIsUrlSafe(b: seq<byte>)
    ensures forall k :: 0 <= k < |Encode(b)| ==> UrlSafe(Encode(b)[k])
  {
    if |b| >= 3 {
      EncodeSplits(b);
      EncodedIsUrlSafe(b[3..]);
      QuadIsUrlSafe(b[..3]);
    } else if b != [] {
      QuadIsUrlSafe(b);
    }
  }

  lemma QuadIsUrlSafe(g: seq<byte>)
    requires 1 <= |g| <= 3
    ensures |Encode(g)| == 4 && forall k :: 0 <= k < 4 ==> UrlSafe(Encode(g)[k])
  {
    if |g| == 3 { assert g[3..] == [] && Encode(g[3..]) == ""; }
  }

  /** The vectors of section 10 of RFC 4648, and the two characters that differ from plain base64. */
  lemma RfcVectors()
    ensures Encode([]) == "" && Encode([102]) == "Zg=="
    ensures Encode([102, 111]) == "Zm8=" && Encode([102, 111, 111]) == "Zm9v"
    ensures Encode([102, 111, 111, 98, 97, 114]) == "Zm9vYmFy"
    ensures Encode([251, 255, 191]) == "-_-_"
  {
    assert [102, 111, 111, 98, 97, 114][3..] == [98, 97, 114];
    assert Encode([98, 97, 114]) == "YmFy";
  }

  // ------------------------------------------------------------------ what is no base64

  /** Whole quanta of the alphabet, with at most two padding characters, at the very end. */
  predicate IsBase64(s: string) {
    |s| % 4 == 0 && forall k :: 0 <= k < |s| ==> PlaceOk(s, k)
  }

  predicate PlaceOk(s: string, k: nat)
    requires k < |s|
  {
    if s[k] == PAD then k == |s| - 1 || (k == |s| - 2 && s[k + 1] == PAD) else UrlSafe(s[k])
  }

  lemma QuadDecodesIff(q: string, last: bool)
    requires |q| == 4
    ensures DecodeQuad(q, last).Some? <==> IsBase64(q) && (last || q[3] != PAD)
  {
    forall k | 0 <= k < 4 ensures Value(q[k]).Some? <==> UrlSafe(q[k]) && q[k] != PAD { }
    assert IsBase64(q) <==> PlaceOk(q, 0) && PlaceOk(q, 1) && PlaceOk(q, 2) && PlaceOk(q, 3);
  }

  /** Exactly the padded base64url texts decode. */
  lemma {:induction false} DecodesIff(s: string)
    ensures Decode(s).Some? <==> IsBase64(s)
  {
    if |s| >= 4 {
      var q, rest := s[..4], s[4..];
      QuadDecodesIff(q, |s| == 4);
      DecodesIff(rest);
      PartsAreBase64(s);
    }
  }

  lemma PartsAreBase64(s: string)
    requires |s| >= 4
    ensures IsBase64(s) <==> IsBase64(s[..4]) && IsBase64(s[4..]) && (|s| == 4 || s[3] != PAD)
  {
    var q, rest := s[..4], s[4..];
    if IsBase64(s) {
      forall k | 0 <= k < 4 ensures PlaceOk(q, k) && (|s| == 4 || q[k] != PAD) { assert PlaceOk(s, k); }
      forall k | 0 <= k < |rest| ensures PlaceOk(rest, k) { assert PlaceOk(s, k + 4); }
    }
    if IsBase64(q) && IsBase64(rest) && (|s| == 4 || s[3] != PAD) {
      forall k | 0 <= k < |s| ensures PlaceOk(s, k) {
        if k < 4 { assert PlaceOk(q, k); } else { assert PlaceOk(rest, k - 4); }
      }
    }
  }

  // --------------------------------------------------------------------- ASCII text

  ghost predicate Ascii(s: string) { forall k :: 0 <= k < |s| ==> s[k] as int < 128 }

  function ToBytes(s: string): (b: seq<byte>)
    requires Ascii(s)
    ensures |b| == |s|
  {
    if s == "" then [] else [s[0] as int as byte] + ToBytes(s[1..])
  }

  /** None is a UnicodeDecodeError. */
  function FromBytes(b: seq<byte>): Option<string> {
    if b == [] then Some("")
    else if b[0] >= 128 then None
    else
      var rest := FromBytes(b[1..]);
      if rest.None? then None else Some([b[0] as int as char] + rest.value)
  }

  lemma {:induction false} FromBytesOfToBytes(s: string)
    requires Ascii(s)
    ensures FromBytes(ToBytes(s)) == Some(s)
  {
    if s != "" {
      assert s == [s[0]] + s[1..];
      FromBytesOfToBytes(s[1..]);
    }
  }

  function EncodeText(s: string): string
    requires Ascii(s)
  {
    Encode(ToBytes(s))
  }

  function DecodeText(s: string): Option<string> {
    var b := Decode(s);
    if b.None? then None else FromBytes(b.value)
  }

  lemma DecodeTextOfEncodeText(s: string)
    requires Ascii(s)
    ensures DecodeText(EncodeText(s)) == Some(s)
  {
    DecodeOfEncode(ToBytes(s));
    FromBytesOfToBytes(s);
  }

  // ------------------------------------------------------------------ integer cursors

  function Digits(n: nat): (s: string)
    ensures s != "" && Ascii(s)
  {
    if n < 10 then [('0' as int + n) as char] else Digits(n / 10) + [('0' as int + n % 10) as char]
  }

  function Number(s: string): Option<nat> {
    if s == "" then None
    else
      var c := s[|s| - 1];
      if !('0' <= c <= '9') then None
      else if |s| == 1 then Some(c as int - '0' as int)
      else
        var front := Number(s[..|s| - 1]);
        if front.None? then None else Some(front.value * 10 + (c as int - '0' as int))
  }

  lemma {:induction false} NumberOfDigits(n: nat)
    ensures Number(Digits(n)) == Some(n)
    ensures Digits(n)[0] != '-'
  {
    if n >= 10 {
      NumberOfDigits(n / 10);
      var s := Digits(n);
      assert s[..|s| - 1] == Digits(n / 10);
    }
  }

  /** Decimal text: digits only, at least one. */
  predicate IsDigits(s: string) {
    s != "" && forall k :: 0 <= k < |s| ==> '0' <= s[k] <= '9'
  }

  lemma {:induction false} NumberIff(s: string)
    ensures Number(s).Some? <==> IsDigits(s)
  {
    if |s| > 1 {
      var n := |s| - 1;
      NumberIff(s[..n]);
      assert forall k :: 0 <= k < n ==> s[..n][k] == s[k];
    }
  }

  /** str(value) */
  function Decimal(value: int): (s: string)
    ensures Ascii(s)
  {
    if value < 0 then "-" + Digits(-value) else Digits(value)
  }

  /** int(text) on plain decimal text; None is a ValueError. */
  function ParseDecimal(s: string): Option<int> {
    if s != "" && s[0] == '-' then
      var n := Number(s[1..]);
      if n.None? then None else var k: int := n.value; Some(-k)
    else
      var n := Number(s);
      if n.None? then None else Some(n.value)
  }

  /** What a cursor parameter stands for: none given, rejected with status 400, or a position. */
  datatype Cursor<K> = Start | Invalid | At(key: K)

  function EncodeIntCursor(value: int): string { EncodeText(Decimal(value)) }

  function DecodeIntCursor(cursor: Option<string>): Cursor<int> {
    if cursor.None? then Start
    else
      var s := DecodeText(cursor.value);
      if s.None? then Invalid
      else
        var n := ParseDecimal(s.value);
        if n.None? then Invalid else At(n.value)
  }

  /** An id survives its cursor. */
  lemma IntCursorRoundTrip(value: int)
    ensures DecodeIntCursor(Some(EncodeIntCursor(value))) == At(value)
  {
    DecodeTextOfEncodeText(Decimal(value));
    ParseOfDecimal(value);
  }

  lemma ParseOfDecimal(value: int)
    ensures ParseDecimal(Decimal(value)) == Some(value)
  {
    if value < 0 {
      NumberOfDigits(-value);
      ParseNegative(Digits(-value), -value);
    } else {
      NumberOfDigits(value);
      ParsePlain(Digits(value), value);
    }
  }

  lemma ParseNegative(s: string, n: int)
    requires n >= 0 && Number(s) == Some(n)
    ensures ParseDecimal("-" + s) == Some(-n)
  {
    assert ("-" + s)[1..] == s;
  }

  lemma ParsePlain(s: string, n: nat)
    requires s != "" && s[0] != '-' && Number(s) == Some(n)
    ensures ParseDecimal(s) == Some(n)
  {
  }

  lemma {:induction false} FromBytesIff(b: seq<byte>)
    ensures FromBytes(b).Some? <==> forall k :: 0 <= k < |b| ==> b[k] < 128
    ensures FromBytes(b).Some? ==>
      |FromBytes(b).value| == |b| && forall k :: 0 <= k < |b| ==> FromBytes(b).value[k] as int == b[k] as int
  {
    if b != [] {
      FromBytesIff(b[1..]);
      assert forall k :: 0 < k < |b| ==> b[k] == b[1..][k - 1];
      if forall k :: 0 <= k < |b| ==> b[k] < 128 {
        assert forall k :: 0 <= k < |b[1..]| ==> b[1..][k] == b[k + 1];
      }
    }
  }

  /** The cursor text decodes to ASCII text. */
  ghost predicate Readable(cursor: string) {
    IsBase64(cursor) && Decode(cursor).Some?
    && forall k :: 0 <= k < |Decode(cursor).value| ==> Decode(cursor).value[k] < 128
  }

  lemma ReadableMeans(cursor: string)
    ensures DecodeText(cursor).Some? <==> Readable(cursor)
  {
    DecodesIff(cursor);
    if Decode(cursor).Some? { FromBytesIff(Decode(cursor).value); }
  }

  /** A cursor is rejected exactly when it is no base64url text, or does not hold a decimal number. */
  lemma IntCursorIsRejectedIff(cursor: string)
    ensures DecodeIntCursor(Some(cursor)).Invalid? <==>
      !(Readable(cursor) && DecodeText(cursor).Some?
        && var s := DecodeText(cursor).value; IsDigits(if s != "" && s[0] == '-' then s[1..] else s))
  {
    ReadableMeans(cursor);
    if DecodeText(cursor).Some? {
      var s := DecodeText(cursor).value;
      NumberIff(if s != "" && s[0] == '-' then s[1..] else s);
    }
  }

  // -------------------------------------------------------------- timestamp|uuid cursors

  /** The text forms of a timestamp and of a UUID, both given by their rank in the column's order. */
  datatype Texts = Texts(iso: int -> string, uuid: int -> string, parseUuid: string -> Option<int>)

  ghost predicate TextsOk(t: Texts) {
    && (forall ts: int :: Ascii(t.iso(ts)) && '|' !in t.iso(ts))
    && (forall id: int :: Ascii(t.uuid(id)) && t.parseUuid(t.uuid(id)) == Some(id))
  }

  /** split("|", 1): the parts around the first bar; None without a bar. */
  function SplitAtBar(s: string): Option<(string, string)> {
    if s == "" then None
    else if s[0] == '|' then Some(("", s[1..]))
    else
      var rest := SplitAtBar(s[1..]);
      if rest.None? then None else Some(([s[0]] + rest.value.0, rest.value.1))
  }

  lemma {:induction false} SplitAtFirstBar(a: string, b: string)
    requires '|' !in a
    ensures SplitAtBar(a + "|" + b) == Some((a, b))
  {
    var s := a + "|" + b;
    if a == "" {
      assert s[1..] == b;
    } else {
      assert s[1..] == a[1..] + "|" + b;
      assert a == [a[0]] + a[1..];
      SplitAtFirstBar(a[1..], b);
    }
  }

  /** The text is cut at its first bar, and stays whole without one. */
  lemma {:induction false} SplitMeans(s: string)
    ensures SplitAtBar(s).Some? <==> '|' in s
    ensures SplitAtBar(s).Some? ==>
      var (a, b) := SplitAtBar(s).value; s == a + "|" + b && '|' !in a
  {
    if s != "" && s[0] != '|' {
      SplitMeans(s[1..]);
      assert s == [s[0]] + s[1..];
    }
  }

  function EncodeUuidTsCursor(t: Texts, ts: int, id: int): string
    requires Ascii(t.iso(ts)) && Ascii(t.uuid(id))
  {
    EncodeText(t.iso(ts) + "|" + t.uuid(id))
  }

  function DecodeUuidTsCursor(t: Texts, cursor: Option<string>): Cursor<(string, int)> {
    if cursor.None? then Start
    else
      var s := DecodeText(cursor.value);
      if s.None? then Invalid
      else
        var parts := SplitAtBar(s.value);
        if parts.None? then Invalid
        else
          var id := t.parseUuid(parts.value.1);
          if id.None? then Invalid else At((parts.value.0, id.value))
  }

  /** A cursor is rejected exactly when it is no base64url text, holds no bar, or holds no UUID behind its
      first bar; otherwise it is the text before that bar, unread, and that UUID. */
  lemma UuidTsCursorIsRejectedIff(t: Texts, cursor: string)
    ensures var decoded := DecodeUuidTsCursor(t, Some(cursor));
            && !decoded.Start?
            && forall a, id :: decoded == At((a, id)) <==> exists b :: Holds(cursor, a + "|" + b) && '|' !in a
                                                                       && t.parseUuid(b) == Some(id)
  {
    ReadableMeans(cursor);
    if DecodeText(cursor).Some? {
      var s := DecodeText(cursor).value;
      SplitMeans(s);
      forall a, b | s == a + "|" + b && '|' !in a ensures SplitAtBar(s) == Some((a, b)) { SplitAtFirstBar(a, b); }
    }
  }

  ghost predicate Holds(cursor: string, text: string) { Readable(cursor) && DecodeText(cursor) == Some(text) }

  /** A (timestamp, uuid) pair survives its cursor: the bar between them is the first one. */
  lemma UuidTsCursorRoundTrip(t: Texts, ts: int, id: int)
    requires TextsOk(t)
    ensures DecodeUuidTsCursor(t, Some(EncodeUuidTsCursor(t, ts, id))) == At((t.iso(ts), id))
  {
    DecodeTextOfEncodeText(t.iso(ts) + "|" + t.uuid(id));
    SplitAtFirstBar(t.iso(ts), t.uuid(id));
  }
}
