/** Base64 as defined in section 4 of RFC 4648, and the URL-safe alphabet
    of section 5 without padding, which is what `base64UrlEncode` in the
    login screen produces. */
module Base64 {
  import opened Wrappers

  /** An octet, as held by a `Uint8Array`. */
  type Byte = x: int | 0 <= x < 256

  /** A 6-bit value. */
  type Sextet = x: int | 0 <= x < 64

  /** The character of the standard alphabet (RFC 4648 section 4, Table 1) for a
      6-bit value. */
  function Char(i: Sextet): char {
    if i < 26 then ('A' as int + i) as char
    else if i < 52 then ('a' as int + (i - 26)) as char
    else if i < 62 then ('0' as int + (i - 52)) as char
    else if i == 62 then '+'
    else '/'
  }

  /** The 6-bit value a character of the standard alphabet stands for. */
  function ValueOf(c: char): Option<Sextet> {
    if 'A' <= c <= 'Z' then Some(c as int - 'A' as int)
    else if 'a' <= c <= 'z' then Some(c as int - 'a' as int + 26)
    else if '0' <= c <= '9' then Some(c as int - '0' as int + 52)
    else if c == '+' then Some(62)
    else if c == '/' then Some(63)
    else None
  }

  lemma CharRoundTrip(i: Sextet)
    ensures ValueOf(Char(i)) == Some(i)
  {
  }

  /** The characters of the standard alphabet. */
  predicate InAlphabet(c: char) {
    'A' <= c <= 'Z' || 'a' <= c <= 'z' || '0' <= c <= '9' || c == '+' || c == '/'
  }

  lemma CharInAlphabet(i: Sextet)
    ensures InAlphabet(Char(i))
  {
  }

  // How three octets x, y, z are cut into four 6-bit groups (RFC 4648 section 4),
  // and how the groups are put back together.

  function Group0(x: Byte): Sextet { x / 4 }
  function Group1(x: Byte, y: Byte): Sextet { (x % 4) * 16 + y / 16 }
  function Group2(y: Byte, z: Byte): Sextet { (y % 16) * 4 + z / 64 }
  function Group3(z: Byte): Sextet { z % 64 }

  function Octet0(c0: Sextet, c1: Sextet): Byte { c0 * 4 + c1 / 16 }
  function Octet1(c1: Sextet, c2: Sextet): Byte { (c1 % 16) * 16 + c2 / 4 }
  function Octet2(c2: Sextet, c3: Sextet): Byte { (c2 % 4) * 64 + c3 }

  lemma OctetsRestored(x: Byte, y: Byte, z: Byte)
    ensures Octet0(Group0(x), Group1(x, y)) == x
    ensures Octet1(Group1(x, y), Group2(y, z)) == y
    ensures Octet2(Group2(y, z), Group3(z)) == z
  {
    assert Group1(x, y) / 16 == x % 4;
    assert Group1(x, y) % 16 == y / 16;
    assert Group2(y, z) / 4 == y % 16;
    assert Group2(y, z) % 4 == z / 64;
  }

  /** Three octets give four characters. */
  function Quantum(x: Byte, y: Byte, z: Byte): string {
    [Char(Group0(x)), Char(Group1(x, y)), Char(Group2(y, z)), Char(Group3(z))]
  }

  /** The characters for the final one or two octets, before padding: the
      missing octets count as zero. */
  function Tail(b: seq<Byte>): string
    requires |b| < 3
  {
    if |b| == 0 then []
    else if |b| == 1 then [Char(Group0(b[0])), Char(Group1(b[0], 0))]
    else [Char(Group0(b[0])), Char(Group1(b[0], b[1])), Char(Group2(b[1], 0))]
  }

  /** The `=` padding a final quantum of one or two octets receives. */
  function Padding(n: nat): string {
    if n % 3 == 1 then "==" else if n % 3 == 2 then "=" else ""
  }

  /** Base64 encoding with padding, as `btoa` produces it. */
  function Encode(b: seq<Byte>): string
    decreases |b|
  {
    if |b| < 3 then Tail(b) + Padding(|b|)
    else Quantum(b[0], b[1], b[2]) + Encode(b[3..])
  }

  /** The encoding without its padding. */
  function Unpadded(b: seq<Byte>): string
    decreases |b|
  {
    if |b| < 3 then Tail(b)
    else Quantum(b[0], b[1], b[2]) + Unpadded(b[3..])
  }

  /** Base64 decoding of padded text; None for text that is not a valid
      encoding. */
  function Decode(s: string): Option<seq<Byte>>
    decreases |s|
  {
    if |s| == 0 then Some([])
    else if |s| < 4 then None
    else
      var c0, c1, c2, c3 := ValueOf(s[0]), ValueOf(s[1]), ValueOf(s[2]), ValueOf(s[3]);
      if c0.None? || c1.None? then None
      else if s[2] == '=' && s[3] == '=' then
        if |s| == 4 then Some([Octet0(c0.value, c1.value)]) else None
      else if c2.None? then None
      else if s[3] == '=' then
        if |s| == 4 then Some([Octet0(c0.value, c1.value), Octet1(c1.value, c2.value)]) else None
      else if c3.None? then None
      else match Decode(s[4..])
        case None => None
        case Some(rest) =>
          Some([Octet0(c0.value, c1.value), Octet1(c1.value, c2.value), Octet2(c2.value, c3.value)] + rest)
  }

  lemma DecodeOne(x: Byte)
    ensures Decode(Encode([x])) == Some([x])
  {
    var e := [Char(Group0(x)), Char(Group1(x, 0)), '=', '='];
    assert Encode([x]) == e;
    CharRoundTrip(Group0(x));
    CharRoundTrip(Group1(x, 0));
    assert Decode(e) == Some([Octet0(Group0(x), Group1(x, 0))]);
    OctetsRestored(x, 0, 0);
  }

  lemma DecodeTwo(x: Byte, y: Byte)
    ensures Decode(Encode([x, y])) == Some([x, y])
  {
    CharRoundTrip(Group0(x));
    CharRoundTrip(Group1(x, y));
    CharRoundTrip(Group2(y, 0));
    CharInAlphabet(Group2(y, 0));
    OctetsRestored(x, y, 0);
    assert Encode([x, y]) == [Char(Group0(x)), Char(Group1(x, y)), Char(Group2(y, 0)), '='];
  }

  lemma DecodeQuantum(x: Byte, y: Byte, z: Byte, rest: string)
    ensures Decode(Quantum(x, y, z) + rest) ==
      match Decode(rest)
      case None => None
      case Some(r) => Some([x, y, z] + r)
  {
    CharRoundTrip(Group0(x));
    CharRoundTrip(Group1(x, y));
    CharRoundTrip(Group2(y, z));
    CharRoundTrip(Group3(z));
    CharInAlphabet(Group2(y, z));
    CharInAlphabet(Group3(z));
    OctetsRestored(x, y, z);
    var e := Quantum(x, y, z) + rest;
    assert e[4..] == rest;
  }

  /** Decoding undoes encoding. */
  lemma {:induction false} DecodeEncode(b: seq<Byte>)
    ensures Decode(Encode(b)) == Some(b)
    decreases |b|
  {
    if |b| == 1 {
      assert b == [b[0]];
      DecodeOne(b[0]);
    } else if |b| == 2 {
      assert b == [b[0], b[1]];
      DecodeTwo(b[0], b[1]);
    } else if |b| >= 3 {
      DecodeEncode(b[3..]);
      DecodeQuantum(b[0], b[1], b[2], Encode(b[3..]));
      assert b == [b[0], b[1], b[2]] + b[3..];
    }
  }

  lemma PaddingShift(n: nat)
    ensures Padding(n + 3) == Padding(n)
  {
  }

  /** One step of both encodings on three or more octets. */
  lemma EncodeUnfold(b: seq<Byte>)
    requires |b| >= 3
    ensures Encode(b) == Quantum(b[0], b[1], b[2]) + Encode(b[3..])
    ensures Unpadded(b) == Quantum(b[0], b[1], b[2]) + Unpadded(b[3..])
  {
  }

  /** The padded encoding is the unpadded one followed by the padding. */
  lemma {:induction false} EncodeSplits(b: seq<Byte>)
    ensures Encode(b) == Unpadded(b) + Padding(|b|)
    decreases |b|
  {
    if |b| >= 3 {
      var q, rest := Quantum(b[0], b[1], b[2]), b[3..];
      EncodeSplits(rest);
      PaddingShift(|rest|);
      EncodeUnfold(b);
      assert q + (Unpadded(rest) + Padding(|rest|)) == (q + Unpadded(rest)) + Padding(|rest|);
    }
  }

  /** Every character of the unpadded encoding is in the alphabet, and
      there are ceil(4n/3) of them. */
  lemma {:induction false} UnpaddedShape(b: seq<Byte>)
    ensures |Unpadded(b)| == (4 * |b| + 2) / 3
    ensures forall i :: 0 <= i < |Unpadded(b)| ==> InAlphabet(Unpadded(b)[i])
    decreases |b|
  {
    if |b| < 3 {
      if |b| == 1 {
        CharInAlphabet(Group0(b[0]));
        CharInAlphabet(Group1(b[0], 0));
      } else if |b| == 2 {
        CharInAlphabet(Group0(b[0]));
        CharInAlphabet(Group1(b[0], b[1]));
        CharInAlphabet(Group2(b[1], 0));
      }
    } else {
      UnpaddedShape(b[3..]);
      CharInAlphabet(Group0(b[0]));
      CharInAlphabet(Group1(b[0], b[1]));
      CharInAlphabet(Group2(b[1], b[2]));
      CharInAlphabet(Group3(b[2]));
      var q := Quantum(b[0], b[1], b[2]);
      assert Unpadded(b) == q + Unpadded(b[3..]);
      forall i | 0 <= i < |Unpadded(b)| ensures InAlphabet(Unpadded(b)[i]) {
        if i >= 4 {
          assert Unpadded(b)[i] == Unpadded(b[3..])[i - 4];
        }
      }
    }
  }

  // RFC 4648 section 5: the URL and filename safe alphabet.

  /** `+` becomes `-` and `/` becomes `_`; other characters are kept. */
  function UrlChar(c: char): char {
    if c == '+' then '-' else if c == '/' then '_' else c
  }

  /** The inverse mapping, `-` back to `+` and `_` back to `/`. */
  function StandardChar(c: char): char {
    if c == '-' then '+' else if c == '_' then '/' else c
  }

  /** `.replace(/\+/g, "-").replace(/\//g, "_")`. */
  function ToUrlAlphabet(s: string): (r: string)
    ensures |r| == |s| && forall i :: 0 <= i < |s| ==> r[i] == UrlChar(s[i])
  {
    seq(|s|, i requires 0 <= i < |s| => UrlChar(s[i]))
  }

  function ToStandardAlphabet(s: string): (r: string)
    ensures |r| == |s| && forall i :: 0 <= i < |s| ==> r[i] == StandardChar(s[i])
  {
    seq(|s|, i requires 0 <= i < |s| => StandardChar(s[i]))
  }

  /** `.replace(/=+$/g, "")`: drops the run of `=` at the end. */
  function StripPadding(s: string): (r: string)
    decreases |s|
  {
    if |s| > 0 && s[|s| - 1] == '=' then StripPadding(s[..|s| - 1]) else s
  }

  /** Puts back the `=` characters that make the length a multiple of four. */
  function Repad(s: string): string {
    s + seq((4 - |s| % 4) % 4, _ => '=')
  }

  /** The characters of the URL-safe alphabet (RFC 4648 section 5, Table 2). */
  predicate InUrlAlphabet(c: char) {
    'A' <= c <= 'Z' || 'a' <= c <= 'z' || '0' <= c <= '9' || c == '-' || c == '_'
  }

  /** URL-safe Base64 without padding of a sequence of octets. */
  function UrlEncode(b: seq<Byte>): string {
    StripPadding(ToUrlAlphabet(Encode(b)))
  }

  /** Undoes `UrlEncode`: back to the standard alphabet, padding restored,
      then decoded. */
  function UrlDecode(s: string): Option<seq<Byte>> {
    Decode(Repad(ToStandardAlphabet(s)))
  }

  lemma {:induction false} StripPaddingOf(x: string, n: nat)
    requires x == [] || x[|x| - 1] != '='
    ensures StripPadding(x + seq(n, _ => '=')) == x
  {
    if n > 0 {
      var y := x + seq(n, _ => '=');
      assert y[..|y| - 1] == x + seq(n - 1, _ => '=');
      StripPaddingOf(x, n - 1);
    } else {
      assert x + seq(n, _ => '=') == x;
    }
  }

  /** `UrlEncode` is the unpadded encoding written in the URL-safe alphabet. */
  lemma UrlEncodeUnpadded(b: seq<Byte>)
    ensures UrlEncode(b) == ToUrlAlphabet(Unpadded(b))
  {
    EncodeSplits(b);
    UnpaddedShape(b);
    var u := Unpadded(b);
    var p := Padding(|b|);
    assert p == seq(|p|, _ => '=');
    assert ToUrlAlphabet(u + p) == ToUrlAlphabet(u) + seq(|p|, _ => '=');
    var t := ToUrlAlphabet(u);
    assert t != [] ==> InAlphabet(u[|u| - 1]) && t[|t| - 1] == UrlChar(u[|u| - 1]);
    StripPaddingOf(t, |p|);
  }

  /** The output uses only `A-Z a-z 0-9 - _`; in particular it holds no `+`,
      `/` or `=`. */
  lemma UrlEncodeAlphabet(b: seq<Byte>)
    ensures forall i :: 0 <= i < |UrlEncode(b)| ==> InUrlAlphabet(UrlEncode(b)[i])
  {
    UrlEncodeUnpadded(b);
    UnpaddedShape(b);
  }

  /** n octets give ceil(4n/3) characters. */
  lemma UrlEncodeLength(b: seq<Byte>)
    ensures |UrlEncode(b)| == (4 * |b| + 2) / 3
  {
    UrlEncodeUnpadded(b);
    UnpaddedShape(b);
  }

  /** Re-padding text of the unpadded length restores exactly the padding. */
  lemma PaddingRestored(n: nat)
    ensures seq((4 - ((4 * n + 2) / 3) % 4) % 4, _ => '=') == Padding(n)
  {
    var k := n / 3;
    assert n == 3 * k + n % 3;
    assert (4 * n + 2) / 3 == 4 * k + (4 * (n % 3) + 2) / 3;
  }

  /** Mapping the characters back, re-adding the padding and decoding
      returns the original octets. */
  lemma UrlRoundTrip(b: seq<Byte>)
    ensures UrlDecode(UrlEncode(b)) == Some(b)
  {
    UrlEncodeUnpadded(b);
    UnpaddedShape(b);
    EncodeSplits(b);
    var u := Unpadded(b);
    assert ToStandardAlphabet(ToUrlAlphabet(u)) == u by {
      forall i | 0 <= i < |u| ensures StandardChar(UrlChar(u[i])) == u[i] {
        assert InAlphabet(u[i]);
      }
    }
    PaddingRestored(|b|);
    assert Repad(u) == Encode(b);
    DecodeEncode(b);
  }
}
