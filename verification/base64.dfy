/** The transport text encoding of the voice session: the browser's `btoa`
    (base64 of RFC 4648 section 4, with `=` padding) and `atob` (the WHATWG
    "forgiving-base64 decode"), and the `encode`/`decode` wrappers of
    hooks/useAudioSession.ts that pass bytes through a binary string. */
module Base64 {
  import opened Wrappers

  type Byte = b: int | 0 <= b < 256
  type Sextet = v: int | 0 <= v < 64

  // ---------------------------------------------------------------------------
  // Alphabet

  /** Character of a sextet in the RFC 4648 section 4 alphabet. */
  function CharOf(v: Sextet): (c: char)
    ensures SextetOf(c) == Some(v)
  {
    if v < 26 then ('A' as int + v) as char
    else if v < 52 then ('a' as int + (v - 26)) as char
    else if v < 62 then ('0' as int + (v - 52)) as char
    else if v == 62 then '+'
    else '/'
  }

  /** Sextet of an alphabet character; `None` for every other character. */
  function SextetOf(c: char): (r: Option<Sextet>)
    ensures r.Some? <==> (('A' <= c <= 'Z') || ('a' <= c <= 'z') || ('0' <= c <= '9') || c == '+' || c == '/')
  {
    if 'A' <= c <= 'Z' then Some(c as int - 'A' as int)
    else if 'a' <= c <= 'z' then Some(c as int - 'a' as int + 26)
    else if '0' <= c <= '9' then Some(c as int - '0' as int + 52)
    else if c == '+' then Some(62)
    else if c == '/' then Some(63)
    else None
  }

  predicate InAlphabet(c: char)
  {
    SextetOf(c).Some?
  }

  predicate AllInAlphabet(s: string)
  {
    forall i :: 0 <= i < |s| ==> InAlphabet(s[i])
  }

  /** ASCII whitespace as the WHATWG Infra standard defines it. */
  predicate IsAsciiWhitespace(c: char)
  {
    c == '\t' || c == '\n' || c as int == 0x0C || c == '\r' || c == ' '
  }

  // ---------------------------------------------------------------------------
  // Bytes <-> sextets

  /** Unpadded sextets of a byte sequence: four per full three-byte group, two
      for a one-byte tail and three for a two-byte tail. */
  function ToSextets(b: seq<Byte>): (s: seq<Sextet>)
    ensures |s| == 4 * (|b| / 3) + (if |b| % 3 == 0 then 0 else |b| % 3 + 1)
    ensures |s| % 4 != 1
    decreases |b|
  {
    if |b| == 0 then []
    else if |b| == 1 then [b[0] / 4, (b[0] % 4) * 16]
    else if |b| == 2 then [b[0] / 4, (b[0] % 4) * 16 + b[1] / 16, (b[1] % 16) * 4]
    else [b[0] / 4, (b[0] % 4) * 16 + b[1] / 16, (b[1] % 16) * 4 + b[2] / 64, b[2] % 64] + ToSextets(b[3..])
  }

  /** Bytes of a sextet sequence; the bits of a partial tail group that do not
      fill a byte are discarded. */
  function FromSextets(s: seq<Sextet>): seq<Byte>
    requires |s| % 4 != 1
    decreases |s|
  {
    if |s| == 0 then []
    else
      var b0: Byte := s[0] as int * 4 + s[1] / 16;
      if |s| == 2 then [b0]
      else
        var b1: Byte := (s[1] as int % 16) * 16 + s[2] / 4;
        if |s| == 3 then [b0, b1]
        else
          var b2: Byte := (s[2] as int % 4) * 64 + s[3];
          [b0, b1, b2] + FromSextets(s[4..])
  }

  lemma SplitHighLow(x: int, d: int)
    requires 0 < d && 0 <= x
    ensures x == (x / d) * d + x % d
  {
  }

  /** One three-byte group survives the trip through four sextets. */
  lemma GroupRoundTrip(x: Byte, y: Byte, z: Byte)
    ensures (x / 4) * 4 + ((x % 4) * 16 + y / 16) / 16 == x
    ensures (((x % 4) * 16 + y / 16) % 16) * 16 + ((y % 16) * 4 + z / 64) / 4 == y
    ensures (((y % 16) * 4 + z / 64) % 4) * 64 + z % 64 == z
  {
    SplitHighLow(x, 4);
    SplitHighLow(y, 16);
    SplitHighLow(z, 64);
    assert ((x % 4) * 16 + y / 16) / 16 == x % 4;
    assert ((x % 4) * 16 + y / 16) % 16 == y / 16;
    assert ((y % 16) * 4 + z / 64) / 4 == y % 16;
    assert ((y % 16) * 4 + z / 64) % 4 == z / 64;
  }

  /** A one- or two-byte tail survives the trip through its sextets. */
  lemma {:induction false} ShortTailRoundTrip(b: seq<Byte>)
    requires 1 <= |b| <= 2
    ensures FromSextets(ToSextets(b)) == b
  {
    if |b| == 1 {
      SplitHighLow(b[0], 4);
    } else {
      GroupRoundTrip(b[0], b[1], 0);
    }
  }

  /** A leading three-byte group decodes back to itself, ahead of whatever
      the rest decodes to. */
  lemma {:induction false} GroupStep(b: seq<Byte>)
    requires |b| >= 3
    ensures FromSextets(ToSextets(b)) == b[..3] + FromSextets(ToSextets(b[3..]))
  {
    GroupRoundTrip(b[0], b[1], b[2]);
    var s := ToSextets(b);
    assert s[4..] == ToSextets(b[3..]);
  }

  lemma {:induction false} SextetsRoundTrip(b: seq<Byte>)
    ensures FromSextets(ToSextets(b)) == b
    decreases |b|
  {
    if |b| == 0 {
    } else if |b| <= 2 {
      ShortTailRoundTrip(b);
    } else {
      calc {
        FromSextets(ToSextets(b));
        { GroupStep(b); }
        b[..3] + FromSextets(ToSextets(b[3..]));
        { SextetsRoundTrip(b[3..]); }
        b[..3] + b[3..];
        b;
      }
    }
  }

  // ---------------------------------------------------------------------------
  // Sextets <-> characters

  function Chars(s: seq<Sextet>): (t: string)
    ensures |t| == |s|
    ensures forall i :: 0 <= i < |s| ==> SextetOf(t[i]) == Some(s[i])
  {
    seq(|s|, i requires 0 <= i < |s| => CharOf(s[i]))
  }

  function SextetsOf(t: string): (s: seq<Sextet>)
    requires AllInAlphabet(t)
    ensures |s| == |t|
    ensures forall i :: 0 <= i < |t| ==> SextetOf(t[i]) == Some(s[i])
  {
    seq(|t|, i requires 0 <= i < |t| => SextetOf(t[i]).value)
  }

  lemma CharsRoundTrip(s: seq<Sextet>)
    ensures AllInAlphabet(Chars(s))
    ensures SextetsOf(Chars(s)) == s
  {
  }

  // ---------------------------------------------------------------------------
  // Binary strings: one char per byte, char code == byte

  predicate IsBinary(s: string)
  {
    forall i :: 0 <= i < |s| ==> s[i] as int < 256
  }

  /** `String.fromCharCode(bytes[i])` concatenated over the bytes. */
  function BinaryString(b: seq<Byte>): (s: string)
    ensures |s| == |b| && IsBinary(s)
    ensures forall i :: 0 <= i < |b| ==> s[i] as int == b[i]
  {
    seq(|b|, i requires 0 <= i < |b| => b[i] as char)
  }

  /** `s.charCodeAt(i)` over a binary string. */
  function CodesOf(s: string): (b: seq<Byte>)
    requires IsBinary(s)
    ensures |b| == |s|
    ensures forall i :: 0 <= i < |s| ==> b[i] == s[i] as int
  {
    seq(|s|, i requires 0 <= i < |s| => s[i] as int)
  }

  // ---------------------------------------------------------------------------
  // btoa and atob

  function Padding(n: nat): string
  {
    if n % 3 == 1 then "==" else if n % 3 == 2 then "=" else ""
  }

  /** The unpadded length plus the padding is four per started group. */
  lemma PaddedLength(n: nat)
    ensures 4 * (n / 3) + (if n % 3 == 0 then 0 else n % 3 + 1) + |Padding(n)| == 4 * ((n + 2) / 3)
  {
    var q := n / 3;
    assert n == 3 * q + n % 3;
    if n % 3 == 0 {
      assert (n + 2) / 3 == q;
    } else {
      assert (n + 2) / 3 == q + 1;
    }
  }

  /** Base64 text of a byte sequence, padded to a multiple of four. */
  function EncodeBytes(b: seq<Byte>): (t: string)
    ensures |t| % 4 == 0
    ensures |t| == 4 * ((|b| + 2) / 3)
  {
    var t := Chars(ToSextets(b)) + Padding(|b|);
    PaddedLength(|b|);
    assert |t| == 4 * ((|b| + 2) / 3);
    MultipleOfFour((|b| + 2) / 3);
    t
  }

  lemma MultipleOfFour(q: nat)
    ensures (4 * q) % 4 == 0
  {
  }

  /** `btoa`: fails (an InvalidCharacterError) exactly when some character of
      the input is above U+00FF. */
  function Btoa(s: string): (r: Option<string>)
    ensures r.Some? <==> IsBinary(s)
    ensures r.Some? ==> |r.value| % 4 == 0
  {
    if IsBinary(s) then Some(EncodeBytes(CodesOf(s))) else None
  }

  function RemoveWhitespace(s: string): (t: string)
    ensures |t| <= |s|
    ensures forall i :: 0 <= i < |t| ==> !IsAsciiWhitespace(t[i])
  {
    if |s| == 0 then ""
    else if IsAsciiWhitespace(s[0]) then RemoveWhitespace(s[1..])
    else [s[0]] + RemoveWhitespace(s[1..])
  }

  /** Drops one or two trailing `=`. */
  function StripPadding(t: string): (u: string)
    ensures u <= t && |t| - 2 <= |u|
  {
    if |t| >= 2 && t[|t| - 2] == '=' && t[|t| - 1] == '=' then t[..|t| - 2]
    else if |t| >= 1 && t[|t| - 1] == '=' then t[..|t| - 1]
    else t
  }

  /** `atob`, the forgiving-base64 decode: drop ASCII whitespace; when the
      length is a multiple of four drop up to two trailing `=`; fail on a
      length of the form 4k+1 or on any character outside the alphabet;
      decode, discarding the leftover bits of a partial group. */
  function Atob(s: string): (r: Option<string>)
    ensures r.Some? ==> IsBinary(r.value)
  {
    var t := RemoveWhitespace(s);
    var u := if |t| % 4 == 0 then StripPadding(t) else t;
    if |u| % 4 == 1 || !AllInAlphabet(u) then None
    else Some(BinaryString(FromSextets(SextetsOf(u))))
  }

  lemma {:induction false} RemoveWhitespaceKeeps(s: string)
    requires forall i :: 0 <= i < |s| ==> !IsAsciiWhitespace(s[i])
    ensures RemoveWhitespace(s) == s
    decreases |s|
  {
    if |s| > 0 {
      RemoveWhitespaceKeeps(s[1..]);
      assert s == [s[0]] + s[1..];
    }
  }

  lemma EncodingHasNoWhitespace(b: seq<Byte>)
    ensures forall i :: 0 <= i < |EncodeBytes(b)| ==> !IsAsciiWhitespace(EncodeBytes(b)[i])
  {
    var t := EncodeBytes(b);
    var cs := Chars(ToSextets(b));
    forall i | 0 <= i < |t|
      ensures !IsAsciiWhitespace(t[i])
    {
      if i < |cs| {
        assert t[i] == cs[i] && InAlphabet(cs[i]);
      }
    }
  }

  lemma StripPaddingOfEncoding(b: seq<Byte>)
    ensures StripPadding(EncodeBytes(b)) == Chars(ToSextets(b))
  {
    var t := EncodeBytes(b);
    var cs := Chars(ToSextets(b));
    assert t == cs + Padding(|b|);
    if |b| % 3 == 0 {
      assert t == cs;
      if |cs| >= 1 {
        assert InAlphabet(cs[|cs| - 1]);
      }
    } else if |b| % 3 == 1 {
      assert t[..|t| - 2] == cs;
    } else {
      assert InAlphabet(cs[|cs| - 1]);
      assert t[|t| - 2] == cs[|cs| - 1];
      assert t[..|t| - 1] == cs;
    }
  }

  /** Every byte sequence survives btoa-then-atob of its base64 text. */
  lemma AtobEncodeBytes(b: seq<Byte>)
    ensures Atob(EncodeBytes(b)) == Some(BinaryString(b))
  {
    var t := EncodeBytes(b);
    EncodingHasNoWhitespace(b);
    RemoveWhitespaceKeeps(t);
    StripPaddingOfEncoding(b);
    CharsRoundTrip(ToSextets(b));
    SextetsRoundTrip(b);
  }

  // ---------------------------------------------------------------------------
  // The hook's wrappers

  /** `encode`: bytes to a binary string, then `btoa`. */
  function Encode(bytes: seq<Byte>): (t: string)
    ensures |t| % 4 == 0
    ensures |t| == 4 * ((|bytes| + 2) / 3)
    ensures AllInAlphabet(t[..|t| - |Padding(|bytes|)|])
  {
    CharsRoundTrip(ToSextets(bytes));
    assert CodesOf(BinaryString(bytes)) == bytes;
    match Btoa(BinaryString(bytes))
    case Some(t) => t
    case None => assert false; ""
  }

  /** `decode`: `atob`, then the char codes; `None` when `atob` throws. */
  function Decode(text: string): (r: Option<seq<Byte>>)
    ensures r.Some? <==> Atob(text).Some?
    ensures r.Some? ==> BinaryString(r.value) == Atob(text).value
  {
    match Atob(text)
    case Some(s) => Some(CodesOf(s))
    case None => None
  }

  /** decode(encode(b)) == b for every byte sequence, the empty one included. */
  lemma DecodeEncode(bytes: seq<Byte>)
    ensures Decode(Encode(bytes)) == Some(bytes)
  {
    assert CodesOf(BinaryString(bytes)) == bytes;
    AtobEncodeBytes(bytes);
    assert CodesOf(BinaryString(bytes)) == bytes;
  }
}
