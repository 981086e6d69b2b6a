/** Base 64 as used by data URLs: the alphabet and padded encoding of
    RFC 4648, section 4, and the browser's `atob`, which runs the
    "forgiving-base64 decode" of the WHATWG Infra Standard (section 4.7 there)
    and yields a binary string, one character per byte. */
module Base64 {
  import opened Outcomes

  newtype byte = x: int | 0 <= x < 256

  /** ASCII whitespace as the Infra Standard defines it: TAB, LF, FF, CR, SPACE. */
  predicate IsAsciiWhitespace(c: char) {
    c == '\t' || c == '\n' || c as int == 0x0C || c == '\r' || c == ' '
  }

  predicate IsAlphabet(c: char) {
    ('A' <= c <= 'Z') || ('a' <= c <= 'z') || ('0' <= c <= '9') || c == '+' || c == '/'
  }

  predicate AllAlphabet(s: string) {
    forall i :: 0 <= i < |s| ==> IsAlphabet(s[i])
  }

  /** The value of an alphabet character (Table 1 of RFC 4648). */
  function SextetOf(c: char): (v: nat)
    requires IsAlphabet(c)
    ensures v < 64
  {
    if 'A' <= c <= 'Z' then c as int - 'A' as int
    else if 'a' <= c <= 'z' then c as int - 'a' as int + 26
    else if '0' <= c <= '9' then c as int - '0' as int + 52
    else if c == '+' then 62
    else 63
  }

  /** The alphabet character of a 6-bit value; `SextetOf` undoes it. */
  function CharOf(v: nat): (c: char)
    requires v < 64
    ensures IsAlphabet(c) && SextetOf(c) == v
  {
    if v < 26 then ('A' as int + v) as char
    else if v < 52 then ('a' as int + v - 26) as char
    else if v < 62 then ('0' as int + v - 52) as char
    else if v == 62 then '+'
    else '/'
  }

  /** Step 1 of the decode: all ASCII whitespace removed. */
  function StripWhitespace(s: string): (r: string)
    ensures |r| <= |s|
    ensures forall i :: 0 <= i < |r| ==> !IsAsciiWhitespace(r[i])
    ensures (forall i :: 0 <= i < |s| ==> !IsAsciiWhitespace(s[i])) ==> r == s
  {
    if s == [] then []
    else if IsAsciiWhitespace(s[0]) then StripWhitespace(s[1..])
    else [s[0]] + StripWhitespace(s[1..])
  }

  /** Step 2: when the length is a multiple of four, one or two trailing '=' go. */
  function StripPadding(s: string): string {
    if |s| % 4 != 0 then s
    else if |s| >= 2 && s[|s| - 2..] == "==" then s[..|s| - 2]
    else if |s| >= 1 && s[|s| - 1] == '=' then s[..|s| - 1]
    else s
  }

  /** Three bytes from four sextets, each sextet a 6-bit slice of the 24-bit group. */
  function DecodeQuad(a: nat, b: nat, c: nat, d: nat): seq<byte>
    requires a < 64 && b < 64 && c < 64 && d < 64
  {
    [(a * 4 + b / 16) as byte, ((b % 16) * 16 + c / 4) as byte, ((c % 4) * 64 + d) as byte]
  }

  /** Steps 5 to 8: sextets to bytes; a tail of 2 or 3 characters yields 1 or 2
      bytes and its leftover bits are discarded. */
  function DecodeSextets(d: string): (r: seq<byte>)
    requires AllAlphabet(d) && |d| % 4 != 1
    ensures |r| == (|d| / 4) * 3 + (if |d| % 4 == 0 then 0 else |d| % 4 - 1)
  {
    if |d| == 0 then []
    else if |d| == 2 then
      [(SextetOf(d[0]) * 4 + SextetOf(d[1]) / 16) as byte]
    else if |d| == 3 then
      [(SextetOf(d[0]) * 4 + SextetOf(d[1]) / 16) as byte,
       ((SextetOf(d[1]) % 16) * 16 + SextetOf(d[2]) / 4) as byte]
    else
      DecodeQuad(SextetOf(d[0]), SextetOf(d[1]), SextetOf(d[2]), SextetOf(d[3])) + DecodeSextets(d[4..])
  }

  /** A byte string as a JavaScript binary string: one character per byte. */
  function BinaryString(bytes: seq<byte>): (s: string)
    ensures |s| == |bytes|
    ensures forall i :: 0 <= i < |bytes| ==> s[i] as int == bytes[i] as int
  {
    seq(|bytes|, i requires 0 <= i < |bytes| => bytes[i] as int as char)
  }

  /** `atob(s)`: `None` where the browser throws `InvalidCharacterError`. */
  function Atob(s: string): (r: Option<string>)
    ensures r.Some? ==> forall i :: 0 <= i < |r.value| ==> r.value[i] as int < 256
  {
    var d := StripPadding(StripWhitespace(s));
    if |d| % 4 == 1 || !AllAlphabet(d) then None
    else Some(BinaryString(DecodeSextets(d)))
  }

  /** A successful `atob` input holds only alphabet characters, '=' and whitespace. */
  lemma {:induction false} AtobAcceptsOnlyBase64Text(s: string, i: nat)
    requires Atob(s).Some? && i < |s|
    ensures IsAlphabet(s[i]) || s[i] == '=' || IsAsciiWhitespace(s[i])
  {
    StrippedCharacter(s, i);
    var w := StripWhitespace(s);
    var d := StripPadding(w);
    if !IsAsciiWhitespace(s[i]) {
      var j :| 0 <= j < |w| && w[j] == s[i];
      assert d == w[..|d|];
      if j < |d| {
        assert d[j] == w[j];
      } else {
        assert w[|d|..] == "=" || w[|d|..] == "==";
        assert w[j] == w[|d|..][j - |d|];
      }
    }
  }

  /** Every character that survives whitespace stripping is somewhere in the output. */
  lemma {:induction false} StrippedCharacter(s: string, i: nat)
    requires i < |s|
    ensures IsAsciiWhitespace(s[i]) || exists j :: 0 <= j < |StripWhitespace(s)| && StripWhitespace(s)[j] == s[i]
    decreases |s|
  {
    if i > 0 {
      StrippedCharacter(s[1..], i - 1);
      if !IsAsciiWhitespace(s[i]) {
        var w := StripWhitespace(s[1..]);
        var j :| 0 <= j < |w| && w[j] == s[1..][i - 1];
        if !IsAsciiWhitespace(s[0]) {
          assert StripWhitespace(s)[j + 1] == s[i];
        } else {
          assert StripWhitespace(s)[j] == s[i];
        }
      }
    } else if !IsAsciiWhitespace(s[0]) {
      assert StripWhitespace(s)[0] == s[0];
    }
  }

  /** Four sextets for three bytes (RFC 4648, section 4). */
  function EncodeTriple(x: byte, y: byte, z: byte): (r: string)
    ensures |r| == 4 && AllAlphabet(r)
  {
    var a, b, c := x as int, y as int, z as int;
    [CharOf(a / 4), CharOf((a % 4) * 16 + b / 16), CharOf((b % 16) * 4 + c / 64), CharOf(c % 64)]
  }

  /** The encoding without its '=' padding: the final quantum of one or two
      bytes gives two or three characters. */
  function EncodeUnpadded(bytes: seq<byte>): (r: string)
    ensures AllAlphabet(r)
    ensures |r| == (|bytes| / 3) * 4 + (if |bytes| % 3 == 0 then 0 else |bytes| % 3 + 1)
  {
    if |bytes| == 0 then []
    else if |bytes| == 1 then
      var a := bytes[0] as int;
      [CharOf(a / 4), CharOf((a % 4) * 16)]
    else if |bytes| == 2 then
      var a, b := bytes[0] as int, bytes[1] as int;
      [CharOf(a / 4), CharOf((a % 4) * 16 + b / 16), CharOf((b % 16) * 4)]
    else
      EncodeTriple(bytes[0], bytes[1], bytes[2]) + EncodeUnpadded(bytes[3..])
  }

  /** The padded encoding of RFC 4648, section 4. */
  function Encode(bytes: seq<byte>): (r: string)
    ensures |r| % 4 == 0
  {
    var pad := if |bytes| % 3 == 1 then "==" else if |bytes| % 3 == 2 then "=" else "";
    EncodeUnpadded(bytes) + pad
  }

  lemma {:induction false} QuadRoundTrip(x: byte, y: byte, z: byte)
    ensures var q := EncodeTriple(x, y, z);
            DecodeQuad(SextetOf(q[0]), SextetOf(q[1]), SextetOf(q[2]), SextetOf(q[3])) == [x, y, z]
  {
    var a, b, c := x as int, y as int, z as int;
    var s1 := (a % 4) * 16 + b / 16;
    var s2 := (b % 16) * 4 + c / 64;
    assert s1 / 16 == a % 4 && s1 % 16 == b / 16;
    assert s2 / 4 == b % 16 && s2 % 4 == c / 64;
  }

  lemma {:induction false} OneByteTail(x: byte)
    ensures DecodeSextets(EncodeUnpadded([x])) == [x]
  {
    var a := x as int;
    assert ((a % 4) * 16) / 16 == a % 4;
  }

  lemma {:induction false} TwoByteTail(x: byte, y: byte)
    ensures DecodeSextets(EncodeUnpadded([x, y])) == [x, y]
  {
    var a, b := x as int, y as int;
    var s1 := (a % 4) * 16 + b / 16;
    assert s1 / 16 == a % 4 && s1 % 16 == b / 16;
    assert ((b % 16) * 4) / 4 == b % 16;
  }

  /** A leading group of four characters decodes on its own. */
  lemma {:induction false} DecodeLeadingQuad(q: string, rest: string)
    requires |q| == 4 && AllAlphabet(q) && AllAlphabet(rest) && |rest| % 4 != 1
    ensures AllAlphabet(q + rest) && |q + rest| % 4 != 1
    ensures DecodeSextets(q + rest)
         == DecodeQuad(SextetOf(q[0]), SextetOf(q[1]), SextetOf(q[2]), SextetOf(q[3])) + DecodeSextets(rest)
  {
    var e := q + rest;
    assert e[..4] == q && e[4..] == rest;
  }

  lemma {:induction false} UnpaddedLength(n: nat)
    ensures ((n / 3) * 4 + (if n % 3 == 0 then 0 else n % 3 + 1)) % 4 != 1
  {
    var k := n / 3;
    assert (k * 4) % 4 == 0;
  }

  /** The inductive step: one leading triple more. */
  lemma {:induction false} TripleStep(bytes: seq<byte>)
    requires |bytes| >= 3
    requires |EncodeUnpadded(bytes[3..])| % 4 != 1
    requires DecodeSextets(EncodeUnpadded(bytes[3..])) == bytes[3..]
    ensures |EncodeUnpadded(bytes)| % 4 != 1 && DecodeSextets(EncodeUnpadded(bytes)) == bytes
  {
    UnpaddedLength(|bytes|);
    var q := EncodeTriple(bytes[0], bytes[1], bytes[2]);
    var rest := EncodeUnpadded(bytes[3..]);
    QuadRoundTrip(bytes[0], bytes[1], bytes[2]);
    DecodeLeadingQuad(q, rest);
    assert EncodeUnpadded(bytes) == q + rest;
    assert bytes == [bytes[0], bytes[1], bytes[2]] + bytes[3..];
  }

  /** Decoding the unpadded encoding gives the bytes back. */
  lemma {:induction false} DecodeEncodeUnpadded(bytes: seq<byte>)
    ensures |EncodeUnpadded(bytes)| % 4 != 1
    ensures DecodeSextets(EncodeUnpadded(bytes)) == bytes
    decreases |bytes|
  {
    UnpaddedLength(|bytes|);
    if |bytes| == 1 {
      assert bytes == [bytes[0]];
      OneByteTail(bytes[0]);
    } else if |bytes| == 2 {
      assert bytes == [bytes[0], bytes[1]];
      TwoByteTail(bytes[0], bytes[1]);
    } else if |bytes| >= 3 {
      DecodeEncodeUnpadded(bytes[3..]);
      TripleStep(bytes);
    }
  }

  /** The padded encoding holds alphabet characters and '=' only, so no whitespace. */
  lemma {:induction false} EncodeHasNoWhitespace(bytes: seq<byte>)
    ensures StripWhitespace(Encode(bytes)) == Encode(bytes)
  {
    var u := EncodeUnpadded(bytes);
    var e := Encode(bytes);
    forall i | 0 <= i < |e| ensures !IsAsciiWhitespace(e[i]) {
      if i < |u| { assert e[i] == u[i]; }
    }
  }

  /** Stripping the padding of the padded encoding leaves the unpadded one. */
  lemma {:induction false} StripPaddingOfEncode(bytes: seq<byte>)
    ensures StripPadding(Encode(bytes)) == EncodeUnpadded(bytes)
  {
    var u := EncodeUnpadded(bytes);
    var e := Encode(bytes);
    if |bytes| % 3 == 1 {
      assert e[|e| - 2..] == "==";
      assert e[..|e| - 2] == u;
    } else if |bytes| % 3 == 2 {
      assert e[|e| - 2] == u[|u| - 1];
      assert e[..|e| - 1] == u;
    } else {
      assert e == u;
      assert |u| > 0 ==> IsAlphabet(u[|u| - 1]);
    }
  }

  /** `atob` inverts the RFC 4648 encoding: decoding `Encode(bytes)` yields the
      binary string of exactly those bytes. */
  lemma {:induction false} AtobEncode(bytes: seq<byte>)
    ensures Atob(Encode(bytes)) == Some(BinaryString(bytes))
  {
    EncodeHasNoWhitespace(bytes);
    StripPaddingOfEncode(bytes);
    DecodeEncodeUnpadded(bytes);
  }
}
