/** The "base64" encoding of section 4 of RFC 4648, as produced by Java's
    `Base64.getEncoder()`: the 64-symbol alphabet of Table 1, `=` padding to a
    multiple of four symbols, no line breaks.

    `Encode` is the encoder the program calls. `Decode` is its partner: a
    strict decoder that accepts exactly the canonical encodings (padding
    present, unused bits zero, as section 3.5 of RFC 4648 permits a decoder
    to insist on), so that the two are inverse in both directions. */
module Base64 {
  import opened Base

  const Pad: char := '='

  /** The symbol for a 6-bit value: Table 1 of RFC 4648, `A`-`Z`, `a`-`z`,
      `0`-`9`, `+`, `/`. */
  function Symbol(v: nat): (c: char)
    requires v < 64
    ensures c != Pad
  {
    if v < 26 then ('A' as int + v) as char
    else if v < 52 then ('a' as int + (v - 26)) as char
    else if v < 62 then ('0' as int + (v - 52)) as char
    else if v == 62 then '+'
    else '/'
  }

  /** The 6-bit value of a symbol; `None` for any character outside the
      alphabet, the pad character included. */
  function SymbolValue(c: char): (r: Option<nat>)
    ensures r.Some? ==> r.value < 64
  {
    if 'A' <= c <= 'Z' then Some(c as int - 'A' as int)
    else if 'a' <= c <= 'z' then Some(c as int - 'a' as int + 26)
    else if '0' <= c <= '9' then Some(c as int - '0' as int + 52)
    else if c == '+' then Some(62)
    else if c == '/' then Some(63)
    else None
  }

  predicate IsSymbol(c: char) {
    SymbolValue(c).Some?
  }

  /** Quotient and remainder by the three divisors the 6-bit regrouping uses. */
  lemma DivMod(q: int, r: int, d: int)
    requires d == 4 || d == 16 || d == 64
    requires 0 <= r < d
    ensures (q * d + r) / d == q && (q * d + r) % d == r
  {
    if d == 4 {
    } else if d == 16 {
    } else {
    }
  }

  /** `SymbolValue` undoes `Symbol`, and the other way round. */
  lemma SymbolValueInverse(v: nat, c: char)
    requires v < 64
    ensures SymbolValue(Symbol(v)) == Some(v)
    ensures SymbolValue(c) == Some(v) ==> Symbol(v) == c
  {
  }

  /** Three octets as four symbols (section 4 of RFC 4648: 24 bits read as
      four 6-bit groups, most significant first). */
  function EncodeGroup(a: byte, b: byte, c: byte): seq<char> {
    [Symbol(a / 4), Symbol((a % 4) * 16 + b / 16), Symbol((b % 16) * 4 + c / 64), Symbol(c % 64)]
  }

  /** `Base64.getEncoder().encodeToString(bytes)`. */
  function Encode(bytes: seq<byte>): (s: string)
    ensures |s| == 0 <==> |bytes| == 0
    ensures forall i :: 0 <= i < |s| ==> IsSymbol(s[i]) || s[i] == Pad
    decreases |bytes|
  {
    if |bytes| == 0 then ""
    else if |bytes| == 1 then
      [Symbol(bytes[0] / 4), Symbol((bytes[0] % 4) * 16), Pad, Pad]
    else if |bytes| == 2 then
      [Symbol(bytes[0] / 4), Symbol((bytes[0] % 4) * 16 + bytes[1] / 16), Symbol((bytes[1] % 16) * 4), Pad]
    else
      SymbolsAreSymbols(bytes[0], bytes[1], bytes[2]);
      EncodeGroup(bytes[0], bytes[1], bytes[2]) + Encode(bytes[3..])
  }

  /** Every started group of three octets becomes four symbols: the output
      length is 4 * ceil(n / 3). */
  lemma {:induction false} EncodedLength(bytes: seq<byte>)
    ensures |Encode(bytes)| == 4 * ((|bytes| + 2) / 3)
    decreases |bytes|
  {
    if |bytes| > 2 {
      EncodedLength(bytes[3..]);
      assert (|bytes| + 2) / 3 == (|bytes[3..]| + 2) / 3 + 1;
    }
  }

  lemma SymbolsAreSymbols(a: byte, b: byte, c: byte)
    ensures forall i :: 0 <= i < 4 ==> IsSymbol(EncodeGroup(a, b, c)[i])
  {
    var g := EncodeGroup(a, b, c);
    SymbolValueInverse(a / 4, g[0]);
    SymbolValueInverse((a % 4) * 16 + b / 16, g[1]);
    SymbolValueInverse((b % 16) * 4 + c / 64, g[2]);
    SymbolValueInverse(c % 64, g[3]);
  }

  /** Four symbols without padding as three octets. */
  function DecodeGroup(c0: char, c1: char, c2: char, c3: char): Option<seq<byte>> {
    match (SymbolValue(c0), SymbolValue(c1), SymbolValue(c2), SymbolValue(c3))
    case (Some(v0), Some(v1), Some(v2), Some(v3)) =>
      Some([v0 * 4 + v1 / 16, (v1 % 16) * 16 + v2 / 4, (v2 % 4) * 64 + v3])
    case _ => None
  }

  /** The final quantum, which may carry one or two pad characters; the bits
      the padding leaves unused must be zero. */
  function DecodeFinal(c0: char, c1: char, c2: char, c3: char): Option<seq<byte>> {
    if c3 != Pad then DecodeGroup(c0, c1, c2, c3)
    else if c2 != Pad then
      match (SymbolValue(c0), SymbolValue(c1), SymbolValue(c2))
      case (Some(v0), Some(v1), Some(v2)) =>
        if v2 % 4 == 0 then Some([v0 * 4 + v1 / 16, (v1 % 16) * 16 + v2 / 4]) else None
      case _ => None
    else
      match (SymbolValue(c0), SymbolValue(c1))
      case (Some(v0), Some(v1)) =>
        if v1 % 16 == 0 then Some([v0 * 4 + v1 / 16]) else None
      case _ => None
  }

  /** The strict decoder: `None` for any text that `Encode` cannot produce. */
  function Decode(s: string): (r: Option<seq<byte>>)
    decreases |s|
  {
    if |s| == 0 then Some([])
    else if |s| < 4 then None
    else if |s| == 4 then DecodeFinal(s[0], s[1], s[2], s[3])
    else
      match DecodeGroup(s[0], s[1], s[2], s[3])
      case None => None
      case Some(group) =>
        match Decode(s[4..])
        case None => None
        case Some(rest) => Some(group + rest)
  }

  lemma GroupRoundTrip(a: byte, b: byte, c: byte)
    ensures var g := EncodeGroup(a, b, c); DecodeGroup(g[0], g[1], g[2], g[3]) == Some([a, b, c])
  {
    var g := EncodeGroup(a, b, c);
    SymbolValueInverse(a / 4, g[0]);
    SymbolValueInverse((a % 4) * 16 + b / 16, g[1]);
    SymbolValueInverse((b % 16) * 4 + c / 64, g[2]);
    SymbolValueInverse(c % 64, g[3]);
    DivMod(a % 4, b / 16, 16);
    DivMod(b % 16, c / 64, 4);
  }

  lemma OneByteRoundTrip(a: byte)
    ensures Decode(Encode([a])) == Some([a])
  {
    var s := Encode([a]);
    SymbolValueInverse(a / 4, s[0]);
    SymbolValueInverse((a % 4) * 16, s[1]);
    DivMod(a % 4, 0, 16);
    assert ((a % 4) * 16) % 16 == 0;
    assert ((a % 4) * 16) / 16 == a % 4;
    assert DecodeFinal(s[0], s[1], Pad, Pad) == Some([a]);
  }

  lemma TwoByteRoundTrip(a: byte, b: byte)
    ensures Decode(Encode([a, b])) == Some([a, b])
  {
    var s := Encode([a, b]);
    SymbolValueInverse(a / 4, s[0]);
    SymbolValueInverse((a % 4) * 16 + b / 16, s[1]);
    SymbolValueInverse((b % 16) * 4, s[2]);
    DivMod(a % 4, b / 16, 16);
    DivMod(b % 16, 0, 4);
    assert ((b % 16) * 4) % 4 == 0;
    assert ((b % 16) * 4) / 4 == b % 16;
    assert DecodeFinal(s[0], s[1], s[2], Pad) == Some([a, b]);
  }

  /** Decoding undoes encoding: the byte sequence comes back unchanged. */
  lemma {:induction false} DecodeEncode(bytes: seq<byte>)
    ensures Decode(Encode(bytes)) == Some(bytes)
    decreases |bytes|
  {
    var s := Encode(bytes);
    if |bytes| == 0 {
    } else if |bytes| == 1 {
      assert bytes == [bytes[0]];
      OneByteRoundTrip(bytes[0]);
    } else if |bytes| == 2 {
      assert bytes == [bytes[0], bytes[1]];
      TwoByteRoundTrip(bytes[0], bytes[1]);
    } else if |bytes| == 3 {
      ThreeByteRoundTrip(bytes);
    } else {
      DecodeEncode(bytes[3..]);
      GroupThenRest(bytes);
    }
  }

  lemma ThreeByteRoundTrip(bytes: seq<byte>)
    requires |bytes| == 3
    ensures Decode(Encode(bytes)) == Some(bytes)
  {
    var g := EncodeGroup(bytes[0], bytes[1], bytes[2]);
    assert Encode(bytes) == g + Encode([]);
    assert Encode(bytes) == g;
    GroupRoundTrip(bytes[0], bytes[1], bytes[2]);
    assert DecodeFinal(g[0], g[1], g[2], g[3]) == DecodeGroup(g[0], g[1], g[2], g[3]);
    assert bytes == [bytes[0], bytes[1], bytes[2]];
  }

  /** A leading unpadded quantum decodes independently of what follows. */
  lemma DecodeCons(q: string, rest: string, group: seq<byte>, tail: seq<byte>)
    requires |q| == 4 && |rest| > 0
    requires DecodeGroup(q[0], q[1], q[2], q[3]) == Some(group)
    requires Decode(rest) == Some(tail)
    ensures Decode(q + rest) == Some(group + tail)
  {
    var s := q + rest;
    assert s[0] == q[0] && s[1] == q[1] && s[2] == q[2] && s[3] == q[3];
    assert s[4..] == rest;
  }

  lemma EncodeCons(bytes: seq<byte>)
    requires |bytes| > 2
    ensures Encode(bytes) == EncodeGroup(bytes[0], bytes[1], bytes[2]) + Encode(bytes[3..])
  {
  }

  lemma FirstThree(bytes: seq<byte>)
    requires |bytes| > 2
    ensures [bytes[0], bytes[1], bytes[2]] == bytes[..3]
    ensures bytes[..3] + bytes[3..] == bytes
  {
  }

  lemma GroupThenRest(bytes: seq<byte>)
    requires |bytes| > 3
    requires Decode(Encode(bytes[3..])) == Some(bytes[3..])
    ensures Decode(Encode(bytes)) == Some(bytes)
  {
    EncodeCons(bytes);
    GroupRoundTrip(bytes[0], bytes[1], bytes[2]);
    FirstThree(bytes);
    DecodeCons(EncodeGroup(bytes[0], bytes[1], bytes[2]), Encode(bytes[3..]), bytes[..3], bytes[3..]);
  }

  lemma GroupCanonical(c0: char, c1: char, c2: char, c3: char, bytes: seq<byte>)
    requires DecodeGroup(c0, c1, c2, c3) == Some(bytes)
    ensures |bytes| == 3 && EncodeGroup(bytes[0], bytes[1], bytes[2]) == [c0, c1, c2, c3]
  {
    var v0 := SymbolValue(c0).value;
    var v1 := SymbolValue(c1).value;
    var v2 := SymbolValue(c2).value;
    var v3 := SymbolValue(c3).value;
    SymbolValueInverse(v0, c0);
    SymbolValueInverse(v1, c1);
    SymbolValueInverse(v2, c2);
    SymbolValueInverse(v3, c3);
    DivMod(v0, v1 / 16, 4);
    DivMod(v1 % 16, v2 / 4, 16);
    DivMod(v2 % 4, v3, 64);
  }

  lemma TwoByteCanonical(c0: char, c1: char, c2: char, bytes: seq<byte>)
    requires c2 != Pad && DecodeFinal(c0, c1, c2, Pad) == Some(bytes)
    ensures Encode(bytes) == [c0, c1, c2, Pad]
  {
    var v0 := SymbolValue(c0).value;
    var v1 := SymbolValue(c1).value;
    var v2 := SymbolValue(c2).value;
    SymbolValueInverse(v0, c0);
    SymbolValueInverse(v1, c1);
    SymbolValueInverse(v2, c2);
    DivMod(v0, v1 / 16, 4);
    DivMod(v1 % 16, v2 / 4, 16);
    assert |bytes| == 2;
    assert bytes[0] / 4 == v0 && (bytes[0] % 4) * 16 + bytes[1] / 16 == v1;
    assert (bytes[1] % 16) * 4 == v2;
  }

  lemma OneByteCanonical(c0: char, c1: char, bytes: seq<byte>)
    requires DecodeFinal(c0, c1, Pad, Pad) == Some(bytes)
    ensures Encode(bytes) == [c0, c1, Pad, Pad]
  {
    var v0 := SymbolValue(c0).value;
    var v1 := SymbolValue(c1).value;
    SymbolValueInverse(v0, c0);
    SymbolValueInverse(v1, c1);
    DivMod(v0, v1 / 16, 4);
    assert |bytes| == 1;
    assert bytes[0] / 4 == v0 && (bytes[0] % 4) * 16 == v1;
  }

  lemma FinalCanonical(c0: char, c1: char, c2: char, c3: char, bytes: seq<byte>)
    requires DecodeFinal(c0, c1, c2, c3) == Some(bytes)
    ensures Encode(bytes) == [c0, c1, c2, c3]
  {
    if c3 != Pad {
      GroupCanonical(c0, c1, c2, c3, bytes);
      assert Encode(bytes) == EncodeGroup(bytes[0], bytes[1], bytes[2]) + Encode(bytes[3..]);
    } else if c2 != Pad {
      TwoByteCanonical(c0, c1, c2, bytes);
    } else {
      OneByteCanonical(c0, c1, bytes);
    }
  }

  /** Every text the decoder accepts is the encoding of what it returns, so
      the decoder admits no second spelling of any byte sequence. */
  lemma {:induction false} EncodeDecode(s: string, bytes: seq<byte>)
    requires Decode(s) == Some(bytes)
    ensures Encode(bytes) == s
    decreases |s|
  {
    if |s| == 0 {
    } else if |s| == 4 {
      FinalCanonical(s[0], s[1], s[2], s[3], bytes);
    } else {
      var group := DecodeGroup(s[0], s[1], s[2], s[3]).value;
      var rest := Decode(s[4..]).value;
      EncodeDecode(s[4..], rest);
      GroupCanonical(s[0], s[1], s[2], s[3], group);
      assert bytes == group + rest;
      assert bytes[3..] == rest;
      assert Encode(bytes) == EncodeGroup(bytes[0], bytes[1], bytes[2]) + Encode(rest);
      assert s == s[..4] + s[4..];
    }
  }

  /** `Encode` and `Decode` are inverse bijections between byte sequences and
      canonical Base64 texts. */
  lemma DecodeIffEncode(s: string, bytes: seq<byte>)
    ensures Decode(s) == Some(bytes) <==> s == Encode(bytes)
  {
    if Decode(s) == Some(bytes) {
      EncodeDecode(s, bytes);
    }
    if s == Encode(bytes) {
      DecodeEncode(bytes);
    }
  }

  /** Encoding is injective: different uploads never share a payload. */
  lemma EncodeInjective(a: seq<byte>, b: seq<byte>)
    requires Encode(a) == Encode(b)
    ensures a == b
  {
    DecodeEncode(a);
    DecodeEncode(b);
  }
}
