/** `base64.URLEncoding` of Go's `encoding/base64`: the "URL and Filename safe" alphabet of
    section 5 of RFC 4648, with `=` padding. The decoder is the encoder's inverse and is used
    only to prove that encoding loses nothing. */
module Base64 {
  import opened Base

  newtype byte = x: int | 0 <= x < 256

  /** The character for a 6-bit value: A-Z, a-z, 0-9, then '-' and '_'. */
  function Symbol(v: nat): (c: char)
    requires v < 64
    ensures IsUrlSymbol(c)
  {
    if v < 26 then ('A' as int + v) as char
    else if v < 52 then ('a' as int + (v - 26)) as char
    else if v < 62 then ('0' as int + (v - 52)) as char
    else if v == 62 then '-'
    else '_'
  }

  predicate IsUrlSymbol(c: char) {
    'A' <= c <= 'Z' || 'a' <= c <= 'z' || '0' <= c <= '9' || c == '-' || c == '_'
  }

  /** The 6-bit value of an alphabet character. */
  function SymbolValue(c: char): (r: Option<nat>)
    ensures r.Some? <==> IsUrlSymbol(c)
    ensures r.Some? ==> r.value < 64 && Symbol(r.value) == c
  {
    if 'A' <= c <= 'Z' then Some(c as int - 'A' as int)
    else if 'a' <= c <= 'z' then Some(c as int - 'a' as int + 26)
    else if '0' <= c <= '9' then Some(c as int - '0' as int + 52)
    else if c == '-' then Some(62)
    else if c == '_' then Some(63)
    else None
  }

  /** `base64.URLEncoding.EncodeToString`: each group of three bytes becomes four characters;
      a final group of one or two bytes is padded with `=` to four. */
  function EncodeUrl(b: seq<byte>): (s: string)
    ensures |s| % 4 == 0
    ensures forall i :: 0 <= i < |s| ==> IsUrlSymbol(s[i]) || s[i] == '='
    decreases |b|
  {
    if |b| == 0 then []
    else if |b| == 1 then
      var b0 := b[0] as nat;
      [Symbol(b0 / 4), Symbol((b0 % 4) * 16), '=', '=']
    else if |b| == 2 then
      var b0, b1 := b[0] as nat, b[1] as nat;
      [Symbol(b0 / 4), Symbol((b0 % 4) * 16 + b1 / 16), Symbol((b1 % 16) * 4), '=']
    else
      var q, rest := FullQuad(b[0], b[1], b[2]), EncodeUrl(b[3..]);
      assert forall i :: 4 <= i < 4 + |rest| ==> (q + rest)[i] == rest[i - 4];
      q + rest
  }

  /** Decodes four characters, the last one or two of which may be padding. */
  function DecodeQuad(q: string): (r: Option<seq<byte>>)
    requires |q| == 4
  {
    match (SymbolValue(q[0]), SymbolValue(q[1]), SymbolValue(q[2]), SymbolValue(q[3]))
    case (Some(c0), Some(c1), Some(c2), Some(c3)) =>
      Some([(c0 * 4 + c1 / 16) as byte, ((c1 % 16) * 16 + c2 / 4) as byte, ((c2 % 4) * 64 + c3) as byte])
    case (Some(c0), Some(c1), Some(c2), None) =>
      if q[3] == '=' && c2 % 4 == 0 then Some([(c0 * 4 + c1 / 16) as byte, ((c1 % 16) * 16 + c2 / 4) as byte])
      else None
    case (Some(c0), Some(c1), None, None) =>
      if q[2] == '=' && q[3] == '=' && c1 % 16 == 0 then Some([(c0 * 4 + c1 / 16) as byte]) else None
    case _ => None
  }

  /** The strict inverse of `EncodeUrl`: padding only in the last group. */
  function DecodeUrl(s: string): (r: Option<seq<byte>>)
    decreases |s|
  {
    if s == [] then Some([])
    else if |s| < 4 then None
    else
      match DecodeQuad(s[..4])
      case None => None
      case Some(group) =>
        if |group| < 3 && |s| > 4 then None
        else match DecodeUrl(s[4..])
          case None => None
          case Some(rest) => Some(group + rest)
  }

  // ---------------------------------------------------------------------------------------

  lemma FullGroupRoundTrip(b0: nat, b1: nat, b2: nat)
    requires b0 < 256 && b1 < 256 && b2 < 256
    ensures (b0 / 4) * 4 + ((b0 % 4) * 16 + b1 / 16) / 16 == b0
    ensures (((b0 % 4) * 16 + b1 / 16) % 16) * 16 + ((b1 % 16) * 4 + b2 / 64) / 4 == b1
    ensures (((b1 % 16) * 4 + b2 / 64) % 4) * 64 + b2 % 64 == b2
  {
  }

  /** The four characters a full group of three bytes encodes to. */
  function FullQuad(b0: byte, b1: byte, b2: byte): (q: string)
    ensures |q| == 4 && forall i :: 0 <= i < 4 ==> IsUrlSymbol(q[i])
  {
    var x0, x1, x2 := b0 as nat, b1 as nat, b2 as nat;
    [Symbol(x0 / 4), Symbol((x0 % 4) * 16 + x1 / 16), Symbol((x1 % 16) * 4 + x2 / 64), Symbol(x2 % 64)]
  }

  /** Every 6-bit value is read back from its character. */
  lemma SymbolRoundTrip(v: nat)
    requires v < 64
    ensures SymbolValue(Symbol(v)) == Some(v)
  {
  }

  /** Four alphabet characters decode to the three bytes their 24 bits spell. */
  lemma DecodeSymbols(c0: nat, c1: nat, c2: nat, c3: nat)
    requires c0 < 64 && c1 < 64 && c2 < 64 && c3 < 64
    ensures DecodeQuad([Symbol(c0), Symbol(c1), Symbol(c2), Symbol(c3)])
            == Some([(c0 * 4 + c1 / 16) as byte, ((c1 % 16) * 16 + c2 / 4) as byte, ((c2 % 4) * 64 + c3) as byte])
  {
    SymbolRoundTrip(c0);
    SymbolRoundTrip(c1);
    SymbolRoundTrip(c2);
    SymbolRoundTrip(c3);
  }

  lemma DecodeFullQuad(b0: byte, b1: byte, b2: byte)
    ensures DecodeQuad(FullQuad(b0, b1, b2)) == Some([b0, b1, b2])
  {
    var x0, x1, x2 := b0 as nat, b1 as nat, b2 as nat;
    DecodeSymbols(x0 / 4, (x0 % 4) * 16 + x1 / 16, (x1 % 16) * 4 + x2 / 64, x2 % 64);
    FullGroupRoundTrip(x0, x1, x2);
  }

  /** A string of four characters is decoded as one last group. */
  lemma DecodeSingleQuad(q: string)
    requires |q| == 4
    ensures DecodeUrl(q) == DecodeQuad(q)
  {
    assert q[..4] == q && q[4..] == [];
    if DecodeQuad(q).Some? {
      assert DecodeQuad(q).value + [] == DecodeQuad(q).value;
    }
  }

  /** A full group in front of an encoded text is decoded in front of its bytes. */
  lemma DecodeFullQuadThen(q: string, group: seq<byte>, rest: string, tail: seq<byte>)
    requires |q| == 4 && DecodeQuad(q) == Some(group) && |group| == 3
    requires DecodeUrl(rest) == Some(tail)
    ensures DecodeUrl(q + rest) == Some(group + tail)
  {
    var s := q + rest;
    assert s[..4] == q && s[4..] == rest;
  }

  lemma DecodeTwoBytes(b0: byte, b1: byte)
    ensures DecodeUrl(EncodeUrl([b0, b1])) == Some([b0, b1])
  {
    var x0, x1 := b0 as nat, b1 as nat;
    var q := EncodeUrl([b0, b1]);
    assert SymbolValue(q[0]) == Some(x0 / 4);
    assert SymbolValue(q[1]) == Some((x0 % 4) * 16 + x1 / 16);
    assert SymbolValue(q[2]) == Some((x1 % 16) * 4);
    assert SymbolValue(q[3]) == None;
    FullGroupRoundTrip(x0, x1, 0);
    assert DecodeQuad(q) == Some([b0, b1]);
    DecodeSingleQuad(q);
  }

  lemma DecodeOneByte(b0: byte)
    ensures DecodeUrl(EncodeUrl([b0])) == Some([b0])
  {
    var x0 := b0 as nat;
    var q := EncodeUrl([b0]);
    assert SymbolValue(q[0]) == Some(x0 / 4);
    assert SymbolValue(q[1]) == Some((x0 % 4) * 16);
    assert SymbolValue(q[2]) == None && SymbolValue(q[3]) == None;
    assert DecodeQuad(q) == Some([b0]);
    DecodeSingleQuad(q);
  }

  /** Decoding the encoding of any byte string gives the byte string back. */
  lemma {:induction false} DecodeEncode(b: seq<byte>)
    ensures DecodeUrl(EncodeUrl(b)) == Some(b)
    decreases |b|
  {
    if |b| == 0 {
    } else if |b| == 1 {
      DecodeOneByte(b[0]);
      assert b == [b[0]];
    } else if |b| == 2 {
      DecodeTwoBytes(b[0], b[1]);
      assert b == [b[0], b[1]];
    } else {
      DecodeEncodeGroup(b);
    }
  }

  lemma {:induction false} DecodeEncodeGroup(b: seq<byte>)
    requires |b| >= 3
    ensures DecodeUrl(EncodeUrl(b)) == Some(b)
    decreases |b|, 0
  {
    var tail := b[3..];
    var e := EncodeUrl(tail);
    var q := FullQuad(b[0], b[1], b[2]);
    assert DecodeUrl(e) == Some(tail) by {
      DecodeEncode(tail);
    }
    assert DecodeUrl(q + e) == Some([b[0], b[1], b[2]] + tail) by {
      DecodeGroupThen(b[0], b[1], b[2], e, tail);
    }
    assert EncodeUrl(b) == q + e by {
      EncodeUrlGroup(b);
    }
    SplitGroup(b);
  }

  lemma SplitGroup(b: seq<byte>)
    requires |b| >= 3
    ensures [b[0], b[1], b[2]] + b[3..] == b
  {
  }

  /** A full group in front of an encoded text is decoded in front of its bytes. */
  lemma DecodeGroupThen(b0: byte, b1: byte, b2: byte, rest: string, tail: seq<byte>)
    requires DecodeUrl(rest) == Some(tail)
    ensures DecodeUrl(FullQuad(b0, b1, b2) + rest) == Some([b0, b1, b2] + tail)
  {
    DecodeFullQuad(b0, b1, b2);
    DecodeFullQuadThen(FullQuad(b0, b1, b2), [b0, b1, b2], rest, tail);
  }

  lemma EncodeUrlGroup(b: seq<byte>)
    requires |b| >= 3
    ensures EncodeUrl(b) == FullQuad(b[0], b[1], b[2]) + EncodeUrl(b[3..])
  {
  }

  /** Every group of up to three bytes takes four characters: 32 random bytes make a
      44-character state. */
  lemma {:induction false} EncodedLength(b: seq<byte>)
    ensures |EncodeUrl(b)| == 4 * ((|b| + 2) / 3)
    decreases |b|
  {
    if |b| >= 3 {
      EncodedLength(b[3..]);
      assert (|b| + 2) / 3 == (|b[3..]| + 2) / 3 + 1;
    }
  }

  /** Different byte strings never encode to the same text. */
  lemma EncodeUrlInjective(a: seq<byte>, b: seq<byte>)
    requires EncodeUrl(a) == EncodeUrl(b)
    ensures a == b
  {
    DecodeEncode(a);
    DecodeEncode(b);
  }
}
