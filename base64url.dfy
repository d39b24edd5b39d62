/**
 * The padded base64 encoding with the URL- and filename-safe alphabet
 * (section 5 of RFC 4648), which Go's base64.URLEncoding implements and
 * the session manager uses to turn random bytes into a session id.
 */
module Base64Url {
  import opened GoTypes

  /** Characters of the URL-safe alphabet: A-Z, a-z, 0-9, '-' and '_'. */
  predicate IsSymbol(c: char) {
    'A' <= c <= 'Z' || 'a' <= c <= 'z' || '0' <= c <= '9' || c == '-' || c == '_'
  }

  const Pad: GoByte := '='

  /** The character that encodes the 6-bit value i. */
  function Symbol(i: nat): (c: GoByte)
    requires i < 64
    ensures IsSymbol(c)
  {
    if i < 26 then ('A' as int + i) as char
    else if i < 52 then ('a' as int + (i - 26)) as char
    else if i < 62 then ('0' as int + (i - 52)) as char
    else if i == 62 then '-'
    else '_'
  }

  /** The 6-bit value a character of the alphabet encodes. */
  function SymbolValue(c: char): (i: nat)
    requires IsSymbol(c)
    ensures i < 64
  {
    if 'A' <= c <= 'Z' then c as int - 'A' as int
    else if 'a' <= c <= 'z' then c as int - 'a' as int + 26
    else if '0' <= c <= '9' then c as int - '0' as int + 52
    else if c == '-' then 62
    else 63
  }

  lemma SymbolOfSymbolValue(c: char)
    requires IsSymbol(c)
    ensures Symbol(SymbolValue(c)) == c
  {
  }

  lemma SymbolValueOfSymbol(i: nat)
    requires i < 64
    ensures SymbolValue(Symbol(i)) == i
  {
  }

  /** How many '=' characters end the encoding of n bytes. */
  function PadCount(n: nat): nat {
    if n % 3 == 0 then 0 else 3 - n % 3
  }

  /**
   * The four characters for one group of one to three bytes: the bytes are
   * completed with zero bits to a multiple of six and the group is padded
   * with '=' to four characters.
   */
  function Group(b: seq<Octet>): (r: GoString)
    requires 1 <= |b| <= 3
    ensures |r| == 4
  {
    var b1 := if |b| > 1 then b[1] else 0;
    var b2 := if |b| > 2 then b[2] else 0;
    [Symbol(b[0] / 4), Symbol((b[0] % 4) * 16 + b1 / 16)]
    + (if |b| > 1 then [Symbol((b1 % 16) * 4 + b2 / 64)] else [Pad])
    + (if |b| > 2 then [Symbol(b2 % 64)] else [Pad])
  }

  /** Every three input bytes become four characters; see Group for the last group. */
  function Encode(b: seq<Octet>): (r: GoString)
    ensures |r| == 4 * ((|b| + 2) / 3)
    decreases |b|
  {
    if |b| == 0 then []
    else if |b| <= 3 then Group(b)
    else
      var n := |b| - 3;
      assert (|b| + 2) / 3 == (n + 2) / 3 + 1;
      Group(b[..3]) + Encode(b[3..])
  }

  lemma GroupShape(b: seq<Octet>, i: nat)
    requires 1 <= |b| <= 3 && i < 4
    ensures if i < 4 - PadCount(|b|) then IsSymbol(Group(b)[i]) else Group(b)[i] == Pad
  {
  }

  /** Past the first group, the encoding is that of the remaining bytes. */
  lemma EncodeSplit(b: seq<Octet>)
    requires |b| > 3
    ensures Encode(b) == Group(b[..3]) + Encode(b[3..])
  {
  }

  lemma PadCountAfterGroup(n: nat)
    ensures PadCount(n + 3) == PadCount(n)
  {
    assert (n + 3) % 3 == n % 3;
  }

  /** An encoding is made of alphabet characters followed by its padding. */
  lemma {:induction false} EncodeShape(b: seq<Octet>, i: nat)
    requires i < |Encode(b)|
    ensures if i < |Encode(b)| - PadCount(|b|) then IsSymbol(Encode(b)[i]) else Encode(b)[i] == Pad
    decreases |b|
  {
    if |b| <= 3 {
      GroupShape(b, i);
    } else {
      EncodeSplit(b);
      PadCountAfterGroup(|b| - 3);
      var g, rest := Group(b[..3]), Encode(b[3..]);
      if i < 4 {
        GroupShape(b[..3], i);
        assert (g + rest)[i] == g[i];
      } else {
        EncodeShape(b[3..], i - 4);
        assert (g + rest)[i] == rest[i - 4];
      }
    }
  }

  /**
   * The inverse of Encode: reads back the bytes of a padded encoding. It is
   * the canonical decoder of section 3.5 of RFC 4648: the bits that complete
   * a short last group must be zero.
   */
  function Decode(s: GoString): (r: Option<seq<Octet>>)
    decreases |s|
  {
    if |s| == 0 then Some([])
    else if |s| < 4 || !IsSymbol(s[0]) || !IsSymbol(s[1]) then None
    else
      var c0, c1 := SymbolValue(s[0]), SymbolValue(s[1]);
      if |s| == 4 && s[2] == Pad && s[3] == Pad then
        if c1 % 16 == 0 then Some([c0 * 4 + c1 / 16]) else None
      else if !IsSymbol(s[2]) then None
      else
        var c2 := SymbolValue(s[2]);
        if |s| == 4 && s[3] == Pad then
          if c2 % 4 == 0 then Some([c0 * 4 + c1 / 16, (c1 % 16) * 16 + c2 / 4]) else None
        else if !IsSymbol(s[3]) then None
        else
          var c3 := SymbolValue(s[3]);
          match Decode(s[4..])
          case None => None
          case Some(rest) =>
            Some([c0 * 4 + c1 / 16, (c1 % 16) * 16 + c2 / 4, (c2 % 4) * 64 + c3] + rest)
  }

  // The proofs below keep three kinds of reasoning apart: the layout of a
  // group (GroupOf*), decoding of alphabet characters (Decode*Symbols) and the
  // bit arithmetic relating bytes and 6-bit values (*RoundTrip).

  /** The bit arithmetic of one group of three bytes is undone by decoding. */
  lemma GroupRoundTrip(b0: Octet, b1: Octet, b2: Octet)
    ensures var c0, c1 := b0 / 4, (b0 % 4) * 16 + b1 / 16;
            var c2, c3 := (b1 % 16) * 4 + b2 / 64, b2 % 64;
            c0 * 4 + c1 / 16 == b0 && (c1 % 16) * 16 + c2 / 4 == b1 && (c2 % 4) * 64 + c3 == b2
  {
    var c1 := (b0 % 4) * 16 + b1 / 16;
    assert c1 / 16 == b0 % 4 && c1 % 16 == b1 / 16;
    var c2 := (b1 % 16) * 4 + b2 / 64;
    assert c2 / 4 == b1 % 16 && c2 % 4 == b2 / 64;
  }

  /** The 6-bit values of a group are recovered from the bytes they decode to. */
  lemma SymbolsRoundTrip(c0: nat, c1: nat, c2: nat, c3: nat)
    requires c0 < 64 && c1 < 64 && c2 < 64 && c3 < 64
    ensures var b0, b1, b2 := c0 * 4 + c1 / 16, (c1 % 16) * 16 + c2 / 4, (c2 % 4) * 64 + c3;
            b0 < 256 && b1 < 256 && b2 < 256
            && b0 / 4 == c0 && (b0 % 4) * 16 + b1 / 16 == c1
            && (b1 % 16) * 4 + b2 / 64 == c2 && b2 % 64 == c3
  {
    var b0, b1, b2 := c0 * 4 + c1 / 16, (c1 % 16) * 16 + c2 / 4, (c2 % 4) * 64 + c3;
    assert b0 / 4 == c0 && b0 % 4 == c1 / 16;
    assert b1 / 16 == c1 % 16 && b1 % 16 == c2 / 4;
    assert b2 / 64 == c2 % 4 && b2 % 64 == c3;
  }

  lemma GroupOfOne(b0: Octet, x0: nat, x1: nat)
    requires x0 == b0 / 4 && x1 == (b0 % 4) * 16
    ensures Encode([b0]) == [Symbol(x0), Symbol(x1), Pad, Pad]
  {
  }

  lemma GroupOfTwo(b0: Octet, b1: Octet, x0: nat, x1: nat, x2: nat)
    requires x0 == b0 / 4 && x1 == (b0 % 4) * 16 + b1 / 16 && x2 == (b1 % 16) * 4
    ensures Encode([b0, b1]) == [Symbol(x0), Symbol(x1), Symbol(x2), Pad]
  {
  }

  lemma GroupOfThree(b0: Octet, b1: Octet, b2: Octet, x0: nat, x1: nat, x2: nat, x3: nat)
    requires x0 == b0 / 4 && x1 == (b0 % 4) * 16 + b1 / 16
    requires x2 == (b1 % 16) * 4 + b2 / 64 && x3 == b2 % 64
    ensures Group([b0, b1, b2]) == [Symbol(x0), Symbol(x1), Symbol(x2), Symbol(x3)]
  {
  }

  lemma DecodeOneSymbols(x0: nat, x1: nat)
    requires x0 < 64 && x1 < 64
    ensures Decode([Symbol(x0), Symbol(x1), Pad, Pad])
            == if x1 % 16 == 0 then Some([x0 * 4 + x1 / 16]) else None
  {
    SymbolValueOfSymbol(x0);
    SymbolValueOfSymbol(x1);
  }

  lemma DecodeTwoSymbols(x0: nat, x1: nat, x2: nat)
    requires x0 < 64 && x1 < 64 && x2 < 64
    ensures Decode([Symbol(x0), Symbol(x1), Symbol(x2), Pad])
            == if x2 % 4 == 0 then Some([x0 * 4 + x1 / 16, (x1 % 16) * 16 + x2 / 4]) else None
  {
    SymbolValueOfSymbol(x0);
    SymbolValueOfSymbol(x1);
    SymbolValueOfSymbol(x2);
  }

  /** Four alphabet characters decode to three bytes, ahead of whatever follows them. */
  lemma DecodeFourSymbols(s: GoString)
    requires |s| >= 4 && IsSymbol(s[0]) && IsSymbol(s[1]) && IsSymbol(s[2]) && IsSymbol(s[3])
    ensures var c0, c1, c2, c3 := SymbolValue(s[0]), SymbolValue(s[1]), SymbolValue(s[2]), SymbolValue(s[3]);
            Decode(s) == match Decode(s[4..])
                         case None => None
                         case Some(rest) =>
                           Some([c0 * 4 + c1 / 16, (c1 % 16) * 16 + c2 / 4, (c2 % 4) * 64 + c3] + rest)
  {
  }

  lemma DecodeOneByte(b0: Octet)
    ensures Decode(Encode([b0])) == Some([b0])
  {
    var x0, x1 := b0 / 4, (b0 % 4) * 16;
    GroupOfOne(b0, x0, x1);
    DecodeOneSymbols(x0, x1);
    assert x1 % 16 == 0 && x0 * 4 + x1 / 16 == b0 by {
      GroupRoundTrip(b0, 0, 0);
    }
  }

  lemma DecodeTwoBytes(b0: Octet, b1: Octet)
    ensures Decode(Encode([b0, b1])) == Some([b0, b1])
  {
    var x0, x1, x2 := b0 / 4, (b0 % 4) * 16 + b1 / 16, (b1 % 16) * 4;
    GroupOfTwo(b0, b1, x0, x1, x2);
    DecodeTwoSymbols(x0, x1, x2);
    assert x2 % 4 == 0 && x0 * 4 + x1 / 16 == b0 && (x1 % 16) * 16 + x2 / 4 == b1 by {
      GroupRoundTrip(b0, b1, 0);
    }
  }

  lemma DecodeFourOf(x0: nat, x1: nat, x2: nat, x3: nat, t: GoString)
    requires x0 < 64 && x1 < 64 && x2 < 64 && x3 < 64
    ensures Decode([Symbol(x0), Symbol(x1), Symbol(x2), Symbol(x3)] + t)
            == match Decode(t)
               case None => None
               case Some(rest) => Some([x0 * 4 + x1 / 16, (x1 % 16) * 16 + x2 / 4, (x2 % 4) * 64 + x3] + rest)
  {
    var s := [Symbol(x0), Symbol(x1), Symbol(x2), Symbol(x3)] + t;
    assert s[0] == Symbol(x0) && s[1] == Symbol(x1) && s[2] == Symbol(x2) && s[3] == Symbol(x3);
    assert s[4..] == t;
    SymbolValueOfSymbol(x0);
    SymbolValueOfSymbol(x1);
    SymbolValueOfSymbol(x2);
    SymbolValueOfSymbol(x3);
    DecodeFourSymbols(s);
  }

  lemma ThreeBytesRoundTrip(g: seq<Octet>)
    requires |g| == 3
    ensures var x0, x1 := g[0] / 4, (g[0] % 4) * 16 + g[1] / 16;
            var x2, x3 := (g[1] % 16) * 4 + g[2] / 64, g[2] % 64;
            [x0 * 4 + x1 / 16, (x1 % 16) * 16 + x2 / 4, (x2 % 4) * 64 + x3] == g
  {
    GroupRoundTrip(g[0], g[1], g[2]);
    assert g == [g[0], g[1], g[2]];
  }

  /** A full group decodes to its three bytes, ahead of whatever follows it. */
  lemma DecodeFullGroup(g: seq<Octet>, t: GoString)
    requires |g| == 3
    ensures Decode(Group(g) + t) == match Decode(t)
                                     case None => None
                                     case Some(rest) => Some(g + rest)
  {
    var x0, x1 := g[0] / 4, (g[0] % 4) * 16 + g[1] / 16;
    var x2, x3 := (g[1] % 16) * 4 + g[2] / 64, g[2] % 64;
    assert Group(g) == [Symbol(x0), Symbol(x1), Symbol(x2), Symbol(x3)] by {
      assert g == [g[0], g[1], g[2]];
      GroupOfThree(g[0], g[1], g[2], x0, x1, x2, x3);
    }
    assert Group(g) + t == [Symbol(x0), Symbol(x1), Symbol(x2), Symbol(x3)] + t;
    DecodeFourOf(x0, x1, x2, x3, t);
    ThreeBytesRoundTrip(g);
  }

  lemma {:induction false} DecodeEncode(b: seq<Octet>)
    ensures Decode(Encode(b)) == Some(b)
    decreases |b|
  {
    if |b| == 1 {
      assert b == [b[0]];
      DecodeOneByte(b[0]);
    } else if |b| == 2 {
      assert b == [b[0], b[1]];
      DecodeTwoBytes(b[0], b[1]);
    } else if |b| == 3 {
      DecodeFullGroup(b, []);
      assert Group(b) + [] == Group(b) == Encode(b);
      assert Decode([]) == Some([]);
      assert b + [] == b;
    } else if |b| > 3 {
      DecodeEncode(b[3..]);
      EncodeSplit(b);
      DecodeFullGroup(b[..3], Encode(b[3..]));
      assert b == b[..3] + b[3..];
    }
  }

  /** A full group ahead of more bytes is encoded on its own. */
  lemma EncodeAfterGroup(g: seq<Octet>, rest: seq<Octet>)
    requires |g| == 3
    ensures Encode(g + rest) == Group(g) + Encode(rest)
  {
    var b := g + rest;
    assert b[..3] == g && b[3..] == rest;
    if rest == [] {
      assert b == g;
    } else {
      EncodeSplit(b);
    }
  }

  lemma FourCharacters(t: GoString)
    requires |t| == 4
    ensures t == [t[0], t[1], t[2], t[3]]
  {
  }

  /** The bytes one padded group decodes to encode back to its characters. */
  lemma EncodeOneByte(c0: nat, c1: nat)
    requires c0 < 64 && c1 < 64 && c1 % 16 == 0
    ensures Encode([c0 * 4 + c1 / 16]) == [Symbol(c0), Symbol(c1), Pad, Pad]
  {
    var b0: Octet := c0 * 4 + c1 / 16;
    assert b0 / 4 == c0 && (b0 % 4) * 16 == c1 by {
      SymbolsRoundTrip(c0, c1, 0, 0);
    }
    GroupOfOne(b0, c0, c1);
  }

  lemma EncodeTwoBytes(c0: nat, c1: nat, c2: nat)
    requires c0 < 64 && c1 < 64 && c2 < 64 && c2 % 4 == 0
    ensures Encode([c0 * 4 + c1 / 16, (c1 % 16) * 16 + c2 / 4]) == [Symbol(c0), Symbol(c1), Symbol(c2), Pad]
  {
    var b0: Octet, b1: Octet := c0 * 4 + c1 / 16, (c1 % 16) * 16 + c2 / 4;
    assert b0 / 4 == c0 && (b0 % 4) * 16 + b1 / 16 == c1 && (b1 % 16) * 4 == c2 by {
      SymbolsRoundTrip(c0, c1, c2, 0);
    }
    GroupOfTwo(b0, b1, c0, c1, c2);
  }

  lemma EncodeFullGroup(c0: nat, c1: nat, c2: nat, c3: nat)
    requires c0 < 64 && c1 < 64 && c2 < 64 && c3 < 64
    ensures Group([c0 * 4 + c1 / 16, (c1 % 16) * 16 + c2 / 4, (c2 % 4) * 64 + c3])
            == [Symbol(c0), Symbol(c1), Symbol(c2), Symbol(c3)]
  {
    var b0: Octet, b1: Octet, b2: Octet := c0 * 4 + c1 / 16, (c1 % 16) * 16 + c2 / 4, (c2 % 4) * 64 + c3;
    assert b0 / 4 == c0 && (b0 % 4) * 16 + b1 / 16 == c1 && (b1 % 16) * 4 + b2 / 64 == c2 && b2 % 64 == c3 by {
      SymbolsRoundTrip(c0, c1, c2, c3);
    }
    GroupOfThree(b0, b1, b2, c0, c1, c2, c3);
  }

  /** A padded group is spelled by the symbols of its characters' values. */
  lemma PaddedCharacters(s: GoString)
    requires |s| == 4 && IsSymbol(s[0]) && IsSymbol(s[1]) && s[3] == Pad
    ensures s[2] == Pad ==> s == [Symbol(SymbolValue(s[0])), Symbol(SymbolValue(s[1])), Pad, Pad]
    ensures IsSymbol(s[2]) ==>
      s == [Symbol(SymbolValue(s[0])), Symbol(SymbolValue(s[1])), Symbol(SymbolValue(s[2])), Pad]
  {
    SymbolOfSymbolValue(s[0]);
    SymbolOfSymbolValue(s[1]);
    if IsSymbol(s[2]) {
      SymbolOfSymbolValue(s[2]);
    }
    FourCharacters(s);
  }

  lemma EncodeDecodeFull(t: GoString, u: GoString, rest: seq<Octet>)
    requires |t| == 4 && IsSymbol(t[0]) && IsSymbol(t[1]) && IsSymbol(t[2]) && IsSymbol(t[3])
    requires Decode(u) == Some(rest) && Encode(rest) == u
    ensures Decode(t + u).Some? && Encode(Decode(t + u).value) == t + u
  {
    var c0, c1, c2, c3 := SymbolValue(t[0]), SymbolValue(t[1]), SymbolValue(t[2]), SymbolValue(t[3]);
    assert t == [Symbol(c0), Symbol(c1), Symbol(c2), Symbol(c3)] by {
      SymbolOfSymbolValue(t[0]);
      SymbolOfSymbolValue(t[1]);
      SymbolOfSymbolValue(t[2]);
      SymbolOfSymbolValue(t[3]);
      FourCharacters(t);
    }
    var g: seq<Octet> := [c0 * 4 + c1 / 16, (c1 % 16) * 16 + c2 / 4, (c2 % 4) * 64 + c3];
    DecodeFourOf(c0, c1, c2, c3, u);
    assert Decode(t + u) == Some(g + rest);
    EncodeFullGroup(c0, c1, c2, c3);
    EncodeAfterGroup(g, rest);
  }

  /** Every string Decode accepts is the encoding of what it decodes to. */
  lemma {:induction false} EncodeDecode(s: GoString)
    ensures Decode(s).Some? ==> Encode(Decode(s).value) == s
    decreases |s|
  {
    if |s| == 4 && s[3] == Pad {
      if IsSymbol(s[0]) && IsSymbol(s[1]) {
        var c0, c1 := SymbolValue(s[0]), SymbolValue(s[1]);
        PaddedCharacters(s);
        if s[2] == Pad {
          DecodeOneSymbols(c0, c1);
          if c1 % 16 == 0 {
            EncodeOneByte(c0, c1);
          }
        } else if IsSymbol(s[2]) {
          var c2 := SymbolValue(s[2]);
          DecodeTwoSymbols(c0, c1, c2);
          if c2 % 4 == 0 {
            EncodeTwoBytes(c0, c1, c2);
          }
        }
      }
    } else if |s| >= 4 && IsSymbol(s[0]) && IsSymbol(s[1]) && IsSymbol(s[2]) && IsSymbol(s[3]) {
      var u := s[4..];
      EncodeDecode(u);
      if Decode(u).Some? {
        assert s == s[..4] + u;
        EncodeDecodeFull(s[..4], u, Decode(u).value);
      }
    }
  }

  /** Distinct byte strings have distinct encodings. */
  lemma EncodeInjective(a: seq<Octet>, b: seq<Octet>)
    requires Encode(a) == Encode(b)
    ensures a == b
  {
    DecodeEncode(a);
    DecodeEncode(b);
  }
}
