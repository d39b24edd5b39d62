/**
 * Go's url.QueryEscape and url.QueryUnescape: the escaping of a string for
 * use as one query component, which the session manager applies to the
 * session id it writes into a cookie and undoes on the id it reads back.
 */
module QueryEscaping {
  import opened GoTypes

  /** Bytes QueryEscape leaves as they are: letters, digits and "-_.~". */
  predicate IsUnreserved(c: char) {
    'A' <= c <= 'Z' || 'a' <= c <= 'z' || '0' <= c <= '9'
    || c == '-' || c == '_' || c == '.' || c == '~'
  }

  predicate AllUnreserved(s: GoString) {
    forall i :: 0 <= i < |s| ==> IsUnreserved(s[i])
  }

  /** The upper-case hexadecimal digit of a 4-bit value. */
  function HexDigit(d: nat): (c: GoByte)
    requires d < 16
  {
    if d < 10 then ('0' as int + d) as char else ('A' as int + (d - 10)) as char
  }

  /** Digits QueryUnescape accepts after '%', in either case. */
  predicate IsHex(c: char) {
    '0' <= c <= '9' || 'a' <= c <= 'f' || 'A' <= c <= 'F'
  }

  function Unhex(c: char): (d: nat)
    requires IsHex(c)
    ensures d < 16
  {
    if '0' <= c <= '9' then c as int - '0' as int
    else if 'a' <= c <= 'f' then c as int - 'a' as int + 10
    else c as int - 'A' as int + 10
  }

  lemma UnhexOfHexDigit(d: nat)
    requires d < 16
    ensures IsHex(HexDigit(d)) && Unhex(HexDigit(d)) == d
  {
  }

  /**
   * One byte in query-component mode: unreserved bytes stay, a space becomes
   * '+', every other byte becomes '%' and two upper-case hex digits.
   */
  function EscapeByte(c: GoByte): (r: GoString)
  {
    if IsUnreserved(c) then [c]
    else if c == ' ' then ['+']
    else ['%', HexDigit(c as int / 16), HexDigit(c as int % 16)]
  }

  function QueryEscape(s: GoString): (r: GoString)
    ensures |r| >= |s|
    decreases |s|
  {
    if s == [] then [] else EscapeByte(s[0]) + QueryEscape(s[1..])
  }

  /**
   * None is Go's EscapeError: a '%' not followed by two hex digits anywhere in
   * the input. Otherwise '%XY' becomes the byte 0xXY and '+' a space.
   */
  function QueryUnescape(s: GoString): (r: Option<GoString>)
    decreases |s|
  {
    if s == [] then Some([])
    else
      var head: Option<(GoByte, nat)> :=
        if s[0] == '%' then
          if |s| >= 3 && IsHex(s[1]) && IsHex(s[2])
          then Some(((Unhex(s[1]) * 16 + Unhex(s[2])) as char, 3))
          else None
        else if s[0] == '+' then Some((' ', 1))
        else Some((s[0], 1));
      match head
      case None => None
      case Some((c, n)) =>
        match QueryUnescape(s[n..])
        case None => None
        case Some(rest) => Some([c] + rest)
  }

  /** Unescaping consumes exactly the escape of the first byte. */
  lemma UnescapeEscapedByte(c: GoByte, t: GoString)
    ensures QueryUnescape(EscapeByte(c) + t) == match QueryUnescape(t)
                                                case None => None
                                                case Some(rest) => Some([c] + rest)
  {
    var e := EscapeByte(c);
    assert (e + t)[|e|..] == t;
    if !IsUnreserved(c) && c != ' ' {
      UnhexOfHexDigit(c as int / 16);
      UnhexOfHexDigit(c as int % 16);
    }
  }

  /** QueryUnescape undoes QueryEscape for every string. */
  lemma {:induction false} UnescapeEscape(s: GoString)
    ensures QueryUnescape(QueryEscape(s)) == Some(s)
    decreases |s|
  {
    if s != [] {
      UnescapeEscape(s[1..]);
      UnescapeEscapedByte(s[0], QueryEscape(s[1..]));
      assert [s[0]] + s[1..] == s;
    }
  }

  /** QueryEscape changes a string exactly when it holds a byte other than the unreserved ones. */
  lemma {:induction false} EscapeIsIdentity(s: GoString)
    ensures QueryEscape(s) == s <==> AllUnreserved(s)
    decreases |s|
  {
    if s != [] {
      EscapeIsIdentity(s[1..]);
      var rest := QueryEscape(s[1..]);
      assert QueryEscape(s) == EscapeByte(s[0]) + rest;
      if IsUnreserved(s[0]) {
        assert QueryEscape(s) == [s[0]] + rest;
        assert s == [s[0]] + s[1..];
        assert AllUnreserved(s) <==> AllUnreserved(s[1..]) by {
          assert forall i :: 0 < i < |s| ==> s[i] == s[1..][i - 1];
        }
        if QueryEscape(s) == s {
          assert rest == QueryEscape(s)[1..];
        }
      } else if s[0] == ' ' {
        assert QueryEscape(s)[0] == '+';
        assert !AllUnreserved(s);
      } else {
        assert |QueryEscape(s)| == 3 + |rest|;
        assert !AllUnreserved(s);
      }
    }
  }
}
