/** Percent-encoding of bytes, as in sections 2.1 and 2.3 of RFC 3986. */
module PercentEncoding {
  import opened Wrappers

  predicate Unreserved(c: char) {
    'A' <= c <= 'Z' || 'a' <= c <= 'z' || '0' <= c <= '9' || c in ['-', '_', '.', '~']
  }

  predicate HexDigit(c: char) { '0' <= c <= '9' || 'a' <= c <= 'f' || 'A' <= c <= 'F' }

  function Hex(k: nat): (c: char)
    requires k < 16
    ensures HexDigit(c)
  {
    if k < 10 then ('0' as int + k) as char else ('A' as int + k - 10) as char
  }

  function HexValue(c: char): (k: nat)
    requires HexDigit(c)
    ensures k < 16
  {
    if c <= '9' then c as int - '0' as int
    else if c <= 'F' then c as int - 'A' as int + 10
    else c as int - 'a' as int + 10
  }

  predicate IsByte(c: char) { c as int < 256 }

  predicate Bytes(s: string) { forall c <- s :: IsByte(c) }

  function EncodeByte(c: char): (r: string)
    ensures r != ""
  {
    if Unreserved(c) then [c] else ['%', Hex(c as int / 16 % 16), Hex(c as int % 16)]
  }

  function Encode(s: string): string { if s == "" then "" else EncodeByte(s[0]) + Encode(s[1..]) }

  /** The bytes a percent-encoded text stands for, unless some '%' starts no escape. */
  function Decode(s: string): Option<string> {
    if s == "" then Some("")
    else if s[0] != '%' then
      match Decode(s[1..])
      case Some(r) => Some([s[0]] + r)
      case None => None
    else if |s| < 3 || !HexDigit(s[1]) || !HexDigit(s[2]) then None
    else
      match Decode(s[3..])
      case Some(r) => Some([(HexValue(s[1]) * 16 + HexValue(s[2])) as char] + r)
      case None => None
  }

  lemma EncodeAppend(s: string, c: char)
    ensures Encode(s + [c]) == Encode(s) + EncodeByte(c)
  {
    if s == "" {
      assert s + [c] == [c];
      assert Encode([c][1..]) == "";
    } else {
      assert (s + [c])[1..] == s[1..] + [c];
      EncodeAppend(s[1..], c);
    }
  }

  method EncodeSegment(segment: string) returns (result: string)
    ensures result == Encode(segment)
  {
    result := "";
    for i := 0 to |segment|
      invariant result == Encode(segment[..i])
    {
      var c := segment[i];
      assert segment[..i + 1] == segment[..i] + [c];
      EncodeAppend(segment[..i], c);
      if Unreserved(c) {
        result := result + [c];
      } else {
        result := result + ['%', Hex(c as int / 16 % 16), Hex(c as int % 16)];
      }
    }
    assert segment[..|segment|] == segment;
  }

  /** Every '%' starts a complete hex escape. */
  predicate Escapes(s: string) {
    forall i :: 0 <= i < |s| && s[i] == '%' ==> i + 2 < |s| && HexDigit(s[i + 1]) && HexDigit(s[i + 2])
  }

  lemma EscapesRest(s: string)
    requires Escapes(s) && s != ""
    ensures s[0] != '%' ==> Escapes(s[1..])
    ensures s[0] == '%' ==> |s| >= 3 && Escapes(s[3..])
  {
    forall i | 0 <= i < |s[1..]| && s[1..][i] == '%'
      ensures i + 2 < |s[1..]| && HexDigit(s[1..][i + 1]) && HexDigit(s[1..][i + 2])
    {
      assert s[i + 1] == '%';
      assert s[1..][i + 1] == s[i + 2] && s[1..][i + 2] == s[i + 3];
    }
    if s[0] == '%' {
      var t := s[3..];
      forall i | 0 <= i < |t| && t[i] == '%'
        ensures i + 2 < |t| && HexDigit(t[i + 1]) && HexDigit(t[i + 2])
      {
        assert s[i + 3] == '%';
      }
    }
  }

  /** Decoding succeeds exactly on texts whose escapes are all complete. */
  lemma {:induction false} DecodesIff(s: string)
    ensures Decode(s).Some? <==> Escapes(s)
  {
    if s != "" {
      if Escapes(s) {
        EscapesRest(s);
        DecodesIff(if s[0] == '%' then s[3..] else s[1..]);
      } else if s[0] != '%' {
        DecodesIff(s[1..]);
      } else if |s| >= 3 && HexDigit(s[1]) && HexDigit(s[2]) {
        DecodesIff(s[3..]);
      }
    }
  }

  function Glue(a: Option<string>, b: Option<string>): Option<string> {
    if a.Some? && b.Some? then Some(a.value + b.value) else None
  }

  /** Decoding goes piece by piece when no escape runs over the seam. */
  lemma {:induction false} DecodeAcross(a: string, b: string)
    requires Escapes(a)
    ensures Decode(a + b) == Glue(Decode(a), Decode(b))
    decreases |a|
  {
    if a == "" {
      assert a + b == b;
      if Decode(b).Some? { assert "" + Decode(b).value == Decode(b).value; }
    } else {
      EscapesRest(a);
      var n := if a[0] == '%' then 3 else 1;
      assert (a + b)[n..] == a[n..] + b;
      DecodeAcross(a[n..], b);
      var c := if a[0] == '%' then (HexValue(a[1]) * 16 + HexValue(a[2])) as char else a[0];
      DecodesIff(a[n..]);
      if Decode(b).Some? {
        assert [c] + (Decode(a[n..]).value + Decode(b).value) == [c] + Decode(a[n..]).value + Decode(b).value;
      }
    }
  }

  lemma EscapesAcross(a: string, b: string)
    requires Escapes(a) && Escapes(b)
    ensures Escapes(a + b)
  {
    forall i | 0 <= i < |a + b| && (a + b)[i] == '%'
      ensures i + 2 < |a + b| && HexDigit((a + b)[i + 1]) && HexDigit((a + b)[i + 2])
    {
      if i >= |a| { assert b[i - |a|] == '%'; }
    }
  }

  lemma ByteDecodes(c: char)
    requires IsByte(c)
    ensures Escapes(EncodeByte(c))
    ensures Decode(EncodeByte(c)) == Some([c])
  {
    var e := EncodeByte(c);
    assert Decode("") == Some("");
    assert [c] + "" == [c];
    if Unreserved(c) {
      assert e[1..] == "";
    } else {
      var hi, lo := c as int / 16, c as int % 16;
      assert e == ['%', Hex(hi), Hex(lo)];
      assert e[3..] == "";
      assert (hi * 16 + lo) as char == c;
    }
  }

  /** Encoding any byte string and decoding the result gives it back. */
  lemma {:induction false} EncodeDecodes(s: string)
    requires Bytes(s)
    ensures Escapes(Encode(s))
    ensures Decode(Encode(s)) == Some(s)
  {
    if s != "" {
      ByteDecodes(s[0]);
      EncodeDecodes(s[1..]);
      EscapesAcross(EncodeByte(s[0]), Encode(s[1..]));
      DecodeAcross(EncodeByte(s[0]), Encode(s[1..]));
      assert [s[0]] + s[1..] == s;
    }
  }

  /** What may stand in an encoded segment: unreserved characters and escapes. */
  lemma {:induction false} EncodeAlphabet(s: string)
    ensures forall c <- Encode(s) :: Unreserved(c) || c == '%'
    ensures Escapes(Encode(s))
  {
    if s != "" {
      EncodeAlphabet(s[1..]);
      EscapesAcross(EncodeByte(s[0]), Encode(s[1..]));
    }
  }

  // ---- the characters, spelled out --------------------------------------------------------------

  lemma {:induction false} EncodeAcross(a: string, b: string)
    ensures Encode(a + b) == Encode(a) + Encode(b)
  {
    if a == "" {
      assert a + b == b;
    } else {
      assert (a + b)[1..] == a[1..] + b;
      EncodeAcross(a[1..], b);
    }
  }

  const UPPER := "0123456789ABCDEF"
  const LOWER := "0123456789abcdef"

  /** Letters, digits and four marks stay; any other byte becomes '%' and its two upper-case hex digits. */
  lemma EncodedCharacter(c: char)
    requires c as int < 256
    ensures Encode([c])
         == if 'a' <= c <= 'z' || 'A' <= c <= 'Z' || '0' <= c <= '9' || c == '-' || c == '.' || c == '_' || c == '~'
            then [c] else ['%', UPPER[c as int / 16], UPPER[c as int % 16]]
  {
    assert Encode([c][1..]) == "";
    assert EncodeByte(c) + "" == EncodeByte(c);
    HexIs(c as int / 16);
    HexIs(c as int % 16);
  }

  lemma HexIs(k: nat)
    requires k < 16
    ensures Hex(k) == UPPER[k]
  {
    if k < 8 {
      assert UPPER[k] == ['0', '1', '2', '3', '4', '5', '6', '7'][k];
    }
  }

  /** An escape is read in either case of its digits, and nothing else starts with '%'. */
  lemma EscapeDecodes(a: char, b: char)
    ensures Decode(['%', a, b]).Some? <==> (a in UPPER || a in LOWER) && (b in UPPER || b in LOWER)
    ensures forall i, j ::
              0 <= i < 16 && 0 <= j < 16 && a in {UPPER[i], LOWER[i]} && b in {UPPER[j], LOWER[j]} ==>
              Decode(['%', a, b]) == Some([(i * 16 + j) as char])
  {
    var s := ['%', a, b];
    assert s[3..] == "" && Decode("") == Some("");
    DigitIs(a);
    DigitIs(b);
    if HexDigit(a) && HexDigit(b) {
      var x := (HexValue(a) * 16 + HexValue(b)) as char;
      assert [x] + "" == [x];
    }
  }

  lemma DigitIs(c: char)
    ensures HexDigit(c) <==> c in UPPER || c in LOWER
    ensures forall i :: 0 <= i < 16 && c in {UPPER[i], LOWER[i]} ==> HexValue(c) == i
  {
    if '0' <= c <= '9' {
      assert UPPER[c as int - '0' as int] == c;
    } else if 'a' <= c <= 'f' {
      assert LOWER[c as int - 'a' as int + 10] == c;
    } else if 'A' <= c <= 'F' {
      assert UPPER[c as int - 'A' as int + 10] == c;
    }
  }
}
