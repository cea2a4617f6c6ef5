/** Base64 as the program uses it: RFC 4648 section 4, without line breaks. */
module Base64 {
  import opened Wrappers
  import opened PythonText

  type Byte = x: nat | x < 256
  type Six = x: nat | x < 64

  function Symbol(n: Six): (c: char)
    ensures Value(c) == Some(n) && c != '='
  {
    if n < 26 then 'A' + n as char
    else if n < 52 then 'a' + (n - 26) as char
    else if n < 62 then '0' + (n - 52) as char
    else if n == 62 then '+' else '/'
  }

  function Value(c: char): (r: Option<Six>)
    ensures c == '=' ==> r == None
  {
    if 'A' <= c <= 'Z' then Some((c - 'A') as int)
    else if 'a' <= c <= 'z' then Some((c - 'a') as int + 26)
    else if '0' <= c <= '9' then Some((c - '0') as int + 52)
    else if c == '+' then Some(62) else if c == '/' then Some(63)
    else None
  }

  function Encode(bs: seq<Byte>): (s: string)
  {
    if bs == [] then ""
    else if |bs| == 1 then [Symbol(bs[0] / 4), Symbol(bs[0] % 4 * 16), '=', '=']
    else if |bs| == 2 then [Symbol(bs[0] / 4), Symbol(bs[0] % 4 * 16 + bs[1] / 16), Symbol(bs[1] % 16 * 4), '=']
    else
      [Symbol(bs[0] / 4), Symbol(bs[0] % 4 * 16 + bs[1] / 16), Symbol(bs[1] % 16 * 4 + bs[2] / 64), Symbol(bs[2] % 64)]
      + Encode(bs[3..])
  }

  predicate InAlphabet(c: char) {
    Value(c).Some?
  }

  /** What the canonical pattern accepts: groups of four, the last one perhaps padded. */
  predicate Shape(s: string) {
    s == ""
    || (|s| >= 4 && InAlphabet(s[0]) && InAlphabet(s[1])
        && (if InAlphabet(s[2]) && InAlphabet(s[3]) then Shape(s[4..])
            else |s| == 4 && s[3] == '=' && (InAlphabet(s[2]) || s[2] == '=')))
  }

  /** b64decode of a text with that shape: bits that do not fill a byte are dropped. */
  function Decode(s: string): (bs: seq<Byte>)
    requires Shape(s)
  {
    if s == "" then []
    else
      var a, b := Value(s[0]).value, Value(s[1]).value;
      if !InAlphabet(s[2]) then [a * 4 + b / 16]
      else
        var c := Value(s[2]).value;
        if !InAlphabet(s[3]) then [a * 4 + b / 16, b % 16 * 16 + c / 4]
        else
          var d := Value(s[3]).value;
          [a * 4 + b / 16, b % 16 * 16 + c / 4, c % 4 * 64 + d] + Decode(s[4..])
  }

  /** The audit's test: the right shape, and decoding then encoding gives the text back. */
  predicate IsCanonical(s: string) {
    Shape(s) && Encode(Decode(s)) == s
  }

  lemma {:induction false} Regroup(x: Byte, y: Byte, z: Byte)
    ensures var a, b, c, d := x / 4, x % 4 * 16 + y / 16, y % 16 * 4 + z / 64, z % 64;
            a * 4 + b / 16 == x && b % 16 * 16 + c / 4 == y && c % 4 * 64 + d == z
  {
  }

  lemma {:induction false} DecodeGroup(bs: seq<Byte>)
    requires |bs| >= 3 && Shape(Encode(bs[3..]))
    ensures Shape(Encode(bs)) && Decode(Encode(bs)) == bs[..3] + Decode(Encode(bs[3..]))
  {
    hide Symbol, Value;
    Regroup(bs[0], bs[1], bs[2]);
    assert Encode(bs)[4..] == Encode(bs[3..]);
  }

  lemma {:induction false} DecodeEnd(bs: seq<Byte>)
    requires |bs| < 3
    ensures Shape(Encode(bs)) && Decode(Encode(bs)) == bs
  {
    hide Symbol, Value;
    if |bs| == 2 {
      Regroup(bs[0], bs[1], 0);
    } else if |bs| == 1 {
      Regroup(bs[0], 0, 0);
    }
  }

  lemma {:induction false} DecodeEncode(bs: seq<Byte>)
    ensures Shape(Encode(bs)) && Decode(Encode(bs)) == bs
  {
    hide Encode, Decode, Shape;
    if |bs| >= 3 {
      DecodeEncode(bs[3..]);
      DecodeGroup(bs);
      assert bs == bs[..3] + bs[3..];
    } else {
      DecodeEnd(bs);
    }
  }

  /** The audit accepts a text exactly when it is the encoding of some bytes, and of no others. */
  lemma {:induction false} CanonicalIsEncoding(s: string)
    ensures IsCanonical(s) <==> exists bs: seq<Byte> :: Encode(bs) == s
    ensures forall bs, cs: seq<Byte> :: Encode(bs) == s && Encode(cs) == s ==> bs == cs
  {
    forall bs: seq<Byte> | Encode(bs) == s
      ensures IsCanonical(s) && bs == Decode(s)
    {
      DecodeEncode(bs);
    }
    if IsCanonical(s) {
      var bs := Decode(s);
      assert Encode(bs) == s;
    }
  }

  // ---------- the size estimate for embedded images ----------

  function Compact(s: string): string {
    if s == "" then "" else (if IsSpace(s[0]) then "" else [s[0]]) + Compact(s[1..])
  }

  /** How many "=" end the text. */
  function Padding(s: string): (n: nat)
    ensures n <= |s|
  {
    if s != "" && s[|s| - 1] == '=' then 1 + Padding(s[..|s| - 1]) else 0
  }

  function EstimatedBytes(payload: string): int {
    var compact := Compact(payload);
    if compact == "" then 0 else |compact| * 3 / 4 - Padding(compact)
  }

  lemma {:induction false} ShapeIsCompact(s: string)
    requires forall i :: 0 <= i < |s| ==> !IsSpace(s[i])
    ensures Compact(s) == s
  {
    if s != "" {
      ShapeIsCompact(s[1..]);
    }
  }

  lemma {:induction false} ShapeHasNoSpace(s: string)
    requires Shape(s)
    ensures forall i :: 0 <= i < |s| ==> InAlphabet(s[i]) || s[i] == '='
    ensures forall i :: 0 <= i < |s| ==> !IsSpace(s[i])
    ensures |s| % 4 == 0
  {
    if s != "" && InAlphabet(s[2]) && InAlphabet(s[3]) {
      ShapeHasNoSpace(s[4..]);
      assert forall i :: 4 <= i < |s| ==> s[i] == s[4..][i - 4];
    }
  }

  lemma {:induction false} PaddingOfSuffix(s: string, n: nat)
    requires n < |s| && InAlphabet(s[n])
    ensures Padding(s) == Padding(s[n..])
    decreases |s|
  {
    if n + 1 < |s| && s[|s| - 1] == '=' {
      PaddingOfSuffix(s[..|s| - 1], n);
      assert s[..|s| - 1][n..] == s[n..][..|s| - n - 1];
    }
  }

  lemma {:induction false} LengthOfDecoded(s: string)
    requires Shape(s)
    ensures |s| % 4 == 0 && |Decode(s)| + Padding(s) == |s| / 4 * 3
  {
    if s != "" {
      if InAlphabet(s[2]) && InAlphabet(s[3]) {
        LengthOfDecoded(s[4..]);
        if |s| > 4 {
          PaddingOfSuffix(s, 4);
        } else {
          assert s[|s| - 1] == s[3];
        }
      } else {
        PaddingOfLast(s);
      }
    }
  }

  lemma {:induction false} PaddingOfLast(s: string)
    requires |s| == 4 && InAlphabet(s[1]) && s[3] == '='
    requires InAlphabet(s[2]) || s[2] == '='
    ensures Padding(s) == if InAlphabet(s[2]) then 1 else 2
  {
    var t := s[..3];
    assert Padding(s) == 1 + Padding(t);
    assert t[2] == s[2];
    if s[2] == '=' {
      assert Padding(t) == 1 + Padding(t[..2]);
      assert t[..2][1] == s[1];
    }
  }

  /** On a canonical text the estimate is the decoded length. */
  lemma {:induction false} EstimateIsExact(s: string)
    requires IsCanonical(s)
    ensures EstimatedBytes(s) == |Decode(s)|
  {
    ShapeHasNoSpace(s);
    ShapeIsCompact(s);
    LengthOfDecoded(s);
  }

  // ---------- the encoding of RFC 4648 ----------

  /** The alphabet of section 4: A to Z, a to z, 0 to 9, each in its order, then + and /. */
  lemma {:induction false} AlphabetIs(n: Six)
    ensures Symbol(0) == 'A' && Symbol(25) == 'Z' && Symbol(26) == 'a' && Symbol(51) == 'z'
    ensures Symbol(52) == '0' && Symbol(61) == '9' && Symbol(62) == '+' && Symbol(63) == '/'
    ensures n < 61 && n != 25 && n != 51 ==> Symbol(n + 1) as int == Symbol(n) as int + 1
  {
  }

  function Bits(c: char): int
    requires InAlphabet(c)
  {
    Value(c).value
  }

  /** Four characters are the 24 bits of three bytes, most significant first; the end is padded with zero bits. */
  lemma {:induction false} GroupsAreBigEndian(bs: seq<Byte>)
    requires bs != []
    ensures var s, first := Encode(bs), bs[0] as int;
      && |s| >= 4 && InAlphabet(s[0]) && InAlphabet(s[1])
      && var high := Bits(s[0]) * 64 + Bits(s[1]);
         if |bs| == 1 then s[2..] == "==" && high == first * 16
         else
           && InAlphabet(s[2])
           && var two := first * 256 + bs[1] as int;
              if |bs| == 2 then s[3..] == "=" && high * 64 + Bits(s[2]) == two * 4
              else
                && InAlphabet(s[3]) && s[4..] == Encode(bs[3..])
                && (high * 64 + Bits(s[2])) * 64 + Bits(s[3]) == two * 256 + bs[2] as int
  {
  }

  /** The size estimate takes no notice of white space. */
  lemma {:induction false} EstimateSkipsSpace(a: string, c: char, b: string)
    requires IsSpace(c)
    ensures EstimatedBytes(a + [c] + b) == EstimatedBytes(a + b)
  {
    CompactSkips(a, c, b);
  }

  lemma {:induction false} CompactSkips(a: string, c: char, b: string)
    requires IsSpace(c)
    ensures Compact(a + [c] + b) == Compact(a + b)
  {
    if a == "" {
      assert a + [c] + b == [c] + b && ([c] + b)[1..] == b && a + b == b;
    } else {
      CompactSkips(a[1..], c, b);
      assert (a + [c] + b)[1..] == a[1..] + [c] + b && (a + b)[1..] == a[1..] + b;
    }
  }
}
