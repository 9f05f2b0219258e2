// The tweak's way through the ledger: 32 bytes written as lower-case hex and read back.
module Hex {
  import opened Base
  import opened Protocol

  function Digit(v: nat): char
    requires v < 16
  {
    if v < 10 then '0' + v as char else 'a' + (v - 10) as char
  }

  function DigitValue(c: char): (r: Option<nat>)
    ensures r.Some? ==> r.value < 16
  {
    if '0' <= c <= '9' then Some((c - '0') as nat)
    else if 'a' <= c <= 'f' then Some((c - 'a') as nat + 10)
    else if 'A' <= c <= 'F' then Some((c - 'A') as nat + 10)
    else None
  }

  predicate IsLowerHex(c: char) {
    '0' <= c <= '9' || 'a' <= c <= 'f'
  }

  function HexLower(b: seq<Byte>): (s: string)
    ensures |s| == 2 * |b|
  {
    if b == [] then ""
    else HexLower(b[..|b| - 1]) + [Digit(b[|b| - 1] / 16), Digit(b[|b| - 1] % 16)]
  }

  /** Two characters read as a byte the way the integer parser reads them: upper case is
      accepted, and so is a plus sign before a single digit. */
  function ParsePair(c: char, d: char): Option<Byte> {
    match (DigitValue(c), DigitValue(d))
    case (Some(hi), Some(lo)) => Some(hi * 16 + lo)
    case (None, Some(lo)) => if c == '+' then Some(lo) else None
    case _ => None
  }

  function ParsePairs(s: string): (r: Option<seq<Byte>>)
    requires |s| % 2 == 0
    ensures r.Some? ==> 2 * |r.value| == |s|
  {
    if s == [] then Some([])
    else
      match (ParsePairs(s[..|s| - 2]), ParsePair(s[|s| - 2], s[|s| - 1]))
      case (Some(front), Some(b)) => Some(front + [b])
      case _ => None
  }

  method DecodeHex32(s: string) returns (r: Result<seq<Byte>>)
    ensures r.Ok? <==> |s| == 64 && ParsePairs(s).Some?
    ensures r.Ok? ==> |r.value| == 32 && r.value == ParsePairs(s).value
  {
    if |s| != 64 {
      return Err;
    }
    var out: seq<Byte> := [];
    for i := 0 to 32
      invariant ParsePairs(s[..2 * i]) == Some(out)
    {
      var b := ParsePair(s[2 * i], s[2 * i + 1]);
      assert s[..2 * (i + 1)][..2 * i] == s[..2 * i];
      if b.None? {
        PairsStuck(s, i + 1);
        return Err;
      }
      out := out + [b.value];
    }
    assert s[..64] == s;
    return Ok(out);
  }

  lemma {:induction false} PairsStuck(s: string, i: nat)
    requires |s| % 2 == 0 && 2 * i <= |s| && ParsePairs(s[..2 * i]) == None
    ensures ParsePairs(s) == None
  {
    if 2 * i < |s| {
      assert s[..|s| - 2][..2 * i] == s[..2 * i];
      PairsStuck(s[..|s| - 2], i);
    } else {
      assert s[..2 * i] == s;
    }
  }

  method WriteHex(b: seq<Byte>) returns (s: string)
    ensures s == HexLower(b)
  {
    s := "";
    for i := 0 to |b|
      invariant s == HexLower(b[..i])
    {
      assert b[..i + 1][..i] == b[..i];
      s := s + [Digit(b[i] / 16), Digit(b[i] % 16)];
    }
    assert b[..|b|] == b;
  }

  const LOWER: string := "0123456789abcdef"
  const UPPER: string := "0123456789ABCDEF"

  /** Byte i becomes the characters 2i and 2i + 1, its high half first. */
  lemma {:induction false} HexLayout(b: seq<Byte>, i: nat)
    requires i < |b|
    ensures HexLower(b)[2 * i] == LOWER[b[i] / 16] && HexLower(b)[2 * i + 1] == LOWER[b[i] % 16]
  {
    var front, last := b[..|b| - 1], b[|b| - 1];
    assert b == front + [last];
    HexSnoc(front, last);
    if i < |front| {
      HexLayout(front, i);
    }
  }

  /** The reader takes both cases. */
  lemma DigitsRead(c: char, v: nat)
    ensures DigitValue(c) == Some(v) <==> v < 16 && (c == LOWER[v] || c == UPPER[v])
  {}

  /** A pair is a byte in base sixteen, high digit first, or a plus sign and one digit. */
  lemma PairReads(c: char, d: char, b: Byte)
    ensures ParsePair(c, d) == Some(b)
            <==> (DigitValue(c) == Some(b / 16) && DigitValue(d) == Some(b % 16))
                 || (c == '+' && DigitValue(d) == Some(b as nat))
  {}

  lemma DigitRoundTrip(v: nat)
    requires v < 16
    ensures DigitValue(Digit(v)) == Some(v) && IsLowerHex(Digit(v))
  {}

  lemma PairRoundTrip(b: Byte)
    ensures ParsePair(Digit(b / 16), Digit(b % 16)) == Some(b)
  {
    DigitRoundTrip(b / 16);
    DigitRoundTrip(b % 16);
  }

  lemma ParseSnoc(s: string, c: char, d: char, front: seq<Byte>, b: Byte)
    requires |s| % 2 == 0 && ParsePairs(s) == Some(front) && ParsePair(c, d) == Some(b)
    ensures ParsePairs(s + [c, d]) == Some(front + [b])
  {
    assert (s + [c, d])[..|s|] == s;
  }

  lemma HexSnoc(front: seq<Byte>, last: Byte)
    ensures HexLower(front + [last]) == HexLower(front) + [Digit(last / 16), Digit(last % 16)]
  {
    assert (front + [last])[..|front|] == front;
  }

  lemma ReadBackSnoc(front: seq<Byte>, last: Byte)
    requires ParsePairs(HexLower(front)) == Some(front)
    ensures ParsePairs(HexLower(front + [last])) == Some(front + [last])
  {
    HexSnoc(front, last);
    PairRoundTrip(last);
    ParseSnoc(HexLower(front), Digit(last / 16), Digit(last % 16), front, last);
  }

  /** What was written is read back. */
  lemma {:induction false} HexRoundTrip(b: seq<Byte>)
    ensures ParsePairs(HexLower(b)) == Some(b)
  {
    if b != [] {
      var front, last := b[..|b| - 1], b[|b| - 1];
      assert b == front + [last];
      HexRoundTrip(front);
      ReadBackSnoc(front, last);
    }
  }

  /** The other direction holds exactly for strings in lower-case hex. */
  lemma {:induction false} ReadBackIsCanonical(s: string)
    requires |s| % 2 == 0
    ensures (ParsePairs(s).Some? && HexLower(ParsePairs(s).value) == s) <==> forall c :: c in s ==> IsLowerHex(c)
  {
    if s != [] {
      var front, c, d := s[..|s| - 2], s[|s| - 2], s[|s| - 1];
      assert s == front + [c, d];
      ReadBackIsCanonical(front);
      PairIsCanonical(c, d);
      if ParsePairs(s).Some? {
        var b := ParsePairs(s).value;
        assert b[..|b| - 1] == ParsePairs(front).value;
        assert HexLower(b)[..|s| - 2] == HexLower(b[..|b| - 1]);
      }
    }
  }

  lemma DigitIsCanonical(c: char)
    ensures (DigitValue(c).Some? && Digit(DigitValue(c).value) == c) <==> IsLowerHex(c)
  {}

  lemma SplitByte(hi: nat, lo: nat)
    requires hi < 16 && lo < 16
    ensures (hi * 16 + lo) / 16 == hi && (hi * 16 + lo) % 16 == lo
  {}

  /** The two digits of b are c and d. */
  predicate Writes(b: Byte, c: char, d: char) {
    Digit(b / 16) == c && Digit(b % 16) == d
  }

  lemma PairIsCanonical(c: char, d: char)
    ensures (ParsePair(c, d).Some? && Writes(ParsePair(c, d).value, c, d)) <==> IsLowerHex(c) && IsLowerHex(d)
  {
    DigitIsCanonical(c);
    DigitIsCanonical(d);
    match (DigitValue(c), DigitValue(d))
    case (Some(hi), Some(lo)) => SplitByte(hi, lo);
    case (None, Some(lo)) => SplitByte(0, lo);
    case _ =>
  }
}
