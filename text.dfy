/** String helpers the storage layer and the export rely on: ASCII case
    folding, substring search and decimal rendering of integers. */
module Text {

  function LowerChar(c: char): char
  {
    if 'A' <= c <= 'Z' then (c as int + 32) as char else c
  }

  /** ASCII lower-casing, the stand-in for a case-insensitive collation. */
  function Lower(s: string): (r: string)
    ensures |r| == |s|
    ensures forall k :: 0 <= k < |s| ==> r[k] == LowerChar(s[k])
  {
    if s == [] then [] else [LowerChar(s[0])] + Lower(s[1..])
  }

  lemma {:induction false} LowerIdempotent(s: string)
    ensures Lower(Lower(s)) == Lower(s)
  {
    if s != [] {
      LowerIdempotent(s[1..]);
      assert Lower(s)[1..] == Lower(s[1..]);
    }
  }

  /** Does `pattern` occur as a contiguous block of `text`? */
  function Contains(text: string, pattern: string): (r: bool)
    ensures pattern == [] ==> r
    ensures r ==> |pattern| <= |text|
    decreases |text|
  {
    pattern <= text || (text != [] && Contains(text[1..], pattern))
  }

  ghost predicate OccursAt(text: string, pattern: string, i: int)
  {
    0 <= i && i + |pattern| <= |text| && text[i..i + |pattern|] == pattern
  }

  /** The recursive search agrees with the positional definition, both ways. */
  lemma ContainsIffOccurs(text: string, pattern: string)
    ensures Contains(text, pattern) <==> exists i :: OccursAt(text, pattern, i)
  {
    if Contains(text, pattern) {
      var i := FoundAt(text, pattern);
      assert OccursAt(text, pattern, i);
    }
    forall i | OccursAt(text, pattern, i) ensures Contains(text, pattern) {
      OccursImpliesContains(text, pattern, i);
    }
  }

  /** A position at which a successful search found the pattern. */
  lemma {:induction false} FoundAt(text: string, pattern: string) returns (i: int)
    requires Contains(text, pattern)
    ensures OccursAt(text, pattern, i)
    decreases |text|
  {
    if pattern <= text {
      i := 0;
    } else {
      var j := FoundAt(text[1..], pattern);
      assert text[j + 1..j + 1 + |pattern|] == text[1..][j..j + |pattern|];
      i := j + 1;
    }
  }

  lemma {:induction false} OccursImpliesContains(text: string, pattern: string, i: int)
    requires OccursAt(text, pattern, i)
    ensures Contains(text, pattern)
    decreases i
  {
    if i == 0 {
      assert pattern == text[..|pattern|];
    } else {
      assert text[1..][i - 1..i - 1 + |pattern|] == text[i..i + |pattern|];
      OccursImpliesContains(text[1..], pattern, i - 1);
    }
  }

  /** Case-insensitive containment: both sides are folded before searching. */
  function ContainsInsensitive(text: string, pattern: string): bool
  {
    Contains(Lower(text), Lower(pattern))
  }

  /** Case-insensitive containment depends on neither side's case. */
  lemma CaseDoesNotMatter(text: string, pattern: string)
    ensures ContainsInsensitive(text, pattern) == ContainsInsensitive(Lower(text), pattern)
    ensures ContainsInsensitive(text, pattern) == ContainsInsensitive(text, Lower(pattern))
  {
    LowerIdempotent(text);
    LowerIdempotent(pattern);
  }

  function Digit(d: nat): char
    requires d < 10
  {
    ('0' as int + d) as char
  }

  predicate IsDigit(c: char)
  {
    '0' <= c <= '9'
  }

  /** Decimal rendering of a natural number, most significant digit first. */
  function NatToString(n: nat): (s: string)
    ensures |s| >= 1
    ensures forall k :: 0 <= k < |s| ==> IsDigit(s[k])
  {
    if n < 10 then [Digit(n)] else NatToString(n / 10) + [Digit(n % 10)]
  }

  /** Decimal rendering as JavaScript prints an integer: a leading '-' for
      negatives. */
  function IntToString(i: int): (s: string)
    ensures forall k :: 0 <= k < |s| ==> IsDigit(s[k]) || (k == 0 && s[k] == '-')
  {
    if i < 0 then "-" + NatToString(-i) else NatToString(i)
  }

  function ParseNat(s: string): nat
  {
    if s == [] then 0
    else ParseNat(s[..|s| - 1]) * 10 + DigitValue(s[|s| - 1])
  }

  function DigitValue(c: char): nat
  {
    if IsDigit(c) then c as int - '0' as int else 0
  }

  /** Reading an integer back from its decimal rendering. */
  function ParseInt(s: string): int
  {
    if |s| > 0 && s[0] == '-' then 0 - ParseNat(s[1..]) else ParseNat(s) as int
  }

  lemma {:induction false} NatRoundTrip(n: nat)
    ensures ParseNat(NatToString(n)) == n
  {
    var s := NatToString(n);
    if n >= 10 {
      NatRoundTrip(n / 10);
      assert s[..|s| - 1] == NatToString(n / 10);
    }
  }

  /** The decimal rendering loses nothing: it reads back as the same integer. */
  lemma IntRoundTrip(i: int)
    ensures ParseInt(IntToString(i)) == i
  {
    NatRoundTrip(if i < 0 then -i else i);
    if i < 0 {
      assert IntToString(i)[1..] == NatToString(-i);
    }
  }
}
