/** The few pieces of JavaScript's string and number behaviour the front end
    relies on: `Number.prototype.toString(radix)` on integers, `padStart`,
    `substring(0, n)`, and the string ordering used by `Array.prototype.sort`. */
module JsText {

  function Min(a: int, b: int): int { if a <= b then a else b }

  /** The digit character `toString(radix)` writes for the value `d`
      (digits above nine are lower-case letters). */
  function DigitChar(d: nat): (c: char)
    requires d < 36
  {
    if d < 10 then ('0' as int + d) as char else ('a' as int + d - 10) as char
  }

  /** The value of a digit character, or 36 for any other character. */
  function DigitValue(c: char): (d: nat)
    ensures d <= 36
  {
    if '0' <= c <= '9' then c as int - '0' as int
    else if 'a' <= c <= 'z' then c as int - 'a' as int + 10
    else 36
  }

  predicate IsDigitIn(c: char, radix: nat) { DigitValue(c) < radix }

  lemma DigitRoundTrip(d: nat)
    requires d < 36
    ensures DigitValue(DigitChar(d)) == d
  {
  }

  /** `n.toString(radix)` for a non-negative integer `n`. */
  function NatToRadix(n: nat, radix: nat): (s: string)
    requires 2 <= radix <= 36
    ensures |s| >= 1
    ensures forall i :: 0 <= i < |s| ==> IsDigitIn(s[i], radix)
    ensures |s| > 1 ==> s[0] != '0'
    decreases n
  {
    if n < radix then [DigitChar(n)]
    else
      DivideByRadix(n, radix);
      NatToRadix(n / radix, radix) + [DigitChar(n % radix)]
  }

  lemma DivideByRadix(n: nat, radix: nat)
    requires 2 <= radix <= n
    ensures 1 <= n / radix < n && n % radix < radix
    ensures n == (n / radix) * radix + n % radix
  {
  }

  /** `n.toString(radix)` for any integer `n`: a minus sign, then the digits of `-n`. */
  function IntToRadix(n: int, radix: nat): string
    requires 2 <= radix <= 36
  {
    if n < 0 then "-" + NatToRadix(-n, radix) else NatToRadix(n, radix)
  }

  /** Reads a string of digits back as a number (most significant digit first). */
  function ParseRadix(s: string, radix: nat): nat
    decreases |s|
  {
    if s == [] then 0 else ParseRadix(s[..|s| - 1], radix) * radix + DigitValue(s[|s| - 1])
  }

  /** Leading zeros do not change the value a digit string denotes. */
  lemma {:induction false} ParseRadixLeadingZeros(z: string, s: string, radix: nat)
    requires forall i :: 0 <= i < |z| ==> z[i] == '0'
    ensures ParseRadix(z + s, radix) == ParseRadix(s, radix)
    decreases |s|
  {
    if s == [] {
      ParseRadixOfZeros(z, radix);
      assert z + s == z;
    } else {
      var s' := s[..|s| - 1];
      assert (z + s)[..|z + s| - 1] == z + s';
      ParseRadixLeadingZeros(z, s', radix);
    }
  }

  lemma {:induction false} ParseRadixOfZeros(z: string, radix: nat)
    requires forall i :: 0 <= i < |z| ==> z[i] == '0'
    ensures ParseRadix(z, radix) == 0
    decreases |z|
  {
    if z != [] {
      ParseRadixOfZeros(z[..|z| - 1], radix);
    }
  }

  /** Writing a number in a radix and reading it back gives the number. */
  lemma {:induction false} RadixRoundTrip(n: nat, radix: nat)
    requires 2 <= radix <= 36
    ensures ParseRadix(NatToRadix(n, radix), radix) == n
    decreases n
  {
    if n < radix {
      DigitRoundTrip(n);
      assert [DigitChar(n)][..0] == [];
    } else {
      var q, d := n / radix, n % radix;
      DivideByRadix(n, radix);
      var head := NatToRadix(q, radix);
      assert NatToRadix(n, radix) == head + [DigitChar(d)];
      ParseSnoc(head, DigitChar(d), radix);
      RadixRoundTrip(q, radix);
      DigitRoundTrip(d);
      assert ParseRadix(head + [DigitChar(d)], radix) == q * radix + d;
    }
  }

  lemma ParseSnoc(s: string, c: char, radix: nat)
    ensures ParseRadix(s + [c], radix) == ParseRadix(s, radix) * radix + DigitValue(c)
  {
    assert (s + [c])[..|s|] == s;
  }

  /** A byte written in base 36 takes one digit below 36 and two from there on. */
  lemma ByteInBase36(b: nat)
    requires b < 256
    ensures b < 36 ==> |NatToRadix(b, 36)| == 1
    ensures 36 <= b ==> |NatToRadix(b, 36)| == 2
  {
    if 36 <= b {
      assert b / 36 < 36;
    }
  }

  /** `s.padStart(targetLength, fill)`: `fill` repeated on the left until the
      string has `targetLength` characters; a longer string is left alone. */
  function PadStart(s: string, targetLength: nat, fill: char): (r: string)
    ensures |r| == if |s| < targetLength then targetLength else |s|
    ensures r[|r| - |s|..] == s
    ensures forall i :: 0 <= i < |r| - |s| ==> r[i] == fill
  {
    if |s| < targetLength then seq(targetLength - |s|, _ => fill) + s else s
  }

  /** `s.substring(0, n)` for a non-negative `n`. */
  function Substring0(s: string, n: nat): (r: string)
    ensures |r| == Min(|s|, n)
    ensures r <= s
  {
    if |s| <= n then s else s[..n]
  }

  /** JavaScript's `a < b` on strings: lexicographic by character, a proper
      prefix being smaller. */
  predicate Less(a: string, b: string)
    decreases |a|
  {
    if b == [] then false
    else if a == [] then true
    else if a[0] != b[0] then a[0] < b[0]
    else Less(a[1..], b[1..])
  }

  lemma {:induction false} LessIrreflexive(a: string)
    ensures !Less(a, a)
    decreases |a|
  {
    if a != [] {
      LessIrreflexive(a[1..]);
    }
  }

  /** Two different strings are ordered one way and not the other. */
  lemma {:induction false} LessTrichotomy(a: string, b: string)
    requires a != b
    ensures Less(a, b) != Less(b, a)
    decreases |a|
  {
    if a != [] && b != [] && a[0] == b[0] {
      assert a == [a[0]] + a[1..] && b == [b[0]] + b[1..];
      LessTrichotomy(a[1..], b[1..]);
    }
  }

  /** `[a, b].sort()`: the default comparator swaps the pair exactly when
      `b < a`. */
  function SortPair(a: string, b: string): (r: seq<string>)
  {
    if Less(b, a) then [b, a] else [a, b]
  }

  /** The sorted pair does not depend on the order of the inputs, and holds
      them both. */
  lemma SortPairSymmetric(a: string, b: string)
    ensures SortPair(a, b) == SortPair(b, a)
    ensures multiset(SortPair(a, b)) == multiset{a, b}
    ensures !Less(SortPair(a, b)[1], SortPair(a, b)[0])
  {
    if a == b {
      LessIrreflexive(a);
    } else {
      LessTrichotomy(a, b);
    }
  }
}
