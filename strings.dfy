/** Character and decimal-number helpers shared by the key parsers: the `\D` / `\d`
    character classes, `parseInt(s, 10)` on a run of digits, template-literal
    formatting of a natural number, `String.prototype.indexOf` and `startsWith`. */
module Strings {

  /** The lookup string both `src/game-machine.ts` and `BoardQueryer.ts` use to map a
      column letter to its index. */
  const Alphabet: string := "abcdefghijklmnopqrstuvwxyz"

  predicate IsDigit(c: char) {
    '0' <= c <= '9'
  }

  predicate AllDigits(s: string) {
    forall i :: 0 <= i < |s| ==> IsDigit(s[i])
  }

  predicate NoDigits(s: string) {
    forall i :: 0 <= i < |s| ==> !IsDigit(s[i])
  }

  function DigitValue(c: char): (d: nat)
    requires IsDigit(c)
    ensures d < 10
  {
    c as int - '0' as int
  }

  function DigitChar(d: nat): (c: char)
    requires d < 10
    ensures IsDigit(c) && DigitValue(c) == d
  {
    ('0' as int + d) as char
  }

  /** `parseInt(s, 10)` for a string made only of decimal digits (the empty string,
      for which JavaScript answers NaN, is given the value 0 and never used so). */
  function ParseDecimal(s: string): nat
    requires AllDigits(s)
    decreases |s|
  {
    if s == [] then 0 else ParseDecimal(s[..|s| - 1]) * 10 + DigitValue(s[|s| - 1])
  }

  /** A decimal numeral without superfluous leading zeros. */
  predicate Canonical(s: string) {
    |s| > 0 && AllDigits(s) && (|s| > 1 ==> s[0] != '0')
  }

  /** A property name that JavaScript treats as an array index: the canonical numeral of
      a number below 2^32 - 1. An object lists such keys before all others, in numeric
      order, whatever order they were added in. */
  predicate ArrayIndex(s: string) {
    Canonical(s) && ParseDecimal(s) < 0xFFFF_FFFF
  }

  /** The text that `${n}` produces for a natural number `n`. */
  function DecimalString(n: nat): (s: string)
    ensures Canonical(s)
    ensures n < 10 <==> |s| == 1
  {
    if n < 10 then [DigitChar(n)] else DecimalString(n / 10) + [DigitChar(n % 10)]
  }

  /** Formatting and then parsing a number yields the number back. */
  lemma {:induction false} ParseDecimalString(n: nat)
    ensures ParseDecimal(DecimalString(n)) == n
  {
    var s := DecimalString(n);
    if n >= 10 {
      ParseDecimalString(n / 10);
      assert s[..|s| - 1] == DecimalString(n / 10);
    }
  }

  lemma {:induction false} ParseDecimalPositive(s: string)
    requires Canonical(s) && s[0] != '0'
    ensures ParseDecimal(s) >= 1
  {
    if |s| > 1 {
      var front := s[..|s| - 1];
      assert front[0] == s[0];
      ParseDecimalPositive(front);
    }
  }

  /** Parsing a canonical numeral and formatting the value yields the numeral back. */
  lemma {:induction false} DecimalStringParse(s: string)
    requires Canonical(s)
    ensures DecimalString(ParseDecimal(s)) == s
  {
    if |s| > 1 {
      var front := s[..|s| - 1];
      assert front[0] == s[0];
      assert Canonical(front);
      ParseDecimalPositive(front);
      DecimalStringParse(front);
      var v := ParseDecimal(s);
      var d := DigitValue(s[|s| - 1]);
      assert v == ParseDecimal(front) * 10 + d;
      assert v / 10 == ParseDecimal(front) && v % 10 == d;
      assert DigitChar(d) == s[|s| - 1];
      assert s == front + [s[|s| - 1]];
    }
  }

  /** The length of the match of the pattern "leading non-digits": how many characters precede the first digit. */
  function LeadingNonDigits(s: string): (n: nat)
    ensures n <= |s| && NoDigits(s[..n])
    ensures n < |s| ==> IsDigit(s[n])
  {
    if s == [] || IsDigit(s[0]) then 0
    else
      var n := 1 + LeadingNonDigits(s[1..]);
      assert s[..n] == [s[0]] + s[1..][..n - 1];
      n
  }

  /** A prefix free of digits followed by a string that starts with a digit splits exactly there. */
  lemma {:induction false} LeadingNonDigitsSplit(p: string, d: string)
    requires NoDigits(p) && |d| > 0 && IsDigit(d[0])
    ensures LeadingNonDigits(p + d) == |p|
  {
    if p != [] {
      assert (p + d)[1..] == p[1..] + d;
      LeadingNonDigitsSplit(p[1..], d);
    }
  }

  /** `s.replace(/\D/g, '')`: the digits of `s`, in order. */
  function StripNonDigits(s: string): (r: string)
    ensures AllDigits(r) && |r| <= |s|
    ensures AllDigits(s) ==> r == s
  {
    if s == [] then []
    else if IsDigit(s[0]) then [s[0]] + StripNonDigits(s[1..])
    else StripNonDigits(s[1..])
  }

  lemma {:induction false} StripNonDigitsSplit(p: string, d: string)
    requires NoDigits(p) && AllDigits(d)
    ensures StripNonDigits(p + d) == d
  {
    if p != [] {
      assert (p + d)[1..] == p[1..] + d;
      StripNonDigitsSplit(p[1..], d);
    }
  }

  predicate StartsWith(s: string, prefix: string) {
    |prefix| <= |s| && s[..|prefix|] == prefix
  }

  /** Whether `needle` occurs in `hay` at offset `i`. */
  predicate OccursAt(hay: string, needle: string, i: int) {
    0 <= i && i + |needle| <= |hay| && hay[i..i + |needle|] == needle
  }

  /** `hay.indexOf(needle, from)`: the first offset at or after `from` where `needle`
      occurs, or -1 when there is none. */
  function IndexOfFrom(hay: string, needle: string, from: nat): (r: int)
    ensures r == -1 || (from <= r && OccursAt(hay, needle, r))
    ensures forall i :: from <= i && (r == -1 || i < r) ==> !OccursAt(hay, needle, i)
    decreases |hay| - from
  {
    if from + |needle| > |hay| then -1
    else if hay[from..from + |needle|] == needle then from
    else IndexOfFrom(hay, needle, from + 1)
  }

  function IndexOf(hay: string, needle: string): (r: int)
    ensures r == -1 || OccursAt(hay, needle, r)
    ensures forall i :: 0 <= i && (r == -1 || i < r) ==> !OccursAt(hay, needle, i)
  {
    IndexOfFrom(hay, needle, 0)
  }

  lemma AlphabetLetters()
    ensures |Alphabet| == 26
    ensures forall i :: 0 <= i < 26 ==> Alphabet[i] as int == 'a' as int + i
  {
  }

  /** A lower-case letter is found in the alphabet at its distance from 'a'; any
      other single character is not found. */
  lemma LetterIndex(c: char)
    ensures 'a' <= c <= 'z' ==> IndexOf(Alphabet, [c]) == c as int - 'a' as int
    ensures !('a' <= c <= 'z') ==> IndexOf(Alphabet, [c]) == -1
  {
    AlphabetLetters();
    var r := IndexOf(Alphabet, [c]);
    if 'a' <= c <= 'z' {
      var k := c as int - 'a' as int;
      assert OccursAt(Alphabet, [c], k);
      forall i | 0 <= i < k ensures !OccursAt(Alphabet, [c], i) {
        assert Alphabet[i..i + 1] == [Alphabet[i]];
      }
    } else {
      forall i | 0 <= i < 26 ensures !OccursAt(Alphabet, [c], i) {
        assert Alphabet[i..i + 1] == [Alphabet[i]];
      }
    }
  }
}
