/** Numbers as text in a base up to sixteen, as strconv and math/big print and read them. */
module Numerals {

  predicate Base(b: nat) { 2 <= b <= 16 }

  /** What `c` counts for as a digit, in either case; sixteen when it is none. */
  function Digit(c: char): nat {
    if '0' <= c <= '9' then (c - '0') as nat
    else if 'a' <= c <= 'f' then (c - 'a') as nat + 10
    else if 'A' <= c <= 'F' then (c - 'A') as nat + 10
    else 16
  }

  function DigitChar(d: nat): (c: char)
    requires d < 16
    ensures Digit(c) == d
  {
    if d < 10 then '0' + d as char else 'a' + (d - 10) as char
  }

  const LOWER := "0123456789abcdef"
  const UPPER := "0123456789ABCDEF"

  /** The digits are those of the two rows, and no other character. */
  lemma DigitIff(c: char)
    ensures Digit(c) < 16 <==> c in "0123456789abcdefABCDEF"
  {
  }

  /** Each digit counts for its place in its row, and the first row is the one printed. */
  lemma DigitRows(i: nat)
    requires i < 16
    ensures Digit(LOWER[i]) == Digit(UPPER[i]) == i && DigitChar(i) == LOWER[i]
  {
    if i < 10 {
      assert LOWER[i] == UPPER[i] == '0' + i as char;
    } else {
      assert LOWER[i] == 'a' + (i - 10) as char && UPPER[i] == 'A' + (i - 10) as char;
    }
  }

  predicate AllDigits(s: string, b: nat) {
    forall i :: 0 <= i < |s| ==> Digit(s[i]) < b
  }

  function Value(s: string, b: nat): nat
    requires Base(b) && AllDigits(s, b)
  {
    if s == "" then 0 else b * Value(s[..|s| - 1], b) + Digit(s[|s| - 1])
  }

  /** Lower case, with no leading zero, "0" for nought. */
  function Text(n: nat, b: nat): (s: string)
    requires Base(b)
    ensures s != "" && AllDigits(s, b)
  {
    if n < b then [DigitChar(n)] else Text(n / b, b) + [DigitChar(n % b)]
  }

  lemma Division(n: nat, b: nat)
    requires Base(b)
    ensures n == b * (n / b) + n % b && 0 <= n % b < b && (n >= b ==> 0 < n / b < n)
  {
  }

  lemma ValueOfLast(s: string, d: nat, b: nat)
    requires Base(b) && AllDigits(s, b) && d < b
    ensures AllDigits(s + [DigitChar(d)], b) && Value(s + [DigitChar(d)], b) == b * Value(s, b) + d
  {
    var t := s + [DigitChar(d)];
    assert t[..|t| - 1] == s;
  }

  lemma TextUnfolds(n: nat, b: nat)
    requires Base(b)
    ensures Text(n, b) == if n < b then [DigitChar(n)] else Text(n / b, b) + [DigitChar(n % b)]
  {
  }

  lemma ValueOfNothing(b: nat)
    requires Base(b)
    ensures Value("", b) == 0
  {
  }

  lemma {:induction false} ValueOfText(n: nat, b: nat)
    requires Base(b)
    ensures Value(Text(n, b), b) == n
  {
    TextUnfolds(n, b);
    hide Value, Text;
    var q, d := n / b, n % b;
    Division(n, b);
    if n < b {
      ValueOfLast("", n, b);
      ValueOfNothing(b);
      assert "" + [DigitChar(n)] == [DigitChar(n)];
    } else {
      assert q < n;
      ValueOfText(q, b);
      ValueOfLast(Text(q, b), d, b);
    }
  }

  lemma TextIsInjective(m: nat, n: nat, b: nat)
    requires Base(b) && Text(m, b) == Text(n, b)
    ensures m == n
  {
    ValueOfText(m, b);
    ValueOfText(n, b);
  }

  /** Two texts that differ only in the case of their digits have the same value. */
  lemma {:induction false} ValueIgnoresCase(s: string, t: string, b: nat)
    requires Base(b) && AllDigits(s, b) && |s| == |t| && forall i :: 0 <= i < |s| ==> Digit(s[i]) == Digit(t[i])
    ensures AllDigits(t, b) && Value(s, b) == Value(t, b)
  {
    if s == "" {
    } else {
      ValueIgnoresCase(s[..|s| - 1], t[..|t| - 1], b);
    }
  }

  lemma {:induction false} ValueIgnoresLeadingZero(s: string, b: nat)
    requires Base(b) && AllDigits(s, b)
    ensures AllDigits("0" + s, b) && Value("0" + s, b) == Value(s, b)
  {
    var t := "0" + s;
    assert forall i :: 0 < i < |t| ==> t[i] == s[i - 1];
    if s == "" {
      assert t[..0] == "";
    } else {
      assert t[..|t| - 1] == "0" + s[..|s| - 1];
      ValueIgnoresLeadingZero(s[..|s| - 1], b);
    }
  }

  /** The first digit says whether a text is shorter than it looks: only nought starts with '0'. */
  lemma {:induction false} TextHasNoLeadingZero(n: nat, b: nat)
    requires Base(b) && n > 0
    ensures Text(n, b)[0] != '0'
  {
    Division(n, b);
    if n >= b {
      TextHasNoLeadingZero(n / b, b);
      assert Text(n, b)[0] == Text(n / b, b)[0];
    } else {
      assert Digit(Text(n, b)[0]) == n;
    }
  }
}
