/**
 Timestamps as the store writes them: RFC 3339 in UTC, the fraction of a second without its trailing zeros. Columns are
 compared as text, and this is what that comparison makes of time.

 Up to the second the text has a fixed width, so there texts compare as seconds do; what follows the second is spelt out.
 */
module Stamps {
  import opened Zone

  /** Whole seconds since the epoch, and the nanoseconds past them. */
  function Second(t: int): int {
    t / SECOND
  }

  function Past(t: int): (n: int)
    ensures 0 <= n < SECOND
  {
    t % SECOND
  }

  function Ten(n: nat): (p: int)
    ensures p > 0
  {
    if n == 0 then 1 else 10 * Ten(n - 1)
  }

  predicate IsDigit(c: char) {
    '0' <= c <= '9'
  }

  function Digit(d: int): (c: char)
    ensures IsDigit(c)
  {
    if 0 <= d <= 9 then '0' + d as char else '0'
  }

  /** f in n digits. */
  function Digits(f: int, n: nat): string
    decreases n
  {
    if n == 0 then "" else [Digit(f / Ten(n - 1))] + Digits(f % Ten(n - 1), n - 1)
  }

  /** The same, stopping where only zeros would follow. */
  function Fraction(f: int, n: nat): string
    decreases n
  {
    if n == 0 || f == 0 then "" else [Digit(f / Ten(n - 1))] + Fraction(f % Ten(n - 1), n - 1)
  }

  /** What a string of digits says. */
  function Said(s: string): int {
    if s == "" then 0 else (s[0] as int - '0' as int) * Ten(|s| - 1) + Said(s[1..])
  }

  /** The digits of a number say it. */
  lemma {:induction false} DigitsReadBack(f: int, n: nat)
    requires 0 <= f < Ten(n)
    ensures |Digits(f, n)| == n && Said(Digits(f, n)) == f && forall i :: 0 <= i < n ==> IsDigit(Digits(f, n)[i])
    decreases n
  {
    if n > 0 {
      FirstDigit(f, n);
      DigitsReadBack(f % Ten(n - 1), n - 1);
      assert Digits(f, n)[1..] == Digits(f % Ten(n - 1), n - 1);
    }
  }

  function Zeros(n: nat): string {
    if n == 0 then "" else "0" + Zeros(n - 1)
  }

  /** So it is the digits without their trailing zeros. */
  lemma {:induction false} FractionIsTrimmed(f: int, n: nat)
    requires 0 <= f < Ten(n)
    ensures |Fraction(f, n)| <= n && Digits(f, n) == Fraction(f, n) + Zeros(n - |Fraction(f, n)|)
    ensures Fraction(f, n) != "" ==> Fraction(f, n)[|Fraction(f, n)| - 1] != '0'
    decreases n
  {
    if f == 0 {
      ZeroDigits(n);
    } else if n > 0 {
      FirstDigit(f, n);
      FractionIsTrimmed(f % Ten(n - 1), n - 1);
      DigitThenRest(Digit(f / Ten(n - 1)), Fraction(f % Ten(n - 1), n - 1), n);
      if Fraction(f % Ten(n - 1), n - 1) == "" {
        ShortestIsZero(f % Ten(n - 1), n - 1);
      }
    }
  }

  lemma DigitThenRest(c: char, rest: string, n: nat)
    requires |rest| < n
    ensures [c] + (rest + Zeros(n - 1 - |rest|)) == ([c] + rest) + Zeros(n - |[c] + rest|)
  {
  }

  lemma ShortestIsZero(f: int, n: nat)
    requires 0 <= f < Ten(n) && Fraction(f, n) == ""
    ensures f == 0
  {
  }

  lemma {:induction false} ZeroDigits(n: nat)
    ensures Digits(0, n) == Zeros(n)
    decreases n
  {
    if n > 0 {
      ZeroDigits(n - 1);
      NoneOf(Ten(n - 1));
    }
  }

  lemma NoneOf(p: int)
    requires p > 0
    ensures 0 / p == 0 && 0 % p == 0
  {
  }

  lemma LessTimes(x: int, y: int, p: int)
    requires x < y && p > 0
    ensures (x + 1) * p <= y * p
  {
    assert y * p - (x + 1) * p == (y - x - 1) * p;
  }

  lemma Divided(f: int, p: int)
    requires p > 0
    ensures f == f / p * p + f % p && 0 <= f % p < p
  {
  }

  lemma FirstDigit(f: int, n: nat)
    requires n > 0 && 0 <= f < Ten(n)
    ensures 0 <= f / Ten(n - 1) <= 9 && f == f / Ten(n - 1) * Ten(n - 1) + f % Ten(n - 1)
    ensures f > 0 && f % Ten(n - 1) == 0 ==> f / Ten(n - 1) > 0
  {
    var p := Ten(n - 1);
    Divided(f, p);
    if f / p >= 10 {
      LessTimes(9, f / p, p);
    } else if f / p < 0 {
      LessTimes(f / p, 0, p);
    }
  }

  /** What stands after the second. */
  function Tail(f: int): string {
    if f == 0 then "Z" else "." + Fraction(f, 9) + "Z"
  }

  /** SQLite's comparison of text, byte by byte. */
  predicate Less(s: string, t: string) {
    t != "" && (s == "" || s[0] < t[0] || (s[0] == t[0] && Less(s[1..], t[1..])))
  }

  /** The text of a comes before the text of b. */
  predicate TextBefore(a: int, b: int) {
    Second(a) < Second(b) || (Second(a) == Second(b) && Less(Tail(Past(a)), Tail(Past(b))))
  }

  lemma DigitsApart(f: int, g: int, p: int)
    requires p > 0 && 0 <= f < g
    ensures f / p < g / p || (f / p == g / p && f % p < g % p)
  {
    Divided(f, p);
    Divided(g, p);
    if f / p > g / p {
      LessTimes(g / p, f / p, p);
    }
  }

  /** Of two fractions the smaller one sorts first, except when the other only continues it. */
  lemma {:induction false} FractionOrder(f: int, g: int, n: nat)
    requires 0 <= f < g < Ten(n)
    ensures Less(Fraction(f, n) + "Z", Fraction(g, n) + "Z") <==> !(Fraction(f, n) <= Fraction(g, n))
    ensures Less(Fraction(g, n) + "Z", Fraction(f, n) + "Z") <==> Fraction(f, n) <= Fraction(g, n)
  {
    if n > 0 {
      FirstDigit(f, n);
      FirstDigit(g, n);
      DigitsApart(f, g, Ten(n - 1));
      Unfold(g, n);
      if f > 0 {
        Unfold(f, n);
        if f / Ten(n - 1) == g / Ten(n - 1) {
          FractionOrder(f % Ten(n - 1), g % Ten(n - 1), n - 1);
        }
      }
    }
  }

  lemma Unfold(f: int, n: nat)
    requires n > 0 && f > 0
    ensures Fraction(f, n) != "" && Fraction(f, n)[0] == Digit(f / Ten(n - 1))
    ensures Fraction(f, n)[1..] == Fraction(f % Ten(n - 1), n - 1)
    ensures (Fraction(f, n) + "Z")[0] == Digit(f / Ten(n - 1))
    ensures (Fraction(f, n) + "Z")[1..] == Fraction(f % Ten(n - 1), n - 1) + "Z"
  {
  }

  /** Text order is time order if and only if the two instants lie in different seconds, or the earlier one's fraction, none
      at all included, is not the beginning of the later one's; where it is not, the texts are in the opposite order. */
  lemma TextOrderExact(a: int, b: int)
    requires a < b
    ensures TextBefore(a, b) <==> Second(a) != Second(b) || !(Fraction(Past(a), 9) <= Fraction(Past(b), 9))
    ensures TextBefore(b, a) <==> !TextBefore(a, b)
  {
    NineDigits();
    if Second(a) == Second(b) {
      FractionOrder(Past(a), Past(b), 9);
      TailOrder(Past(a), Past(b));
    }
  }

  lemma NineDigits()
    ensures Ten(9) == SECOND
  {
    assert Ten(3) == 1000;
    assert Ten(6) == 1_000_000;
  }

  lemma TailOrder(f: int, g: int)
    requires 0 < g && 0 <= f
    ensures Less(Tail(f), Tail(g)) <==> f > 0 && Less(Fraction(f, 9) + "Z", Fraction(g, 9) + "Z")
    ensures Less(Tail(g), Tail(f)) <==> f == 0 || Less(Fraction(g, 9) + "Z", Fraction(f, 9) + "Z")
  {
    AfterDot(Fraction(f, 9), Fraction(g, 9));
    AfterDot(Fraction(g, 9), Fraction(f, 9));
  }

  lemma AfterDot(x: string, y: string)
    ensures Less("." + x + "Z", "." + y + "Z") <==> Less(x + "Z", y + "Z")
    ensures Less("." + x + "Z", "Z") && !Less("Z", "." + x + "Z")
  {
    assert ("." + x + "Z")[1..] == x + "Z";
    assert ("." + y + "Z")[1..] == y + "Z";
  }

  /** A whole second sorts after half a second more, and that after half a second and a bit more. */
  lemma TextOrderFails()
    ensures TextBefore(500_000_000, 0) && !TextBefore(0, 500_000_000)
    ensures TextBefore(550_000_000, 500_000_000) && !TextBefore(500_000_000, 550_000_000)
  {
    TextOrderExact(0, 500_000_000);
    TextOrderExact(500_000_000, 550_000_000);
    TextOfHalves();
  }

  lemma TextOfHalves()
    ensures Fraction(500_000_000, 9) == "5" && Fraction(550_000_000, 9) == "55"
  {
    assert Ten(8) == 100_000_000 && Ten(7) == 10_000_000;
    assert Fraction(0, 8) == "";
    assert Fraction(50_000_000, 8) == [Digit(5)] + Fraction(0, 7);
  }

  /** What a column compared with a whole second gives, as the bounds of rollup windows are: everything before it, and all of
      the second it begins but the very first instant. */
  lemma BeforeWholeSecond(t: int, bound: int)
    requires bound % SECOND == 0
    ensures TextBefore(t, bound) <==> t < bound || bound < t < bound + SECOND
  {
    if t > bound && Second(t) == Second(bound) {
      TextOrderExact(bound, t);
    } else if t == bound {
      NotBeforeItself(Tail(Past(t)));
    }
  }

  lemma {:induction false} NotBeforeItself(s: string)
    ensures !Less(s, s)
  {
    if s != "" {
      NotBeforeItself(s[1..]);
    }
  }

  /** The instant a timestamp stands for in such a comparison: a fraction moves it a second back. */
  function Filed(t: int): int {
    if t % SECOND == 0 then t else t - SECOND
  }

  lemma FiledBack(t: int)
    requires t % SECOND != 0
    ensures (t - SECOND) % SECOND == t % SECOND
  {
  }

  /** A window between two whole seconds, read as text, holds what is filed in it, and no two instants are filed as one. */
  lemma WindowByText(t: int, u: int, from: int, until: int)
    requires from % SECOND == 0 && until % SECOND == 0 && from < until
    ensures !TextBefore(t, from) && TextBefore(t, until) <==> from <= Filed(t) < until
    ensures Filed(t) == Filed(u) ==> t == u
  {
    FiledBefore(t, from);
    FiledBefore(t, until);
    if t % SECOND != 0 {
      FiledBack(t);
    }
    if u % SECOND != 0 {
      FiledBack(u);
    }
  }

  lemma FiledBefore(t: int, bound: int)
    requires bound % SECOND == 0
    ensures TextBefore(t, bound) <==> Filed(t) < bound
  {
    BeforeWholeSecond(t, bound);
    if t % SECOND != 0 {
      WholeSecondsApart(t - SECOND, bound);
    }
  }

  lemma WholeSecondsApart(t: int, bound: int)
    requires bound % SECOND == 0 && t % SECOND != 0
    ensures t != bound && t + SECOND != bound
  {
  }
}
