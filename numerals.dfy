/**
 * Decimal text of integers, as Python's `str` prints an `int` and `int`
 * reads a string back, and `numjoin` (bnf-lang.py), which glues two printed
 * numbers together and reads the result as one integer.
 */
module Numerals {
  import opened Wrappers

  predicate IsDigit(c: char) { '0' <= c <= '9' }

  predicate AllDigits(s: string) { forall k | 0 <= k < |s| :: IsDigit(s[k]) }

  function DigitValue(c: char): (v: nat)
    requires IsDigit(c)
    ensures v < 10
  {
    c as int - '0' as int
  }

  function DigitChar(v: nat): (c: char)
    requires v < 10
    ensures IsDigit(c) && DigitValue(c) == v
  {
    ('0' as int + v) as char
  }

  function Pow10(n: nat): (p: nat)
    ensures p >= 1
  {
    if n == 0 then 1 else 10 * Pow10(n - 1)
  }

  /** The number a string of decimal digits denotes (leading zeros allowed, as `int` allows them). */
  function DigitsValue(s: string): nat
    requires AllDigits(s)
  {
    if s == [] then 0 else 10 * DigitsValue(s[..|s| - 1]) + DigitValue(s[|s| - 1])
  }

  /** Python's `str` of a non-negative int: shortest decimal digits, no leading zero. */
  function NatStr(n: nat): (s: string)
    ensures |s| > 0 && AllDigits(s)
    ensures s[0] == '0' ==> n == 0 && s == "0"
  {
    if n < 10 then [DigitChar(n)] else NatStr(n / 10) + [DigitChar(n % 10)]
  }

  /** Python's `str` of an int: a minus sign before the digits of a negative number. */
  function Str(n: int): string
  {
    if n < 0 then "-" + NatStr(-n) else NatStr(n)
  }

  /**
   * Python's `int` applied to a string of digits and minus signs: an optional
   * leading minus sign followed by at least one digit, anything else raises
   * ValueError (`None`).
   */
  function ParseInt(s: string): Option<int>
  {
    if |s| > 1 && s[0] == '-' && AllDigits(s[1..]) then Some(-(DigitsValue(s[1..]) as int))
    else if |s| > 0 && AllDigits(s) then Some(DigitsValue(s))
    else None
  }

  /** numjoin(a, b) == int(str(a) + str(b)). */
  function NumJoin(a: int, b: int): Option<int>
  {
    ParseInt(Str(a) + Str(b))
  }

  /** Reading back the printed digits of `n` gives `n`. */
  lemma {:induction false} NatStrValue(n: nat)
    ensures DigitsValue(NatStr(n)) == n
  {
    if n >= 10 {
      NatStrValue(n / 10);
      var s := NatStr(n);
      assert s[..|s| - 1] == NatStr(n / 10);
    }
  }

  /** `int(str(n)) == n` for every int `n`. */
  lemma ParseIntStr(n: int)
    ensures ParseInt(Str(n)) == Some(n)
  {
    if n < 0 {
      assert Str(n)[1..] == NatStr(-n);
      NatStrValue(-n);
    } else {
      NatStrValue(n);
    }
  }

  /** The value of concatenated digit strings: the left part shifted by the length of the right part. */
  lemma {:induction false} DigitsValueAppend(s: string, t: string)
    requires AllDigits(s) && AllDigits(t)
    ensures AllDigits(s + t)
    ensures DigitsValue(s + t) == DigitsValue(s) * Pow10(|t|) + DigitsValue(t)
    decreases |t|
  {
    var u := s + t;
    assert AllDigits(u) by {
      forall k | 0 <= k < |u| ensures IsDigit(u[k]) {
        if k >= |s| {
          assert u[k] == t[k - |s|];
        }
      }
    }
    if t == [] {
      assert u == s;
    } else {
      var init := t[..|t| - 1];
      assert u[..|u| - 1] == s + init;
      assert u[|u| - 1] == t[|t| - 1];
      DigitsValueAppend(s, init);
      Shift(DigitsValue(s), Pow10(|init|), DigitsValue(init), DigitValue(t[|t| - 1]));
    }
  }

  lemma Shift(vs: nat, p: nat, vi: nat, last: nat)
    ensures 10 * (vs * p + vi) + last == vs * (10 * p) + (10 * vi + last)
  {
  }

  /** A leading zero does not change the value of a digit string. */
  lemma LeadingZero(s: string)
    requires AllDigits(s)
    ensures AllDigits("0" + s) && DigitsValue("0" + s) == DigitsValue(s)
  {
    DigitsValueAppend("0", s);
  }

  /** Printing the value of a digit string without a superfluous leading zero gives the string back. */
  lemma {:induction false} CanonicalDigits(s: string)
    requires |s| > 0 && AllDigits(s) && (s[0] == '0' ==> |s| == 1)
    ensures NatStr(DigitsValue(s)) == s
    decreases |s|
  {
    if |s| > 1 {
      var init := s[..|s| - 1];
      CanonicalDigits(init);
      var v := DigitsValue(s);
      assert v / 10 == DigitsValue(init) && v % 10 == DigitValue(s[|s| - 1]);
      assert NatStr(0) == "0";
      assert DigitsValue(init) > 0;
      assert s == init + [s[|s| - 1]];
    }
  }

  /**
   * numjoin on ints: when `b` is not negative, `a`'s digits are shifted left by
   * the number of digits `b` prints with, and the sign of `a` is kept; when
   * `b` is negative the joined text has a minus sign inside and `int`
   * raises ValueError.
   */
  lemma NumJoinValue(a: int, b: int)
    ensures b >= 0 ==> NumJoin(a, b) == Some(if a >= 0 then a * Pow10(|Str(b)|) + b else a * Pow10(|Str(b)|) - b)
    ensures b < 0 ==> NumJoin(a, b) == None
  {
    if b >= 0 {
      if a >= 0 {
        JoinNatural(a, b);
      } else {
        JoinNegative(a, b);
      }
    } else {
      JoinMinusInside(a, b);
    }
  }

  lemma JoinNatural(a: nat, b: nat)
    ensures NumJoin(a, b) == Some(a * Pow10(|Str(b)|) + b)
  {
    NatStrValue(a);
    NatStrValue(b);
    DigitsValueAppend(NatStr(a), NatStr(b));
  }

  lemma JoinNegative(a: int, b: nat)
    requires a < 0
    ensures NumJoin(a, b) == Some(a * Pow10(|Str(b)|) - b)
  {
    var digits := NatStr(-a) + NatStr(b);
    var s := Str(a) + Str(b);
    assert s == "-" + digits;
    assert s[1..] == digits;
    NatStrValue(-a);
    NatStrValue(b);
    DigitsValueAppend(NatStr(-a), NatStr(b));
    var p := Pow10(|Str(b)|);
    assert ParseInt(s) == Some(-(DigitsValue(digits) as int));
    assert -((-a) * p + b) == a * p - b;
  }

  lemma JoinMinusInside(a: int, b: int)
    requires b < 0
    ensures NumJoin(a, b) == None
  {
    var sa := Str(a);
    var s := sa + Str(b);
    assert s[|sa|] == '-';
    assert !AllDigits(s);
    if |s| > 1 && s[0] == '-' {
      assert s[1..][|sa| - 1] == '-';
    }
  }
}
