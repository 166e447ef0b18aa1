/** Decimal rendering of episode numbers, as Rust's `format!` does it for an
    unsigned integer: `{ep_no}` gives the digits with no leading zero, and
    `{ep_no:<03}` gives them left-padded with '0' to a minimum width of three.
    (For integers the `0` flag takes precedence over the `<` alignment, so the
    zeros go in front of the digits; the padding never truncates.) */
module Decimal {

  predicate IsDigit(c: char) {
    '0' <= c <= '9'
  }

  predicate AllDigits(s: string) {
    forall i :: 0 <= i < |s| ==> IsDigit(s[i])
  }

  function DigitChar(d: nat): (c: char)
    requires d < 10
    ensures IsDigit(c)
  {
    ['0', '1', '2', '3', '4', '5', '6', '7', '8', '9'][d]
  }

  function DigitValue(c: char): (d: nat)
    requires IsDigit(c)
    ensures d < 10
  {
    (c as int - '0' as int) as nat
  }

  function Pow10(k: nat): (p: nat)
    ensures p >= 1
  {
    if k == 0 then 1 else 10 * Pow10(k - 1)
  }

  /** `{n}`: the shortest decimal rendering of `n`; "0" for zero, and otherwise
      the first character is never '0'. */
  function Render(n: nat): (s: string)
    ensures |s| >= 1 && AllDigits(s)
    ensures s[0] == '0' <==> n == 0
    decreases n
  {
    if n < 10 then [DigitChar(n)] else Render(n / 10) + [DigitChar(n % 10)]
  }

  /** The value of a string of decimal digits, read most significant first;
      leading zeros contribute nothing. */
  function Value(s: string): nat
    requires AllDigits(s)
  {
    if s == [] then 0 else 10 * Value(s[..|s| - 1]) + DigitValue(s[|s| - 1])
  }

  /** `k` copies of '0'. */
  function Zeros(k: nat): (z: string)
    ensures |z| == k && AllDigits(z)
    ensures forall i :: 0 <= i < k ==> z[i] == '0'
  {
    if k == 0 then [] else Zeros(k - 1) + ['0']
  }

  function Max(a: nat, b: nat): nat {
    if a < b then b else a
  }

  /** `{n:<0w$}`: `Render(n)` preceded by just enough zeros to make it at least
      `width` characters long. */
  function Padded(n: nat, width: nat): (s: string)
    ensures AllDigits(s)
  {
    var d := Render(n);
    if |d| < width then Zeros(width - |d|) + d else d
  }

  lemma {:induction false} DigitRoundTrip(d: nat)
    requires d < 10
    ensures DigitValue(DigitChar(d)) == d
  {
    if d == 0 {} else if d == 1 {} else if d == 2 {} else if d == 3 {} else if d == 4 {}
    else if d == 5 {} else if d == 6 {} else if d == 7 {} else if d == 8 {} else {}
  }

  lemma RenderOneDigit(n: nat)
    requires n < 10
    ensures Render(n) == [DigitChar(n)]
  {
  }

  lemma RenderTwoDigits(n: nat)
    requires 10 <= n < 100
    ensures Render(n) == [DigitChar(n / 10), DigitChar(n % 10)]
  {
    assert Render(n / 10) == [DigitChar(n / 10)];
  }

  /** Reading the rendering back gives the number: `Render` is injective. */
  lemma {:induction false} RenderRoundTrip(n: nat)
    ensures Value(Render(n)) == n
    decreases n
  {
    var s := Render(n);
    if n < 10 {
      DigitRoundTrip(n);
      assert s[..0] == [];
    } else {
      RenderRoundTrip(n / 10);
      DigitRoundTrip(n % 10);
      assert s[..|s| - 1] == Render(n / 10);
    }
  }

  lemma RenderInjective(m: nat, n: nat)
    ensures Render(m) == Render(n) <==> m == n
  {
    RenderRoundTrip(m);
    RenderRoundTrip(n);
  }

  /** Leading zeros do not change the value of a digit string. */
  lemma {:induction false} ZerosValue(k: nat, s: string)
    requires AllDigits(s)
    ensures Value(Zeros(k) + s) == Value(s)
    decreases |s|
  {
    var t := Zeros(k) + s;
    if s == [] {
      assert t == Zeros(k);
      ZerosAlone(k);
    } else {
      assert t[..|t| - 1] == Zeros(k) + s[..|s| - 1];
      ZerosValue(k, s[..|s| - 1]);
    }
  }

  lemma {:induction false} ZerosAlone(k: nat)
    ensures Value(Zeros(k)) == 0
  {
    if k > 0 {
      var z := Zeros(k);
      assert z[..|z| - 1] == Zeros(k - 1);
      ZerosAlone(k - 1);
    }
  }

  /** The rendering of `n` has at most `k` digits exactly when `n < 10^k`. */
  lemma {:induction false} RenderLength(n: nat, k: nat)
    requires k >= 1
    ensures |Render(n)| <= k <==> n < Pow10(k)
    decreases n
  {
    if n >= 10 {
      if k == 1 {
        assert |Render(n)| == |Render(n / 10)| + 1;
      } else {
        RenderLength(n / 10, k - 1);
      }
    }
  }

  /** A three-digit minimum is reached by the number itself exactly from 100 on. */
  lemma RenderHasThreeDigits(n: nat)
    ensures |Render(n)| >= 3 <==> n >= 100
  {
    RenderLength(n, 2);
  }

  /** Padding never truncates: the field is `max(width, digit count)` long, it
      ends with the plain rendering, everything before that is '0', and it
      still reads back as `n`. */
  lemma PaddedShape(n: nat, width: nat)
    ensures |Padded(n, width)| == Max(width, |Render(n)|)
    ensures Padded(n, width)[|Padded(n, width)| - |Render(n)|..] == Render(n)
    ensures forall i :: 0 <= i < |Padded(n, width)| - |Render(n)| ==> Padded(n, width)[i] == '0'
    ensures Value(Padded(n, width)) == n
  {
    var d := Render(n);
    RenderRoundTrip(n);
    if |d| < width {
      var z := Zeros(width - |d|);
      assert Padded(n, width) == z + d;
      ZerosValue(width - |d|, d);
      assert (z + d)[|z|..] == d;
      assert forall i :: 0 <= i < |z| ==> (z + d)[i] == z[i];
    } else {
      assert Padded(n, width) == d;
    }
  }

  /** Padding to `width` leaves the number untouched exactly when it already has
      `width` digits or more. */
  lemma PaddedIsPlain(n: nat, width: nat)
    ensures Padded(n, width) == Render(n) <==> |Render(n)| >= width
  {
    PaddedShape(n, width);
  }

  lemma PaddedInjective(m: nat, n: nat, width: nat)
    ensures Padded(m, width) == Padded(n, width) <==> m == n
  {
    PaddedShape(m, width);
    PaddedShape(n, width);
  }
}
