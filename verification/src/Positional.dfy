/** Numbers written in a base, most significant digit first. */
module Positional {

  /** Digits of `base`. */
  ghost predicate InBase(base: nat, digits: seq<nat>) {
    forall i :: 0 <= i < |digits| ==> digits[i] < base
  }

  function ValueIn(base: nat, digits: seq<nat>): nat {
    if digits == [] then 0
    else ValueIn(base, digits[..|digits| - 1]) * base + digits[|digits| - 1]
  }

  /** The digits of `n`, with no leading zero; none for zero. */
  function DigitsOf(base: nat, n: nat): (digits: seq<nat>)
    requires base >= 2
    ensures InBase(base, digits)
    ensures digits != [] ==> digits[0] != 0
    ensures digits == [] <==> n == 0
  {
    if n == 0 then [] else
      Shrinks(base, n);
      DigitsOf(base, n / base) + [n % base]
  }

  lemma Shrinks(base: nat, n: nat)
    requires base >= 2 && n > 0
    ensures n / base < n
    ensures n < base ==> n / base == 0 && n % base == n
  {
    if n < base {
      Divided(base, 0, n);
    } else {
      assert n == base * (n / base) + n % base;
      assert base * (n / base) >= 2 * (n / base) by { Scale(base, n / base); }
    }
  }

  lemma Scale(base: nat, q: nat)
    requires base >= 2
    ensures base * q >= 2 * q
  {
  }

  lemma Divided(base: nat, q: nat, d: nat)
    requires d < base
    ensures (q * base + d) / base == q && (q * base + d) % base == d
  {
    var n := q * base + d;
    assert n == (n / base) * base + n % base;
    assert (n / base - q) * base == d - n % base;
    OnlyZero(n / base - q, base);
  }

  lemma OnlyZero(x: int, base: int)
    requires -base < x * base < base
    ensures x == 0
  {
  }

  lemma Divides(base: nat, n: nat)
    requires base >= 1
    ensures n == (n / base) * base + n % base
  {
  }

  lemma Multiple(k: nat, base: nat)
    requires k >= 1
    ensures k * base >= base
  {
  }

  lemma ValueSnoc(base: nat, digits: seq<nat>, d: nat)
    ensures ValueIn(base, digits + [d]) == ValueIn(base, digits) * base + d
  {
    assert (digits + [d])[..|digits|] == digits;
  }

  lemma {:induction false} ValueOfDigits(base: nat, n: nat)
    requires base >= 2
    ensures ValueIn(base, DigitsOf(base, n)) == n
  {
    if n > 0 {
      Shrinks(base, n);
      ValueOfDigits(base, n / base);
      ValueSnoc(base, DigitsOf(base, n / base), n % base);
      Divides(base, n);
    }
  }

  lemma {:induction false} DigitsOfValue(base: nat, digits: seq<nat>)
    requires base >= 2 && InBase(base, digits) && (digits != [] ==> digits[0] != 0)
    ensures DigitsOf(base, ValueIn(base, digits)) == digits
  {
    if digits != [] {
      var init, last := digits[..|digits| - 1], digits[|digits| - 1];
      DigitsOfValue(base, init);
      Divided(base, ValueIn(base, init), last);
      if init != [] {
        assert ValueIn(base, init) > 0;
        Multiple(ValueIn(base, init), base);
      }
      assert digits == init + [last];
    }
  }

  /** How many digits before the first that is not zero. */
  function LeadingZeros(digits: seq<nat>): (k: nat)
    ensures k <= |digits| && (forall i :: 0 <= i < k ==> digits[i] == 0)
    ensures k < |digits| ==> digits[k] != 0
  {
    if digits != [] && digits[0] == 0 then 1 + LeadingZeros(digits[1..]) else 0
  }

  lemma {:induction false} ZerosAddNothing(base: nat, zeros: seq<nat>, digits: seq<nat>)
    requires forall i :: 0 <= i < |zeros| ==> zeros[i] == 0
    ensures ValueIn(base, zeros + digits) == ValueIn(base, digits)
  {
    var all := zeros + digits;
    if digits != [] {
      assert all[..|all| - 1] == zeros + digits[..|digits| - 1];
      ZerosAddNothing(base, zeros, digits[..|digits| - 1]);
    } else if zeros != [] {
      assert all == zeros && zeros[..|zeros| - 1] + [] == zeros[..|zeros| - 1];
      ZerosAddNothing(base, zeros[..|zeros| - 1], []);
    }
  }

  /** The zeros a number loses, and the digits it keeps. */
  lemma DigitsBelowZeros(base: nat, digits: seq<nat>)
    requires base >= 2 && InBase(base, digits)
    ensures var k := LeadingZeros(digits);
            DigitsOf(base, ValueIn(base, digits)) == digits[k..]
  {
    var k := LeadingZeros(digits);
    assert digits == digits[..k] + digits[k..];
    ZerosAddNothing(base, digits[..k], digits[k..]);
    DigitsOfValue(base, digits[k..]);
  }

  lemma {:induction false} LeadingZerosOf(zeros: seq<nat>, digits: seq<nat>)
    requires forall i :: 0 <= i < |zeros| ==> zeros[i] == 0
    requires digits != [] ==> digits[0] != 0
    ensures LeadingZeros(zeros + digits) == |zeros|
  {
    if zeros != [] {
      assert (zeros + digits)[1..] == zeros[1..] + digits;
      LeadingZerosOf(zeros[1..], digits);
    } else {
      assert zeros + digits == digits;
    }
  }
}
