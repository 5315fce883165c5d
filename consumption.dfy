/**
 The rule applied when the user asks to use part of an item: validate the
 amount, compute the remaining quantity rounded to thousandths, and decide
 between updating the item and deleting it.
 */
module Consumption {
  import opened Items

  /** What the rule decides for one request to use an amount. */
  datatype Decision = Reject(reason: Reason) | Delete | Update(newQuantity: int)

  function Pow10(n: nat): (r: nat)
    ensures r >= 1
  {
    if n == 0 then 1 else 10 * Pow10(n - 1)
  }

  /** `amount > currentQty`, with `current` in thousandths and `a` read as `digits / 10^scale`. */
  predicate Exceeds(current: int, a: Decimal): (r: bool)
    ensures a.scale <= 3 ==> (r <==> a.digits * Pow10(3 - a.scale) > current)
  {
    if a.scale <= 3 then
      Pow10Add(a.scale, 3 - a.scale);
      assert a.digits * 1000 == Pow10(a.scale) * (a.digits * Pow10(3 - a.scale));
      ScaledCompare(Pow10(a.scale), a.digits * Pow10(3 - a.scale), current);
      a.digits * 1000 > current * Pow10(a.scale)
    else
      a.digits * 1000 > current * Pow10(a.scale)
  }

  /** Multiplying both sides by a positive factor keeps a strict comparison. */
  lemma ScaledCompare(p: int, x: int, y: int)
    requires p >= 1
    ensures p * x > y * p <==> x > y
  {
    assert p * x - y * p == p * (x - y);
    if x > y {
      MulAtLeast(p, x - y);
    } else {
      MulAtLeast(p, y - x);
      assert p * (y - x) == -(p * (x - y));
    }
  }

  /**
   `(currentQty - amount) * 1000` scaled by `10^scale`, which makes it an
   integer: the exact remaining quantity in thousandths times `10^scale`.
   */
  function ScaledRemainder(current: int, a: Decimal): int
  {
    current * Pow10(a.scale) - 1000 * a.digits
  }

  /**
   `Math.round((currentQty - amount) * 1000)`: the remaining quantity in
   thousandths, rounded to the nearest integer with halves going up. With
   both sides scaled by `2 * 10^scale`, the exact remainder lies within half
   a unit of `r`.
   */
  function RoundedRemainder(current: int, a: Decimal): (r: int)
    ensures 2 * Pow10(a.scale) * r - Pow10(a.scale) <= 2 * ScaledRemainder(current, a)
    ensures 2 * ScaledRemainder(current, a) < 2 * Pow10(a.scale) * r + Pow10(a.scale)
  {
    var p := Pow10(a.scale);
    var n := 2 * ScaledRemainder(current, a) + p;
    var q := n / (2 * p);
    assert n == 2 * p * q + n % (2 * p);
    q
  }

  /** From the rounding bounds: a remainder below `c` whole units rounds to at most `c`. */
  lemma RoundedBelow(p: int, e: int, q: int, c: int)
    requires p >= 1 && 2 * p * q - p <= 2 * e && e < c * p
    ensures q <= c
  {
    assert p * q == c * p + p * (q - c);
    MulAtLeast(p, q - c);
  }

  lemma MulAtLeast(p: int, k: int)
    ensures p >= 1 && k >= 1 ==> p * k >= p
  {
    if p >= 1 && k >= 1 {
      assert p * k == p + p * (k - 1);
    }
  }

  /** From the rounding bounds: the result is at least one exactly when the remainder is at least half a unit. */
  lemma RoundedPositive(p: int, e: int, q: int)
    requires p >= 1 && 2 * p * q - p <= 2 * e < 2 * p * q + p
    ensures q >= 1 <==> 2 * e >= p
  {
    if q >= 1 {
      assert p * q >= p by {
        assert p * q - p == p * (q - 1);
      }
    } else {
      assert p * q <= 0 by {
        assert p * q == -(p * (-q));
      }
    }
  }

  /**
   The decision `useQuantity` takes for an item holding `current` thousandths
   when the input parses to `amount` (`None` when `parseFloat` gives NaN).
   */
  function Decide(current: int, amount: Option<Decimal>): (d: Decision)
    ensures d == Reject(InvalidAmount) <==> amount.None? || amount.value.digits <= 0
    ensures d == Reject(AmountExceedsQuantity) <==>
      amount.Some? && amount.value.digits > 0 && Exceeds(current, amount.value)
    ensures d.Update? ==> 0 < d.newQuantity <= current
    ensures d.Update? ==> amount.Some? && d.newQuantity == RoundedRemainder(current, amount.value)
    ensures d.Delete? <==>
      (amount.Some? && amount.value.digits > 0 && !Exceeds(current, amount.value) &&
       2 * ScaledRemainder(current, amount.value) < Pow10(amount.value.scale))
  {
    match amount
    case None => Reject(InvalidAmount)
    case Some(a) =>
      if a.digits <= 0 then Reject(InvalidAmount)
      else if Exceeds(current, a) then Reject(AmountExceedsQuantity)
      else
        var q := RoundedRemainder(current, a);
        RoundedBelow(Pow10(a.scale), ScaledRemainder(current, a), q, current);
        RoundedPositive(Pow10(a.scale), ScaledRemainder(current, a), q);
        if q <= 0 then Delete else Update(q)
  }

  lemma {:induction false} Pow10Add(m: nat, n: nat)
    ensures Pow10(m) * Pow10(n) == Pow10(m + n)
  {
    if m > 0 {
      Pow10Add(m - 1, n);
      assert Pow10(m) * Pow10(n) == 10 * (Pow10(m - 1) * Pow10(n));
    }
  }

  /** Using exactly the quantity the item holds deletes it rather than leaving a zero quantity. */
  lemma UsingEverythingDeletes(current: int, a: Decimal)
    requires a.digits > 0 && a.digits * 1000 == current * Pow10(a.scale)
    ensures Decide(current, Some(a)) == Delete
  {
  }

  /**
   With at most three decimals in the amount no rounding happens: the item
   keeps exactly `current - amount`, or is deleted when that is zero.
   */
  lemma {:induction false} AtMostThreeDecimalsIsExact(current: int, a: Decimal)
    requires a.scale <= 3 && a.digits > 0 && !Exceeds(current, a)
    ensures var rest := current - a.digits * Pow10(3 - a.scale);
      rest >= 0 &&
      Decide(current, Some(a)) == if rest == 0 then Delete else Update(rest)
  {
    var p := Pow10(a.scale);
    var f := Pow10(3 - a.scale);
    var rest := current - a.digits * f;
    Pow10Add(a.scale, 3 - a.scale);
    assert p * f == 1000;
    assert ScaledRemainder(current, a) == p * rest by {
      assert 1000 * a.digits == p * (a.digits * f);
      assert p * rest == current * p - p * (a.digits * f);
    }
    MulAtLeast(p, -rest);
    assert rest >= 0 by {
      assert p * (-rest) == -(p * rest);
    }
    var q := RoundedRemainder(current, a);
    assert 2 * p * q - p <= 2 * p * rest < 2 * p * q + p;
    assert p * (q - rest) == p * q - p * rest;
    assert p * (rest - q) == p * rest - p * q;
    MulAtLeast(p, q - rest);
    MulAtLeast(p, rest - q);
    assert q == rest;
  }

  /**
   Using `x` and then `y` thousandths leaves the item as using `x + y` at
   once would: the rule is associative for amounts given in thousandths.
   */
  lemma UsingTwiceIsUsingTheSum(current: int, x: int, y: int, q1: int)
    requires Decide(current, Some(Decimal(x, 3))) == Update(q1)
    requires y > 0
    ensures Decide(q1, Some(Decimal(y, 3))) == Decide(current, Some(Decimal(x + y, 3)))
  {
    AtMostThreeDecimalsIsExact(current, Decimal(x, 3));
    assert q1 == current - x;
    if y <= q1 {
      AtMostThreeDecimalsIsExact(q1, Decimal(y, 3));
      AtMostThreeDecimalsIsExact(current, Decimal(x + y, 3));
    }
  }

  /** Using 2 bags out of 2 removes the item. */
  lemma UsingAllPeasRemovesThem()
    ensures Decide(2000, Some(Decimal(2, 0))) == Delete
  {
  }

  /** Using 0.2504 out of 1.5 leaves 1.2496, which is rounded to 1.25. */
  lemma UsingFourDecimalsRounds()
    ensures Decide(1500, Some(Decimal(2504, 4))) == Update(1250)
  {
    var q := RoundedRemainder(1500, Decimal(2504, 4));
    assert Pow10(4) == 10000;
    assert 20000 * q - 10000 <= 24992000 < 20000 * q + 10000;
  }

  /** Using 0.5 lb out of 1.5 lb leaves 1.0 lb. */
  lemma UsingHalfAPoundLeavesOne()
    ensures Decide(1500, Some(Decimal(5, 1))) == Update(1000)
  {
    AtMostThreeDecimalsIsExact(1500, Decimal(5, 1));
  }
}
