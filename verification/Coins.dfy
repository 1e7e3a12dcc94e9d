/**
 Amounts of coins as two unsigned words, whole coins and 10^-8 parts: where the arithmetic
 of the words is that of the amounts, and where it is not.
 */
module Coins {
  import opened Basics

  const SCALE: nat := 100000000

  // A pair of words; the fraction of a proper one is below a whole coin.
  datatype Money = Money(whole: nat, fraction: nat) {
    predicate Proper() { whole < WORD && fraction < SCALE }
    function Value(): nat { whole * SCALE + fraction }
  }

  // ----- Comparisons -----

  predicate Less(a: Money, b: Money) {
    a.whole < b.whole || (a.whole == b.whole && a.fraction < b.fraction)
  }

  lemma ComparesValues(a: Money, b: Money)
    requires a.Proper() && b.Proper()
    ensures Less(a, b) <==> a.Value() < b.Value()
    ensures a == b <==> a.Value() == b.Value()
  {
    if a.whole < b.whole { assert a.whole * SCALE + SCALE <= b.whole * SCALE; }
    if b.whole < a.whole { assert b.whole * SCALE + SCALE <= a.whole * SCALE; }
  }

  // ----- Arithmetic facts -----

  lemma DivMod(x: nat, d: nat)
    requires d > 0
    ensures x == d * (x / d) + x % d
  {}

  lemma NotNegative(d: nat, k: nat)
    ensures d * k >= 0
  {}

  lemma SmallMultiple(d: nat, k: int)
    requires d > 0 && 0 - d < d * k < d
    ensures k == 0
  {
    assert d * k == d + d * (k - 1) && d * k == 0 - d - d * (-1 - k);
    if k >= 1 { NotNegative(d, k - 1); }
    if k <= -1 { NotNegative(d, -1 - k); }
  }

  lemma QuotientIs(x: nat, d: nat, q: nat, r: nat)
    requires d > 0 && x == d * q + r && r < d
    ensures x / d == q && x % d == r
  {
    var k := x / d - q;
    assert d * k == d * (x / d) - d * q;
    DivMod(x, d);
    assert d * k == r - x % d;
    SmallMultiple(d, k);
  }

  lemma ModuloOf(x: nat, d: nat, k: nat, y: nat)
    requires d > 0 && x == d * k + y && y < d
    ensures x % d == y
  {
    QuotientIs(x, d, k, y);
  }

  lemma BelowProduct(x: nat, d: nat, bound: nat)
    requires d > 0 && x < d * bound
    ensures x / d < bound
  {
    DivMod(x, d);
    assert d * (x / d) == d * bound + d * (x / d - bound);
    if x / d >= bound { NotNegative(d, x / d - bound); }
  }

  // Dividing the whole coins first, and what is left of them together with the fraction.
  lemma SplitQuotient(w: nat, f: nat, t: nat)
    requires t > 0 && f < SCALE
    ensures (w * SCALE + f) / t == (w / t) * SCALE + ((w % t) * SCALE + f) / t
    ensures ((w % t) * SCALE + f) / t < SCALE
  {
    var q, r := w / t, w % t;
    var x := r * SCALE + f;
    DivMod(w, t);
    DivMod(x, t);
    Rearranged(w, f, t, q, r, x / t, x % t);
    QuotientIs(w * SCALE + f, t, q * SCALE + x / t, x % t);
    assert x < t * SCALE by { assert r * SCALE <= (t - 1) * SCALE; }
    BelowProduct(x, t, SCALE);
  }

  lemma Rearranged(w: nat, f: nat, t: nat, q: nat, r: nat, q1: nat, r1: nat)
    requires w == t * q + r && r * SCALE + f == t * q1 + r1
    ensures w * SCALE + f == t * (q * SCALE + q1) + r1
  {
    assert w * SCALE == (t * q) * SCALE + r * SCALE;
    assert (t * q) * SCALE == t * (q * SCALE);
    assert t * (q * SCALE + q1) == t * (q * SCALE) + t * q1;
  }

  // ----- The operators -----

  function Quotient(whole: nat, fraction: nat, times: nat): Money
    requires times > 0
  {
    Money(whole / times, (whole % times * SCALE + fraction) % WORD / times)
  }

  // Just under 10^12 coins divided by 10^12: the rest of the whole coins does not fit.
  lemma DivisionExample()
    ensures Quotient(999999999999, 0, 1000000000000).Value() != Money(999999999999, 0).Value() / 1000000000000
  {
    assert 999999999999 % 1000000000000 * SCALE >= WORD;
    Divided(999999999999, 0, 1000000000000);
  }

  // The division on the two words, which may wrap.
  method DivideWords(whole: nat, fraction: nat, times: nat) returns (whole': nat, fraction': nat)
    requires times > 0
    ensures Money(whole', fraction') == Quotient(whole, fraction, times)
  {
    fraction' := (fraction + whole % times * SCALE) % WORD;
    whole' := whole / times;
    fraction' := fraction' / times;
  }

  class Coin {
    var whole: nat
    var fraction: nat

    ghost function Now(): Money
      reads this
    {
      Money(whole, fraction)
    }

    constructor (m: Money)
      ensures Now() == m
    {
      whole, fraction := m.whole, m.fraction;
    }

    // Adds modulo all there can be; exact as long as the sum fits.
    method Add(other: Money)
      requires Now().Proper() && other.Proper()
      modifies this
      ensures Now().Proper()
      ensures Now().Value() == (old(Now()).Value() + other.Value()) % (WORD * SCALE)
    {
      ghost var v := Now().Value() + other.Value();
      fraction := fraction + other.fraction;
      ghost var carry: nat := 0;
      if fraction >= SCALE {
        whole := (whole + 1) % WORD;
        fraction := fraction - SCALE;
        carry := 1;
      }
      whole := (whole + other.whole) % WORD;
      WrapsOnce(v, old(whole) + carry + other.whole, fraction);
      assert whole == (old(whole) + carry + other.whole) % WORD;
    }

    // False where the code throws: the result would be below zero.
    method Subtract(other: Money) returns (ok: bool)
      requires Now().Proper() && other.Proper()
      modifies this
      ensures Now().Proper()
      ensures ok <==> old(Now()).Value() >= other.Value()
      ensures ok ==> Now().Value() == old(Now()).Value() - other.Value()
      ensures !ok ==> Now() == old(Now())
    {
      ComparesValues(Now(), other);
      if whole < other.whole || (whole == other.whole && fraction < other.fraction) { return false; }
      if fraction < other.fraction {
        whole := whole - 1;
        fraction := fraction + SCALE;
      }
      fraction := fraction - other.fraction;
      whole := whole - other.whole;
      return true;
    }

    // Exact modulo all there can be if and only if the product of the fraction fits a word.
    method Multiply(times: nat)
      requires Now().Proper() && times < WORD
      modifies this
      ensures Now().Proper()
      ensures Now().Value() == (old(Now()).Value() * times) % (WORD * SCALE) <==> old(fraction) * times < WORD
    {
      ghost var w, f := whole, fraction;
      whole := whole * times % WORD;
      fraction := fraction * times % WORD;
      whole := (whole + fraction / SCALE) % WORD;
      fraction := fraction % SCALE;
      Multiplied(w, f, times, whole, fraction);
    }

    // The floor of the quotient if and only if what is left of the whole coins fits a word.
    method Divide(times: nat) returns (ok: bool)
      requires Now().Proper() && times < WORD
      modifies this
      ensures ok <==> times != 0
      ensures !ok ==> Now() == old(Now())
      ensures ok ==> Now() == Quotient(old(whole), old(fraction), times) && Now().Proper()
      ensures ok ==> (Now().Value() == old(Now()).Value() / times <==> old(whole) % times * SCALE + old(fraction) < WORD)
    {
      if times == 0 { return false; }
      Divided(whole, fraction, times);
      whole, fraction := DivideWords(whole, fraction, times);
      return true;
    }

    // The amount less the quotient times the divisor: the remainder, under the same condition.
    method Remainder(times: nat) returns (ok: bool)
      requires Now().Proper() && times < WORD
      modifies this
      ensures ok <==> times != 0
      ensures ok ==> Now().Proper()
      ensures ok ==> (Now().Value() == old(Now()).Value() % times <==> old(whole) % times * SCALE + old(fraction) < WORD)
    {
      var product := new Coin(Money(whole, fraction));
      ok := product.Divide(times);
      if !ok { return; }
      QuotientTimes(whole, fraction, times);
      product.Multiply(times);
      ok := Subtract(Money(product.whole, product.fraction));
    }
  }

  lemma WrapsOnce(v: nat, w: nat, f: nat)
    requires v == w * SCALE + f && f < SCALE
    ensures (w % WORD) * SCALE + f == v % (WORD * SCALE)
  {
    var k := w / WORD;
    DivMod(w, WORD);
    ModuloOf(v, WORD * SCALE, k, (w % WORD) * SCALE + f);
  }

  lemma ModuloShift(a: nat, d: nat, k: nat)
    requires d > 0
    ensures (a + d * k) % d == a % d
  {
    DivMod(a, d);
    assert d * (a / d + k) == d * (a / d) + d * k;
    ModuloOf(a + d * k, d, a / d + k, a % d);
  }

  // Shifting by less than the modulus, and by something, changes the rest.
  lemma ModuloMoves(a: nat, d: nat, b: nat)
    requires 0 < b < d
    ensures (a + b) % d != a % d
  {
    if (a + b) % d == a % d {
      DivMod(a, d);
      DivMod(a + b, d);
      var k := (a + b) / d - a / d;
      assert d * k == d * ((a + b) / d) - d * (a / d);
      SmallMultiple(d, k);
    }
  }

  // The product, with the words' wrap-arounds made explicit.
  lemma Expanded(w: nat, f: nat, t: nat)
    ensures (w * SCALE + f) * t ==
            w * t % WORD * SCALE + f * t % WORD + WORD * (f * t / WORD) + WORD * SCALE * (w * t / WORD)
  {
    DivMod(w * t, WORD);
    DivMod(f * t, WORD);
    assert (w * SCALE + f) * t == (w * t) * SCALE + f * t;
  }

  lemma Multiplied(w: nat, f: nat, t: nat, whole: nat, fraction: nat)
    requires w < WORD && f < SCALE && t < WORD
    requires var p := f * t % WORD; whole == (w * t % WORD + p / SCALE) % WORD && fraction == p % SCALE
    ensures whole * SCALE + fraction == ((w * SCALE + f) * t) % (WORD * SCALE) <==> f * t < WORD
  {
    var a, b := w * t % WORD * SCALE + f * t % WORD, WORD * (f * t / WORD);
    var p := f * t % WORD;
    DivMod(p, SCALE);
    WrapsOnce(a, w * t % WORD + p / SCALE, p % SCALE);
    Expanded(w, f, t);
    ModuloShift(a + b, WORD * SCALE, w * t / WORD);
    Carried(f, t, a);
  }

  lemma Carried(f: nat, t: nat, a: nat)
    requires f < SCALE && t < WORD
    ensures (a + WORD * (f * t / WORD)) % (WORD * SCALE) == a % (WORD * SCALE) <==> f * t < WORD
  {
    if f * t >= WORD {
      ProductBelow(f, t);
      ModuloMoves(a, WORD * SCALE, WORD * (f * t / WORD));
    }
  }

  lemma ProductBelow(f: nat, t: nat)
    requires f < SCALE && t < WORD && f * t >= WORD
    ensures 0 < WORD * (f * t / WORD) < WORD * SCALE
  {
    DivMod(f * t, WORD);
    assert f * t <= SCALE * t && SCALE * t < SCALE * WORD;
  }

  lemma QuotientFits(w: nat, t: nat)
    requires t > 0
    ensures w / t <= w
  {
    DivMod(w, t);
    assert t * (w / t) == w / t + (t - 1) * (w / t);
    NotNegative(t - 1, w / t);
  }

  lemma RestBelow(w: nat, f: nat, t: nat)
    requires f < SCALE && 0 < t
    ensures w % t * SCALE + f < t * SCALE
  {
    assert (w % t) * SCALE <= (t - 1) * SCALE;
  }

  lemma Divided(w: nat, f: nat, t: nat)
    requires w < WORD && f < SCALE && 0 < t < WORD
    ensures var x := w % t * SCALE + f;
            && w / t < WORD && (x % WORD) / t < SCALE
            && ((w / t) * SCALE + (x % WORD) / t == (w * SCALE + f) / t <==> x < WORD)
  {
    var x := w % t * SCALE + f;
    QuotientFits(w, t);
    SplitQuotient(w, f, t);
    RestBelow(w, f, t);
    DivMod(x, WORD);
    BelowProduct(x % WORD, t, SCALE);
    if x >= WORD { QuotientDrops(x, t); }
  }

  lemma QuotientDrops(x: nat, t: nat)
    requires WORD <= x && 0 < t < WORD
    ensures (x % WORD) / t < x / t
  {
    var y := x % WORD;
    DivMod(x, WORD);
    assert y + t <= x;
    DivMod(y, t);
    DivMod(x, t);
    assert t * (y / t) + t <= x;
    var k := x / t - y / t;
    assert t * k == t * (x / t) - t * (y / t);
    assert t * k > 0;
    assert t * k == 0 - t * (-k);
    if k <= 0 { NotNegative(t, -k); }
  }

  lemma LeavesRemainder(v: nat, t: nat, q: nat)
    requires t > 0 && q <= v / t
    ensures q * t <= v && (v - q * t == v % t <==> q == v / t)
  {
    var d := v / t - q;
    DivMod(v, t);
    assert q * t == t * (v / t) - t * d && t * d == t + t * (d - 1);
    NotNegative(t, d);
    if d > 0 { NotNegative(t, d - 1); }
  }

  lemma ValueFits(w: nat, f: nat)
    requires w < WORD && f < SCALE
    ensures w * SCALE + f < WORD * SCALE
  {
    assert w * SCALE <= (WORD - 1) * SCALE;
  }

  lemma FractionFits(w: nat, f: nat, t: nat)
    requires 0 < t
    ensures Quotient(w, f, t).fraction * t < WORD
  {
    var x := (w % t * SCALE + f) % WORD;
    LeavesRemainder(x, t, x / t);
  }

  lemma QuotientAtMost(w: nat, f: nat, t: nat)
    requires f < SCALE && 0 < t
    ensures Quotient(w, f, t).Value() <= (w * SCALE + f) / t
  {
    var x := w % t * SCALE + f;
    WordAtMost(x);
    QuotientGrows(x % WORD, x, t);
    SplitQuotient(w, f, t);
  }

  lemma WordAtMost(x: nat)
    ensures x % WORD <= x
  {
    DivMod(x, WORD);
  }

  lemma SmallModulo(x: nat, d: nat)
    requires x < d
    ensures x % d == x
  {}

  // The quotient times the divisor fits, and leaves the remainder just when the quotient is
  // the floor.
  lemma QuotientTimes(w: nat, f: nat, t: nat)
    requires w < WORD && f < SCALE && 0 < t < WORD
    ensures var q, v := Quotient(w, f, t), w * SCALE + f;
            && q.fraction * t < WORD && q.Value() * t % (WORD * SCALE) == q.Value() * t <= v
            && (v - q.Value() * t == v % t <==> q.Value() == v / t)
  {
    var q, v := Quotient(w, f, t).Value(), w * SCALE + f;
    FractionFits(w, f, t);
    QuotientAtMost(w, f, t);
    LeavesRemainder(v, t, q);
    ValueFits(w, f);
    SmallModulo(q * t, WORD * SCALE);
  }

  lemma QuotientGrows(x: nat, y: nat, t: nat)
    requires x <= y && t > 0
    ensures x / t <= y / t
  {
    DivMod(x, t);
    DivMod(y, t);
    var k := y / t - x / t;
    assert t * k == t * (y / t) - t * (x / t) && t * k == 0 - t - t * (-1 - k);
    if k < 0 { NotNegative(t, -1 - k); }
  }
}
