// Powers of two, and the masks that round an address to a multiple of one.
module Align {
  import opened Word

  // x & y
  function BitAnd(x: nat, y: nat): nat {
    if x == 0 then 0 else 2 * BitAnd(x / 2, y / 2) + (x % 2) * (y % 2)
  }

  ghost predicate IsPow2(a: nat) {
    exists k: nat :: a == Pow2(k)
  }

  // a & (a - 1) tells the powers of two.
  lemma {:induction false} TestPow2(a: nat)
    requires a > 0
    ensures BitAnd(a, a - 1) == 0 <==> IsPow2(a)
  {
    if a == 1 {
      assert a == Pow2(0);
    } else if a % 2 == 0 {
      TestPow2(a / 2);
      Halves(a);
      HalfPow2(a);
    } else {
      OddPow2(a);
      Itself(a / 2);
      assert (a - 1) / 2 == a / 2;
    }
  }

  lemma Halves(a: nat)
    requires a > 0 && a % 2 == 0
    ensures BitAnd(a, a - 1) == 2 * BitAnd(a / 2, a / 2 - 1)
  {
    assert (a - 1) / 2 == a / 2 - 1;
  }

  lemma HalfPow2(a: nat)
    requires a > 0 && a % 2 == 0
    ensures IsPow2(a) <==> IsPow2(a / 2)
  {
    if IsPow2(a) {
      var k: nat :| a == Pow2(k);
      assert a / 2 == Pow2(k - 1);
    }
    if IsPow2(a / 2) {
      var k: nat :| a / 2 == Pow2(k);
      assert a == Pow2(k + 1);
    }
  }

  lemma OddPow2(a: nat)
    requires a > 1 && a % 2 == 1
    ensures !IsPow2(a)
  {
    forall k: nat ensures a != Pow2(k) {
      assert k > 0 ==> Pow2(k) == 2 * Pow2(k - 1);
    }
  }

  lemma {:induction false} Itself(x: nat)
    ensures BitAnd(x, x) == x
  {
    if x > 0 {
      Itself(x / 2);
      Bits(x % 2);
    }
  }

  lemma Bits(b: nat)
    requires b < 2
    ensures b * b == b && b * 1 == b && b * 0 == 0
  {
  }

  lemma ModTwice(x: nat, d: nat)
    requires d > 0
    ensures x % (2 * d) == 2 * ((x / 2) % d) + x % 2
  {
    var q, r := x / 2 / d, (x / 2) % d;
    assert x / 2 == d * q + r;
    assert x == (2 * d) * q + (2 * r + x % 2) by {
      assert 2 * (d * q) == (2 * d) * q;
    }
    ModIs(x, 2 * d, q, 2 * r + x % 2);
  }

  lemma ModIs(x: nat, d: nat, q: nat, r: nat)
    requires r < d && x == d * q + r
    ensures x % d == r
  {
    Quotients(d, x / d, q, x % d, r);
    Quotients(d, q, x / d, r, x % d);
  }

  lemma Multiple(d: nat, q: nat, r: nat)
    requires r < d
    ensures (d * q + r) % d == r
  {
    ModIs(d * q + r, d, q, r);
  }

  lemma Quotients(d: nat, p: nat, q: nat, s: nat, r: nat)
    requires s < d && d * p + s == d * q + r
    ensures q <= p
  {
    if p < q {
      Times(d, p + 1, q);
    }
  }

  lemma Times(d: nat, a: nat, b: nat)
    requires a <= b
    ensures d * a <= d * b
  {
  }

  // The k low bits of x.
  function Low(x: nat, k: nat): (r: nat)
    ensures r <= x
  {
    if k == 0 then 0 else 2 * Low(x / 2, k - 1) + x % 2
  }

  lemma {:induction false} LowIsRemainder(x: nat, k: nat)
    ensures Low(x, k) == x % Pow2(k)
    decreases k
  {
    if k > 0 {
      LowIsRemainder(x / 2, k - 1);
      ModTwice(x, Pow2(k - 1));
    }
  }

  // x & (2^k - 1) is the low bits.
  lemma {:induction false} MaskLow(x: nat, k: nat)
    ensures BitAnd(x, Pow2(k) - 1) == Low(x, k)
    decreases k
  {
    if k == 0 {
      WithZero(x);
    } else {
      MaskLow(x / 2, k - 1);
      assert (Pow2(k) - 1) / 2 == Pow2(k - 1) - 1 && (Pow2(k) - 1) % 2 == 1;
      LowOfZero(k);
    }
  }

  lemma {:induction false} LowOfZero(k: nat)
    ensures Low(0, k) == 0
  {
    if k > 0 {
      LowOfZero(k - 1);
    }
  }

  lemma {:induction false} WithZero(x: nat)
    ensures BitAnd(x, 0) == 0
  {
    if x > 0 {
      WithZero(x / 2);
    }
  }

  // x & -2^k, on words of w bits, clears the low bits.
  lemma {:induction false} MaskHigh(x: nat, k: nat, w: nat)
    requires k <= w && x < Pow2(w)
    ensures Pow2(k) <= Pow2(w)
    ensures BitAnd(x, Pow2(w) - Pow2(k)) == x - Low(x, k)
    decreases k
  {
    hide BitAnd;
    Pow2Mono(k, w);
    if k == 0 {
      MaskLow(x, w);
      LowIsAll(x, w);
    } else {
      HalfBelow(x, w);
      MaskHigh(x / 2, k - 1, w - 1);
      EvenMask(x, Pow2(w - 1) - Pow2(k - 1));
    }
  }

  lemma HalfBelow(x: nat, w: nat)
    requires w > 0 && x < Pow2(w)
    ensures x / 2 < Pow2(w - 1)
  {
  }

  lemma EvenMask(x: nat, y: nat)
    ensures BitAnd(x, 2 * y) == 2 * BitAnd(x / 2, y)
  {
    if x > 0 {
      assert (2 * y) / 2 == y && (2 * y) % 2 == 0;
      Bits(x % 2);
    }
  }

  lemma {:induction false} LowIsAll(x: nat, w: nat)
    requires x < Pow2(w)
    ensures Low(x, w) == x
    decreases w
  {
    if w > 0 {
      LowIsAll(x / 2, w - 1);
    }
  }

  lemma {:induction false} Pow2Mono(j: nat, k: nat)
    requires j <= k
    ensures Pow2(j) <= Pow2(k)
  {
    if j < k {
      Pow2Mono(j, k - 1);
    }
  }

  predicate Divides(a: nat, x: nat) {
    a > 0 && x % a == 0
  }

  lemma RoundDown(t: nat, d: nat, y: nat)
    requires d > 0 && y == t - t % d
    ensures t < y + d && y <= t && Divides(d, y)
  {
    assert t == d * (t / d) + t % d;
    ModIs(y, d, t / d, 0);
  }

  // The next address after x that is a multiple of 2^k, as the masks give it.
  lemma RoundUp(x: nat, k: nat)
    requires k <= 64 && x + Pow2(k) <= Pow2(64)
    ensures var y := BitAnd(x + Pow2(k) - 1, Pow2(64) - Pow2(k));
      Pow2(k) <= Pow2(64) && x <= y < x + Pow2(k) && Divides(Pow2(k), y)
  {
    hide BitAnd, Low, Pow2, Divides;
    var d := Pow2(k);
    var t := x + d - 1;
    MaskHigh(t, k, 64);
    LowIsRemainder(t, k);
    RoundDown(t, d, BitAnd(t, Pow2(64) - d));
  }

  // A multiple of 2^k, k >= 4, is a multiple of 16.
  lemma {:induction false} Of16(y: nat, k: nat)
    requires k >= 4 && y % Pow2(k) == 0
    ensures y % 16 == 0
    decreases k
  {
    if k > 4 {
      ModTwice(y, Pow2(k - 1));
      var d := Pow2(k - 1);
      var q := y / Pow2(k);
      assert y == (2 * d) * q + 0;
      assert y == d * (2 * q) + 0 by { Assoc(d, q); }
      ModIs(y, d, 2 * q, 0);
      Of16(y, k - 1);
    } else {
      assert Pow2(4) == 16;
    }
  }

  lemma Assoc(d: nat, q: nat)
    ensures (2 * d) * q == d * (2 * q)
  {
  }

  // ----------------------------------- the loop that rounds up an alignment

  // Doubling a until it is at least wanted.
  function RoundFrom(a: nat, wanted: nat): nat
    decreases wanted - a
  {
    if a == 0 || a >= wanted then a else RoundFrom(2 * a, wanted)
  }

  // What an alignment is rounded up to.
  function Rounded(wanted: nat): nat {
    RoundFrom(32, wanted)
  }

  // It is the least power of two that will do.
  lemma RoundedIs(wanted: nat)
    ensures IsPow2(Rounded(wanted)) && Rounded(wanted) >= 32 && Rounded(wanted) >= wanted
    ensures forall b: nat :: IsPow2(b) && b >= 32 && b >= wanted ==> Rounded(wanted) <= b
  {
    hide Rounded;
    assert Pow2(4) == 16 && Pow2(5) == 32;
    assert Rounded(wanted) == RoundFrom(Pow2(5), wanted) by { RoundedFrom(wanted); }
    RoundFromIs(5, wanted);
    forall b: nat | IsPow2(b) && b >= 32 && b >= wanted
      ensures Rounded(wanted) <= b
    {
      var j: nat :| b == Pow2(j);
      if j < 5 { Pow2Mono(j, 4); }
    }
  }

  lemma RoundedFrom(wanted: nat)
    ensures Rounded(wanted) == RoundFrom(Pow2(5), wanted)
  {
    assert Pow2(5) == 32;
  }

  lemma {:induction false} RoundFromIs(k: nat, wanted: nat)
    ensures IsPow2(RoundFrom(Pow2(k), wanted)) && RoundFrom(Pow2(k), wanted) >= Pow2(k)
    ensures RoundFrom(Pow2(k), wanted) >= wanted
    ensures forall j: nat :: j >= k && Pow2(j) >= wanted ==> RoundFrom(Pow2(k), wanted) <= Pow2(j)
    decreases wanted - Pow2(k)
  {
    Pow2Positive(k);
    if Pow2(k) >= wanted {
      forall j: nat | j >= k && Pow2(j) >= wanted
        ensures Pow2(k) <= Pow2(j)
      {
        Pow2Mono(k, j);
      }
    } else {
      assert Pow2(k + 1) == 2 * Pow2(k);
      RoundFromIs(k + 1, wanted);
    }
  }

  lemma {:induction false} Pow2Positive(k: nat)
    ensures Pow2(k) > 0
  {
    if k > 0 { Pow2Positive(k - 1); }
  }

  // What a is after j turns of a <<= 1.
  function Doubled(j: nat): nat {
    if j == 0 then 32 else (2 * Doubled(j - 1)) % TWO64
  }

  // The loop reaches an alignment exactly when some power of two can.
  lemma RoundingEnds(alignment: nat)
    requires alignment < TWO64
    ensures (exists j: nat :: Doubled(j) >= alignment) <==> alignment <= TWO63
  {
    if alignment <= TWO63 {
      DoubledIs(58);
      Pow2Facts();
      assert Doubled(58) >= alignment;
    } else {
      forall j: nat ensures Doubled(j) < alignment {
        DoubledBelow(j);
      }
    }
  }

  // For one more than 2^63 the loop never ends.
  lemma NeverReached()
    ensures forall j: nat :: Doubled(j) < TWO63 + 1
  {
    forall j: nat ensures Doubled(j) < TWO63 + 1 {
      DoubledBelow(j);
    }
  }

  lemma {:induction false} DoubledIs(j: nat)
    requires j <= 58
    ensures Doubled(j) == Pow2(j + 5)
  {
    if j > 0 {
      DoubledIs(j - 1);
      Pow2Mono(j + 5, 63);
      Pow2Facts();
    } else {
      assert Pow2(5) == 32;
    }
  }

  lemma {:induction false} DoubledBelow(j: nat)
    ensures Doubled(j) <= TWO63
    ensures j > 58 ==> Doubled(j) == 0
  {
    Pow2Facts();
    if j <= 58 {
      DoubledIs(j);
      Pow2Mono(j + 5, 63);
    } else {
      DoubledBelow(j - 1);
      DoubledIs(58);
      WrapsToZero(j);
    }
  }

  lemma WrapsToZero(j: nat)
    requires j > 58 && (Doubled(j - 1) == 0 || Doubled(j - 1) == TWO63)
    ensures Doubled(j) == 0
  {
  }
}
