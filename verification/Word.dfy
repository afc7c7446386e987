// Arithmetic of the 64-bit size_t the allocator computes with: right shifts,
// the left-shifted register that steers a walk down a tree bin, and the
// subtraction that wraps around.
module Word {
  const TWO64: nat := 0x1_0000_0000_0000_0000
  const TWO32: nat := 0x1_0000_0000
  const TWO63: nat := 0x8000_0000_0000_0000

  function Pow2(k: nat): (r: nat)
    ensures r > 0
  {
    if k == 0 then 1 else 2 * Pow2(k - 1)
  }

  // s >> k
  function Hi(s: nat, k: nat): nat {
    if k == 0 then s else Hi(s, k - 1) / 2
  }

  // (s >> k) & 1
  function Bit(s: nat, k: nat): (b: nat)
    ensures b < 2
  {
    Hi(s, k) % 2
  }

  // Unsigned subtraction.
  function Minus(a: nat, b: nat): (r: nat)
    requires a < TWO64 && b < TWO64
    ensures r < TWO64
    ensures b <= a ==> r == a - b
    ensures a < b ==> r == a + TWO64 - b
  {
    (a - b) % TWO64
  }

  // The register of a tree walk: s shifted left by n, truncated to 64 bits.
  function Reg(s: nat, n: nat): (r: nat)
    ensures r < TWO64
  {
    (s * Pow2(n)) % TWO64
  }

  lemma {:induction false} HiMono(s: nat, t: nat, k: nat)
    requires s <= t
    ensures Hi(s, k) <= Hi(t, k)
  {
    if k > 0 {
      HiMono(s, t, k - 1);
    }
  }

  // A strictly smaller prefix means a strictly smaller number.
  lemma HiLess(s: nat, t: nat, k: nat)
    requires Hi(s, k) < Hi(t, k)
    ensures s < t
  {
    if t <= s {
      HiMono(t, s, k);
    }
  }

  lemma {:induction false} HiAgain(s: nat, j: nat, k: nat)
    ensures Hi(Hi(s, j), k) == Hi(s, j + k)
  {
    if k > 0 {
      HiAgain(s, j, k - 1);
    }
  }

  // Numbers that agree above bit k agree above every higher bit.
  lemma {:induction false} HiCoarser(s: nat, t: nat, j: nat, k: nat)
    requires j <= k && Hi(s, j) == Hi(t, j)
    ensures Hi(s, k) == Hi(t, k)
  {
    if j < k {
      HiCoarser(s, t, j, k - 1);
    }
  }

  lemma {:induction false} HiDouble(x: nat, k: nat)
    ensures Hi(2 * x, k + 1) == Hi(x, k)
  {
    if k > 0 {
      HiDouble(x, k - 1);
    }
  }

  lemma {:induction false} HiShifted(s: nat, n: nat, k: nat)
    ensures Hi(s * Pow2(n), k + n) == Hi(s, k)
  {
    if n > 0 {
      HiShifted(s, n - 1, k);
      assert s * Pow2(n) == 2 * (s * Pow2(n - 1));
      HiDouble(s * Pow2(n - 1), k + n - 1);
    } else {
      assert s * Pow2(0) == s;
    }
  }

  lemma {:induction false} HiPlus(x: nat, m: nat, k: nat)
    ensures Hi(x + m * Pow2(k), k) == Hi(x, k) + m
    decreases k
  {
    if k > 0 {
      assert m * Pow2(k) == (2 * m) * Pow2(k - 1);
      HiPlus(x, 2 * m, k - 1);
    } else {
      assert m * Pow2(0) == m;
    }
  }

  // s >> k brackets s between consecutive multiples of 2^k.
  lemma {:induction false} HiBounds(s: nat, k: nat)
    ensures Hi(s, k) * Pow2(k) <= s < Hi(s, k) * Pow2(k) + Pow2(k)
  {
    if k > 0 {
      HiBounds(s, k - 1);
      HalfBounds(s, Pow2(k - 1), Hi(s, k - 1));
    } else {
      assert Hi(s, 0) * Pow2(0) == s;
    }
  }

  lemma HalfBounds(s: nat, p: nat, h: nat)
    requires h * p <= s < h * p + p
    ensures (h / 2) * (2 * p) <= s < (h / 2) * (2 * p) + 2 * p
  {
    var q, r := h / 2, h % 2;
    assert h * p == (2 * q) * p + r * p;
    assert (2 * q) * p == q * (2 * p);
    if r == 0 {
      assert r * p == 0;
    } else {
      assert r * p == p;
    }
  }

  lemma HiOf(s: nat, k: nat, q: nat)
    requires q * Pow2(k) <= s < q * Pow2(k) + Pow2(k)
    ensures Hi(s, k) == q
  {
    var r := s - q * Pow2(k);
    HiPlus(r, q, k);
    HiBounds(r, k);
    BelowOne(Hi(r, k), Pow2(k));
  }

  lemma BelowOne(z: nat, p: nat)
    requires z * p < p
    ensures z == 0
  {
  }

  lemma HiSmall(s: nat, k: nat)
    requires s < Pow2(k)
    ensures Hi(s, k) == 0
  {
    HiOf(s, k, 0);
  }

  lemma {:induction false} Pow2Add(j: nat, k: nat)
    ensures Pow2(j + k) == Pow2(j) * Pow2(k)
  {
    if k > 0 {
      Pow2Add(j, k - 1);
    }
  }

  lemma Pow2Facts()
    ensures Pow2(63) == TWO63 && Pow2(64) == TWO64
  {
    assert Pow2(16) == 0x1_0000;
    Pow2Add(16, 16);
    Pow2Add(32, 16);
    assert Pow2(15) == 0x8000;
    Pow2Add(48, 15);
    Pow2Add(48, 16);
  }

  // What `K <<= 1` does to the register.
  lemma RegStep(s: nat, n: nat)
    ensures (2 * Reg(s, n)) % TWO64 == Reg(s, n + 1)
  {
    var x := s * Pow2(n);
    assert s * Pow2(n + 1) == 2 * x;
    TwiceMod(x);
  }

  lemma TwiceMod(x: nat)
    ensures (2 * (x % TWO64)) % TWO64 == (2 * x) % TWO64
  {
    var q, r := x / TWO64, x % TWO64;
    assert x == TWO64 * q + r;
    if 2 * r < TWO64 {
      Mod64(2 * x, 2 * q, 2 * r);
    } else {
      Mod64(2 * x, 2 * q + 1, 2 * r - TWO64);
      Mod64(2 * r, 1, 2 * r - TWO64);
    }
  }

  lemma Mod64(x: nat, q: nat, r: nat)
    requires r < TWO64 && x == TWO64 * q + r
    ensures x % TWO64 == r
  {
  }

  // What the register has lost lies above it.
  lemma RegSplits(s: nat, n: nat) returns (q: nat)
    ensures s * Pow2(n) == Reg(s, n) + (2 * q) * Pow2(63)
  {
    Pow2Facts();
    q := s * Pow2(n) / TWO64;
  }

  lemma HiTop(r: nat)
    requires r < TWO64
    ensures Hi(r, 63) == r / TWO63
  {
    Pow2Facts();
    HiOf(r, 63, r / TWO63);
  }

  // The sign bit of the register is the bit of s the walk has reached.
  lemma RegTop(s: nat, n: nat)
    requires n < 64
    ensures (Reg(s, n) / TWO63) % 2 == Bit(s, 63 - n)
  {
    hide Reg, Pow2, Hi;
    var q := RegSplits(s, n);
    HiShifted(s, n, 63 - n);
    HiPlus(Reg(s, n), 2 * q, 63);
    HiTop(Reg(s, n));
  }
}
