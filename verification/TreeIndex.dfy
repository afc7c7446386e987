// Which of the 32 tree bins holds a chunk of a given size.
module TreeIndex {
  import opened Word

  const NTREEBINS: nat := 32
  const MIN_LARGE_SIZE: nat := 256


  // The position of the highest set bit.
  function Log2(x: nat): (k: nat)
    requires x > 0
    ensures Pow2(k) <= x < 2 * Pow2(k)
  {
    if x == 1 then 0 else 1 + Log2(x / 2)
  }

  // What compute_tree_index is to compute.
  function Index(s: nat): (i: nat)
    ensures i < NTREEBINS
  {
    var x := s / 256;
    if x == 0 then 0
    else if x > 0xFFFF then NTREEBINS - 1
    else
      Pow2Table();
      Log2Below(x, 16);
      2 * Log2(x) + Bit(s, Log2(x) + 7)
  }

  lemma {:induction false} Log2Below(x: nat, k: nat)
    requires 0 < x < Pow2(k)
    ensures Log2(x) < k
  {
    if x > 1 {
      Log2Below(x / 2, k - 1);
    }
  }

  // (y - c) >> 16 in 32-bit unsigned arithmetic, masked with the single bit m.
  function Test(y: nat, c: nat, m: nat): (r: nat)
    requires y < TWO32 && c < TWO32 && m > 0
    ensures r == 0 || r == m
  {
    ((((y - c) % TWO32) / 0x1_0000) / m) % 2 * m
  }

  // compute_tree_index, the portable form.
  function PortableIndex(s: nat): int
  {
    var x := s / 256;
    if x == 0 then 0
    else if x > 0xFFFF then NTREEBINS - 1
    else 2 * PortableLog2(x) + Bit(s, PortableLog2(x) + 7)
  }

  function PortableLog2(x: nat): (k: nat)
    requires 0 < x <= 0xFFFF
  {
    Normalized(x);
    14 - Shift(x).1 + Shift(x).0 / 0x8000
  }

  // x moved left until one of its bits 14 and 15 is set, and by how much.
  function Shift(x: nat): (r: (nat, nat))
    requires 0 < x <= 0xFFFF
  {
    TestBelow(x, 0x100, 8);
    var n0 := Test(x, 0x100, 8);
    var y1 := if n0 == 8 then x * 256 else x;
    TestBelow(y1, 0x1000, 4);
    var n1 := Test(y1, 0x1000, 4);
    var y2 := if n1 == 4 then y1 * 16 else y1;
    TestBelow(y2, 0x4000, 2);
    var n2 := Test(y2, 0x4000, 2);
    var y3 := if n2 == 2 then y2 * 4 else y2;
    (y3, n0 + n1 + n2)
  }

  lemma Normalized(x: nat)
    requires 0 < x <= 0xFFFF
    ensures var (y, n) := Shift(x);
      0x4000 <= y <= 0xFFFF && y == x * Pow2(n) && n in {0, 2, 4, 6, 8, 10, 12, 14}
  {
    Pow2Table();
    TestBelow(x, 0x100, 8);
    var y1 := if x < 0x100 then x * 256 else x;
    TestBelow(y1, 0x1000, 4);
    var y2 := if y1 < 0x1000 then y1 * 16 else y1;
    TestBelow(y2, 0x4000, 2);
  }

  lemma FromNormalized(x: nat, y: nat, n: nat)
    requires 0x4000 <= y <= 0xFFFF && y == x * Pow2(n) && n in {0, 2, 4, 6, 8, 10, 12, 14}
    ensures Pow2(14 - n + y / 0x8000) <= x < 2 * Pow2(14 - n + y / 0x8000)
  {
    Pow2Table();
  }

  lemma PortableLog2Exact(x: nat)
    requires 0 < x <= 0xFFFF
    ensures PortableLog2(x) == Log2(x)
  {
    Normalized(x);
    var (y, n) := Shift(x);
    FromNormalized(x, y, n);
    Log2Unique(x, 14 - n + y / 0x8000);
  }

  lemma TestBelow(y: nat, c: nat, m: nat)
    requires y <= 0xFFFF && 0 < c <= 0x4000 && m in {2, 4, 8}
    ensures Test(y, c, m) == if y < c then m else 0
  {
    if y < c {
      assert (y - c) % TWO32 == TWO32 + y - c;
      assert (TWO32 + y - c) / 0x1_0000 == 0xFFFF;
    } else {
      assert (y - c) % TWO32 == y - c;
      assert (y - c) / 0x1_0000 == 0;
    }
  }

  lemma Pow2Table()
    ensures Pow2(0) == 1 && Pow2(1) == 2 && Pow2(2) == 4 && Pow2(3) == 8
    ensures Pow2(4) == 16 && Pow2(5) == 32 && Pow2(6) == 64 && Pow2(7) == 128
    ensures Pow2(8) == 0x100 && Pow2(9) == 0x200 && Pow2(10) == 0x400 && Pow2(11) == 0x800
    ensures Pow2(12) == 0x1000 && Pow2(13) == 0x2000 && Pow2(14) == 0x4000 && Pow2(15) == 0x8000
    ensures Pow2(16) == 0x1_0000 && Pow2(22) == 0x40_0000
  {
  }

  lemma {:induction false} Log2Unique(x: nat, k: nat)
    requires 0 < x && Pow2(k) <= x < 2 * Pow2(k)
    ensures k == Log2(x)
  {
    if k > 0 {
      Log2Unique(x / 2, k - 1);
    }
  }

  // The portable form is right for every size.
  lemma PortableAgrees(s: nat)
    ensures PortableIndex(s) == Index(s)
  {
    hide PortableLog2, Bit, Log2, Pow2;
    var x := s / 256;
    if 0 < x <= 0xFFFF {
      PortableLog2Exact(x);
    }
  }

  // compute_tree_index, the form that counts leading zeros: it looks at 32 bits.
  function ClzIndex(s: nat): int {
    var x := (s / 256) % TWO32;
    if x == 0 then 0
    else if x > 0xFFFF then NTREEBINS - 1
    else 2 * Log2(x) + Bit(s, Log2(x) + 7)
  }

  // It is right for every size below 2^40, and above that only when the bits it
  // looks at happen to say so.
  lemma ClzAgrees(s: nat)
    ensures ClzIndex(s) == Index(s) <==> s / 256 < TWO32 || (s / 256) % TWO32 >= 0xC000
  {
    hide Bit, Log2, Pow2, Hi;
    var x := (s / 256) % TWO32;
    if s / 256 >= TWO32 && 0 < x <= 0xFFFF {
      var m := s / 256 / TWO32;
      assert s / 256 == x + m * TWO32;
      LastByClz(s, x, m);
    }
  }

  lemma LastByClz(s: nat, x: nat, m: nat)
    requires 0 < x <= 0xFFFF && s / 256 == x + m * TWO32
    ensures 2 * Log2(x) + Bit(s, Log2(x) + 7) == NTREEBINS - 1 <==> x >= 0xC000
  {
    Pow2Table();
    hide Pow2, Hi;
    if x >= 0x8000 {
      Log2Unique(x, 15);
      BitBelow(s, x, m);
      HiOf(x, 14, if x >= 0xC000 then 3 else 2);
    } else {
      Log2Below(x, 15);
    }
  }

  // Bits of s above the 40th do not change its bits below.
  lemma BitBelow(s: nat, x: nat, m: nat)
    requires s / 256 == x + m * TWO32
    ensures Bit(s, 22) == Hi(x, 14) % 2
  {
    hide Pow2, Hi;
    Shift8(s);
    HiAgain(s, 8, 14);
    var q := m * 0x4_0000;
    assert m * TWO32 == q * 0x4000;
    HiPlus14(x, q);
  }

  lemma HiPlus14(x: nat, q: nat)
    ensures Hi(x + q * 0x4000, 14) == Hi(x, 14) + q
  {
    Pow2Table();
    HiPlus(x, q, 14);
  }

  // A size of 2^40 would go to the first bin instead of the last.
  lemma ClzFails()
    ensures ClzIndex(0x100_0000_0000) == 0 && Index(0x100_0000_0000) == NTREEBINS - 1
  {
  }

  // How many low bits of a size its bin leaves open.
  function OpenBits(i: nat): nat {
    if i == NTREEBINS - 1 then 64 else i / 2 + 7
  }

  // leftshift_for_tree_index: moves the highest open bit to the sign bit.
  function LeftShift(i: nat): (n: nat)
    requires i < NTREEBINS
    ensures n + OpenBits(i) == 64
  {
    if i == NTREEBINS - 1 then 0 else 63 - (i / 2 + 8 - 2)
  }

  // minsize_for_tree_index
  function MinSize(i: nat): nat {
    (2 + i % 2) * Pow2(i / 2 + 7)
  }

  // Every bin but the last fixes all the higher bits of its sizes.
  lemma FixedBits(s: nat)
    requires s >= MIN_LARGE_SIZE
    ensures Index(s) < NTREEBINS - 1 ==> Hi(s, OpenBits(Index(s))) == 2 + Index(s) % 2
    ensures Index(s) == NTREEBINS - 1 ==> s >= MinSize(NTREEBINS - 1)
  {
    if s / 256 <= 0xFFFF {
      var k := Log2(s / 256);
      TopBits(s, k);
      IndexParts(s);
      hide Index, Hi, Log2, Bit, Pow2;
    }
    if Index(s) == NTREEBINS - 1 {
      LastBin(s);
    }
  }

  lemma LastBin(s: nat)
    requires s >= MIN_LARGE_SIZE && Index(s) == NTREEBINS - 1
    ensures s >= MinSize(NTREEBINS - 1)
  {
    Pow2Table();
    if s / 256 <= 0xFFFF {
      TopBits(s, Log2(s / 256));
      IndexParts(s);
      hide Index, Hi, Log2, Bit, Pow2;
      HiBounds(s, 22);
    }
  }

  lemma TopBits(s: nat, k: nat)
    requires s >= MIN_LARGE_SIZE && k == Log2(s / 256)
    ensures Hi(s, k + 7) == 2 + Bit(s, k + 7)
  {
    HiOf(s / 256, k, 1);
    Shift8(s);
    HiAgain(s, 8, k);
    assert Hi(s, k + 8) == Hi(s, k + 7) / 2;
  }

  lemma IndexParts(s: nat)
    requires MIN_LARGE_SIZE <= s && s / 256 <= 0xFFFF
    ensures Index(s) / 2 == Log2(s / 256) && Index(s) % 2 == Bit(s, Log2(s / 256) + 7)
  {
  }

  lemma Shift8(s: nat)
    ensures Hi(s, 8) == s / 256
  {
    Pow2Table();
    HiOf(s, 8, s / 256);
  }

  // minsize(i) <= s < minsize(i + 1), the last bin being unbounded above.
  lemma SizeRange(s: nat)
    requires s >= MIN_LARGE_SIZE
    ensures MinSize(Index(s)) <= s
    ensures Index(s) < NTREEBINS - 1 ==> s < MinSize(Index(s) + 1)
  {
    hide Index, Hi, MinSize;
    FixedBits(s);
    if Index(s) < NTREEBINS - 1 {
      InBin(s, Index(s));
    }
  }

  lemma InBin(s: nat, i: nat)
    requires Hi(s, i / 2 + 7) == 2 + i % 2
    ensures MinSize(i) <= s < MinSize(i + 1)
  {
    hide Hi, Pow2;
    HiBounds(s, i / 2 + 7);
    NextMin(i);
  }

  lemma NextMin(i: nat)
    ensures MinSize(i + 1) == MinSize(i) + Pow2(i / 2 + 7)
  {
    var k := i / 2 + 7;
    assert Pow2(k + 1) == 2 * Pow2(k);
    hide Pow2;
    if i % 2 == 1 {
      assert (i + 1) / 2 + 7 == k + 1 && (i + 1) % 2 == 0;
    } else {
      assert (i + 1) / 2 + 7 == k && (i + 1) % 2 == 1;
    }
  }

  lemma {:induction false} MinMono(i: nat, j: nat)
    requires i <= j
    ensures MinSize(i) <= MinSize(j)
  {
    if i < j {
      MinMono(i, j - 1);
      NextMin(j - 1);
    }
  }

  lemma IndexMono(s: nat, t: nat)
    requires MIN_LARGE_SIZE <= s <= t
    ensures Index(s) <= Index(t)
  {
    SizeRange(s);
    SizeRange(t);
    if Index(t) < Index(s) {
      MinMono(Index(t) + 1, Index(s));
    }
  }

  // Two sizes of one bin agree above its open bits.
  lemma SameBin(s: nat, t: nat)
    requires MIN_LARGE_SIZE <= s < TWO64 && MIN_LARGE_SIZE <= t < TWO64 && Index(s) == Index(t)
    ensures Hi(s, OpenBits(Index(s))) == Hi(t, OpenBits(Index(s)))
  {
    FixedBits(s);
    FixedBits(t);
    Pow2Facts();
    if Index(s) == NTREEBINS - 1 {
      HiSmall(s, 64);
      HiSmall(t, 64);
    }
  }
}
