// The two 32-bit maps that tell which bins hold a chunk.
module BinMap {
  const NBINS: nat := 32

  function Idx2Bit(i: nat): bv32
    requires i < NBINS
  {
    if i == 0 then 1 else Twice(Idx2Bit(i - 1))
  }

  function And(x: bv32, y: bv32): bv32 {
    x & y
  }

  function Or(x: bv32, y: bv32): bv32 {
    x | y
  }

  function Drop(x: bv32, y: bv32): bv32 {
    x & !y
  }

  function Twice(x: bv32): bv32 {
    x << 1
  }

  predicate IsMarked(m: bv32, i: nat)
    requires i < NBINS
  {
    And(m, Idx2Bit(i)) != 0
  }

  function Mark(m: bv32, i: nat): bv32
    requires i < NBINS
  {
    Or(m, Idx2Bit(i))
  }

  function Clear(m: bv32, i: nat): bv32
    requires i < NBINS
  {
    Drop(m, Idx2Bit(i))
  }

  // The lowest set bit alone.
  function LeastBit(x: bv32): bv32 {
    x & -x
  }

  // All the bits above the lowest set one.
  function LeftBits(x: bv32): bv32 {
    (x << 1) | -(x << 1)
  }

  function Half(x: bv32): bv32 {
    x >> 1
  }

  // x >> i
  function ShiftRight(x: bv32, i: nat): bv32 {
    if i == 0 then x else Half(ShiftRight(x, i - 1))
  }

  // x << i
  function ShiftLeft(x: bv32, i: nat): bv32 {
    if i == 0 then x else Twice(ShiftLeft(x, i - 1))
  }

  // compute_bit2idx without a count-trailing-zeros instruction.
  function Bit2Idx(x: bv32): nat {
    var y0 := x - 1;
    var k1 := (y0 >> 12) & 16;
    var y1 := y0 >> k1;
    var k2 := (y1 >> 5) & 8;
    var y2 := y1 >> k2;
    var k3 := (y2 >> 2) & 4;
    var y3 := y2 >> k3;
    var k4 := (y3 >> 1) & 2;
    var y4 := y3 >> k4;
    var k5 := y4 & 1;
    var y5 := y4 >> k5;
    (k1 + k2 + k3 + k4 + k5 + y5) as nat
  }

  lemma BitTable()
    ensures Idx2Bit(8) == 0x100 && Idx2Bit(16) == 0x1_0000
    ensures Idx2Bit(24) == 0x100_0000 && Idx2Bit(31) == 0x8000_0000
  {
    assert Idx2Bit(8) == 0x100;
    assert Idx2Bit(12) == 0x1000;
    assert Idx2Bit(16) == 0x1_0000;
    assert Idx2Bit(20) == 0x10_0000;
    assert Idx2Bit(24) == 0x100_0000;
    assert Idx2Bit(28) == 0x1000_0000;
    assert Idx2Bit(31) == 0x8000_0000;
  }

  lemma {:induction false} OneBit(i: nat)
    requires i < NBINS
    ensures Idx2Bit(i) != 0
    decreases NBINS - i
  {
    if i == NBINS - 1 {
      BitTable();
    } else {
      OneBit(i + 1);
    }
  }

  lemma {:induction false} BitsDiffer(i: nat, j: nat)
    requires i < j < NBINS
    ensures And(Idx2Bit(i), Idx2Bit(j)) == 0 == And(Idx2Bit(j), Idx2Bit(i))
  {
    hide And, Twice;
    if i == 0 {
      ShiftFromOne(Idx2Bit(j - 1));
    } else {
      BitsDiffer(i - 1, j - 1);
      ShiftApart(Idx2Bit(i - 1), Idx2Bit(j - 1));
    }
  }

  lemma ShiftFromOne(b: bv32)
    ensures And(1, Twice(b)) == 0 == And(Twice(b), 1)
  {
  }

  lemma ShiftApart(a: bv32, b: bv32)
    requires And(a, b) == 0
    ensures And(Twice(a), Twice(b)) == 0 == And(Twice(b), Twice(a))
  {
  }

  lemma ApartOr(m: bv32, a: bv32, b: bv32)
    requires And(a, b) == 0
    ensures And(Or(m, a), b) == And(m, b)
  {
  }

  lemma ApartDrop(m: bv32, a: bv32, b: bv32)
    requires And(a, b) == 0
    ensures And(Drop(m, a), b) == And(m, b)
  {
  }

  lemma Alone(m: bv32, a: bv32)
    ensures And(Or(m, a), a) == a && And(Drop(m, a), a) == 0
  {
  }

  lemma MarkSelf(m: bv32, i: nat)
    requires i < NBINS
    ensures IsMarked(Mark(m, i), i) && !IsMarked(Clear(m, i), i)
  {
    hide And, Or, Drop, Idx2Bit;
    OneBit(i);
    Alone(m, Idx2Bit(i));
  }

  lemma MarkOther(m: bv32, i: nat, j: nat)
    requires i < NBINS && j < NBINS && i != j
    ensures IsMarked(Mark(m, i), j) == IsMarked(m, j) == IsMarked(Clear(m, i), j)
  {
    hide And, Or, Drop, Idx2Bit;
    if i < j {
      BitsDiffer(i, j);
    } else {
      BitsDiffer(j, i);
    }
    ApartOr(m, Idx2Bit(i), Idx2Bit(j));
    ApartDrop(m, Idx2Bit(i), Idx2Bit(j));
  }

  // Marking and clearing change exactly one bin.
  lemma MarkBits(m: bv32, i: nat)
    requires i < NBINS
    ensures forall j :: 0 <= j < NBINS ==> (IsMarked(Mark(m, i), j) <==> j == i || IsMarked(m, j))
    ensures forall j :: 0 <= j < NBINS ==> (IsMarked(Clear(m, i), j) <==> j != i && IsMarked(m, j))
  {
    forall j | 0 <= j < NBINS
      ensures IsMarked(Mark(m, i), j) <==> j == i || IsMarked(m, j)
      ensures IsMarked(Clear(m, i), j) <==> j != i && IsMarked(m, j)
    {
      if i == j { MarkSelf(m, i); } else { MarkOther(m, i, j); }
    }
  }

  // No bit of x up to and including bit b is set.
  predicate NoneUpTo(x: bv32, b: bv32) {
    x & (b | (b - 1)) == 0 && b & (b - 1) == 0
  }

  lemma {:induction false} NoneBelow(x: bv32, n: nat)
    requires n < NBINS
    requires forall j :: 0 <= j <= n ==> !IsMarked(x, j)
    ensures NoneUpTo(x, Idx2Bit(n))
  {
    hide And, Twice, NoneUpTo;
    assert !IsMarked(x, n);
    if n > 0 {
      NoneBelow(x, n - 1);
      MaskStep(x, Idx2Bit(n - 1));
    } else {
      MaskBase(x);
    }
  }

  lemma MaskBase(x: bv32)
    requires And(x, 1) == 0
    ensures NoneUpTo(x, 1)
  {
  }

  lemma MaskStep(x: bv32, b: bv32)
    requires NoneUpTo(x, b) && And(x, Twice(b)) == 0
    ensures NoneUpTo(x, Twice(b))
  {
  }

  // A map that is not zero marks some bin.
  lemma SomeMarked(x: bv32)
    requires x != 0
    ensures exists j :: 0 <= j < NBINS && IsMarked(x, j)
  {
    if forall j :: 0 <= j < NBINS ==> !IsMarked(x, j) {
      NoneBelow(x, NBINS - 1);
      BitTable();
      NoneAtAll(x);
    }
  }

  lemma NoneAtAll(x: bv32)
    requires NoneUpTo(x, 0x8000_0000)
    ensures x == 0
  {
  }

  lemma {:induction false} PowerBit(i: nat)
    requires i < NBINS
    ensures Single(Idx2Bit(i))
  {
    hide Single, Twice;
    if i > 0 {
      PowerBit(i - 1);
      SingleTwice(Idx2Bit(i - 1));
    } else {
      SingleOne();
    }
  }

  predicate Single(b: bv32) {
    b & (b - 1) == 0
  }

  lemma SingleOne()
    ensures Single(1)
  {
  }

  lemma SingleTwice(b: bv32)
    requires Single(b)
    ensures Single(Twice(b))
  {
  }

  lemma SingleMeet(x: bv32, b: bv32)
    requires Single(b)
    ensures And(x, b) == 0 || And(x, b) == b
  {
  }

  lemma AndAssoc(x: bv32, y: bv32, b: bv32)
    ensures And(And(x, y), b) == And(x, And(y, b)) && And(x, 0) == 0
  {
  }

  lemma AndMarked(x: bv32, y: bv32, j: nat)
    requires j < NBINS
    ensures IsMarked(And(x, y), j) <==> IsMarked(x, j) && IsMarked(y, j)
  {
    hide And, Single, Idx2Bit;
    PowerBit(j);
    OneBit(j);
    SingleMeet(y, Idx2Bit(j));
    AndAssoc(x, y, Idx2Bit(j));
  }

  lemma NoTop(j: nat)
    requires j < NBINS - 1
    ensures And(Idx2Bit(j), 0x8000_0000) == 0
  {
    BitTable();
    BitsDiffer(j, 31);
  }

  lemma TwiceBoth(x: bv32, b: bv32)
    requires And(b, 0x8000_0000) == 0
    ensures And(Twice(x), Twice(b)) == 0 <==> And(x, b) == 0
  {
  }

  lemma HalfOne(x: bv32, b: bv32)
    requires And(b, 0x8000_0000) == 0
    ensures And(Half(x), b) == 0 <==> And(x, Twice(b)) == 0
  {
  }

  lemma HalfTop(x: bv32)
    ensures And(Half(x), 0x8000_0000) == 0
  {
  }

  lemma TwiceMarked(x: bv32, j: nat)
    requires j < NBINS
    ensures IsMarked(Twice(x), j) <==> j > 0 && IsMarked(x, j - 1)
  {
    hide And, Twice;
    if j == 0 {
      TwiceEven(x);
    } else {
      NoTop(j - 1);
      TwiceBoth(x, Idx2Bit(j - 1));
    }
  }

  lemma TwiceEven(x: bv32)
    ensures And(Twice(x), 1) == 0
  {
  }

  lemma HalfMarked(x: bv32, j: nat)
    requires j < NBINS
    ensures IsMarked(Half(x), j) <==> j + 1 < NBINS && IsMarked(x, j + 1)
  {
    hide And, Twice, Half;
    if j == NBINS - 1 {
      BitTable();
      HalfTop(x);
    } else {
      NoTop(j);
      HalfOne(x, Idx2Bit(j));
    }
  }

  lemma {:induction false} ShiftRightMarked(x: bv32, i: nat, j: nat)
    requires j < NBINS
    ensures IsMarked(ShiftRight(x, i), j) <==> i + j < NBINS && IsMarked(x, i + j)
  {
    hide IsMarked, Half;
    if i > 0 {
      HalfMarked(ShiftRight(x, i - 1), j);
      if j + 1 < NBINS {
        ShiftRightMarked(x, i - 1, j + 1);
      }
    }
  }

  lemma {:induction false} ShiftLeftMarked(x: bv32, i: nat, j: nat)
    requires j < NBINS
    ensures IsMarked(ShiftLeft(x, i), j) <==> i <= j && IsMarked(x, j - i)
  {
    hide IsMarked, Twice;
    if i > 0 {
      TwiceMarked(ShiftLeft(x, i - 1), j);
      if j > 0 {
        ShiftLeftMarked(x, i - 1, j - 1);
      }
    }
  }

  lemma LeftTwice(b: bv32)
    ensures LeftBits(Twice(b)) == Twice(LeftBits(b))
  {
  }

  lemma LeftOne(b: bv32)
    ensures And(LeftBits(1), Twice(b)) == Twice(b) && And(LeftBits(1), 1) == 0
  {
  }

  // left_bits selects exactly the higher indices.
  lemma {:induction false} LeftBitsMarked(i: nat, j: nat)
    requires i < NBINS && j < NBINS
    ensures IsMarked(LeftBits(Idx2Bit(i)), j) <==> j > i
  {
    hide And, Twice, LeftBits;
    if i == 0 {
      OneBit(j);
      LeftOne(if j == 0 then 0 else Idx2Bit(j - 1));
    } else {
      LeftTwice(Idx2Bit(i - 1));
      TwiceMarked(LeftBits(Idx2Bit(i - 1)), j);
      if j > 0 {
        LeftBitsMarked(i - 1, j - 1);
      }
    }
  }

  lemma LeastOne(x: bv32)
    requires And(x, 1) != 0
    ensures LeastBit(x) == 1
  {
  }

  lemma LeastTwice(x: bv32, b: bv32)
    requires NoneUpTo(x, b) && And(x, Twice(b)) != 0
    ensures LeastBit(x) == Twice(b)
  {
  }

  lemma LeastIs(x: bv32, i: nat)
    requires i < NBINS && IsMarked(x, i)
    requires forall j :: 0 <= j < i ==> !IsMarked(x, j)
    ensures LeastBit(x) == Idx2Bit(i)
  {
    hide And, Twice, LeastBit, NoneUpTo;
    if i == 0 {
      LeastOne(x);
    } else {
      NoneBelow(x, i - 1);
      LeastTwice(x, Idx2Bit(i - 1));
    }
  }

  lemma IndexByte0()
    ensures forall i :: 0 <= i < 8 ==> Bit2Idx(Idx2Bit(i)) == i
  {
    assert Bit2Idx(Idx2Bit(0)) == 0 && Bit2Idx(Idx2Bit(1)) == 1 && Bit2Idx(Idx2Bit(2)) == 2;
    assert Bit2Idx(Idx2Bit(3)) == 3 && Bit2Idx(Idx2Bit(4)) == 4 && Bit2Idx(Idx2Bit(5)) == 5;
    assert Bit2Idx(Idx2Bit(6)) == 6 && Bit2Idx(Idx2Bit(7)) == 7;
  }

  lemma IndexByte1()
    ensures forall i :: 8 <= i < 16 ==> Bit2Idx(Idx2Bit(i)) == i
  {
    BitTable();
    assert Bit2Idx(Idx2Bit(8)) == 8 && Bit2Idx(Idx2Bit(9)) == 9 && Bit2Idx(Idx2Bit(10)) == 10;
    assert Bit2Idx(Idx2Bit(11)) == 11 && Bit2Idx(Idx2Bit(12)) == 12 && Bit2Idx(Idx2Bit(13)) == 13;
    assert Bit2Idx(Idx2Bit(14)) == 14 && Bit2Idx(Idx2Bit(15)) == 15;
  }

  lemma IndexByte2()
    ensures forall i :: 16 <= i < 24 ==> Bit2Idx(Idx2Bit(i)) == i
  {
    BitTable();
    assert Bit2Idx(Idx2Bit(16)) == 16 && Bit2Idx(Idx2Bit(17)) == 17 && Bit2Idx(Idx2Bit(18)) == 18;
    assert Bit2Idx(Idx2Bit(19)) == 19 && Bit2Idx(Idx2Bit(20)) == 20 && Bit2Idx(Idx2Bit(21)) == 21;
    assert Bit2Idx(Idx2Bit(22)) == 22 && Bit2Idx(Idx2Bit(23)) == 23;
  }

  lemma IndexByte3()
    ensures forall i :: 24 <= i < 32 ==> Bit2Idx(Idx2Bit(i)) == i
  {
    BitTable();
    assert Bit2Idx(Idx2Bit(24)) == 24 && Bit2Idx(Idx2Bit(25)) == 25 && Bit2Idx(Idx2Bit(26)) == 26;
    assert Bit2Idx(Idx2Bit(27)) == 27 && Bit2Idx(Idx2Bit(28)) == 28 && Bit2Idx(Idx2Bit(29)) == 29;
    assert Bit2Idx(Idx2Bit(30)) == 30 && Bit2Idx(Idx2Bit(31)) == 31;
  }

  lemma BitToIndex(x: bv32, i: nat)
    requires i < NBINS && IsMarked(x, i)
    requires forall j :: 0 <= j < i ==> !IsMarked(x, j)
    ensures Bit2Idx(LeastBit(x)) == i
  {
    hide Bit2Idx, LeastBit, Idx2Bit, IsMarked;
    LeastIs(x, i);
    IndexByte0();
    IndexByte1();
    IndexByte2();
    IndexByte3();
  }

  lemma {:induction false} LowestFrom(x: bv32, i: nat) returns (k: nat)
    requires i <= NBINS
    requires forall j :: 0 <= j < i ==> !IsMarked(x, j)
    requires exists j :: 0 <= j < NBINS && IsMarked(x, j)
    ensures k < NBINS && IsMarked(x, k)
    ensures forall j :: 0 <= j < k ==> !IsMarked(x, j)
    decreases NBINS - i
  {
    hide IsMarked;
    if IsMarked(x, i) {
      k := i;
    } else {
      k := LowestFrom(x, i + 1);
    }
  }

  // compute_bit2idx(least_bit(x)) is the lowest marked index.
  lemma LowestMarked(x: bv32)
    requires x != 0
    ensures var i := Bit2Idx(LeastBit(x));
      i < NBINS && IsMarked(x, i) && forall j :: 0 <= j < i ==> !IsMarked(x, j)
  {
    hide IsMarked, Bit2Idx, LeastBit;
    SomeMarked(x);
    var k := LowestFrom(x, 0);
    BitToIndex(x, k);
  }

  lemma {:induction false} NothingMarked(j: nat)
    requires j < NBINS
    ensures !IsMarked(0, j)
  {
    NothingMeets(Idx2Bit(j));
  }

  lemma NothingMeets(b: bv32)
    ensures And(0, b) == 0
  {
  }

  // The bins above idx that map m marks.
  function Above(m: bv32, idx: nat): bv32
    requires idx < NBINS
  {
    And(LeftBits(Idx2Bit(idx)), m)
  }

  lemma AboveMarked(m: bv32, idx: nat, j: nat)
    requires idx < NBINS && j < NBINS
    ensures IsMarked(Above(m, idx), j) <==> j > idx && IsMarked(m, j)
  {
    hide IsMarked, And, LeftBits, Idx2Bit;
    LeftBitsMarked(idx, j);
    AndMarked(LeftBits(Idx2Bit(idx)), m, j);
  }

  // The next marked bin above idx, as the tree bins are searched.
  lemma NextAbove(m: bv32, idx: nat)
    requires idx < NBINS
    ensures Above(m, idx) == 0 ==> forall j :: idx < j < NBINS ==> !IsMarked(m, j)
    ensures Above(m, idx) != 0 ==> var i := Bit2Idx(LeastBit(Above(m, idx)));
      idx < i < NBINS && IsMarked(m, i) && forall j :: idx < j < i ==> !IsMarked(m, j)
  {
    hide IsMarked, Above, Bit2Idx, LeastBit;
    var x := Above(m, idx);
    forall j | 0 <= j < NBINS
      ensures IsMarked(x, j) <==> j > idx && IsMarked(m, j)
    {
      AboveMarked(m, idx, j);
    }
    if x == 0 {
      forall j | idx < j < NBINS
        ensures !IsMarked(m, j)
      {
        NothingMarked(j);
      }
    } else {
      LowestMarked(x);
    }
  }

  // The shifted small map: its bits 0 and 1, and whether anything is left.
  lemma SmallBits(m: bv32, idx: nat)
    requires idx + 1 < NBINS
    ensures var b := ShiftRight(m, idx);
      && (b & 3 != 0 <==> IsMarked(m, idx) || IsMarked(m, idx + 1))
      && (!b & 1 == 0 <==> IsMarked(m, idx))
      && (!b & 1 != 0 ==> !b & 1 == 1)
      && (b != 0 <==> exists j :: idx <= j < NBINS && IsMarked(m, j))
  {
    hide IsMarked, ShiftRight;
    var b := ShiftRight(m, idx);
    ShiftRightMarked(m, idx, 0);
    ShiftRightMarked(m, idx, 1);
    LowBits(b);
    if b != 0 {
      SomeMarked(b);
      var j :| 0 <= j < NBINS && IsMarked(b, j);
      ShiftRightMarked(m, idx, j);
    } else if j :| idx <= j < NBINS && IsMarked(m, j) {
      ShiftRightMarked(m, idx, j - idx);
      NothingMarked(j - idx);
    }
  }

  lemma LowBits(b: bv32)
    ensures b & 3 != 0 <==> IsMarked(b, 0) || IsMarked(b, 1)
    ensures !b & 1 == 0 <==> IsMarked(b, 0)
    ensures !b & 1 != 0 ==> !b & 1 == 1
  {
    assert Idx2Bit(0) == 1 && Idx2Bit(1) == 2;
  }

  // The next marked bin above idx, as the small bins are searched.
  lemma NextSmall(m: bv32, idx: nat)
    requires idx < NBINS
    ensures Above(ShiftLeft(ShiftRight(m, idx), idx), idx) == Above(m, idx)
  {
    hide IsMarked, Above, ShiftLeft, ShiftRight;
    var x, y := ShiftLeft(ShiftRight(m, idx), idx), m;
    forall j | 0 <= j < NBINS
      ensures IsMarked(Above(x, idx), j) == IsMarked(Above(y, idx), j)
    {
      AboveMarked(x, idx, j);
      AboveMarked(y, idx, j);
      ShiftLeftMarked(ShiftRight(m, idx), idx, j);
      if idx <= j {
        ShiftRightMarked(m, idx, j - idx);
      }
    }
    SameMarks(Above(x, idx), Above(y, idx));
  }

  lemma SameMarks(x: bv32, y: bv32)
    requires forall j :: 0 <= j < NBINS ==> IsMarked(x, j) == IsMarked(y, j)
    ensures x == y
  {
    hide IsMarked;
    var d := Or(Drop(x, y), Drop(y, x));
    if d != 0 {
      SomeMarked(d);
      var j :| 0 <= j < NBINS && IsMarked(d, j);
      DiffersAt(x, y, j);
    }
    NoDifference(x, y);
  }

  lemma NoDifference(x: bv32, y: bv32)
    ensures Or(Drop(x, y), Drop(y, x)) == 0 ==> x == y
  {
  }

  lemma DiffersAt(x: bv32, y: bv32, j: nat)
    requires j < NBINS && IsMarked(Or(Drop(x, y), Drop(y, x)), j)
    ensures IsMarked(x, j) != IsMarked(y, j)
  {
    hide And, Or, Drop, Idx2Bit, Single;
    PowerBit(j);
    SingleMeet(x, Idx2Bit(j));
    SingleMeet(y, Idx2Bit(j));
    if And(x, Idx2Bit(j)) == And(y, Idx2Bit(j)) {
      DifferBits(x, y, Idx2Bit(j));
    }
  }

  lemma DifferBits(x: bv32, y: bv32, b: bv32)
    requires And(x, b) == And(y, b)
    ensures And(Or(Drop(x, y), Drop(y, x)), b) == 0
  {
  }
}
