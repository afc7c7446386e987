// create_mspace_with_base
module Create {
  import opened Word
  import Align
  import opened TreeIndex
  import opened BinMap
  import opened Bins
  import opened Tries
  import opened Rings
  import opened Tags
  import opened Cuts
  import opened Mstate
  import opened Guards
  import opened Rooms

  // init_bins
  method InitBins(M: Mstate)
    requires Floor(M.m) <= M.end == |M.fd| == |M.bk|
    modifies M`fd, M`bk
    ensures |M.fd| == |M.bk| == M.end
    ensures forall i :: 0 <= i < NBINS ==> Ring(M.fd, M.bk, [SmallbinAt(M.m, i)])
  {
    var i := 0;
    while i < NBINS
      invariant i <= NBINS && |M.fd| == |M.bk| == M.end
      invariant forall j :: 0 <= j < i ==> Ring(M.fd, M.bk, [SmallbinAt(M.m, j)])
    {
      var bin := SmallbinAt(M.m, i);
      ghost var fd, bk := M.fd, M.bk;
      M.fd := M.fd[bin := bin];
      M.bk := M.bk[bin := bin];
      forall j | 0 <= j < i
        ensures Ring(M.fd, M.bk, [SmallbinAt(M.m, j)])
      {
        RingFrame(fd, bk, M.fd, M.bk, [SmallbinAt(M.m, j)]);
      }
      SelfLinked(M.fd, M.bk, bin);
      i := i + 1;
    }
  }

  // init_top
  method InitTop(M: Mstate, p: Addr, psize: nat, threshold: nat)
    requires p % 16 == 0 && p < p + psize < |M.head|
    modifies M`top, M`topsize, M`head, M`trim_check
    ensures M.top == p && M.topsize == psize && M.trim_check == threshold
    ensures M.head == old(M.head)[p := Head(psize, true, false)][p + psize := Head(TOP_FOOT_SIZE, false, false)]
  {
    M.top := p;
    M.topsize := psize;
    M.head := M.head[p := Head(psize, true, false)];
    M.head := M.head[p + psize := Head(TOP_FOOT_SIZE, false, false)];
    M.trim_check := threshold;
  }

  lemma NoBinsYet(m: nat, n: nat, l: Links)
    requires Sized(l, n) && Floor(m) <= n && l.smallmap == 0 && l.treemap == 0
    requires l.treebins == seq(NTREEBINS, _ => 0)
    ensures BinInv(Bins(map[], map[], Trie(seq(NTREEBINS, _ => 0), map[])), m, n, l)
  {
    hide IsMarked, Index;
    forall i | 0 <= i < NBINS
      ensures !IsMarked(0, i)
    {
      NothingMarked(i);
    }
    assert NTREEBINS == NBINS;
  }

  // One chunk, for the state record, and top.
  lemma FreshTags(g: Tags, msize: nat, psize: nat)
    requires |g.head| == |g.foot| == g.n && g.n < TWO64 && g.live == {g.lo} && g.top == g.lo + msize
    requires g.lo % 16 == 0 && msize % 16 == 0 && 32 <= msize && psize > 0
    requires g.top + psize + TOP_FOOT_SIZE == g.n
    requires g.head[g.lo] == Head(msize, true, true) && g.head[g.top] == Head(psize, true, false)
    requires g.head[g.top + psize] == Head(TOP_FOOT_SIZE, false, false)
    ensures TagInv(g) && Used(g) == map[]
  {
    hide TagInv;
    assert ChunkOk(g, g.lo);
    TagIntro(g);
  }

  // align_offset(chunk2mem(a)): how far the first aligned chunk lies from a.
  function AlignOffset(a: Addr): (off: nat)
    ensures off < 16 && (a + off) % 16 == 0
  {
    var low := (a + 16) % 16;
    if low == 0 then 0 else (16 - low) % 16
  }

  // What is left for top, computed in 64 bits.
  function TopSize(base: Addr, capacity: nat, msize: nat): nat {
    (capacity - AlignOffset(base) - msize - TOP_FOOT_SIZE) % TWO64
  }

  // It is what is really there exactly when the segment has room for the record
  // behind the alignment, and for the foot.
  lemma TopSizeReal(base: Addr, capacity: nat, msize: nat)
    requires capacity < TWO64 && msize + 96 < TWO64
    ensures AlignOffset(base) + msize + TOP_FOOT_SIZE + TopSize(base, capacity, msize) == capacity
      <==> AlignOffset(base) + msize + TOP_FOOT_SIZE <= capacity
  {
  }

  // One byte more than the record and the foot take is too little at an odd
  // address.
  lemma TopSizeWraps()
    ensures 896 + TOP_FOOT_SIZE < 977 && TopSize(1, 977, 896) == TWO64 - 14
  {
  }

  // The head word of top after init_top, on a machine that stores the low byte
  // first: where psize is less than 8, the head of the fake chunk behind it is
  // written over its upper bytes.
  function TopWord(psize: nat): nat {
    var word := if psize % 2 == 0 then psize + 1 else psize;
    match psize
    case 0 => TOP_FOOT_SIZE
    case 1 => word + 0x100 * TOP_FOOT_SIZE
    case 2 => word + 0x1_0000 * TOP_FOOT_SIZE
    case 3 => word + 0x100_0000 * TOP_FOOT_SIZE
    case 4 => word + 0x1_0000_0000 * TOP_FOOT_SIZE
    case 5 => word + 0x100_0000_0000 * TOP_FOOT_SIZE
    case 6 => word + 0x1_0000_0000_0000 * TOP_FOOT_SIZE
    case 7 => word + 0x100_0000_0000_0000 * TOP_FOOT_SIZE
    case _ => word
  }

  // What check_top_chunk makes of it: all but the two low bits, which are flags.
  function SizeOfWord(word: nat): nat {
    word - word % 4
  }

  predicate Checked(psize: nat) {
    SizeOfWord(TopWord(psize)) == psize && psize > 0
  }

  // The sizes that pass the check.
  lemma SizeChecks(psize: nat)
    ensures Checked(psize) <==> psize % 4 == 0 && psize >= 8
  {
    if psize >= 8 { WordReads(psize); }
  }

  // The low bits of a size survive only as long as they are not the flags.
  lemma WordReads(psize: nat)
    ensures var word := if psize % 2 == 0 then psize + 1 else psize;
      SizeOfWord(word) == psize <==> psize % 4 == 0
  {
  }

  // The top chunk of a new space passes this check just when the end of the
  // segment is a multiple of 4 and at least 8 bytes are left for top.
  lemma TopChecks(base: Addr, capacity: nat, msize: nat)
    requires AlignOffset(base) + msize + TOP_FOOT_SIZE <= capacity < TWO64 && msize % 16 == 0
    ensures Checked(TopSize(base, capacity, msize))
      <==> (base + capacity) % 4 == 0 && AlignOffset(base) + msize + TOP_FOOT_SIZE + 8 <= capacity
  {
    hide Checked;
    var psize := TopSize(base, capacity, msize);
    SizeChecks(psize);
    AlignedStart(base, msize);
    EndOfTop(base + AlignOffset(base) + msize, psize);
  }

  // A segment with an odd end fails it, and so does one with 4 bytes for top.
  lemma TopFails()
    ensures !Checked(TopSize(0, 2001, 896)) && !Checked(TopSize(0, 980, 896))
  {
    hide Checked, TopSize, AlignOffset;
    OffsetZero();
    TopChecks(0, 2001, 896);
    TopChecks(0, 980, 896);
  }

  lemma OffsetZero()
    ensures AlignOffset(0) == 0
  {
  }

  lemma AlignedStart(base: Addr, msize: nat)
    requires msize % 16 == 0
    ensures (base + AlignOffset(base) + msize) % 16 == 0
  {
    var q, j := (base + AlignOffset(base)) / 16, msize / 16;
    assert base + AlignOffset(base) == 16 * q && msize == 16 * j;
    Align.Multiple(16, q + j, 0);
  }

  lemma EndOfTop(top: Addr, psize: nat)
    requires top % 16 == 0
    ensures (top + psize + TOP_FOOT_SIZE) % 4 == psize % 4
  {
    var k, a, r := top / 16, psize / 4, psize % 4;
    assert top == 16 * k && psize == 4 * a + r;
    assert top + psize + TOP_FOOT_SIZE == 4 * (4 * k + a + 20) + r;
    Align.Multiple(4, 4 * k + a + 20, r);
  }

  // Wherever top comes to lie, its head word is clear of the head word of the
  // fake chunk behind it, just when the end of the segment is no more than 0 or
  // no less than 8 above a multiple of 16.
  lemma HeadsApart(end: nat)
    requires end >= TOP_FOOT_SIZE + 16
    ensures (forall top: nat :: Aligned16(top) && top + TOP_FOOT_SIZE < end ==> 8 <= end - TOP_FOOT_SIZE - top)
      <==> end % 16 == 0 || end % 16 >= 8
  {
    var top := end - TOP_FOOT_SIZE - end % 16;
    assert Aligned16(top);
    if end % 16 == 0 || end % 16 >= 8 {
      forall t: nat | Aligned16(t) && t + TOP_FOOT_SIZE < end
        ensures 8 <= end - TOP_FOOT_SIZE - t
      {
        assert (end - TOP_FOOT_SIZE - t) % 16 == end % 16;
      }
    }
  }

  // In a segment that ends at 2004, top can come to lie 4 bytes before the fake
  // chunk.
  lemma HeadsMeet()
    ensures Aligned16(1920) && 1920 + TOP_FOOT_SIZE < 2004 && 2004 - TOP_FOOT_SIZE - 1920 < 8
  {
  }

  predicate Aligned16(a: nat) {
    a % 16 == 0
  }

  // What becomes of an attempt to create a space: null, a space, the end of the
  // program in the check of its top chunk, or a top that wraps around.
  datatype Fate = Null | Made | Aborts | Wraps

  function FateOf(base: Addr, capacity: nat, msize: nat, page_size: nat): Fate
    requires msize + TOP_FOOT_SIZE + page_size < TWO64
  {
    if !(msize + TOP_FOOT_SIZE < capacity < TWO64 - (msize + TOP_FOOT_SIZE + page_size)) then Null
    else if capacity < AlignOffset(base) + msize + TOP_FOOT_SIZE then Wraps
    else if Roomy(base, capacity, msize) then Made
    else Aborts
  }

  // At least 8 bytes are left for top, and the segment ends at a multiple of 4.
  predicate Roomy(base: Addr, capacity: nat, msize: nat) {
    (base + capacity) % 4 == 0 && AlignOffset(base) + msize + TOP_FOOT_SIZE + 8 <= capacity
  }

  // The free room of a new space: all of it is top, behind the state record.
  ghost function FirstRoom(base: Addr, capacity: nat, msize: nat, threshold: nat): Room {
    Room(map[], map[], 0, 0, base + AlignOffset(base) + msize, TopSize(base, capacity, msize), threshold)
  }

  // init_user_mstate, where the check of the top chunk passes
  method InitUserMstate(tbase: Addr, tsize: nat, msize: nat, threshold: nat, cookie: nat, memory: Memory)
    returns (M: Mstate)
    requires msize % 16 == 0 && 896 <= msize && Roomy(tbase, tsize, msize)
    requires tbase + tsize < TWO64 && memory.Reaches(tbase + tsize)
    ensures fresh(M) && M.Inv() && M.Live() == map[] && M.data == memory.data
    ensures M.least == tbase && M.base == tbase + AlignOffset(tbase) && M.end == tbase + tsize && M.end % 4 == 0
    ensures M.msize == msize && M.cookie == cookie && M.keep == map[]
    ensures RoomOf(M) == FirstRoom(tbase, tsize, msize, threshold)
  {
    hide BinInv, TagInv, Used, Ring, Mstate.Sound, TagsGuarded, LinksGuarded;
    M := new Mstate(tbase, AlignOffset(tbase), tbase + tsize, msize, cookie, memory);
    Equip(M, threshold);
    TopChecks(tbase, tsize, msize);
    assert Checked(M.topsize);
  }

  method EmptyBins(M: Mstate)
    requires Sized(M.L(), M.end) && Floor(M.m) <= M.end && M.smallmap == 0 && M.treemap == 0
    requires M.treebins == seq(NTREEBINS, _ => 0) && M.b == Bins(map[], map[], Trie(seq(NTREEBINS, _ => 0), map[]))
    modifies M`fd, M`bk
    ensures M.Binned()
  {
    hide BinInv, Ring;
    InitBins(M);
    NoBinsYet(M.m, M.end, M.L());
  }

  // A cleared record gets its bins and its first chunks.
  method Equip(M: Mstate, threshold: nat)
    requires Sized(M.L(), M.end) && Floor(M.m) <= M.end && M.smallmap == 0 && M.treemap == 0
    requires M.treebins == seq(NTREEBINS, _ => 0) && M.b == Bins(map[], map[], Trie(seq(NTREEBINS, _ => 0), map[]))
    requires |M.head| == |M.foot| == M.end < TWO64 && M.live == {} && M.dvsize == 0 && M.dv == 0 && M.keep == map[]
    requires M.base % 16 == 0 && M.msize % 16 == 0 && 896 <= M.msize && M.base + M.msize + TOP_FOOT_SIZE < M.end
    modifies M`fd, M`bk, M`head, M`top, M`topsize, M`trim_check, M`live, M`was
    ensures M.Inv() && M.Live() == map[]
    ensures RoomOf(M) ==
      Room(map[], map[], 0, 0, M.base + M.msize, M.end - M.base - M.msize - TOP_FOOT_SIZE, threshold)
  {
    hide BinInv, TagInv, Used, Ring, Mstate.Sound, TagsGuarded, LinksGuarded;
    EmptyBins(M);
    FirstChunks(M, threshold);
    M.was := M.Cols();
    Opened(M);
  }

  // The chunk of the state record, and top after it.
  method FirstChunks(M: Mstate, threshold: nat)
    requires |M.head| == |M.foot| == M.end < TWO64 && M.live == {}
    requires M.base % 16 == 0 && M.msize % 16 == 0 && 32 <= M.msize && M.base + M.msize + TOP_FOOT_SIZE < M.end
    modifies M`head, M`top, M`topsize, M`trim_check, M`live
    ensures TagInv(M.G()) && Used(M.G()) == map[] && M.live == {M.base}
    ensures M.topsize == M.end - M.base - M.msize - TOP_FOOT_SIZE
    ensures M.top == M.base + M.msize && M.trim_check == threshold
    ensures M.top < |M.head| && M.topsize == M.head[M.top].size
    ensures M.base < |M.head| && M.head[M.base].cinuse && M.msize == M.head[M.base].size
  {
    hide TagInv, Used;
    M.head := M.head[M.base := Head(M.msize, true, true)];
    var mn := M.base + M.msize;
    var psize := M.end - mn - TOP_FOOT_SIZE;
    InitTop(M, mn, psize, threshold);
    M.live := {M.base};
    FreshTags(M.G(), M.msize, psize);
  }

  lemma Opened(M: Mstate)
    requires M.keep == map[] && M.was == M.Cols()
    requires M.Binned() && TagInv(M.G()) && M.b.of == map[] && M.live == {M.base} && M.dvsize == 0 && M.dv == 0
    requires M.top < |M.head| && M.topsize == M.head[M.top].size
    requires M.base < |M.head| && M.head[M.base].cinuse && 896 <= M.msize == M.head[M.base].size
    ensures M.Inv()
  {
    hide BinInv, TagInv;
  }

  // create_mspace_with_base: null unless the segment has room for more than
  // the state record and the foot of top. Where a space is made, its size for
  // top is what is really there and passes the check.
  method CreateMspaceWithBase(base: Addr, capacity: nat, msize: nat, page_size: nat, threshold: nat, cookie: nat,
                              memory: Memory)
    returns (M: Mstate?, fate: Fate)
    requires msize % 16 == 0 && 896 <= msize
    requires base + capacity < TWO64 && memory.Reaches(base + capacity)
    requires msize + TOP_FOOT_SIZE + page_size < TWO64
    ensures fate == FateOf(base, capacity, msize, page_size) && (M != null <==> fate.Made?)
    ensures M != null ==> fresh(M) && M.Inv() && M.Live() == map[] && M.data == memory.data && M.keep == map[]
    ensures M != null ==> M.least == base && M.end == base + capacity && M.end % 4 == 0
    ensures M != null ==> RoomOf(M) == FirstRoom(base, capacity, msize, threshold)
  {
    hide BinInv, TagInv, Agree, Used, Mstate.Sound, TagsGuarded, LinksGuarded, Roomy, TopSize, AlignOffset;
    M := null;
    fate := Null;
    if capacity > msize + TOP_FOOT_SIZE && capacity < TWO64 - (msize + TOP_FOOT_SIZE + page_size) {
      fate := if capacity < AlignOffset(base) + msize + TOP_FOOT_SIZE then Wraps
              else if Roomy(base, capacity, msize) then Made
              else Aborts;
      if fate.Made? {
        M := InitUserMstate(base, capacity, msize, threshold, cookie, memory);
      }
    }
  }

  // Each fate is what its name says: no room for anything, a size for top that
  // is not what is there, or one that fails the check.
  lemma FateIs(base: Addr, capacity: nat, msize: nat, page_size: nat)
    requires msize % 16 == 0 && 896 <= msize && base + capacity < TWO64 && msize + TOP_FOOT_SIZE + page_size < TWO64
    requires msize + 96 < TWO64
    ensures var fate, psize := FateOf(base, capacity, msize, page_size), TopSize(base, capacity, msize);
      && (fate.Wraps? ==> AlignOffset(base) + msize + TOP_FOOT_SIZE + psize != capacity)
      && (fate.Made? || fate.Aborts? ==> AlignOffset(base) + msize + TOP_FOOT_SIZE + psize == capacity)
      && (fate.Made? ==> Checked(psize))
      && (fate.Aborts? ==> !Checked(psize))
  {
    hide Checked;
    TopSizeReal(base, capacity, msize);
    if AlignOffset(base) + msize + TOP_FOOT_SIZE <= capacity { TopChecks(base, capacity, msize); }
  }
}
