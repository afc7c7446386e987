// mspace_memalign
module Memalign {
  import opened Word
  import opened Align
  import opened Bins
  import opened Tags
  import opened Cuts
  import opened Sizes
  import opened Mstate
  import opened Guards
  import opened Chunks
  import opened Malloc
  import opened Rooms
  import opened Free
  import opened Payloads
  import opened Realloc
  import opened Watch

  // The power of two that an alignment is rounded up to.
  method PowerAlignment(wanted: nat) returns (alignment: nat, ghost k: nat)
    requires wanted <= TWO63
    ensures 5 <= k <= 63 && alignment == Pow2(k)
    ensures alignment == Rounded(wanted)
  {
    Pow2Facts();
    assert Pow2(5) == 32;
    hide Pow2, BitAnd, Rounded;
    RoundedIs(wanted);
    alignment := if wanted < MIN_CHUNK_SIZE then MIN_CHUNK_SIZE else wanted;
    TestPow2(alignment);
    if BitAnd(alignment, alignment - 1) != 0 {
      var a := 32;
      k := 5;
      assert RoundFrom(a, alignment) == Rounded(wanted) by { FromLeast(wanted); }
      while a < alignment
        invariant 5 <= k <= 63 && a == Pow2(k)
        invariant RoundFrom(a, alignment) == Rounded(wanted)
        decreases TWO63 - a
      {
        BelowTop63(k);
        a := (2 * a) % TWO64;
        k := k + 1;
      }
      alignment := a;
    } else {
      k :| alignment == Pow2(k);
      Exponent(k);
    }
  }

  lemma FromLeast(wanted: nat)
    ensures RoundFrom(32, if wanted < MIN_CHUNK_SIZE then MIN_CHUNK_SIZE else wanted) == Rounded(wanted)
  {
  }

  lemma Exponent(k: nat)
    requires MIN_CHUNK_SIZE <= Pow2(k) <= TWO63
    ensures 5 <= k <= 63
  {
    Pow2Facts();
    assert Pow2(4) == 16;
    if k < 5 { Pow2Mono(k, 4); }
    if k > 63 { Pow2Mono(64, k); }
  }

  lemma BelowTop63(k: nat)
    requires Pow2(k) < TWO63 && k <= 63
    ensures k < 63 && 2 * Pow2(k) == Pow2(k + 1) <= TWO63
  {
    Pow2Facts();
    Pow2Mono(k + 1, 63);
  }

  // Where in the new chunk p the aligned block goes.
  method AlignedSpot(p: Addr, alignment: nat, ghost k: nat) returns (newp: Addr)
    requires 5 <= k <= 63 && alignment == Pow2(k) && p % 16 == 0
    requires p + 16 + alignment <= TWO64 && BitAnd(p + 16, alignment - 1) != 0
    ensures newp % 16 == 0 && Divides(alignment, newp + 16)
    ensures p + MIN_CHUNK_SIZE <= newp <= p + alignment + MIN_CHUNK_SIZE - 16
    ensures FirstSpot(p, newp, alignment)
  {
    hide Pow2, BitAnd, Divides;
    var mem := p + 16;
    UpFrom(mem, k);
    var up := BitAnd(mem + alignment - 1, TWO64 - alignment);
    var br := up - 16;
    newp := if br - p >= MIN_CHUNK_SIZE then br else br + alignment;
    Misaligned(mem, k);
    forall r: Addr | IsSpot(p, r, alignment)
      ensures newp <= r
    {
      NoMultipleBetween(newp + 16, r + 16, k);
    }
  }

  // No multiple lies less than its divisor before another.
  lemma NoMultipleBetween(x: nat, y: nat, k: nat)
    requires Divides(Pow2(k), x) && Divides(Pow2(k), y) && x < y + Pow2(k)
    ensures x <= y
  {
    hide Pow2;
    var d := Pow2(k);
    assert x == d * (x / d) && y == d * (y / d);
    if y / d < x / d { Times(d, y / d + 1, x / d); }
    Times(d, x / d, y / d);
  }

  lemma UpFrom(mem: nat, k: nat)
    requires 5 <= k <= 63 && mem % 16 == 0 && mem + Pow2(k) <= TWO64 && BitAnd(mem, Pow2(k) - 1) != 0
    ensures Pow2(k) <= TWO64 && Pow2(k) % 16 == 0 && Pow2(k) >= 32
    ensures var up := BitAnd(mem + Pow2(k) - 1, TWO64 - Pow2(k));
      && mem + 16 <= up < mem + Pow2(k) && Divides(Pow2(k), up) && Divides(Pow2(k), up + Pow2(k))
      && up % 16 == 0 && (up + Pow2(k)) % 16 == 0
  {
    hide BitAnd, Pow2, Divides;
    Pow2Facts();
    Small(k);
    Misaligned(mem, k);
    RoundUp(mem, k);
    NextMultiple(BitAnd(mem + Pow2(k) - 1, TWO64 - Pow2(k)), k);
  }

  lemma Small(k: nat)
    requires k >= 5
    ensures Pow2(k) >= 32
  {
    assert Pow2(5) == 32;
    Pow2Mono(5, k);
  }

  lemma Misaligned(mem: nat, k: nat)
    requires BitAnd(mem, Pow2(k) - 1) != 0
    ensures !Divides(Pow2(k), mem)
  {
    MaskLow(mem, k);
    LowIsRemainder(mem, k);
  }

  lemma NextMultiple(up: nat, k: nat)
    requires Divides(Pow2(k), up) && k >= 4
    ensures Divides(Pow2(k), up + Pow2(k)) && up % 16 == 0 && (up + Pow2(k)) % 16 == 0
  {
    hide Pow2;
    var d := Pow2(k);
    assert up == d * (up / d);
    assert up + d == d * (up / d + 1);
    ModIs(up + d, d, up / d + 1, 0);
    Of16(up, k);
    Of16(up + d, k);
  }

  // The chunk p, in use, gives back what lies before newp.
  method GiveBackLeader(M: Mstate, p: Addr, newp: Addr)
    requires M.Inv() && p in M.Live() && newp % 16 == 0 && p !in M.keep
    requires p + MIN_CHUNK_SIZE <= newp && newp + MIN_CHUNK_SIZE <= p + M.Live()[p]
    modifies M
    ensures M.Inv() && M.keep == old(M.keep) && M.was == old(M.was)
    ensures Untouched(M.Live(), old(M.data), M.data) && |M.data| == |old(M.data)|
    ensures newp !in old(M.Live())
    ensures RoomOf(M) == AfterReturn(old(RoomOf(M)), p, newp - p)
    ensures M.Live() == (old(M.Live()) - {p})[newp := p + old(M.Live()[p]) - newp]
  {
    hide BinInv, TagInv, Agree, Used, Growing, TagsGuarded, LinksGuarded, Mstate.Sound, AfterReturn, ChunkOk, Untouched;
    SizeIs(M, p);
    ghost var z := p + M.head[p].size;
    OwnStretch(M, p);
    SplitLeader(M, p, newp, M.head[p].size, M.Dv());
    DisposeChunk(M, p);
  }

  // set_inuse(newp, newsize) and set_inuse(p, leadsize): the PINUSE bit that
  // newp picks up from old memory does not last.
  method CutLeader(M: Mstate, p: Addr, newp: Addr, z: Addr)
    requires TagInv(M.G()) && Covers(M.G(), p, z, {p}) && (newp - p) % 16 == 0
    requires p + MIN_CHUNK_SIZE <= newp && newp + MIN_CHUNK_SIZE <= z < |M.head| && z < |M.foot|
    modifies M`head, M`foot, M`live
    ensures TagInv(M.G()) && Kept(old(M.G()), M.G(), {p}, {p, newp})
    ensures Used(M.G()) == (Used(old(M.G())) - {p})[p := newp - p][newp := z - newp]
    ensures M.top < |M.head| && M.head[M.top].size == old(M.head[M.top].size)
    ensures newp < |M.head| && M.head[p].cinuse && M.head[newp].cinuse && |M.foot| == |old(M.foot)|
  {
    hide TagInv, Kept, Used, Covers, Sparing;
    ghost var g := M.G();
    TagBounds(g);
    SetInuse(M, newp, z - newp);
    SetInuse(M, p, newp - p);
    M.live := M.live - {p} + {p, newp};
    assert M.head == SetPinuse(g.head[p := Head(newp - p, g.head[p].pinuse, true)][newp := Head(z - newp, true,
      true)], z, true);
    TwoUsedEffect(g, M.G(), p, newp, z, {p});
  }

  // The chunk p becomes a leader and the chunk newp.
  method SplitLeader(M: Mstate, p: Addr, newp: Addr, size: nat, ghost out: set<Addr>)
    requires Growing(M, p, p + size, {p}, out) && newp % 16 == 0 && p !in M.keep
    requires p + MIN_CHUNK_SIZE <= newp && newp + MIN_CHUNK_SIZE <= p + size
    modifies M`head, M`foot, M`live
    ensures M.Inv() && newp !in old(M.Live())
    ensures M.Live() == old(M.Live())[p := newp - p][newp := p + size - newp]
  {
    hide BinInv, TagInv, Agree, Used, ChunkOk, Covers, Kept, Growing, Ready, TagsGuarded, LinksGuarded, Unkept, Safe,
         OthersUnkept, Sparing;
    ghost var g := M.G();
    var z := p + size;
    ReadyGrowing(M, p, z, {p}, out);
    AlignedAt(M, p);
    CutLeader(M, p, newp, z);
    OneUnkept(M.keep, p);
    Finish(M, g, {p}, {p, newp}, out, M.Dv());
  }

  lemma OneUnkept(keep: map<Addr, nat>, p: Addr)
    requires p !in keep
    ensures Unkept(keep, {p})
  {
  }

  lemma AlignedAt(M: Mstate, p: Addr)
    requires TagInv(M.G()) && p in M.Live()
    ensures p % 16 == 0
  {
    hide TagInv;
    At(M.G(), p);
  }

  // A new block at p, of at least nb bytes and little more, at an address that
  // the alignment divides; nothing else changed hands.
  ghost predicate AlignedBlock(old_: map<Addr, nat>, new_: map<Addr, nat>, p: Addr, nb: nat, alignment: nat) {
    && p !in old_ && p in new_ && new_ == old_[p := new_[p]]
    && nb <= new_[p] <= nb + MIN_CHUNK_SIZE
    && Divides(alignment, p + 16)
  }

  // The spare room after nb bytes of the chunk p is given back.
  method GiveBackRest(M: Mstate, p: Addr, nb: nat)
    requires M.Inv() && p in M.Live() && MIN_CHUNK_SIZE <= nb <= M.Live()[p] && nb % 16 == 0 && p !in M.keep
    modifies M
    ensures M.Inv() && M.keep == old(M.keep) && M.was == old(M.was)
    ensures Untouched(M.Live(), old(M.data), M.data) && |M.data| == |old(M.data)|
    ensures p in M.Live() && M.Live() == old(M.Live())[p := M.Live()[p]]
    ensures nb <= M.Live()[p] <= nb + MIN_CHUNK_SIZE
    ensures var s := old(M.Live()[p]);
      RoomOf(M) == AfterPlacing(old(RoomOf(M)), p, s, p, nb) && M.Live()[p] == SizePlaced(p, s, p, nb)
  {
    hide BinInv, TagInv, Agree, Used, Growing, TagsGuarded, LinksGuarded;
    SizeIs(M, p);
    var size := M.head[p].size;
    if size > nb + MIN_CHUNK_SIZE {
      OwnStretch(M, p);
      SplitAndDispose(M, p, p + size, nb, {p}, M.Dv());
    }
  }

  // No memory for a block of that size with the padding its alignment may take.
  ghost predicate NoAligned(a: Room, wanted: nat, bytes: nat) {
    var req := Request2Size(bytes) + Rounded(wanted) + 16;
    req >= MAX_REQUEST || Exhausted(a.of, a.dvsize, a.topsize, Request2Size(req))
  }

  // internal_memalign
  method InternalMemalign(M: Mstate, wanted: nat, bytes: nat) returns (mem: Addr)
    requires M.Inv() && wanted <= TWO63 && bytes < TWO64
    modifies M
    ensures M.Inv() && M.keep == old(M.keep) && M.was == old(M.was)
    ensures Untouched(old(M.Live()), old(M.data), M.data) && |M.data| == |old(M.data)|
    ensures mem == 0 ==> M.Live() == old(M.Live()) && RoomOf(M) == old(RoomOf(M))
    ensures mem == 0 ==> M.Cols() == old(M.Cols()) && M.data == old(M.data)
    ensures mem != 0 ==>
      mem > 16 && AlignedBlock(old(M.Live()), M.Live(), mem - 16, Request2Size(bytes), Rounded(wanted))
    ensures mem == 0 <==> NoAligned(old(RoomOf(M)), wanted, bytes)
    ensures var nb, alignment := Request2Size(bytes), Rounded(wanted);
      mem != 0 ==>
        AlignedFrom(old(RoomOf(M)), RoomOf(M), M.Live(), Request2Size(nb + alignment + 16), nb, alignment, mem - 16)
  {
    hide BinInv, TagInv, Agree, Used, ChunkOk, Request2Size, Exhausted, Mstate.Sound, BitAnd, Pow2, TagsGuarded,
         LinksGuarded, Rounded, After, Chosen, AlignedFrom, AfterPlacing, SizePlaced, SizeGot, FirstSpot;
    ghost var k;
    var a;
    a, k := PowerAlignment(wanted);
    mem := 0;
    SizeFits(bytes);
    if bytes < MAX_REQUEST - a {
      var nb := Request2Size(bytes);
      var req := nb + a + MIN_CHUNK_SIZE - CHUNK_OVERHEAD;
      SizeFits(req);
      ghost var live := M.Live();
      KeptLive(M);
      mem := MspaceMalloc(M, req);
      if mem != 0 {
        var p := mem - 16;
        mem := PlaceAligned(M, p, a, nb, k, live);
        IsAlignedFrom(old(RoomOf(M)), RoomOf(M), M.Live(), p, Request2Size(req), nb, a, mem - 16);
      }
    }
  }

  lemma IsAlignedFrom(a: Room, b: Room, live': map<Addr, nat>, p: Addr, req: nat, nb: nat, alignment: nat, q: Addr)
    requires p != 0 && Chosen(a, req, p) && PlacedIn(a, b, live', p, req, nb, alignment, q)
    ensures AlignedFrom(a, b, live', req, nb, alignment, q)
  {
    hide Chosen, PlacedIn;
  }

  lemma KeptLive(M: Mstate)
    requires M.Inv()
    ensures forall q :: q in M.keep ==> q in M.Live()
  {
    hide BinInv, TagInv, Agree, TagsGuarded, LinksGuarded;
    Watching(M, M.Dv());
  }

  method PlaceAligned(M: Mstate, p: Addr, alignment: nat, nb: nat, ghost k: nat, ghost live: map<Addr, nat>)
    returns (mem: Addr)
    requires M.Inv() && p !in live && p in M.Live() && M.Live() == live[p := M.Live()[p]] && p % 16 == 0
    requires forall q :: q in M.keep ==> q in live
    requires 5 <= k <= 63 && alignment == Pow2(k)
    requires MIN_CHUNK_SIZE <= nb && nb % 16 == 0 && nb + alignment + MIN_CHUNK_SIZE <= M.Live()[p]
    modifies M
    ensures M.Inv() && M.keep == old(M.keep) && M.was == old(M.was)
    ensures Untouched(live, old(M.data), M.data) && |M.data| == |old(M.data)|
    ensures mem > 16 && AlignedBlock(live, M.Live(), mem - 16, nb, alignment)
    ensures var s, q := old(M.Live()[p]), mem - 16;
      && FirstSpot(p, q, alignment) && p <= q <= p + s
      && RoomOf(M) == AfterPlacing(old(RoomOf(M)), p, s, q, nb) && SizeHeld(M.Live(), q) == SizePlaced(p, s, q, nb)
  {
    hide BinInv, TagInv, Agree, Used, ChunkOk, Mstate.Sound, BitAnd, Pow2, Untouched, Divides, TagsGuarded,
         LinksGuarded, AfterReturn, AfterPlacing, SizePlaced, FirstSpot;
    ghost var data, room, s := M.data, RoomOf(M), M.Live()[p];
    var q := CutOffLeader(M, p, alignment, nb, k, live);
    ghost var data1 := M.data;
    PlacedTwice(room, p, s, q, nb, alignment);
    GiveBackRest(M, q, nb);
    UntouchedLess(M.Live(), live, data1, M.data);
    UntouchedTwice(live, data, data1, M.data);
    NotNull(M, q);
    SizeIs(M, q);
    assert M.head[q].size >= nb;
    assert BitAnd(q + 16, alignment - 1) == 0 by { MaskClear(q + 16, alignment, k); }
    mem := q + 16;
  }

  // First what lies before the aligned block, then what lies after it.
  lemma PlacedTwice(a: Room, p: Addr, s: nat, q: Addr, nb: nat, alignment: nat)
    requires p <= q <= p + s && FirstSpot(p, q, alignment)
    ensures var b := if q == p then a else AfterReturn(a, p, q - p);
      AfterPlacing(b, q, p + s - q, q, nb) == AfterPlacing(a, p, s, q, nb)
    ensures SizePlaced(q, p + s - q, q, nb) == SizePlaced(p, s, q, nb)
    ensures Divides(alignment, q + 16)
  {
    hide AfterReturn, Divides;
  }

  lemma MaskClear(x: nat, alignment: nat, k: nat)
    requires alignment == Pow2(k) && Divides(alignment, x)
    ensures BitAnd(x, alignment - 1) == 0
  {
    hide BitAnd, Pow2;
    MaskLow(x, k);
    LowIsRemainder(x, k);
  }

  // The aligned part of the new chunk p; what lies before it is given back.
  method CutOffLeader(M: Mstate, p: Addr, alignment: nat, nb: nat, ghost k: nat, ghost live: map<Addr, nat>)
    returns (q: Addr)
    requires M.Inv() && p !in live && p in M.Live() && M.Live() == live[p := M.Live()[p]] && p % 16 == 0
    requires forall r :: r in M.keep ==> r in live
    requires 5 <= k <= 63 && alignment == Pow2(k)
    requires nb >= MIN_CHUNK_SIZE && nb + alignment + MIN_CHUNK_SIZE <= M.Live()[p]
    modifies M
    ensures M.Inv() && M.keep == old(M.keep) && M.was == old(M.was)
    ensures q !in live && q in M.Live() && M.Live() == live[q := M.Live()[q]] && nb <= M.Live()[q]
    ensures Untouched(live, old(M.data), M.data) && |M.data| == |old(M.data)|
    ensures Divides(alignment, q + 16)
    ensures FirstSpot(p, q, alignment) && p <= q && M.Live()[q] == p + old(M.Live()[p]) - q
    ensures RoomOf(M) == if q == p then old(RoomOf(M)) else AfterReturn(old(RoomOf(M)), p, q - p)
  {
    hide BinInv, TagInv, Agree, Used, ChunkOk, Mstate.Sound, BitAnd, Pow2, Untouched, TagsGuarded, LinksGuarded;
    SizeIs(M, p);
    InSegment(M);
    NoneTouched(live, M.data);
    q := p;
    if BitAnd(p + 16, alignment - 1) != 0 {
      ghost var data := M.data;
      q := AlignedSpot(p, alignment, k);
      GiveBackLeader(M, p, q);
      assert live[p := old(M.Live()[p])] - {p} == live;
      UntouchedLess(M.Live(), live, data, M.data);
    } else {
      MaskLow(p + 16, k);
      LowIsRemainder(p + 16, k);
    }
  }

  lemma InSegment(M: Mstate)
    requires M.Inv()
    ensures M.end < TWO64
  {
    hide BinInv, TagInv, TagsGuarded, LinksGuarded;
    Parts(M, M.Dv());
  }

  lemma NotNull(M: Mstate, p: Addr)
    requires M.Inv() && p in M.Live()
    ensures p > 0
  {
    hide BinInv, TagInv, ChunkOk, TagsGuarded, LinksGuarded;
    InUse(M, M.Dv(), p);
    ChunkAt(M, M.Dv(), p);
  }

  // The alignment of a block: 16, or the least power of two of 32 or more that
  // is not below the one wanted.
  function Alignment(wanted: nat): nat {
    if wanted <= 16 then 16 else Rounded(wanted)
  }

  // What becomes of the free room, and how large the block is.
  ghost predicate RoomAligned(a: Room, b: Room, live': map<Addr, nat>, wanted: nat, bytes: nat, mem: Addr) {
    var nb, q := Request2Size(bytes), ChunkOf(mem);
    if mem == 0 then b == a
    else if wanted <= 16 then Supplied(a, b, live', nb, q)
    else AlignedFrom(a, b, live', Request2Size(nb + Rounded(wanted) + 16), nb, Rounded(wanted), q)
  }

  // mspace_memalign
  method MspaceMemalign(M: Mstate, wanted: nat, bytes: nat) returns (mem: Addr)
    requires M.Inv() && wanted <= TWO63 && bytes < TWO64
    modifies M
    ensures M.Inv() && M.keep == old(M.keep) && M.was == old(M.was)
    ensures Untouched(old(M.Live()), old(M.data), M.data) && |M.data| == |old(M.data)|
    ensures mem == 0 ==> M.Live() == old(M.Live()) && RoomOf(M) == old(RoomOf(M))
    ensures mem == 0 ==> M.Cols() == old(M.Cols()) && M.data == old(M.data)
    ensures mem != 0 ==>
      mem > 16 && AlignedBlock(old(M.Live()), M.Live(), mem - 16, Request2Size(bytes), Alignment(wanted))
    ensures RoomAligned(old(RoomOf(M)), RoomOf(M), M.Live(), wanted, bytes, mem)
    ensures mem == 0 <==>
      if wanted <= 16 then bytes >= MAX_REQUEST || old(Exhausted(M.b.of, M.dvsize, M.topsize, Request2Size(bytes)))
      else NoAligned(old(RoomOf(M)), wanted, bytes)
  {
    hide BinInv, TagInv, Agree, Used, ChunkOk, Request2Size, Exhausted, Mstate.Sound, TagsGuarded, LinksGuarded,
         Rounded, NoAligned, After, Chosen;
    if wanted <= 16 {
      mem := MspaceMalloc(M, bytes);
    } else {
      mem := InternalMemalign(M, wanted, bytes);
    }
  }
}
