// try_realloc_chunk and mspace_realloc
module Realloc {
  import opened Word
  import opened Bins
  import opened Tags
  import opened Cuts
  import opened Sizes
  import opened Mstate
  import opened Guards
  import opened Chunks
  import opened Malloc
  import opened Rooms
  import opened Free
  import opened Watch
  import opened Payloads
  import opened Cells

  // The chunk p, in use, has the stretch up to z to itself: everything else
  // in gone is free and not binned any more.
  ghost predicate Growing(M: Mstate, p: Addr, z: Addr, gone: set<Addr>, out: set<Addr>)
    reads M
  {
    && M.Sound(out)
    && p < z < |M.head| && z < |M.foot| && Covers(M.G(), p, z, gone)
    && p in M.Live() && M.head[p].cinuse
    && (forall q :: q in gone ==> q !in M.b.of && q !in M.Dv() && q < |M.head| && (q != p ==> !M.head[q].cinuse))
    && OutIs(M, gone, out)
  }

  lemma ReadyGrowing(M: Mstate, p: Addr, z: Addr, gone: set<Addr>, out: set<Addr>)
    requires Growing(M, p, z, gone, out)
    ensures Ready(M.b.of, M.msize, M.G(), M.dv, M.dvsize, gone, out) && SameOut(M.G(), gone, out, M.Dv())
    ensures M.G().lo == M.base && Covers(M.G(), p, z, gone)
    ensures p < z < |M.head| == |M.foot| == M.end && p in gone && p in M.Live()
    ensures Used(M.G()) - gone == Used(M.G()) - {p}
    ensures M.top < |M.head| && M.topsize == M.head[M.top].size
    ensures (z - p) % 16 == 0
    ensures TagInv(M.G()) && M.Binned()
    ensures forall r :: p < r < z ==> r !in M.Live() && (r in M.live ==> r in gone)
    ensures Watched(M, M.G()) && OthersUnkept(M.keep, p, gone)
    ensures p in M.keep ==> M.keep[p] <= z - p
  {
    hide BinInv, TagInv, Agree, Used, TagsGuarded, LinksGuarded;
    Parts(M, out);
    CoverEnds(M.G(), p, z, gone);
    Stretch(M.G(), p, z);
    TagBounds(M.G());
    UsedGone(M.G(), p, gone);
    KeptWithin(M.keep, M.was, M.G(), p, z, gone);
    forall r | p < r < z
      ensures r !in M.Live() && (r in M.live ==> r in gone)
    {
      NotInside(M.G(), p, z, gone, r);
    }
  }

  ghost predicate OthersUnkept(keep: map<Addr, nat>, p: Addr, gone: set<Addr>) {
    forall q :: q in gone && q != p ==> q !in keep
  }

  lemma KeptWithin(keep: map<Addr, nat>, was: Columns, g: Tags, p: Addr, z: Addr, gone: set<Addr>)
    requires TagsGuarded(keep, was, g) && TagInv(g) && Covers(g, p, z, gone)
    requires forall q :: q in gone ==> q < |g.head| && (q != p ==> !g.head[q].cinuse)
    ensures OthersUnkept(keep, p, gone) && (p in keep ==> keep[p] <= z - p)
  {
    hide Same, TagInv;
    Stretch(g, p, z);
  }

  // A watched chunk that stays in use, large enough, may be recut.
  lemma GrowSafe(keep: map<Addr, nat>, g: Tags, g': Tags, p: Addr, gone: set<Addr>, s: nat)
    requires OthersUnkept(keep, p, gone) && (p in keep ==> keep[p] <= s)
    requires p in g'.live && p < |g'.head| && g'.head[p].cinuse && g'.head[p].size == s && Sparing(g, g', p, s)
    ensures Safe(keep, g, g', gone)
  {
    hide Sparing;
    if p in keep { LessSpared(g, g', p, s, keep[p]); }
  }

  // set_inuse(p, z - p): p takes the whole stretch.
  method UseStretch(M: Mstate, p: Addr, z: Addr, ghost gone: set<Addr>, ghost out: set<Addr>)
    requires Growing(M, p, z, gone, out)
    modifies M`head, M`foot, M`live
    ensures M.Inv() && M.Live() == old(M.Live())[p := z - p]
  {
    hide BinInv, TagInv, Agree, Used, ChunkOk, Covers, Kept, Growing, Ready, TagsGuarded, LinksGuarded, Safe, Unkept,
         OthersUnkept, Sparing;
    ghost var g := M.G();
    ReadyGrowing(M, p, z, gone, out);
    SetInuse(M, p, z - p);
    M.live := M.live - gone + {p};
    OneUsedEffect(g, M.G(), p, z, gone);
    GrowSafe(M.keep, g, M.G(), p, gone, z - p);
    Finish(M, g, gone, {p}, out, M.Dv());
  }

  // set_inuse(p, nb) and set_inuse(r, rest): p takes nb bytes of the stretch,
  // and the rest is marked in use as well.
  method SplitStretch(M: Mstate, p: Addr, z: Addr, nb: nat, ghost gone: set<Addr>, ghost out: set<Addr>)
    returns (r: Addr)
    requires Growing(M, p, z, gone, out)
    requires MIN_CHUNK_SIZE <= nb && nb % 16 == 0 && p + nb + MIN_CHUNK_SIZE <= z
    requires p in M.keep ==> M.keep[p] <= nb
    modifies M`head, M`foot, M`live
    ensures r == p + nb && M.Inv() && r !in old(M.Live())
    ensures M.Live() == old(M.Live())[p := nb][r := z - r]
  {
    hide BinInv, TagInv, Agree, Used, ChunkOk, Covers, Kept, Growing, Ready, TagsGuarded, LinksGuarded, Safe, Unkept,
         OthersUnkept, Sparing;
    ghost var g := M.G();
    ReadyGrowing(M, p, z, gone, out);
    r := p + nb;
    CutTwoUsed(M, p, r, z, gone);
    GrowSafe(M.keep, g, M.G(), p, gone, r - p);
    Finish(M, g, gone, {p, r}, out, M.Dv());
  }

  // The chunks in gone become two chunks in use.
  method CutTwoUsed(M: Mstate, p: Addr, r: Addr, z: Addr, ghost gone: set<Addr>)
    requires TagInv(M.G()) && Covers(M.G(), p, z, gone)
    requires p + MIN_CHUNK_SIZE <= r && r + MIN_CHUNK_SIZE <= z < |M.head| && z < |M.foot| && (r - p) % 16 == 0
    modifies M`head, M`foot, M`live
    ensures TagInv(M.G()) && Kept(old(M.G()), M.G(), gone, {p, r})
    ensures Used(M.G()) == (Used(old(M.G())) - gone)[p := r - p][r := z - r]
    ensures M.top < |M.head| && M.head[M.top].size == old(M.head[M.top].size)
    ensures p in M.live && p < |M.head| && M.head[p].cinuse && M.head[p].size == r - p
    ensures r < |M.head| && M.head[r].cinuse
    ensures Sparing(old(M.G()), M.G(), p, r - p) && |M.foot| == |old(M.foot)|
  {
    hide TagInv, Kept, Used, Covers, Sparing;
    ghost var g := M.G();
    TagBounds(g);
    SetInuse(M, p, r - p);
    SetInuse(M, r, z - r);
    M.live := M.live - gone + {p, r};
    assert M.head == SetPinuse(g.head[p := Head(r - p, g.head[p].pinuse, true)][r := Head(z - r, true, true)], z, true);
    TwoUsedEffect(g, M.G(), p, r, z, gone);
  }

  // An address inside the stretch is not in use.
  lemma NotInside(g: Tags, p: Addr, z: Addr, gone: set<Addr>, r: Addr)
    requires Covers(g, p, z, gone) && p < r < z
    requires forall q :: q in gone ==> q < |g.head| && (q != p ==> !g.head[q].cinuse)
    ensures r !in Used(g) && (r in g.live ==> r in gone)
  {
  }

  // The chunks in gone become a chunk in use up to r and a free one after it.
  method CutUsedFree(M: Mstate, p: Addr, r: Addr, z: Addr, ghost gone: set<Addr>)
    requires TagInv(M.G()) && Covers(M.G(), p, z, gone)
    requires p + MIN_CHUNK_SIZE <= r && r + MIN_CHUNK_SIZE <= z < |M.head| && z < |M.foot| && (r - p) % 16 == 0
    requires z != M.top && M.head[z].cinuse
    modifies M`head, M`foot, M`live
    ensures TagInv(M.G()) && Kept(old(M.G()), M.G(), gone, {p, r})
    ensures Used(M.G()) == (Used(old(M.G())) - gone)[p := r - p]
    ensures M.top < |M.head| && M.head[M.top].size == old(M.head[M.top].size)
    ensures p in M.live && p < |M.head| && M.head[p].cinuse && M.head[p].size == r - p
    ensures Sparing(old(M.G()), M.G(), p, r - p) && |M.foot| == |old(M.foot)|
    ensures r in M.live && r < |M.head| && !M.head[r].cinuse && M.head[r].size == z - r
  {
    hide TagInv, Kept, Used, Covers, Sparing;
    ghost var g := M.G();
    TagBounds(g);
    var n := z;
    SetInuse(M, p, r - p);
    SetFreeChunk(M, r, z - r);
    M.head := M.head[n := M.head[n].(pinuse := false)];
    M.live := M.live - gone + {p, r};
    assert M.head == SetPinuse(g.head[p := Head(r - p, g.head[p].pinuse, true)][r := Head(z - r, true, false)], z,
      false);
    UsedFreeEffect(g, M.G(), p, r, z, gone);
  }

  // set_inuse(p, nb), and the rest r of the stretch is a free chunk.
  method SplitStretchFree(M: Mstate, p: Addr, z: Addr, nb: nat, ghost gone: set<Addr>, ghost out: set<Addr>)
    returns (r: Addr)
    requires Growing(M, p, z, gone, out) && M.dvsize == 0
    requires MIN_CHUNK_SIZE <= nb && nb % 16 == 0 && p + nb + MIN_CHUNK_SIZE <= z
    requires p in M.keep ==> M.keep[p] <= nb
    requires z < |M.head| && z != M.top && M.head[z].cinuse
    modifies M`head, M`foot, M`live
    ensures r == p + nb && M.Sound({r}) && LooseFree(M, r, z - r) && r < z
    ensures M.Live() == old(M.Live())[p := nb]
  {
    hide BinInv, TagInv, Agree, Used, ChunkOk, Covers, Kept, Growing, Ready, TagsGuarded, LinksGuarded, Safe, Unkept,
         OthersUnkept, Sparing;
    ghost var g := M.G();
    ReadyGrowing(M, p, z, gone, out);
    r := p + nb;
    CutUsedFree(M, p, r, z, gone);
    GrowSafe(M.keep, g, M.G(), p, gone, r - p);
    Finish(M, g, gone, {p, r}, out, {r});
  }

  // Extend into top.
  method GrowIntoTop(M: Mstate, p: Addr, nb: nat)
    requires M.Inv() && p in M.Live() && Next(M, p) == M.top
    requires p in M.keep ==> M.keep[p] <= nb
    requires M.Live()[p] < nb && nb % 16 == 0 && MIN_CHUNK_SIZE <= nb && nb < M.Live()[p] + M.topsize
    modifies M`top, M`topsize, M`head, M`foot
    ensures M.Inv() && M.Live() == old(M.Live())[p := nb]
    ensures RoomOf(M) == old(RoomOf(M)).(top := p + nb, topsize := old(M.Live()[p]) + old(M.topsize) - nb)
  {
    hide BinInv, TagInv, Agree, Used, ChunkOk, Kept, Ready, TagsGuarded, LinksGuarded, Safe, Unkept, OthersUnkept,
         Sparing;
    ghost var g := M.G();
    InUse(M, M.Dv(), p);
    ReadyTopmost(M, p);
    var newsize := M.head[p].size + M.topsize;
    var newtopsize := newsize - nb;
    var newtop := p + nb;
    SetInuse(M, p, nb);
    M.head := M.head[newtop := Head(newtopsize, true, false)];
    M.top := newtop;
    M.topsize := newtopsize;
    assert M.head == g.head[p := Head(nb, g.head[p].pinuse, true)][newtop := Head(newtopsize, true, false)];
    assert M.live == g.live + {p};
    TopUsedEffect(g, M.G(), p, newtop);
    assert g.live * {p} == {p};
    OneOther(M.keep, p);
    GrowSafe(M.keep, g, M.G(), p, {p}, nb);
    Finish(M, g, {p}, {p}, M.Dv(), M.Dv());
  }

  lemma OneOther(keep: map<Addr, nat>, p: Addr)
    ensures OthersUnkept(keep, p, {p})
  {
  }

  lemma ReadyTopmost(M: Mstate, p: Addr)
    requires M.Inv() && p in M.Live() && Next(M, p) == M.top
    ensures Ready(M.b.of, M.msize, M.G(), M.dv, M.dvsize, {p}, M.Dv())
    ensures M.G().lo == M.base && p % 16 == 0 && M.base < p < |M.head| == |M.foot| == M.end
    ensures M.top + M.topsize + TOP_FOOT_SIZE == M.end && M.top < |M.head|
    ensures Watched(M, M.G())
  {
    hide BinInv, TagInv, Agree, Used, TagsGuarded, LinksGuarded;
    InUse(M, M.Dv(), p);
    Parts(M, M.Dv());
    TagBounds(M.G());
    At(M.G(), p);
  }

  // A chunk in use on its own is a stretch.
  lemma OwnStretch(M: Mstate, p: Addr)
    requires M.Inv() && p in M.Live()
    ensures Growing(M, p, Next(M, p), {p}, M.Dv())
  {
    hide BinInv, TagInv, Agree, Covers, TagsGuarded, LinksGuarded;
    InUse(M, M.Dv(), p);
    Parts(M, M.Dv());
    CoverOne(M.G(), p);
    CoverEnds(M.G(), p, Next(M, p), {p});
  }

  // So is one together with the free chunk that follows it.
  lemma WiderStretch(M: Mstate, p: Addr, z: Addr, out: set<Addr>)
    requires M.Sound(out) && p in M.Live() && z == Next(M, p) && z in M.live && z < |M.head| && !M.head[z].cinuse
    requires z !in M.b.of && z !in M.Dv() && p !in M.Dv() && OutIs(M, {p, z}, out)
    ensures Growing(M, p, Next(M, z), {p, z}, out)
    ensures var y := Next(M, z); y < |M.head| && y != M.top && M.head[y].cinuse
  {
    hide BinInv, TagInv, Agree, Covers, TagsGuarded, LinksGuarded;
    InUse(M, out, p);
    Parts(M, out);
    FreeChunk(M.G(), z);
    CoverOne(M.G(), p);
    CoverOne(M.G(), z);
    CoverJoin(M.G(), p, z, Next(M, z), {p}, {z});
    assert {p} + {z} == {p, z};
    CoverEnds(M.G(), p, Next(M, z), {p, z});
  }

  // p now has a chunk of nb bytes, or a little more; nothing else changed hands.
  ghost predicate Resized(old_: map<Addr, nat>, new_: map<Addr, nat>, p: Addr, nb: nat) {
    p in old_ && p in new_ && new_ == old_[p := new_[p]] && nb <= new_[p] < nb + MIN_CHUNK_SIZE
  }

  // The chunk p can neither keep its place nor grow into what follows it.
  ghost predicate NoRoom(M: Mstate, p: Addr, nb: nat)
    reads M
  {
    var z := Next(M, p);
    && p < |M.head| && M.head[p].size < nb
    && (if z == M.top then M.head[p].size + M.topsize <= nb
        else z < |M.head| && (M.head[z].cinuse || M.head[p].size + M.head[z].size < nb))
  }

  // The same, told by the free room of the heap.
  lemma StuckIs(M: Mstate, p: Addr, nb: nat)
    requires M.Inv() && p in M.Live()
    ensures NoRoom(M, p, nb) <==> Stuck(RoomOf(M), p, M.Live()[p], nb)
  {
    hide BinInv, TagInv, Agree, Used, ChunkOk, TagsGuarded, LinksGuarded;
    AfterInUse(M, p);
    var z := Next(M, p);
    if z in M.b.of { BinnedAt(M, M.Dv(), z); }
    if M.dvsize != 0 { AtDv(M, p); }
  }

  // The stretch up to z is split after nb bytes and the rest disposed of.
  method SplitAndDispose(M: Mstate, p: Addr, z: Addr, nb: nat, ghost gone: set<Addr>, ghost out: set<Addr>)
    requires Growing(M, p, z, gone, out)
    requires MIN_CHUNK_SIZE <= nb && nb % 16 == 0 && p + nb + MIN_CHUNK_SIZE <= z
    requires p in M.keep ==> M.keep[p] <= nb
    modifies M
    ensures M.Inv() && M.Live() == old(M.Live())[p := nb] && M.keep == old(M.keep) && M.was == old(M.was)
    ensures RoomOf(M) == AfterReturn(old(RoomOf(M)), p + nb, z - (p + nb))
    ensures Untouched(M.Live(), old(M.data), M.data) && |M.data| == |old(M.data)|
  {
    hide BinInv, TagInv, Agree, Used, Growing, TagsGuarded, LinksGuarded, Mstate.Sound, Untouched, AfterReturn,
         ChunkOk;
    GrowingWatched(M, p, z, gone, out);
    var r := SplitStretch(M, p, z, nb, gone, out);
    DisposeChunk(M, r);
  }

  // The designated victim is given up: it is a loose free chunk now.
  method GiveUpDv(M: Mstate)
    requires M.Inv() && M.dvsize != 0
    modifies M`dv, M`dvsize
    ensures M.Sound({old(M.dv)}) && M.dvsize == 0 && M.dv == 0 && M.Live() == old(M.Live())
    ensures RoomOf(M) == old(RoomOf(M)).NoVictim()
  {
    hide BinInv, TagInv, Agree, Used, TagsGuarded, LinksGuarded;
    M.dvsize := 0;
    M.dv := 0;
  }

  lemma GrowingWatched(M: Mstate, p: Addr, z: Addr, gone: set<Addr>, out: set<Addr>)
    requires Growing(M, p, z, gone, out)
    ensures forall q :: q in M.keep ==> q in M.Live()
  {
    hide BinInv, TagInv, Agree, Covers, TagsGuarded, LinksGuarded;
    Watching(M, out);
  }

  // Extend into the designated victim.
  method GrowIntoDv(M: Mstate, p: Addr, nb: nat)
    requires M.Inv() && p in M.Live() && Next(M, p) == M.dv && M.dv in M.live
    requires p in M.keep ==> M.keep[p] <= nb
    requires M.Live()[p] < nb <= M.Live()[p] + M.dvsize && nb % 16 == 0 && MIN_CHUNK_SIZE <= nb
    requires M.dvsize != 0
    modifies M`dv, M`dvsize, M`head, M`foot, M`live
    ensures M.Inv() && Resized(old(M.Live()), M.Live(), p, nb)
    ensures var y := old(M.Live()[p]) + old(M.dvsize);
      if nb + MIN_CHUNK_SIZE <= y
      then SizeHeld(M.Live(), p) == nb && RoomOf(M) == old(RoomOf(M)).(dv := p + nb, dvsize := y - nb)
      else SizeHeld(M.Live(), p) == y && RoomOf(M) == old(RoomOf(M)).NoVictim()
  {
    hide BinInv, TagInv, Agree, Used, ChunkOk, Growing, TagsGuarded, LinksGuarded;
    AtDv(M, p);
    var dvs, z := M.dvsize, M.dv;
    var oldsize := M.head[p].size;
    GiveUpDv(M);
    WiderStretch(M, p, z, {z});
    var dsize := oldsize + dvs - nb;
    if dsize >= MIN_CHUNK_SIZE {
      var r := SplitStretchFree(M, p, z + dvs, nb, {p, z}, {z});
      AdoptDv(M, r, dsize);
    } else {
      UseStretch(M, p, z + dvs, {p, z}, {z});
    }
  }

  lemma AtDv(M: Mstate, p: Addr)
    requires M.Inv() && p in M.Live() && M.dvsize != 0
    ensures M.dv < |M.head| && p < |M.head| && M.head[p].size == M.Live()[p] && M.head[M.dv].size == M.dvsize
    ensures !M.head[M.dv].cinuse && M.dv !in M.b.of && M.Dv() == {M.dv} && p != M.dv
  {
    hide BinInv, TagInv, TagsGuarded, LinksGuarded;
    InUse(M, M.Dv(), p);
  }

  // Extend into the binned chunk that follows.
  method GrowIntoFree(M: Mstate, p: Addr, z: Addr, nb: nat)
    requires M.Inv() && p in M.Live() && p < |M.head| && z == Next(M, p) && z in M.b.of && z < |M.head|
    requires p in M.keep ==> M.keep[p] <= nb
    requires M.Live()[p] < nb <= M.Live()[p] + M.head[z].size && nb % 16 == 0 && MIN_CHUNK_SIZE <= nb
    modifies M
    ensures M.Inv() && Resized(old(M.Live()), M.Live(), p, nb) && M.keep == old(M.keep) && M.was == old(M.was)
    ensures var y := old(M.Live()[p]) + old(M.b.of[z]);
      && RoomOf(M) == AfterRest(old(RoomOf(M)).Out(z), p, y, nb)
      && SizeHeld(M.Live(), p) == if nb + MIN_CHUNK_SIZE <= y then nb else y
    ensures Untouched(M.Live(), old(M.data), M.data) && |M.data| == |old(M.data)|
  {
    hide BinInv, TagInv, Agree, Used, ChunkOk, Growing, TagsGuarded, LinksGuarded, Mstate.Sound, Untouched,
         AfterReturn;
    NowInUse(M, p);
    NoneTouched(M.Live(), M.data);
    var oldsize, nextsize := M.head[p].size, M.head[z].size;
    var rsize := oldsize + nextsize - nb;
    TakeNext(M, p, z, nextsize);
    if rsize < MIN_CHUNK_SIZE {
      UseStretch(M, p, z + nextsize, {p, z}, M.Dv() + {z});
      NoneTouched(M.Live(), M.data);
    } else {
      SplitAndDispose(M, p, z + nextsize, nb, {p, z}, M.Dv() + {z});
    }
  }

  lemma NowInUse(M: Mstate, p: Addr)
    requires M.Inv() && p in M.Live()
    ensures p < |M.head| && M.head[p].size == M.Live()[p]
  {
    hide BinInv, TagInv, Agree, ChunkOk, TagsGuarded, LinksGuarded;
    InUse(M, M.Dv(), p);
  }

  // The binned chunk z behind p leaves its bin, for p to grow into.
  method TakeNext(M: Mstate, p: Addr, z: Addr, nextsize: nat)
    requires M.Inv() && p in M.Live() && p < |M.head| && z == Next(M, p) && z in M.b.of && z < |M.head|
    requires nextsize == M.head[z].size
    modifies M`smallmap, M`treebins, M`treemap, M`fd, M`bk, M`child0, M`child1, M`parent, M`b
    ensures Growing(M, p, z + nextsize, {p, z}, M.Dv() + {z})
    ensures RoomOf(M) == old(RoomOf(M)).Out(z) && nextsize == old(M.b.of[z])
  {
    hide BinInv, TagInv, Agree, Used, ChunkOk, Growing, TagsGuarded, LinksGuarded;
    InUse(M, M.Dv(), p);
    BinnedAt(M, M.Dv(), z);
    UnlinkChunk(M, z, nextsize, M.Dv());
    WiderStretch(M, p, z, M.Dv() + {z});
  }

  // What follows a chunk in use.
  lemma AfterInUse(M: Mstate, p: Addr)
    requires M.Inv() && p in M.Live()
    ensures 0 < p < |M.head| && M.OkAddress(p) && M.head[p].cinuse && M.head[p].size == M.Live()[p]
    ensures var z := Next(M, p);
      && p < z < |M.head| && M.head[z].pinuse
      && (z != M.top ==> z in M.live)
      && (z in M.live && !M.head[z].cinuse ==>
        if z == M.dv then M.dvsize != 0 && M.head[z].size == M.dvsize else z in M.b.of)
    ensures M.top !in M.live && (M.head[Next(M, p)].cinuse ==> M.dv != Next(M, p))
  {
    hide BinInv, TagInv, ChunkOk, TagsGuarded, LinksGuarded;
    InUse(M, M.Dv(), p);
    ChunkAt(M, M.Dv(), p);
    Parts(M, M.Dv());
    TagBounds(M.G());
    AboveBase(M.G());
  }

  // In which of the four ways a chunk is resized.
  lemma WaysToResize(a: Room, p: Addr, s: nat, nb: nat)
    ensures nb <= s ==>
      && AfterResize(a, p, s, nb) == AfterRest(a, p, s, nb)
      && SizeIn(a, p, s, nb) == if nb + MIN_CHUNK_SIZE <= s then nb else s
    ensures s < nb < s + a.topsize && p + s == a.top ==>
      && AfterResize(a, p, s, nb) == a.(top := p + nb, topsize := s + a.topsize - nb)
      && SizeIn(a, p, s, nb) == nb
    ensures s < nb <= s + a.dvsize && p + s != a.top && p + s == a.dv && a.dvsize != 0 ==>
      && AfterResize(a, p, s, nb) ==
         (if nb + MIN_CHUNK_SIZE <= s + a.dvsize then a.(dv := p + nb, dvsize := s + a.dvsize - nb) else a.NoVictim())
      && SizeIn(a, p, s, nb) == if nb + MIN_CHUNK_SIZE <= s + a.dvsize then nb else s + a.dvsize
    ensures s < nb && p + s != a.top && p + s != a.dv && p + s in a.of ==>
      && AfterResize(a, p, s, nb) == AfterRest(a.Out(p + s), p, s + a.of[p + s], nb)
      && SizeIn(a, p, s, nb) == if nb + MIN_CHUNK_SIZE <= s + a.of[p + s] then nb else s + a.of[p + s]
  {
    hide AfterRest;
  }

  // try_realloc_chunk
  method TryReallocChunk(M: Mstate, p: Addr, nb: nat) returns (newp: Addr)
    requires M.Inv() && p in M.Live() && MIN_CHUNK_SIZE <= nb && nb % 16 == 0
    requires p in M.keep ==> M.keep[p] <= nb
    modifies M
    ensures M.Inv() && M.keep == old(M.keep) && M.was == old(M.was)
    ensures Untouched(M.Live(), old(M.data), M.data) && |M.data| == |old(M.data)|
    ensures newp == 0 <==> old(NoRoom(M, p, nb))
    ensures newp == 0 ==> M.data == old(M.data) && M.Cols() == old(M.Cols()) && M.G() == old(M.G())
    ensures newp == 0 ==> M.b == old(M.b) && RoomOf(M) == old(RoomOf(M))
    ensures newp != 0 ==> newp == p && Resized(old(M.Live()), M.Live(), p, nb)
    ensures newp != 0 ==> RoomOf(M) == AfterResize(old(RoomOf(M)), p, old(M.Live()[p]), nb)
    ensures newp != 0 ==> SizeHeld(M.Live(), p) == SizeIn(old(RoomOf(M)), p, old(M.Live()[p]), nb)
  {
    hide BinInv, TagInv, Agree, Used, ChunkOk, Growing, TagsGuarded, LinksGuarded, AfterResize, SizeIn, AfterReturn,
         Mstate.Sound, Untouched;
    AfterInUse(M, p);
    WaysToResize(RoomOf(M), p, M.Live()[p], nb);
    NoneTouched(M.Live(), M.data);
    newp := 0;
    var oldsize := M.head[p].size;
    var next := p + oldsize;
    assert M.OkAddress(p) && M.head[p].cinuse && p < next && M.head[next].pinuse;
    if oldsize >= nb {
      var rsize := oldsize - nb;
      if rsize >= MIN_CHUNK_SIZE {
        OwnStretch(M, p);
        SplitAndDispose(M, p, next, nb, {p}, M.Dv());
      }
      newp := p;
    } else if next == M.top {
      if oldsize + M.topsize > nb {
        GrowIntoTop(M, p, nb);
        NoneTouched(M.Live(), M.data);
        newp := p;
      }
    } else if next == M.dv {
      if oldsize + M.dvsize >= nb {
        GrowIntoDv(M, p, nb);
        NoneTouched(M.Live(), M.data);
        newp := p;
      }
    } else if !M.head[next].cinuse {
      var nextsize := M.head[next].size;
      if oldsize + nextsize >= nb {
        GrowIntoFree(M, p, next, nb);
        newp := p;
      }
    }
  }

  // ------------------------------------------------------- mspace_realloc

  // Where mspace_realloc succeeds, every other block keeps its bytes, and the
  // block itself keeps as many of them as fit.
  ghost predicate Preserved(live: map<Addr, nat>, data: seq<bv8>, data': seq<bv8>, p: Addr, p': Addr, bytes: nat) {
    && (forall q :: q in live && q != p ==> Payload(data', q, live[q]) == Payload(data, q, live[q]))
    && p in live && CHUNK_OVERHEAD <= live[p] && p + live[p] <= |data| == |data'|
    && var n := Min(live[p] - CHUNK_OVERHEAD, bytes);
       p' + CHUNK_OVERHEAD + n <= |data|
       && data'[p' + CHUNK_OVERHEAD..p' + CHUNK_OVERHEAD + n] == data[p + CHUNK_OVERHEAD..p + CHUNK_OVERHEAD + n]
  }

  // Copying n bytes leaves everything outside the target alone.
  lemma Copied(data: seq<bv8>, data': seq<bv8>, to: Addr, from: Addr, n: nat, a: Addr, z: Addr)
    requires to + n <= |data| && from + n <= |data| && a <= z <= |data| && (z <= to || to + n <= a)
    requires data' == data[..to] + data[from..from + n] + data[to + n..]
    ensures |data'| == |data| && data'[a..z] == data[a..z]
    ensures data'[to..to + n] == data[from..from + n]
  {
    assert forall i :: a <= i < z ==> data'[i] == data[i];
  }

  // p has become p', of at least nb bytes.
  ghost predicate Reallocated(old_: map<Addr, nat>, new_: map<Addr, nat>, p: Addr, p': Addr, nb: nat) {
    && p in old_ && p' in new_ && new_ == (old_ - {p})[p' := new_[p']]
    && nb <= new_[p'] < nb + MIN_CHUNK_SIZE
    && (p' != p ==> p' !in old_)
  }

  // Fill the new block p' from the old one p.
  method CopyBlock(M: Mstate, p: Addr, p': Addr, bytes: nat, ghost live: map<Addr, nat>)
    requires M.Inv() && |M.data| == M.end && p in live && p' !in live && p' in M.Live() && p' !in M.keep
    requires M.Live() == live[p' := M.Live()[p']] && bytes + CHUNK_OVERHEAD <= M.Live()[p']
    modifies M`head, M`foot, M`fd, M`bk, M`child0, M`child1, M`parent, M`index, M`data
    ensures M.Inv() && |M.data| == M.end && M.Live() == old(M.Live())
    ensures Preserved(live, old(M.data), M.data, p, p', bytes)
    ensures OnlyWithin(old(M.data), M.data, p' + 16, p' + 16 + KeptBy(live, p, bytes))
  {
    hide BinInv, TagInv, Agree, Used, ChunkOk, Payload, Preserved, TagsGuarded, LinksGuarded, OnlyTouched, Untouched,
         OnlyWithin, KeptBy, Mstate.Sound;
    ghost var data := M.data;
    SizeIs(M, p);
    SizeIs(M, p');
    var oc := M.head[p].size - CHUNK_OVERHEAD;
    Memcpy(M, p', p' + 16, p, p + 16, if oc < bytes then oc else bytes);
    CopyPreserves(M, live, data, M.data, p, p', bytes);
  }

  // A block has moved from p to p': the new one is taken before the old one is
  // given back.
  ghost predicate MovedTo(a: Room, b: Room, live: map<Addr, nat>, live': map<Addr, nat>, p: Addr, p': Addr, nb: nat) {
    Supplied(a, After(a, p', nb), live', nb, p') && b == AfterRelease(After(a, p', nb), p, SizeHeld(live, p))
  }

  // How many bytes of the block p a change to that many bytes keeps.
  ghost function KeptBy(live: map<Addr, nat>, p: Addr, bytes: nat): nat {
    if p in live && CHUNK_OVERHEAD <= live[p] then Min(live[p] - CHUNK_OVERHEAD, bytes) else 0
  }

  // data' differs from data only in the block that has been filled, up to n bytes,
  // and in the one that has been freed.
  ghost predicate ChangedOnly(data: seq<bv8>, data': seq<bv8>, p: Addr, s: nat, p': Addr, n: nat) {
    && |data'| == |data|
    && forall i :: 0 <= i < |data| && !(p + 16 <= i < p + s) && !(p' + 16 <= i < p' + 16 + n) ==> data'[i] == data[i]
  }

  // The block moves: a new one is allocated, filled, and the old one freed.
  method MoveBlock(M: Mstate, p: Addr, bytes: nat) returns (mem: Addr)
    requires M.Inv() && p in M.Live() && |M.data| == M.end && bytes < MAX_REQUEST
    modifies M
    ensures M.Inv() && |M.data| == M.end
    ensures M.was == old(M.was) && M.keep == if mem == 0 then old(M.keep) else old(M.keep) - {p}
    ensures mem != p + 16
    ensures mem == 0 <==> old(Exhausted(M.b.of, M.dvsize, M.topsize, Request2Size(bytes)))
    ensures mem == 0 ==> M.Live() == old(M.Live()) && M.data == old(M.data)
    ensures mem == 0 ==> M.Cols() == old(M.Cols()) && RoomOf(M) == old(RoomOf(M))
    ensures mem != 0 ==> mem > 16 && Reallocated(old(M.Live()), M.Live(), p, mem - 16, Request2Size(bytes))
    ensures mem != 0 ==>
      MovedTo(old(RoomOf(M)), RoomOf(M), old(M.Live()), M.Live(), p, mem - 16, Request2Size(bytes))
    ensures mem != 0 ==> Preserved(old(M.Live()), old(M.data), M.data, p, mem - 16, bytes)
    ensures mem != 0 ==>
      ChangedOnly(old(M.data), M.data, p, old(M.Live()[p]), mem - 16, KeptBy(old(M.Live()), p, bytes))
  {
    hide BinInv, TagInv, Agree, Used, ChunkOk, Request2Size, Preserved, Exhausted, Mstate.Sound, TagsGuarded,
         LinksGuarded, KeptBy, OnlyWithin, Untouched, ChangedOnly, Chosen, After, AfterRelease,
         SizeGot;
    ghost var live, data := M.Live(), M.data;
    SizeFits(bytes);
    Watching(M, M.Dv());
    mem := MspaceMalloc(M, bytes);
    if mem != 0 {
      SizeIs(M, p);
      SizeIs(M, mem - 16);
      CopyBlock(M, p, mem - 16, bytes, live);
      ghost var data1 := M.data;
      Leave(M, p);
      MspaceFree(M, p + 16);
      assert live[mem - 16 := M.Live()[mem - 16]] - {p} == (live - {p})[mem - 16 := M.Live()[mem - 16]];
      FreedAfter(live, M.Live(), data, data1, M.data, p, mem - 16, bytes);
    }
  }

  // Freeing the old block after the copy leaves the copy alone.
  lemma FreedAfter(live: map<Addr, nat>, live': map<Addr, nat>, data: seq<bv8>, data1: seq<bv8>, data2: seq<bv8>,
                   p: Addr, p': Addr, bytes: nat)
    requires Preserved(live, data, data1, p, p', bytes) && p' !in live && p' in live'
      && live' == (live - {p})[p' := live'[p']]
    requires bytes + CHUNK_OVERHEAD <= live'[p'] && p' + live'[p'] <= |data|
    requires OnlyWithin(data, data1, p' + 16, p' + 16 + KeptBy(live, p, bytes))
    requires OnlyWithin(data1, data2, p + 16, p + live[p]) && Untouched(live', data1, data2) && |data2| == |data1|
    ensures Preserved(live, data, data2, p, p', bytes)
    ensures ChangedOnly(data, data2, p, live[p], p', KeptBy(live, p, bytes))
  {
    hide OnlyWithin, Payload, Untouched, ChangedOnly;
    PayloadSame(live', p', data1, data2);
    PrefixSame(data1, data2, p', live'[p'], Min(live[p] - CHUNK_OVERHEAD, bytes));
    AsUntouched(live, data, data1, data2, p, p', bytes);
    OthersSame(live, live', data, data1, data2, p, p');
    TwoRanges(data, data1, data2, p, live[p], p', KeptBy(live, p, bytes));
  }

  lemma PayloadSame(live: map<Addr, nat>, p: Addr, data: seq<bv8>, data': seq<bv8>)
    requires Untouched(live, data, data') && p in live
    ensures Payload(data', p, live[p]) == Payload(data, p, live[p])
  {
    hide Payload;
  }

  // The first part of what is preserved, as a statement about the other blocks.
  lemma AsUntouched(live: map<Addr, nat>, data: seq<bv8>, data1: seq<bv8>, data2: seq<bv8>, p: Addr, p': Addr,
                    bytes: nat)
    requires Preserved(live, data, data1, p, p', bytes)
    ensures Untouched(live - {p}, data, data1)
    ensures Untouched(live - {p}, data, data2) ==>
      forall q :: q in live && q != p ==> Payload(data2, q, live[q]) == Payload(data, q, live[q])
  {
    hide Payload;
    if Untouched(live - {p}, data, data2) {
      forall q | q in live && q != p
        ensures Payload(data2, q, live[q]) == Payload(data, q, live[q])
      {
        assert q in live - {p};
      }
    }
  }

  lemma TwoRanges(data: seq<bv8>, data1: seq<bv8>, data2: seq<bv8>, p: Addr, s: nat, p': Addr, n: nat)
    requires OnlyWithin(data, data1, p' + 16, p' + 16 + n) && OnlyWithin(data1, data2, p + 16, p + s)
    ensures ChangedOnly(data, data2, p, s, p', n)
  {
  }

  lemma PrefixSame(data: seq<bv8>, data': seq<bv8>, p: Addr, s: nat, n: nat)
    requires Payload(data', p, s) == Payload(data, p, s) && n + CHUNK_OVERHEAD <= s && p + s <= |data| == |data'|
    ensures data'[p + CHUNK_OVERHEAD..p + CHUNK_OVERHEAD + n] == data[p + CHUNK_OVERHEAD..p + CHUNK_OVERHEAD + n]
  {
    assert Payload(data', p, s)[..n] == data'[p + CHUNK_OVERHEAD..p + CHUNK_OVERHEAD + n];
    assert Payload(data, p, s)[..n] == data[p + CHUNK_OVERHEAD..p + CHUNK_OVERHEAD + n];
  }

  lemma OthersSame(live: map<Addr, nat>, live': map<Addr, nat>, data: seq<bv8>, data1: seq<bv8>, data2: seq<bv8>,
                   p: Addr, p': Addr)
    requires Untouched(live - {p}, data, data1) && Untouched(live', data1, data2)
    requires p' !in live && p' in live' && live' == (live - {p})[p' := live'[p']]
    ensures Untouched(live - {p}, data, data2)
  {
    hide Payload;
    UntouchedLess(live', live - {p}, data1, data2);
    UntouchedTwice(live - {p}, data, data1, data2);
  }

  // data' is data with the payload of p copied to the new chunk p'.
  ghost predicate CopyOf(live: map<Addr, nat>, data: seq<bv8>, data': seq<bv8>, p: Addr, p': Addr, bytes: nat) {
    && p in live && CHUNK_OVERHEAD <= live[p] && p + live[p] <= |data|
    && var n := Min(live[p] - CHUNK_OVERHEAD, bytes);
       && p' + 16 + n <= |data|
       && data' == data[..p' + 16] + data[p + 16..p + 16 + n] + data[p' + 16 + n..]
  }

  lemma CopyPreserves(M: Mstate, live: map<Addr, nat>, data: seq<bv8>, data': seq<bv8>, p: Addr, p': Addr, bytes: nat)
    requires M.Inv() && |data| == M.end && p' !in live && CopyOf(live, data, data', p, p', bytes)
    requires p' in M.Live() && M.Live() == live[p' := M.Live()[p']]
    requires bytes + CHUNK_OVERHEAD <= M.Live()[p'] && p' + M.Live()[p'] < M.end
    ensures Preserved(live, data, data', p, p', bytes)
    ensures OnlyWithin(data, data', p' + 16, p' + 16 + KeptBy(live, p, bytes))
  {
    hide BinInv, TagInv, Used, Mstate.Sound, TagsGuarded, LinksGuarded;
    var n := Min(live[p] - CHUNK_OVERHEAD, bytes);
    Copied(data, data', p' + 16, p + 16, n, 0, 0);
    forall q | q in live && q != p
      ensures Payload(data', q, live[q]) == Payload(data, q, live[q])
    {
      LiveApart(M, q, p');
      Copied(data, data', p' + 16, p + 16, n, q + 16, q + live[q]);
    }
  }

  // No field has been written over the bytes that a block keeps where it is.
  ghost predicate WordsStay(live: map<Addr, nat>, a: Columns, b: Columns, p: Addr, bytes: nat) {
    Unchanged(map[p := KeptBy(live, p, bytes) + 16], a, b)
  }

  // What becomes of the free room, and how large the block is: new, resized in
  // place, or moved.
  ghost predicate RoomFollows(a: Room, b: Room, live: map<Addr, nat>, live': map<Addr, nat>, oldmem: Addr, mem: Addr,
                              nb: nat) {
    var p, p' := ChunkOf(oldmem), ChunkOf(mem);
    if mem == 0 then b == a
    else if oldmem == 0 then Supplied(a, b, live', nb, p')
    else if mem == oldmem then
      b == AfterResize(a, p, SizeHeld(live, p), nb) && SizeHeld(live', p) == SizeIn(a, p, SizeHeld(live, p), nb)
    else MovedTo(a, b, live, live', p, p', nb)
  }

  // mspace_realloc. Where the block stays, the allocator writes no field over the
  // bytes that it keeps.
  method MspaceRealloc(M: Mstate, oldmem: Addr, bytes: nat) returns (mem: Addr)
    requires M.Inv() && |M.data| == M.end && bytes < TWO64
    requires oldmem != 0 ==> oldmem >= 16 && oldmem - 16 in M.Live()
    requires oldmem >= 16 && oldmem - 16 in M.keep ==> M.keep[oldmem - 16] <= Request2Size(bytes)
    modifies M
    ensures M.Inv() && |M.data| == M.end
    ensures M.was == old(M.was)
    ensures M.keep == if oldmem < 16 || mem == 0 || mem == oldmem then old(M.keep) else old(M.keep) - {oldmem - 16}
    ensures bytes >= MAX_REQUEST ==> mem == 0
    ensures mem == 0 ==> M.Live() == old(M.Live()) && M.data == old(M.data)
    ensures mem == 0 ==> M.Cols() == old(M.Cols()) && RoomOf(M) == old(RoomOf(M))
    ensures mem != 0 ==> mem > 16
    ensures oldmem == 0 && mem != 0 ==>
      Allocated(old(M.Live()), M.Live(), mem - 16, Request2Size(bytes)) && M.data == old(M.data)
    ensures oldmem != 0 && mem != 0 ==>
      && Reallocated(old(M.Live()), M.Live(), oldmem - 16, mem - 16, Request2Size(bytes))
      && Preserved(old(M.Live()), old(M.data), M.data, oldmem - 16, mem - 16, bytes)
    ensures oldmem != 0 && bytes < MAX_REQUEST ==>
      (mem == oldmem <==> !old(NoRoom(M, oldmem - 16, Request2Size(bytes))))
    ensures RoomFollows(old(RoomOf(M)), RoomOf(M), old(M.Live()), M.Live(), oldmem, mem, Request2Size(bytes))
    ensures oldmem != 0 && mem == oldmem ==>
      WordsStay(old(M.Live()), old(M.Cols()), M.Cols(), oldmem - 16, bytes)
    ensures bytes < MAX_REQUEST ==> (mem == 0 <==>
      && old(Exhausted(M.b.of, M.dvsize, M.topsize, Request2Size(bytes)))
      && (oldmem != 0 ==> old(NoRoom(M, oldmem - 16, Request2Size(bytes)))))
  {
    hide BinInv, TagInv, Agree, Used, ChunkOk, Request2Size, Payload, SmallestFit, NoFit, NoRoom, Allocated,
         TagsGuarded, LinksGuarded, Chosen, After, KeptBy, Preserved, Reallocated, Resized, Mstate.Sound, Exhausted,
         WordsStay, Untouched, ChangedOnly, AfterResize, AfterRelease, SizeIn, SizeGot, MovedTo;
    mem := 0;
    if oldmem == 0 {
      mem := MspaceMalloc(M, bytes);
    } else if bytes < MAX_REQUEST {
      var nb := Request2Size(bytes);
      SizeFits(bytes);
      var oldp := oldmem - 16;
      ghost var live, data := M.Live(), M.data;
      SizeIs(M, oldp);
      var newp := TryInPlace(M, oldp, nb, bytes);
      if newp != 0 {
        NowSize(live, M.Live(), oldp, nb);
        AfterInUse(M, oldp);
        SizeIs(M, oldp);
        StaysPut(live, M.Live(), data, M.data, oldp, nb, bytes);
        mem := newp + 16;
      } else {
        mem := MoveBlock(M, oldp, bytes);
      }
    }
  }

  lemma NowSize(live: map<Addr, nat>, live': map<Addr, nat>, p: Addr, nb: nat)
    requires Resized(live, live', p, nb)
    ensures p in live'
  {
  }

  // try_realloc_chunk, under watch
  method TryInPlace(M: Mstate, p: Addr, nb: nat, ghost bytes: nat) returns (newp: Addr)
    requires M.Inv() && p in M.Live() && nb == Request2Size(bytes)
    requires p in M.keep ==> M.keep[p] <= nb
    modifies M
    ensures M.Inv() && M.keep == old(M.keep) && M.was == old(M.was)
    ensures Untouched(M.Live(), old(M.data), M.data) && |M.data| == |old(M.data)|
    ensures newp == 0 <==> old(NoRoom(M, p, nb))
    ensures newp == 0 ==> M.data == old(M.data) && M.Cols() == old(M.Cols()) && M.G() == old(M.G())
    ensures newp == 0 ==> M.b == old(M.b) && RoomOf(M) == old(RoomOf(M))
    ensures newp != 0 ==> newp == p && Resized(old(M.Live()), M.Live(), p, nb)
    ensures newp != 0 ==> RoomOf(M) == AfterResize(old(RoomOf(M)), p, old(M.Live()[p]), nb)
    ensures newp != 0 ==> SizeHeld(M.Live(), p) == SizeIn(old(RoomOf(M)), p, old(M.Live()[p]), nb)
    ensures newp != 0 ==> WordsStay(old(M.Live()), old(M.Cols()), M.Cols(), p, bytes)
  {
    hide BinInv, TagInv, Agree, Used, ChunkOk, Request2Size, Payload, TagsGuarded, LinksGuarded, Unchanged, Resized,
         Covered, Mstate.Sound, Untouched;
    ghost var live, keep, was, cols := M.Live(), M.keep, M.was, M.Cols();
    SizeFits(bytes);
    SizeIs(M, p);
    ghost var s := Min(live[p], nb);
    Watching(M, M.Dv());
    WatchAlso(M, p, s);
    newp := TryReallocChunk(M, p, nb);
    StillUnchanged(M);
    StaysWatched(keep, cols, M.Cols(), p, s, KeptBy(live, p, bytes));
    Resume(M, keep, was);
  }

  lemma StaysWatched(keep: map<Addr, nat>, a: Columns, b: Columns, p: Addr, s: nat, n: nat)
    requires n + 16 <= s && (p in keep ==> keep[p] <= s) && Unchanged(keep[p := s], a, b)
    ensures Unchanged(map[p := n + 16], a, b) && Covered(keep, keep[p := s])
  {
    hide Unchanged;
    UnchangedOn(keep[p := s], map[p := n + 16], a, b);
  }

  lemma StaysPut(live: map<Addr, nat>, live': map<Addr, nat>, data: seq<bv8>, data': seq<bv8>, p: Addr, nb: nat,
                 bytes: nat)
    requires Resized(live, live', p, nb) && CHUNK_OVERHEAD <= live[p] && p + live[p] <= |data| == |data'|
    requires Untouched(live', data, data') && bytes + CHUNK_OVERHEAD <= nb && p + live'[p] <= |data|
    ensures Reallocated(live, live', p, p, nb) && Preserved(live, data, data', p, p, bytes)
  {
    hide Payload, Untouched;
    assert live' == (live - {p})[p := live'[p]];
    PayloadSame(live', p, data, data');
    PrefixSame(data, data', p, live'[p], Min(live[p] - CHUNK_OVERHEAD, bytes));
    forall q | q in live && q != p
      ensures Payload(data', q, live[q]) == Payload(data, q, live[q])
    {
      PayloadSame(live', q, data, data');
    }
  }
}
