// mspace_free and dispose_chunk
module Free {
  import opened Bins
  import opened Tags
  import opened Cuts
  import opened Sizes
  import opened Mstate
  import opened Guards
  import opened Payloads
  import opened Chunks
  import opened Malloc
  import opened Rooms

  // The chunks in gone fill the stretch from a to z; all but p are free, and
  // none of them is binned any more.
  ghost predicate Stretched(M: Mstate, p: Addr, a: Addr, z: Addr, gone: set<Addr>, out: set<Addr>)
    reads M
  {
    && M.Sound(out)
    && a < z < |M.head| && z < |M.foot| && Covers(M.G(), a, z, gone)
    && M.head[a].pinuse && p in gone && p !in M.keep
    && (forall q :: q in gone ==> q !in M.b.of && q < |M.head| && (q != p ==> !M.head[q].cinuse))
  }

  // Apart from gone, only dv is free and not binned.
  ghost predicate OutIs(M: Mstate, gone: set<Addr>, out: set<Addr>)
    reads M
  {
    forall q :: q in M.live && q !in gone && q < |M.head| && !M.head[q].cinuse ==> (q in out <==> q in M.Dv())
  }

  ghost predicate Merging(M: Mstate, p: Addr, a: Addr, z: Addr, gone: set<Addr>, out: set<Addr>)
    reads M
  {
    Stretched(M, p, a, z, gone, out) && OutIs(M, gone, out)
  }

  lemma MergingSound(M: Mstate, p: Addr, a: Addr, z: Addr, gone: set<Addr>, out: set<Addr>)
    requires Merging(M, p, a, z, gone, out)
    ensures M.Sound(out) && TagInv(M.G()) && a < z < |M.head| == |M.foot| && Covers(M.G(), a, z, gone)
  {
    hide BinInv, TagInv, Agree, TagsGuarded, LinksGuarded;
    Parts(M, out);
  }

  // A chunk in use and what follows it.
  lemma InUse(M: Mstate, out: set<Addr>, p: Addr)
    requires M.Sound(out) && p in M.Live()
    ensures p in M.live && p < |M.head| && M.head[p].cinuse && p != M.base
    ensures M.head[p].size == M.Live()[p]
    ensures var z := p + M.head[p].size;
      z < |M.head| && z < |M.foot| && M.head[z].pinuse && M.G().Border(z) && M.foot[z] == M.cookie
    ensures p !in M.b.of && p !in M.Dv()
    ensures !M.head[p].pinuse ==> p < |M.foot| && FreeBefore(M.G(), p)
  {
    hide BinInv, TagInv, TagsGuarded, LinksGuarded;
    Parts(M, out);
    At(M.G(), p);
  }

  // Two chunks in use do not overlap, and none reaches the end of the segment.
  lemma LiveApart(M: Mstate, p: Addr, q: Addr)
    requires M.Inv() && p in M.Live() && q in M.Live() && p != q
    ensures p + M.Live()[p] <= q || q + M.Live()[q] <= p
    ensures p + M.Live()[p] < M.end && 32 <= M.Live()[p]
  {
    hide BinInv, TagInv, ChunkOk, TagsGuarded, LinksGuarded;
    InUse(M, M.Dv(), p);
    InUse(M, M.Dv(), q);
    ChunkAt(M, M.Dv(), p);
    Parts(M, M.Dv());
    TwoApart(M.G(), p, q);
    TwoApart(M.G(), q, p);
  }

  lemma SizeIs(M: Mstate, p: Addr)
    requires p in M.Live() && M.Inv()
    ensures p < |M.head| && M.head[p].size == M.Live()[p] && 32 <= M.Live()[p]
    ensures p + M.Live()[p] < M.end
  {
    hide BinInv, TagInv, ChunkOk, TagsGuarded, LinksGuarded;
    InUse(M, M.Dv(), p);
    ChunkAt(M, M.Dv(), p);
  }

  lemma MergeOne(M: Mstate, p: Addr)
    requires M.Inv() && p in M.Live() && p !in M.keep
    ensures p < |M.head| && (M.head[p].pinuse ==> Merging(M, p, p, Next(M, p), {p}, M.Dv()))
  {
    hide BinInv, TagInv, Agree, Covers, TagsGuarded, LinksGuarded;
    InUse(M, M.Dv(), p);
    Parts(M, M.Dv());
    CoverOne(M.G(), p);
    CoverEnds(M.G(), p, p + M.head[p].size, {p});
  }

  lemma CoverEnds(g: Tags, a: nat, z: nat, gone: set<nat>)
    requires Covers(g, a, z, gone)
    ensures a < z && a in g.live && g.Border(z) && a in gone && z !in gone && g.lo < a && z <= g.top
  {
  }

  // The free chunk a before p.
  ghost predicate Before(M: Mstate, out: set<Addr>, p: Addr, a: Addr)
    reads M
  {
    && p < |M.head| == |M.foot| && a < p && M.foot[p] == p - a
    && a in M.live && a != M.base && M.head[a] == Head(p - a, true, false)
    && (a in M.b.of || a in out)
    && Covers(M.G(), a, p, {a})
  }

  // prev_chunk
  function Prev(M: Mstate, p: Addr): (a: Addr)
    reads M
  {
    if p < |M.foot| && M.foot[p] <= p then p - M.foot[p] else 0
  }

  // next_chunk
  function Next(M: Mstate, p: Addr): Addr
    reads M
  {
    if p < |M.head| then p + M.head[p].size else 0
  }

  lemma ChunkBefore(M: Mstate, out: set<Addr>, p: Addr)
    requires M.Sound(out) && p in M.Live() && p < |M.head| && !M.head[p].pinuse
    ensures Before(M, out, p, Prev(M, p))
  {
    hide BinInv, TagInv, TagsGuarded, LinksGuarded;
    InUse(M, out, p);
    Parts(M, out);
    var a := p - M.foot[p];
    At(M.G(), a);
    TagBounds(M.G());
    CoverOne(M.G(), a);
  }

  // Consolidate backward, into a free chunk other than dv.
  method JoinBack(M: Mstate, p: Addr) returns (a: Addr, ghost out: set<Addr>)
    requires M.Inv() && p in M.Live() && p < |M.head| && !M.head[p].pinuse && p !in M.keep
    requires Prev(M, p) != M.dv
    modifies M`smallmap, M`treebins, M`treemap, M`fd, M`bk, M`child0, M`child1, M`parent, M`b
    ensures a == Prev(M, p) && a !in M.Dv()
    ensures RoomOf(M) == old(RoomOf(M)).Out(a)
    ensures Merging(M, p, a, Next(M, p), {a, p}, out)
  {
    hide BinInv, TagInv, Agree, Covers, TagsGuarded, LinksGuarded;
    InUse(M, M.Dv(), p);
    ChunkBefore(M, M.Dv(), p);
    Parts(M, M.Dv());
    CoverOne(M.G(), p);
    a := p - M.foot[p];
    assert M.OkAddress(a) by { ChunkAt(M, M.Dv(), a); }
    out := M.Dv() + {a};
    UnlinkChunk(M, a, M.head[a].size, M.Dv());
    CoverJoin(M.G(), a, p, p + M.head[p].size, {a}, {p});
    assert {a} + {p} == {a, p};
    CoverEnds(M.G(), a, p + M.head[p].size, {a, p});
  }

  // The chunk before p is dv: it only needs to be joined.
  lemma JoinDv(M: Mstate, p: Addr)
    requires M.Inv() && p in M.Live() && p < |M.head| && !M.head[p].pinuse && p !in M.keep
    requires Prev(M, p) == M.dv
    ensures M.dvsize != 0
    ensures Merging(M, p, M.dv, Next(M, p), {M.dv, p}, M.Dv())
  {
    hide BinInv, TagInv, Agree, Covers, TagsGuarded, LinksGuarded;
    InUse(M, M.Dv(), p);
    ChunkBefore(M, M.Dv(), p);
    ChunkAt(M, M.Dv(), Prev(M, p));
    Parts(M, M.Dv());
    CoverOne(M.G(), p);
    CoverJoin(M.G(), M.dv, p, p + M.head[p].size, {M.dv}, {p});
    assert {M.dv} + {p} == {M.dv, p};
    CoverEnds(M.G(), M.dv, p + M.head[p].size, {M.dv, p});
    DvNotBinned(M, p);
  }

  lemma DvNotBinned(M: Mstate, p: Addr)
    requires M.Inv()
    ensures M.dv !in M.b.of || M.dvsize == 0
  {
    hide BinInv, TagInv, TagsGuarded, LinksGuarded;
  }

  // The tags of a merged free chunk from a to z.
  method TagFree(M: Mstate, a: Addr, z: Addr, clear: bool)
    requires a < z < |M.head| && z < |M.foot|
    requires !clear ==> !M.head[z].pinuse
    modifies M`head, M`foot
    ensures M.head == SetPinuse(old(M.head)[a := Head(z - a, true, false)], z, false)
    ensures M.foot == old(M.foot)[z := z - a]
  {
    if clear {
      SetFreeWithPinuse(M, a, z - a, z);
    } else {
      SetFreeChunk(M, a, z - a);
      assert M.head == SetPinuse(old(M.head)[a := Head(z - a, true, false)], z, false);
    }
  }

  lemma UsedGone(g: Tags, p: Addr, gone: set<Addr>)
    requires forall q :: q in gone ==> q < |g.head| && (q != p ==> !g.head[q].cinuse)
    requires p in gone
    ensures Used(g) - gone == Used(g) - {p}
  {
  }

  // A merged stretch is ready to be recut.
  lemma ReadyMerged(M: Mstate, p: Addr, a: Addr, z: Addr, gone: set<Addr>, out: set<Addr>)
    requires Merging(M, p, a, z, gone, out)
    ensures M.dv !in gone ==>
      Ready(M.b.of, M.msize, M.G(), M.dv, M.dvsize, gone, out) && SameOut(M.G(), gone, out, M.Dv())
    ensures M.Dv() <= gone ==> Ready(M.b.of, M.msize, M.G(), 0, 0, gone, out) && SameOut(M.G(), gone, out, {})
    ensures M.G().lo == M.base && Covers(M.G(), a, z, gone) && M.head[a].pinuse
    ensures a < z < |M.head| == |M.foot| == M.end && a in gone && p in gone && z !in gone
    ensures Used(M.G()) - gone == Used(M.G()) - {p}
    ensures M.base < a && M.top < |M.head| && M.topsize == M.head[M.top].size
    ensures M.top + M.topsize + TOP_FOOT_SIZE == M.end && z <= M.top
    ensures M.dvsize == 0 ==> M.dv == 0
    ensures TagInv(M.G()) && M.Binned()
    ensures Watched(M, M.G()) && Unkept(M.keep, gone)
  {
    hide BinInv, TagInv, Agree, Covers, Used, TagsGuarded, LinksGuarded;
    Parts(M, out);
    TagBounds(M.G());
    CoverEnds(M.G(), a, z, gone);
    UsedGone(M.G(), p, gone);
    GoneUnkept(M.keep, M.was, M.G(), p, gone);
  }

  lemma GoneUnkept(keep: map<Addr, nat>, was: Columns, g: Tags, p: Addr, gone: set<Addr>)
    requires TagsGuarded(keep, was, g) && p !in keep
    requires forall q :: q in gone ==> q < |g.head| && (q != p ==> !g.head[q].cinuse)
    ensures Unkept(keep, gone)
  {
    hide Same;
  }

  // The chunks in gone become one free chunk.
  method CutOneFree(M: Mstate, a: Addr, z: Addr, clear: bool, ghost gone: set<Addr>)
    requires TagInv(M.G()) && Covers(M.G(), a, z, gone) && a < |M.head| && M.head[a].pinuse
    requires a < z < |M.head| && z < |M.foot| && z != M.top && M.head[z].cinuse && (!clear ==> !M.head[z].pinuse)
    modifies M`head, M`foot, M`live
    ensures TagInv(M.G()) && Kept(old(M.G()), M.G(), gone, {a})
    ensures Used(M.G()) == Used(old(M.G())) - gone
    ensures M.top < |M.head| && M.head[M.top].size == old(M.head[M.top].size) && |M.foot| == |old(M.foot)|
    ensures a in M.live && a < |M.head| && !M.head[a].cinuse && M.head[a].size == z - a
  {
    hide TagInv, Kept, Used, Covers, Sparing;
    ghost var g := M.G();
    TagBounds(g);
    TagFree(M, a, z, clear);
    M.live := M.live - gone + {a};
    OneFreeEffect(g, M.G(), a, z, gone);
  }

  ghost predicate LooseFree(M: Mstate, a: Addr, s: nat)
    reads M
  {
    a in M.live && a < |M.head| && !M.head[a].cinuse && M.head[a].size == s && a !in M.Dv()
  }

  // The stretch becomes one free chunk, still to be binned.
  method MakeFree(M: Mstate, ghost p: Addr, a: Addr, z: Addr, clear: bool, ghost gone: set<Addr>, ghost out: set<Addr>)
    requires Merging(M, p, a, z, gone, out) && M.dv !in gone
    requires z < |M.head| && z != M.top && M.head[z].cinuse && (!clear ==> !M.head[z].pinuse)
    modifies M`head, M`foot, M`live
    ensures M.Sound(M.Dv() + {a}) && LooseFree(M, a, z - a) && a < z
    ensures M.Live() == old(M.Live()) - {p}
  {
    hide BinInv, TagInv, Agree, Used, ChunkOk, Covers, Merging, Ready, Kept, TagsGuarded, LinksGuarded, Unkept, Safe,
         Sparing;
    ghost var g := M.G();
    ReadyMerged(M, p, a, z, gone, out);
    CutOneFree(M, a, z, clear, gone);
    Finish(M, g, gone, {a}, out, M.Dv() + {a});
  }

  // The stretch becomes a binned chunk.
  method FreeBinned(M: Mstate, ghost p: Addr, a: Addr, z: Addr, clear: bool, ghost gone: set<Addr>,
                    ghost out: set<Addr>)
    requires Merging(M, p, a, z, gone, out) && M.dv !in gone
    requires z < |M.head| && z != M.top && M.head[z].cinuse && (!clear ==> !M.head[z].pinuse)
    modifies M`smallmap, M`treemap, M`treebins, M`head, M`foot, M`fd, M`bk, M`child0, M`child1, M`parent, M`index,
             M`live, M`b
    ensures M.Inv() && M.Live() == old(M.Live()) - {p}
    ensures RoomOf(M) == old(RoomOf(M)).In(a, z - a)
  {
    hide BinInv, TagInv, Agree, Used, ChunkOk, Covers, Merging, TagsGuarded, LinksGuarded;
    MakeFree(M, p, a, z, clear, gone, out);
    InsertChunk(M, a, z - a, M.Dv() + {a});
    assert M.Dv() + {a} - {a} == M.Dv();
  }

  // The loose free chunk a becomes dv.
  method AdoptDv(M: Mstate, a: Addr, s: nat)
    requires M.Sound({a}) && M.dvsize == 0 && LooseFree(M, a, s) && s > 0
    modifies M`dv, M`dvsize
    ensures M.Inv() && M.Live() == old(M.Live())
    ensures RoomOf(M) == old(RoomOf(M)).(dv := a, dvsize := s)
  {
    hide BinInv, TagInv, Agree, Used, TagsGuarded, LinksGuarded;
    M.dvsize := s;
    M.dv := a;
    assert M.Dv() == {a};
  }

  // The stretch, which takes in dv if there is one, becomes dv.
  method FreeIntoDv(M: Mstate, ghost p: Addr, a: Addr, z: Addr, clear: bool, ghost gone: set<Addr>,
                    ghost out: set<Addr>)
    requires Merging(M, p, a, z, gone, out) && M.Dv() <= gone
    requires z < |M.head| && z != M.top && M.head[z].cinuse && (!clear ==> !M.head[z].pinuse)
    modifies M`dv, M`dvsize, M`head, M`foot, M`live
    ensures M.Inv() && M.Live() == old(M.Live()) - {p}
    ensures RoomOf(M) == old(RoomOf(M)).(dv := a, dvsize := z - a)
  {
    hide BinInv, TagInv, Agree, Used, ChunkOk, Covers, Merging, Ready, Kept, TagsGuarded, LinksGuarded, Unkept, Safe,
         Sparing;
    ghost var g := M.G();
    ReadyMerged(M, p, a, z, gone, out);
    M.dvsize := 0;
    M.dv := 0;
    CutOneFree(M, a, z, clear, gone);
    Finish(M, g, gone, {a}, out, {a});
    AdoptDv(M, a, z - a);
  }

  // The chunks in gone become part of top.
  method CutTopFree(M: Mstate, a: Addr, ghost gone: set<Addr>)
    requires TagInv(M.G()) && Covers(M.G(), a, M.top, gone) && a < |M.head| && M.head[a].pinuse
    requires M.top < |M.head| && M.topsize == M.head[M.top].size
    modifies M`top, M`topsize, M`head, M`live
    ensures TagInv(M.G()) && Kept(old(M.G()), M.G(), gone, {})
    ensures Used(M.G()) == Used(old(M.G())) - gone
    ensures M.top == a && M.top < |M.head| && M.topsize == M.head[M.top].size
    ensures M.topsize == old(M.topsize) + (old(M.top) - a)
  {
    hide TagInv, Kept, Used, Sparing;
    ghost var g := M.G();
    TagBounds(g);
    M.topsize := M.topsize + (M.top - a);
    var tsize := M.topsize;
    M.top := a;
    M.head := M.head[a := Head(tsize, true, false)];
    M.live := M.live - gone + {};
    TopFreeEffect(g, M.G(), a, gone);
  }

  // The stretch joins top; dv, if it was part of it, is no more.
  method FreeIntoTop(M: Mstate, ghost p: Addr, a: Addr, ghost gone: set<Addr>, ghost out: set<Addr>)
    requires Merging(M, p, a, M.top, gone, out) && (M.dv == a || M.dv !in gone)
    modifies M`top, M`topsize, M`dv, M`dvsize, M`head, M`live
    ensures M.Inv() && M.Live() == old(M.Live()) - {p}
    ensures RoomOf(M) == (if old(RoomOf(M)).IsDv(a) then old(RoomOf(M)).NoVictim() else old(RoomOf(M)))
      .(top := a, topsize := old(M.topsize) + (old(M.top) - a))
  {
    hide BinInv, TagInv, Agree, Used, ChunkOk, Covers, Merging, Ready, Kept, TagsGuarded, LinksGuarded, Unkept, Safe,
         Sparing;
    ghost var g := M.G();
    ReadyMerged(M, p, a, M.top, gone, out);
    OneOut(M, p, a, gone, out);
    CutTopFree(M, a, gone);
    if a == M.dv {
      M.dv := 0;
      M.dvsize := 0;
    }
    Finish(M, g, gone, {}, out, M.Dv());
  }

  lemma OneOut(M: Mstate, p: Addr, a: Addr, gone: set<Addr>, out: set<Addr>)
    requires Merging(M, p, a, M.top, gone, out)
    ensures M.dv == a && a in gone ==> M.Dv() <= gone
    ensures a > 0 && (M.dv == a ==> M.dvsize != 0)
  {
    hide BinInv, TagInv, Agree, Used, ChunkOk, TagsGuarded, LinksGuarded;
  }

  // The stretch grows by the free chunk z that follows it.
  lemma Absorb(M: Mstate, p: Addr, a: Addr, z: Addr, gone: set<Addr>, out: set<Addr>)
    requires Stretched(M, p, a, z, gone, out) && OutIs(M, gone + {z}, out)
    requires z in M.live && z < |M.head| && !M.head[z].cinuse && z !in M.b.of
    ensures Merging(M, p, a, Next(M, z), gone + {z}, out)
    ensures var y := Next(M, z); y < |M.head| && y != M.top && M.head[y].cinuse && !M.head[y].pinuse
  {
    hide BinInv, TagInv, Agree, Covers, TagsGuarded, LinksGuarded;
    var g := M.G();
    Parts(M, out);
    FreeChunk(g, z);
    PinuseStays(g, z);
    CoverOne(g, z);
    CoverJoin(g, a, z, Next(M, z), gone, {z});
    CoverEnds(g, a, Next(M, z), gone + {z});
  }

  // Consolidate forward, and bin the result unless it joins dv or top.
  method JoinForward(M: Mstate, ghost p: Addr, a: Addr, z: Addr, ghost gone: set<Addr>, ghost out: set<Addr>)
    requires Merging(M, p, a, z, gone, out) && (M.dv == a || M.dv !in gone)
    requires z < |M.head| && (M.head[z].cinuse ==> M.dv != a && M.head[z].pinuse)
    modifies M
    ensures M.data == old(M.data) && M.trim_check == old(M.trim_check) && M.keep == old(M.keep) && M.was == old(M.was)
    ensures M.Inv() && M.Live() == old(M.Live()) - {p}
    ensures a < z && RoomOf(M) == Forward(old(RoomOf(M)), a, z)
  {
    hide BinInv, TagInv, Agree, Used, ChunkOk, Covers, Merging, TagsGuarded, LinksGuarded;
    MergingSound(M, p, a, z, gone, out);
    Follower(M, p, a, z, gone, out);
    assert M.OkAddress(z);
    if !M.head[z].cinuse {
      if z == M.top {
        FreeIntoTop(M, p, a, gone, out);
      } else if z == M.dv {
        DvNext(M, p, a, z, gone, out);
        FreeIntoDv(M, p, a, z + M.dvsize, false, gone + {z}, out);
      } else {
        AbsorbBinned(M, p, a, z, gone, out);
      }
    } else {
      FreeBinned(M, p, a, z, true, gone, out);
    }
  }

  // What follows the stretch.
  lemma Follower(M: Mstate, p: Addr, a: Addr, z: Addr, gone: set<Addr>, out: set<Addr>)
    requires Merging(M, p, a, z, gone, out)
    ensures z < |M.head| && (z == M.top || z in M.live) && M.OkAddress(z)
    ensures M.head[z].cinuse ==> z != M.top && z !in M.b.of && !RoomOf(M).IsDv(z)
    ensures z in M.live && !M.head[z].cinuse && z != M.dv ==> z in M.b.of
    ensures z in M.b.of ==> M.b.of[z] == M.head[z].size && z != M.top
    ensures z == M.dv ==> M.dvsize != 0
    ensures a > 0 && (M.dv == a ==> M.dvsize != 0)
  {
    hide BinInv, TagInv, Covers, TagsGuarded, LinksGuarded;
    MergingSound(M, p, a, z, gone, out);
    Parts(M, out);
    CoverEnds(M.G(), a, z, gone);
    TagBounds(M.G());
    if z in M.b.of { BinnedAt(M, out, z); }
    AboveBase(M.G());
  }

  lemma DvNext(M: Mstate, p: Addr, a: Addr, z: Addr, gone: set<Addr>, out: set<Addr>)
    requires Merging(M, p, a, z, gone, out) && z == M.dv && z in M.live && z < |M.head|
    requires !M.head[z].cinuse
    ensures Merging(M, p, a, z + M.dvsize, gone + {z}, out) && M.Dv() <= gone + {z}
    ensures var y := z + M.dvsize; y < |M.head| && y != M.top && M.head[y].cinuse && !M.head[y].pinuse
  {
    hide BinInv, TagInv, Covers, TagsGuarded, LinksGuarded;
    MergingSound(M, p, a, z, gone, out);
    Parts(M, out);
    ChunkAt(M, out, z);
    CoverEnds(M.G(), a, z, gone);
    Absorb(M, p, a, z, gone, out);
  }

  method AbsorbBinned(M: Mstate, ghost p: Addr, a: Addr, z: Addr, ghost gone: set<Addr>, ghost out: set<Addr>)
    requires Merging(M, p, a, z, gone, out) && (M.dv == a || M.dv !in gone)
    requires z in M.b.of && z in M.live && z < |M.head| && !M.head[z].cinuse && z != M.dv
    modifies M`smallmap, M`treemap, M`treebins, M`dv, M`dvsize, M`head, M`foot, M`fd, M`bk, M`child0, M`child1,
             M`parent, M`index, M`live, M`b
    ensures M.Inv() && M.Live() == old(M.Live()) - {p}
    ensures a < z && RoomOf(M) == Resting(old(RoomOf(M)).Out(z), a, z + old(M.b.of[z]))
  {
    hide BinInv, TagInv, Agree, Used, ChunkOk, Covers, TagsGuarded, LinksGuarded, Mstate.Sound;
    CoverEnds(M.G(), a, z, gone);
    Follower(M, p, a, z, gone, out);
    var nsize := M.head[z].size;
    UnlinkChunk(M, z, nsize, out);
    Absorb(M, p, a, z, gone, out + {z});
    if a == M.dv {
      FreeIntoDv(M, p, a, z + nsize, false, gone + {z}, out + {z});
    } else {
      FreeBinned(M, p, a, z + nsize, false, gone + {z}, out + {z});
    }
  }

  // dispose_chunk, for a chunk that is marked in use: what clients kept in it is
  // gone, since the allocator has its fields there now.
  method DisposeChunk(M: Mstate, p: Addr)
    requires M.Inv() && p in M.Live() && p !in M.keep
    modifies M
    ensures M.trim_check == old(M.trim_check) && M.keep == old(M.keep) && M.was == old(M.was)
    ensures M.Inv() && M.Live() == old(M.Live()) - {p}
    ensures RoomOf(M) == AfterReturn(old(RoomOf(M)), p, old(M.Live()[p]))
    ensures OnlyWithin(old(M.data), M.data, p + 16, p + old(M.Live()[p]))
    ensures Untouched(M.Live(), old(M.data), M.data)
  {
    hide BinInv, TagInv, Agree, Used, ChunkOk, OnlyWithin, Untouched, TagsGuarded, LinksGuarded;
    ghost var data, s := M.data, M.Live()[p];
    SizeIs(M, p);
    var size := M.head[p].size;
    forall q | q in M.Live() && q != p
      ensures q + M.Live()[q] <= p || p + s <= q
    {
      LiveApart(M, q, p);
    }
    Coalesce(M, p);
    var noise: seq<bv8> := *;
    ScrambledWithin(M.data, p + 16, p + size, noise);
    WithinOne(M.Live(), p, s, M.data, Scrambled(M.data, p + 16, p + size, noise));
    M.data := Scrambled(M.data, p + 16, p + size, noise);
  }

  // Two chunks that end at the same address are one.
  lemma OneEnd(M: Mstate, x: Addr, y: Addr)
    requires M.Inv() && x in M.live && y in M.live && x < |M.head| && y < |M.head|
    requires x + M.head[x].size == y + M.head[y].size
    ensures x == y
  {
    hide BinInv, TagInv, Agree, ChunkOk, TagsGuarded, LinksGuarded;
    Parts(M, M.Dv());
    ChunkAt(M, M.Dv(), x);
    ChunkAt(M, M.Dv(), y);
    if x < y { TwoApart(M.G(), x, y); }
    if y < x { TwoApart(M.G(), y, x); }
  }

  // A free chunk of the room is one of the heap.
  lemma RoomChunk(M: Mstate, x: Addr)
    requires M.Inv() && (x in M.b.of || RoomOf(M).IsDv(x))
    ensures x in M.live && x < |M.head| && !M.head[x].cinuse
    ensures M.head[x].size == if x in M.b.of then M.b.of[x] else M.dvsize
    ensures RoomOf(M).IsDv(x) ==> x !in M.b.of
  {
    hide BinInv, TagInv, Agree, ChunkOk, TagsGuarded, LinksGuarded;
    if x in M.b.of {
      BinnedAt(M, M.Dv(), x);
    }
    DvNotBinned(M, x);
  }

  // Which free chunk of the room ends where a chunk in use starts.
  lemma FreeStartIs(M: Mstate, p: Addr)
    requires M.Inv() && p in M.Live() && p < |M.head|
    ensures FreeStart(RoomOf(M), p) == if M.head[p].pinuse then p else Prev(M, p)
  {
    hide BinInv, TagInv, Agree, ChunkOk, TagsGuarded, LinksGuarded, Mstate.Sound, Covers;
    forall x: Addr | FreeTo(M.b.of, x, p)
      ensures !M.head[p].pinuse && x == Prev(M, p)
    {
      EndsIs(M, x, p);
    }
    if M.dvsize != 0 && M.dv + M.dvsize == p { EndsIs(M, M.dv, p); }
    if !M.head[p].pinuse { PrevEnds(M, p); }
  }

  ghost predicate EndsHere(M: Mstate, x: Addr, p: Addr)
    reads M
  {
    FreeTo(M.b.of, x, p) || (M.dvsize != 0 && x == M.dv && M.dv + M.dvsize == p)
  }

  lemma EndsIs(M: Mstate, x: Addr, p: Addr)
    requires M.Inv() && p in M.Live() && p < |M.head| && EndsHere(M, x, p)
    ensures !M.head[p].pinuse && x == Prev(M, p)
  {
    hide BinInv, TagInv, Agree, ChunkOk, TagsGuarded, LinksGuarded, Covers;
    RoomChunk(M, x);
    Parts(M, M.Dv());
    PinuseStays(M.G(), x);
    ChunkBefore(M, M.Dv(), p);
    OneEnd(M, x, Prev(M, p));
  }

  lemma PrevEnds(M: Mstate, p: Addr)
    requires M.Inv() && p in M.Live() && p < |M.head| && !M.head[p].pinuse
    ensures EndsHere(M, Prev(M, p), p)
  {
    hide BinInv, TagInv, Agree, ChunkOk, TagsGuarded, LinksGuarded, Covers;
    ChunkBefore(M, M.Dv(), p);
    RoomChunk(M, Prev(M, p));
  }

  // Freeing p, step by step: back, then forward.
  lemma FreedAs(M: Mstate, p: Addr)
    requires M.Inv() && p in M.Live() && p < |M.head|
    ensures p < Next(M, p) && Prev(M, p) <= p
    ensures M.head[p].pinuse ==> AfterReturn(RoomOf(M), p, M.Live()[p]) == Forward(RoomOf(M), p, Next(M, p))
    ensures var a, x := RoomOf(M), Prev(M, p);
      !M.head[p].pinuse ==>
        AfterReturn(a, p, M.Live()[p]) == Forward(if x == M.dv then a else a.Out(x), x, Next(M, p))
  {
    hide BinInv, TagInv, Agree, ChunkOk, TagsGuarded, LinksGuarded, Mstate.Sound, Covers, FreeStart, Forward;
    FreeStartIs(M, p);
    InUse(M, M.Dv(), p);
    SizeIs(M, p);
    if !M.head[p].pinuse {
      PrevEnds(M, p);
      ChunkBefore(M, M.Dv(), p);
      RoomChunk(M, Prev(M, p));
      if Prev(M, p) in M.b.of { DvOutside(M, Prev(M, p)); }
    }
  }

  // A stretch followed by a chunk in use stays as it is.
  lemma UsedFollows(M: Mstate, p: Addr, a: Addr, z: Addr, gone: set<Addr>, out: set<Addr>)
    requires Merging(M, p, a, z, gone, out) && z < |M.head| && M.head[z].cinuse
    ensures z != M.top && a < z && Forward(RoomOf(M), a, z) == Resting(RoomOf(M), a, z)
    ensures M.dv == a ==> Forward(RoomOf(M), a, z) == RoomOf(M).(dv := a, dvsize := z - a)
  {
    hide BinInv, TagInv, Covers, TagsGuarded, LinksGuarded;
    Follower(M, p, a, z, gone, out);
  }

  // The chunk p becomes part of a free one.
  method Coalesce(M: Mstate, p: Addr)
    requires M.Inv() && p in M.Live() && p !in M.keep
    modifies M
    ensures M.data == old(M.data) && M.trim_check == old(M.trim_check) && M.keep == old(M.keep) && M.was == old(M.was)
    ensures M.Inv() && M.Live() == old(M.Live()) - {p}
    ensures RoomOf(M) == AfterReturn(old(RoomOf(M)), p, old(M.Live()[p]))
  {
    hide BinInv, TagInv, Agree, Used, ChunkOk, Covers, Merging, TagsGuarded, LinksGuarded, Mstate.Sound, AfterReturn,
         Forward;
    InUse(M, M.Dv(), p);
    FreedAs(M, p);
    var next := p + M.head[p].size;
    MergeOne(M, p);
    if !M.head[p].pinuse {
      ChunkBefore(M, M.Dv(), p);
      var prev := p - M.foot[p];
      assert M.OkAddress(prev) by { ChunkAt(M, M.Dv(), prev); }
      if prev != M.dv {
        ghost var out;
        prev, out := JoinBack(M, p);
        DvElsewhere(M, p, prev, next, {prev, p}, out);
        JoinForward(M, p, prev, next, {prev, p}, out);
      } else {
        JoinDv(M, p);
        if M.head[next].pinuse && M.head[next].cinuse {
          UsedFollows(M, p, prev, next, {prev, p}, M.Dv());
          FreeIntoDv(M, p, prev, next, true, {prev, p}, M.Dv());
          return;
        }
        JoinForward(M, p, prev, next, {prev, p}, M.Dv());
      }
    } else {
      DvElsewhere(M, p, p, next, {p}, M.Dv());
      JoinForward(M, p, p, next, {p}, M.Dv());
    }
  }

  lemma DvElsewhere(M: Mstate, p: Addr, a: Addr, z: Addr, gone: set<Addr>, out: set<Addr>)
    requires Merging(M, p, a, z, gone, out) && p !in M.Dv() && a !in M.Dv() && gone <= {a, p}
    ensures M.dv !in gone && M.dv != a
  {
    hide BinInv, TagInv, TagsGuarded, LinksGuarded;
    Parts(M, out);
  }

  predicate ShouldTrim(M: Mstate)
    reads M
  {
    M.topsize > M.trim_check
  }

  // sys_trim, for a segment that belongs to the client: nothing is given back,
  // the heap stays as it is, and there is no reason to trim any more.
  method SysTrim(M: Mstate)
    requires M.Inv()
    modifies M`trim_check
    ensures M.Inv() && M.Live() == old(M.Live())
    ensures !ShouldTrim(M) && RoomOf(M) == Trimmed(old(RoomOf(M)))
  {
    hide BinInv, TagInv, Agree, Used, TagsGuarded, LinksGuarded;
    Bounded(M);
    if M.topsize > M.trim_check {
      M.trim_check := MAX_SIZE_T;
    }
  }

  // After a trim that failed, no sound heap ever asks for one again.
  lemma TrimmedOnce(M: Mstate)
    requires M.Inv() && M.trim_check == MAX_SIZE_T
    ensures !ShouldTrim(M)
  {
    hide BinInv, TagInv, Agree, TagsGuarded, LinksGuarded;
    Bounded(M);
  }

  // mspace_free
  method MspaceFree(M: Mstate, mem: Addr)
    requires M.Inv() && (mem != 0 ==> mem >= 16 && mem - 16 in M.Live() && mem - 16 !in M.keep)
    modifies M
    ensures M.Inv() && M.keep == old(M.keep) && M.was == old(M.was)
    ensures M.Live() == if mem == 0 then old(M.Live()) else old(M.Live()) - {mem - 16}
    ensures if mem == 0 then M.data == old(M.data) else OnlyWithin(old(M.data), M.data, mem,
      mem - 16 + old(M.Live()[mem - 16]))
    ensures Untouched(M.Live(), old(M.data), M.data) && |M.data| == |old(M.data)|
    ensures mem == 0 ==> M.G() == old(M.G()) && M.Cols() == old(M.Cols())
    ensures RoomOf(M) ==
      if mem == 0 then old(RoomOf(M)) else AfterRelease(old(RoomOf(M)), mem - 16, old(M.Live()[mem - 16]))
  {
    hide BinInv, TagInv, Agree, Used, ChunkOk, TagsGuarded, LinksGuarded;
    if mem != 0 {
      var p := mem - 16;
      Guarded(M, p);
      var next := p + M.head[p].size;
      assert M.foot[next] == M.cookie;
      assert M.OkAddress(p) && (M.head[p].pinuse ==> M.head[p].cinuse);
      assert p < next && M.head[next].pinuse;
      var top := M.top;
      DisposeChunk(M, p);
      if M.top != top && ShouldTrim(M) {
        SysTrim(M);
      }
    }
  }

  // What mspace_free relies on to recognize a chunk it handed out.
  lemma Guarded(M: Mstate, p: Addr)
    requires M.Inv() && p in M.Live()
    ensures p < |M.head| && M.OkAddress(p) && M.head[p].cinuse
    ensures var z := Next(M, p); p < z < |M.head| == |M.foot| && M.head[z].pinuse && M.foot[z] == M.cookie
  {
    hide BinInv, TagInv, ChunkOk, TagsGuarded, LinksGuarded;
    InUse(M, M.Dv(), p);
    ChunkAt(M, M.Dv(), p);
    Parts(M, M.Dv());
  }
}
