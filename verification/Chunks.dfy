// Setting the tags of chunks, and binning or unbinning a free chunk.
module Chunks {
  import opened Word
  import opened TreeIndex
  import opened Bins
  import opened Tags
  import opened Cuts
  import opened Guards
  import opened Mstate
  import opened SmallBins
  import opened TreeBins
  import opened TreeUnlink
  import opened Rooms

  // set_inuse
  method SetInuse(M: Mstate, p: Addr, s: nat)
    requires p < |M.head| && p + s < |M.head| && p + s < |M.foot| && s > 0
    modifies M`head, M`foot
    ensures M.head == SetPinuse(old(M.head)[p := Head(s, old(M.head[p].pinuse), true)], p + s, true)
    ensures M.foot == old(M.foot)[p + s := M.cookie]
  {
    M.head := M.head[p := Head(s, M.head[p].pinuse, true)];
    M.head := M.head[p + s := M.head[p + s].(pinuse := true)];
    M.foot := M.foot[p + s := M.cookie];
  }

  // set_inuse_and_pinuse
  method SetInuseAndPinuse(M: Mstate, p: Addr, s: nat)
    requires p < |M.head| && p + s < |M.head| && p + s < |M.foot| && s > 0
    modifies M`head, M`foot
    ensures M.head == SetPinuse(old(M.head)[p := Head(s, true, true)], p + s, true)
    ensures M.foot == old(M.foot)[p + s := M.cookie]
  {
    M.head := M.head[p := Head(s, true, true)];
    M.head := M.head[p + s := M.head[p + s].(pinuse := true)];
    M.foot := M.foot[p + s := M.cookie];
  }

  // set_size_and_pinuse_of_inuse_chunk
  method SetInuseChunk(M: Mstate, p: Addr, s: nat)
    requires p < |M.head| && p + s < |M.foot|
    modifies M`head, M`foot
    ensures M.head == old(M.head)[p := Head(s, true, true)]
    ensures M.foot == old(M.foot)[p + s := M.cookie]
  {
    M.head := M.head[p := Head(s, true, true)];
    M.foot := M.foot[p + s := M.cookie];
  }

  // set_size_and_pinuse_of_free_chunk
  method SetFreeChunk(M: Mstate, p: Addr, s: nat)
    requires p < |M.head| && p + s < |M.foot|
    modifies M`head, M`foot
    ensures M.head == old(M.head)[p := Head(s, true, false)]
    ensures M.foot == old(M.foot)[p + s := s]
  {
    M.head := M.head[p := Head(s, true, false)];
    M.foot := M.foot[p + s := s];
  }

  // set_free_with_pinuse
  method SetFreeWithPinuse(M: Mstate, p: Addr, s: nat, n: Addr)
    requires p < |M.head| && p + s < |M.foot| && n < |M.head| && n != p
    modifies M`head, M`foot
    ensures M.head == SetPinuse(old(M.head)[p := Head(s, true, false)], n, false)
    ensures M.foot == old(M.foot)[p + s := s]
  {
    M.head := M.head[n := M.head[n].(pinuse := false)];
    SetFreeChunk(M, p, s);
    assert M.head == SetPinuse(old(M.head)[p := Head(s, true, false)], n, false);
  }

  // A sound heap, taken apart and put together.
  lemma Parts(M: Mstate, out: set<Addr>)
    requires M.Sound(out)
    ensures M.Binned() && TagInv(M.G()) && Agree(M.b.of, M.G(), out) && M.DvOk()
    ensures |M.head| == |M.foot| == M.end && M.top < M.end < TWO64 && M.topsize == M.head[M.top].size
    ensures M.Guarded()
    ensures M.base in M.live && M.m + 880 <= M.base + M.head[M.base].size && M.head[M.base].size == M.msize
  {
    hide BinInv, Agree, ChunkOk, TagsGuarded, LinksGuarded;
    TagBounds(M.G());
  }

  // A chunk of a sound heap.
  lemma ChunkAt(M: Mstate, out: set<Addr>, p: Addr)
    requires M.Sound(out) && p in M.live
    ensures p < |M.head| && ChunkOk(M.G(), p)
    ensures p != M.base ==> Floor(M.m) <= p
    ensures p + M.head[p].size < M.end == |M.head| && 32 <= M.head[p].size < TWO64 && M.head[p].size % 16 == 0
    ensures M.OkAddress(p)
  {
    hide BinInv, Agree, TagInv, FreeBefore, TagsGuarded, LinksGuarded;
    Parts(M, out);
    At(M.G(), p);
    if p != M.base {
      At(M.G(), M.base);
      TwoApart(M.G(), M.base, p);
    }
  }

  lemma BinnedAt(M: Mstate, out: set<Addr>, p: Addr)
    requires M.Sound(out) && p in M.b.of
    ensures p in M.live && p !in out && p < |M.head| && !M.head[p].cinuse && M.b.of[p] == M.head[p].size
    ensures p != M.base
  {
    hide BinInv, TagInv, TagsGuarded, LinksGuarded;
    assert LowOk(M.G()) by { TagBounds(M.G()); }
  }

  lemma AgreeSizes(b: Bins, g: Tags, out: set<nat>)
    requires Agree(b.of, g, out)
    ensures SizesAgree(b, g.head)
  {
  }

  // unlink_chunk
  method UnlinkChunk(M: Mstate, p: Addr, s: nat, ghost out: set<Addr>)
    requires M.Sound(out) && p in M.b.of && p < |M.head| && s == M.head[p].size
    modifies M`smallmap, M`treebins, M`treemap, M`fd, M`bk, M`child0, M`child1, M`parent, M`b
    ensures M.Sound(out + {p}) && RoomOf(M) == old(RoomOf(M)).Out(p)
  {
    hide BinInv, TagInv, Agree, ListsSame, TreesSame, TagsGuarded, LinksGuarded, FreeIn;
    ghost var of, l := M.b.of, M.L();
    BinnedAt(M, out, p);
    AgreeFree(of, M.G(), out);
    if s < MIN_LARGE_SIZE {
      UnlinkSmallChunk(M, p, s);
      OnlyLists(of, M.m, M.end, l, M.L());
    } else {
      UnlinkLargeChunk(M, p);
    }
    AgreeUnlink(of, M.b.of, M.G(), out, p);
    StillGuarded(M, of, l);
  }

  // What operations on the bins write touches no watched chunk.
  lemma StillGuarded(M: Mstate, of: map<nat, nat>, l: Links)
    requires TagsGuarded(M.keep, M.was, M.G()) && LinksGuarded(M.keep, M.was, l) && TagInv(M.G()) && FreeIn(of, M.G())
    requires M.base < |M.head| && 896 <= M.head[M.base].size
    requires ListsSame(of, M.m, M.end, l, M.L()) && TreesSame(of, M.end, l, M.L())
    ensures M.Guarded()
  {
    hide TagInv, KeepOk, Same, BinsClear, ListsSame, TreesSame, LinksGuarded, FreeIn;
    FreeIsClear(M.keep, of, M.m, M.G());
    LinkGuarded(M.keep, M.was, of, M.m, M.end, l, M.L());
  }

  lemma AgreeFree(of: map<nat, nat>, g: Tags, out: set<nat>)
    requires Agree(of, g, out)
    ensures FreeIn(of, g)
    ensures forall p :: p in out && p in g.live && p < |g.head| && !g.head[p].cinuse ==>
      FreeIn(of[p := g.head[p].size], g)
  {
  }

  lemma AgreeUnlink(of: map<nat, nat>, of': map<nat, nat>, g: Tags, out: set<nat>, p: nat)
    requires Agree(of, g, out) && of' == of - {p} && p in of
    ensures Agree(of', g, out + {p})
  {
  }

  lemma AgreeInsert(of: map<nat, nat>, of': map<nat, nat>, g: Tags, out: set<nat>, p: nat, s: nat)
    requires Agree(of, g, out) && of' == of[p := s] && p in out
    requires p in g.live && p < |g.head| && !g.head[p].cinuse && g.head[p].size == s
    ensures Agree(of', g, out - {p})
  {
  }

  // insert_small_chunk in a sound heap: a loose free chunk is binned.
  method BinSmall(M: Mstate, p: Addr, s: nat, ghost out: set<Addr>)
    requires M.Sound(out) && p in out && p in M.live && p < |M.head|
    requires !M.head[p].cinuse && s == M.head[p].size && s < MIN_LARGE_SIZE
    modifies M`smallmap, M`fd, M`bk, M`b
    ensures M.Sound(out - {p}) && RoomOf(M) == old(RoomOf(M)).In(p, s)
  {
    hide BinInv, TagInv, Agree, ChunkOk, ListsSame, TreesSame, TagsGuarded, LinksGuarded, FreeIn;
    ghost var l := M.L();
    Parts(M, out);
    ChunkAt(M, out, p);
    LooseChunk(M, out, p);
    AgreeFree(M.b.of, M.G(), out);
    InsertSmallChunk(M, p, s);
    OnlyLists(M.b.of, M.m, M.end, l, M.L());
    AgreeInsert(old(M.b.of), M.b.of, M.G(), out, p, s);
    StillGuarded(M, M.b.of, l);
  }

  // insert_large_chunk in a sound heap.
  method BinLarge(M: Mstate, p: Addr, s: nat, ghost out: set<Addr>)
    requires M.Sound(out) && p in out && p in M.live && p < |M.head|
    requires !M.head[p].cinuse && s == M.head[p].size && s >= MIN_LARGE_SIZE
    modifies M`treemap, M`treebins, M`fd, M`bk, M`child0, M`child1, M`parent, M`index, M`b
    ensures M.Sound(out - {p}) && RoomOf(M) == old(RoomOf(M)).In(p, s)
  {
    hide BinInv, TagInv, Agree, ChunkOk, ListsSame, TreesSame, TagsGuarded, LinksGuarded, FreeIn;
    ghost var l := M.L();
    Parts(M, out);
    ChunkAt(M, out, p);
    LooseChunk(M, out, p);
    AgreeFree(M.b.of, M.G(), out);
    AgreeSizes(M.b, M.G(), out);
    InsertLargeChunk(M, p, s);
    AgreeInsert(old(M.b.of), M.b.of, M.G(), out, p, s);
    StillGuarded(M, M.b.of, l);
  }

  // insert_chunk
  method InsertChunk(M: Mstate, p: Addr, s: nat, ghost out: set<Addr>)
    requires M.Sound(out) && p in out && p in M.live && p < |M.head|
    requires !M.head[p].cinuse && s == M.head[p].size
    modifies M`smallmap, M`treemap, M`treebins, M`fd, M`bk, M`child0, M`child1, M`parent, M`index, M`b
    ensures M.Sound(out - {p}) && RoomOf(M) == old(RoomOf(M)).In(p, s)
  {
    hide Mstate.Sound;
    if s < MIN_LARGE_SIZE {
      BinSmall(M, p, s, out);
    } else {
      BinLarge(M, p, s, out);
    }
  }

  lemma LooseChunk(M: Mstate, out: set<Addr>, p: Addr)
    requires M.Sound(out) && p in M.live && p < |M.head| && !M.head[p].cinuse && p in out
    ensures p !in M.b.of && p != M.base
  {
    hide BinInv, TagInv, TagsGuarded, LinksGuarded;
    assert LowOk(M.G()) by { TagBounds(M.G()); }
  }
}
