// mspace_malloc
module Malloc {
  import opened Word
  import opened TreeIndex
  import opened Bins
  import opened Tags
  import opened Cuts
  import opened Guards
  import opened Sizes
  import opened Mstate
  import opened SmallBins
  import Rings
  import BinMap
  import Tries
  import opened TreeLinks
  import opened TreeBins
  import opened TreeUnlink
  import opened Tmalloc
  import opened Chunks
  import opened Rooms

  // Everything but the tags is ready for the chunks in gone to be recut: the
  // bins hold none of them, and dv is not among them.
  ghost predicate Ready(of: map<Addr, nat>, msize: nat, g: Tags, dv: Addr, dvsize: nat, gone: set<Addr>,
                        out: set<Addr>) {
    && TagInv(g) && Agree(of, g, out)
    && g.lo < |g.head| && 896 <= msize == g.head[g.lo].size
    && (dvsize == 0 ==> dv == 0)
    && (dvsize != 0 ==>
          dv in g.live && dv !in gone && dv < |g.head| && !g.head[dv].cinuse && g.head[dv].size == dvsize)
    && (forall q :: q in gone ==> q !in of)
  }

  // Outside gone, out and out' name the same free chunks.
  ghost predicate SameOut(g: Tags, gone: set<Addr>, out: set<Addr>, out': set<Addr>) {
    forall q :: q in g.live && q !in gone && q < |g.head| && !g.head[q].cinuse ==> (q in out' <==> q in out)
  }

  // Each new chunk is in use or accounted for in out.
  ghost predicate Settled(g: Tags, pieces: set<Addr>, out: set<Addr>) {
    forall p :: p in pieces ==> p in out || (p < |g.head| && g.head[p].cinuse)
  }

  // A sound heap again, after its tags went from g to M.G().
  lemma Finish(M: Mstate, g: Tags, gone: set<Addr>, pieces: set<Addr>, out: set<Addr>, out': set<Addr>)
    requires Ready(M.b.of, M.msize, g, M.dv, M.dvsize, gone, out)
    requires M.Binned() && g.lo == M.base
    requires TagInv(M.G()) && Kept(g, M.G(), gone, pieces)
    requires M.top < |M.head| && M.topsize == M.head[M.top].size
    requires SameOut(g, gone, out, out') && Settled(M.G(), pieces, out')
    requires Watched(M, g) && |M.foot| == |g.foot|
    requires Unkept(M.keep, gone) || Safe(M.keep, g, M.G(), gone)
    ensures M.Sound(out')
  {
    hide BinInv, TagInv, Sparing, TagsGuarded, LinksGuarded, Unkept, Safe;
    CutGuarded(M.keep, M.was, g, M.G(), gone, pieces);
    TagBounds(g);
    AgreeKept(M.b.of, g, M.G(), gone, pieces, out, out');
    assert SameChunk(g, M.G(), g.lo);
    if M.dvsize != 0 { assert SameChunk(g, M.G(), M.dv); }
  }

  // The watch goes on over the tags g and the links as they are.
  ghost predicate Watched(M: Mstate, g: Tags)
    reads M
  {
    TagsGuarded(M.keep, M.was, g) && LinksGuarded(M.keep, M.was, M.L())
  }

  // A free chunk is not watched.
  lemma FreeUnkept(keep: map<Addr, nat>, was: Columns, g: Tags, p: Addr)
    requires TagsGuarded(keep, was, g) && p < |g.head| && !g.head[p].cinuse
    ensures Unkept(keep, {p})
  {
    hide Same;
  }

  // A loose free chunk is ready to be recut.
  lemma ReadyFree(M: Mstate, p: Addr, out: set<Addr>)
    requires M.Sound(out) && p in out && p in M.live && p < |M.head| && !M.head[p].cinuse && M.dv != p
    ensures Ready(M.b.of, M.msize, M.G(), M.dv, M.dvsize, {p}, out)
    ensures M.G().lo == M.base && p !in M.Live() && p % 16 == 0
    ensures M.head[p].pinuse && Covers(M.G(), p, p + M.head[p].size, {p})
    ensures var z := p + M.head[p].size;
      z < |M.head| == |M.foot| == M.end && z != M.top && M.head[z].cinuse && !M.head[z].pinuse
    ensures M.top < |M.head| && M.topsize == M.head[M.top].size && MIN_CHUNK_SIZE <= M.head[p].size
    ensures Watched(M, M.G()) && Unkept(M.keep, {p})
  {
    hide BinInv, TagInv, Agree, ChunkOk, TagsGuarded, LinksGuarded;
    FreeUnkept(M.keep, M.was, M.G(), p);
    Parts(M, out);
    ChunkAt(M, out, p);
    LooseChunk(M, out, p);
    FreeChunk(M.G(), p);
    PinuseStays(M.G(), p);
    CoverOne(M.G(), p);
    NotUsed(M.G(), p);
  }

  // p, of chunk size sz, has been allocated for a request of chunk size nb.
  ghost predicate Allocated(old_: map<Addr, nat>, new_: map<Addr, nat>, p: Addr, nb: nat) {
    && p !in old_ && p in new_ && new_ == old_[p := new_[p]]
    && nb <= new_[p] < nb + MIN_CHUNK_SIZE
    && p % 16 == 0
  }

  // A free chunk p, taken out of its bin or the designated victim, is wholly
  // put to use.
  method UseWhole(M: Mstate, p: Addr, s: nat, ghost out: set<Addr>)
    requires M.Sound(out) && p in out && p in M.live && p < |M.head| && !M.head[p].cinuse && s == M.head[p].size
    requires M.dv != p && out - {p} == M.Dv()
    modifies M`head, M`foot
    ensures M.Inv()
    ensures p !in old(M.Live()) && M.Live() == old(M.Live())[p := s] && p % 16 == 0
  {
    hide BinInv, TagInv, Kept, Agree, Used, ChunkOk, Ready, Covers, TagsGuarded, LinksGuarded, Unkept, Safe, Sparing;
    ghost var g := M.G();
    ReadyFree(M, p, out);
    SetInuseAndPinuse(M, p, s);
    assert M.live == g.live - {p} + {p};
    OneUsedEffect(g, M.G(), p, p + s, {p});
    Finish(M, g, {p}, {p}, out, M.Dv());
  }

  // The facts about a free chunk that putting it to use relies on.
  lemma FreeChunk(g: Tags, p: nat)
    requires TagInv(g) && p in g.live && p < |g.head| && !g.head[p].cinuse
    ensures g.head[p].pinuse && p != g.lo && p % 16 == 0
    ensures g.Next(p) in g.live && g.Next(p) != g.top && g.Next(p) < |g.head| && g.head[g.Next(p)].cinuse
  {
    hide TagInv;
    At(g, p);
  }

  lemma NotUsed(g: Tags, p: nat)
    requires p < |g.head| && !g.head[p].cinuse
    ensures p !in Used(g)
  {
  }

  // A free chunk p is split: the first nb bytes are put to use, the rest r
  // stays free.
  method Split(M: Mstate, p: Addr, nb: nat, ghost out: set<Addr>)
    returns (r: Addr)
    requires M.Sound(out) && p in out && p in M.live && p < |M.head| && !M.head[p].cinuse
    requires MIN_CHUNK_SIZE <= nb && nb % 16 == 0 && nb + MIN_CHUNK_SIZE <= M.head[p].size
    requires M.dv != p
    modifies M`head, M`foot, M`live
    ensures r == p + nb && r in M.live && r < |M.head| && !M.head[r].cinuse && r != old(M.dv)
    ensures M.head[r].size == old(M.head[p].size) - nb
    ensures M.Sound(out - {p} + {r})
    ensures p !in old(M.Live()) && M.Live() == old(M.Live())[p := nb] && p % 16 == 0
  {
    hide BinInv, TagInv, Kept, Agree, Used, ChunkOk, Ready, Covers, TagsGuarded, LinksGuarded, Unkept, Safe, Sparing;
    ghost var g, z := M.G(), p + M.head[p].size;
    ReadyFree(M, p, out);
    r := p + nb;
    var rsize := M.head[p].size - nb;
    NewStart(M, out, p, r);
    SetInuseChunk(M, p, nb);
    SetFreeChunk(M, r, rsize);
    M.live := M.live - {p} + {p, r};
    assert M.head == SetPinuse(g.head[p := Head(nb, true, true)][r := Head(z - r, true, false)], z, false);
    UsedFreeEffect(g, M.G(), p, r, z, {p});
    Finish(M, g, {p}, {p, r}, out, out - {p} + {r});
  }

  // The chunk after a free chunk has its PINUSE bit clear.
  lemma PinuseStays(g: Tags, p: nat)
    requires TagInv(g) && p in g.live && p < |g.head| && !g.head[p].cinuse
    ensures g.Next(p) < |g.head| && !g.head[g.Next(p)].pinuse
  {
    hide TagInv;
    At(g, p);
  }

  // No chunk starts inside another.
  lemma NewStart(M: Mstate, out: set<Addr>, p: Addr, r: Addr)
    requires M.Sound(out) && p in M.live && p < |M.head| && p < r < p + M.head[p].size
    ensures r !in M.live && r != M.dv
  {
    hide BinInv, TagInv, Agree, ChunkOk, TagsGuarded, LinksGuarded;
    Parts(M, out);
    ChunkAt(M, out, p);
    if r in M.live { TwoApart(M.G(), p, r); }
  }

  // replace_dv
  method ReplaceDv(M: Mstate, p: Addr, s: nat)
    requires M.Sound(M.Dv() + {p}) && p != M.dv && M.dvsize < MIN_LARGE_SIZE
    requires p in M.live && p < |M.head| && !M.head[p].cinuse && s == M.head[p].size && p != 0
    modifies M`smallmap, M`fd, M`bk, M`b, M`dv, M`dvsize
    ensures M.Inv() && M.Live() == old(M.Live())
    ensures RoomOf(M) == old(RoomOf(M)).Victim(p, s)
  {
    hide Mstate.Sound;
    ghost var out := M.Dv() + {p};
    var DVS := M.dvsize;
    assert DVS < MIN_LARGE_SIZE;
    if DVS != 0 {
      var DV := M.dv;
      DvIs(M, out);
      BinSmall(M, DV, DVS, out);
      assert out - {DV} == {p};
    } else {
      assert out == {p};
    }
    SetDv(M, p, s);
  }

  lemma DvIs(M: Mstate, out: set<Addr>)
    requires M.Sound(out) && M.dvsize != 0
    ensures M.dv in M.live && M.dv < |M.head| && !M.head[M.dv].cinuse && M.head[M.dv].size == M.dvsize
  {
    hide BinInv, TagInv, Agree, TagsGuarded, LinksGuarded;
  }

  // The only loose free chunk becomes the designated victim.
  method SetDv(M: Mstate, p: Addr, s: nat)
    requires M.Sound({p}) && p in M.live && p < |M.head| && !M.head[p].cinuse && s == M.head[p].size && p != 0
    modifies M`dv, M`dvsize
    ensures M.Inv() && RoomOf(M) == old(RoomOf(M)).(dv := p, dvsize := s) && M.Live() == old(M.Live())
  {
    hide BinInv, TagInv, Agree, ChunkOk, TagsGuarded, LinksGuarded;
    ChunkAt(M, {p}, p);
    M.dvsize := s;
    M.dv := p;
  }

  // ------------------------------------------------------ from the tree bins

  lemma FitsAreNodes(M: Mstate, nb: nat, v: Addr, rsize: nat, vs: nat)
    requires M.Inv() && BestSoFar(M.b, nb, v, vs, rsize)
    requires forall y :: y in M.b.trie.node && nb <= y ==> v != 0 && vs <= y
    requires forall p :: p in M.b.of && nb <= M.b.of[p] ==> MIN_LARGE_SIZE <= M.b.of[p]
    ensures v == 0 ==> NoFit(M.b.of, nb)
    ensures v != 0 ==> SmallestFit(RoomOf(M), v, nb) && M.b.of[v] == vs && MIN_LARGE_SIZE <= vs
  {
    hide BinInv, TagInv, Agree, TreesOk, Tries.Wf, BinMap.IsMarked, TagsGuarded, LinksGuarded;
    Parts(M, M.Dv());
    InvParts(M.b, M.m, M.end, M.L());
    KeysOf(M.b, M.m, M.L());
    if v != 0 {
      AtNode(M.b, M.m, M.end, M.L(), vs);
    }
    forall q | q in M.b.of && nb <= M.b.of[q]
      ensures M.b.of[q] in M.b.trie.node
    {
      HomeOf(M.b, M.m, M.end, M.L(), q);
    }
  }

  // unlink_large_chunk in a sound heap
  method UnlinkTreeChunk(M: Mstate, v: Addr, ghost out: set<Addr>)
    requires M.Sound(out) && v in M.b.of && M.b.of[v] >= MIN_LARGE_SIZE
    modifies M`treebins, M`treemap, M`fd, M`bk, M`child0, M`child1, M`parent, M`b
    ensures M.Sound(out + {v}) && RoomOf(M) == old(RoomOf(M)).Out(v)
  {
    hide BinInv, TagInv, Agree, ListsSame, TreesSame, TagsGuarded, LinksGuarded, FreeIn;
    ghost var of, l := M.b.of, M.L();
    AgreeFree(of, M.G(), out);
    UnlinkLargeChunk(M, v);
    AgreeUnlink(of, M.b.of, M.G(), out, v);
    StillGuarded(M, of, l);
  }

  // Whole or split: v, just unlinked, serves a request of nb. What is left
  // over, if it makes a chunk, is returned still loose.
  method Carve(M: Mstate, v: Addr, nb: nat, ghost out: set<Addr>)
    returns (r: Addr)
    requires M.Sound(out) && v in out && v in M.live && v < |M.head| && !M.head[v].cinuse
    requires M.dv != v && out - {v} == M.Dv()
    requires MIN_CHUNK_SIZE <= nb <= M.head[v].size && nb % 16 == 0
    modifies M`head, M`foot, M`live
    ensures Allocated(old(M.Live()), M.Live(), v, nb)
    ensures SizeHeld(M.Live(), v) == if old(M.head[v].size) - nb < MIN_CHUNK_SIZE then old(M.head[v].size) else nb
    ensures r == 0 ==> M.Inv()
    ensures r != 0 ==>
      && M.Sound(M.Dv() + {r}) && r in M.live && r < |M.head| && !M.head[r].cinuse && r != M.dv
      && M.head[r].size == old(M.head[v].size) - nb
    ensures if old(M.head[v].size) - nb < MIN_CHUNK_SIZE then r == 0 else r == v + nb
  {
    hide BinInv, TagInv, Agree, Used, ChunkOk, TagsGuarded, LinksGuarded;
    var rsize := M.head[v].size - nb;
    if rsize < MIN_CHUNK_SIZE {
      r := 0;
      UseWhole(M, v, rsize + nb, out);
    } else {
      r := Split(M, v, nb, out);
    }
  }

  // The best fit among the binned chunks, and what it would leave over.
  method FindBest(M: Mstate, nb: nat) returns (v: Addr, rsize: nat)
    requires M.Inv() && MIN_LARGE_SIZE <= nb < TWO64
    ensures v == 0 ==> NoFit(M.b.of, nb) && rsize == TWO64 - nb
    ensures v != 0 ==> SmallestFit(RoomOf(M), v, nb) && MIN_LARGE_SIZE <= M.b.of[v] < TWO64 && rsize == M.b.of[v] - nb
  {
    hide BinInv, TagInv, Agree, TreesOk, TagsGuarded, LinksGuarded;
    Parts(M, M.Dv());
    AgreeSizes(M.b, M.G(), M.Dv());
    InvParts(M.b, M.m, M.end, M.L());
    ghost var vs;
    v, rsize, vs := BestFit(M, nb);
    FitsAreNodes(M, nb, v, rsize, vs);
  }

  // The tree chunk v serves a request of nb; a remainder is binned again.
  method TakeLargeChunk(M: Mstate, v: Addr, rsize: nat, nb: nat)
    requires M.Inv() && v in M.b.of && MIN_LARGE_SIZE <= nb && M.b.of[v] == rsize + nb && nb % 16 == 0
    modifies M`smallmap, M`treemap, M`treebins, M`head, M`foot, M`fd, M`bk, M`child0, M`child1, M`parent, M`index,
             M`live, M`b
    ensures M.Inv()
    ensures Allocated(old(M.Live()), M.Live(), v, nb)
    ensures SizeHeld(M.Live(), v) == SizeGot(old(RoomOf(M)), v, nb)
    ensures RoomOf(M) == After(old(RoomOf(M)), v, nb)
  {
    hide BinInv, TagInv, Agree, Used, Allocated, ChunkOk, TagsGuarded, LinksGuarded, Mstate.Sound;
    BinnedAt(M, M.Dv(), v);
    ChunkAt(M, M.Dv(), v);
    assert M.OkAddress(v);
    assert M.head[v].size == rsize + nb;
    assert v < v + nb;
    DvOutside(M, v);
    UnlinkTreeChunk(M, v, M.Dv());
    assert M.Dv() + {v} - {v} == M.Dv();
    var r := Carve(M, v, nb, M.Dv() + {v});
    if r != 0 {
      InsertChunk(M, r, rsize, M.Dv() + {r});
      assert M.Dv() + {r} - {r} == M.Dv();
    }
  }

  lemma DvOutside(M: Mstate, v: Addr)
    requires M.Inv() && v in M.b.of
    ensures v !in M.Dv() && (M.dvsize == 0 ==> M.dv == 0) && v != 0 && v != M.dv
  {
    hide BinInv, TagInv, ChunkOk, TagsGuarded, LinksGuarded;
    BinnedAt(M, M.Dv(), v);
    ChunkAt(M, M.Dv(), v);
  }

  // dv, if it is there, fits nb at least as tightly as any binned chunk.
  ghost predicate DvFits(of: map<Addr, nat>, dvsize: nat, nb: nat) {
    nb <= dvsize && forall q :: q in of && nb <= of[q] ==> dvsize <= of[q]
  }

  // tmalloc_large
  method TmallocLarge(M: Mstate, nb: nat) returns (p: Addr)
    requires M.Inv() && MIN_LARGE_SIZE <= nb < TWO64 && nb % 16 == 0
    modifies M`smallmap, M`treemap, M`treebins, M`head, M`foot, M`fd, M`bk, M`child0, M`child1, M`parent, M`index,
             M`live, M`b
    ensures M.Inv()
    ensures p == 0 ==> M.Cols() == old(M.Cols()) && M.G() == old(M.G()) && M.b == old(M.b)
    ensures p == 0 ==> NoFit(M.b.of, nb) || DvFits(M.b.of, M.dvsize, nb)
    ensures p != 0 ==> Allocated(old(M.Live()), M.Live(), p, nb)
    ensures p != 0 ==> SizeHeld(M.Live(), p) == SizeGot(old(RoomOf(M)), p, nb)
    ensures p != 0 ==> SmallestFit(old(RoomOf(M)), p, nb) && (M.dvsize < nb || old(M.b.of)[p] < M.dvsize)
    ensures RoomOf(M) == After(old(RoomOf(M)), p, nb)
  {
    hide BinInv, TagInv, Agree, Used, Allocated, ChunkOk, TagsGuarded, LinksGuarded;
    var v, rsize := FindBest(M, nb);
    DvSmall(M);
    if v != 0 && rsize < Minus(M.dvsize, nb) {
      TakeLargeChunk(M, v, rsize, nb);
      p := v;
    } else {
      p := 0;
    }
  }

  lemma DvSmall(M: Mstate)
    requires M.Inv()
    ensures M.dvsize < TWO64
  {
    hide BinInv, TagInv, Agree, ChunkOk, TagsGuarded, LinksGuarded;
    if M.dvsize != 0 { ChunkAt(M, M.Dv(), M.dv); }
  }

  // Every tree chunk fits a small request.
  lemma TreesFitSmall(M: Mstate, nb: nat, i: nat)
    requires M.Inv() && 0 < nb < MIN_LARGE_SIZE && NoSmallFit(M.b.of, nb)
    requires i < NTREEBINS && BinMap.IsMarked(M.treemap, i)
    requires forall j :: 0 <= j < i ==> !BinMap.IsMarked(M.treemap, j)
    ensures |M.treebins| == NTREEBINS == |M.b.trie.root| && M.treebins[i] != 0
    ensures Walked(M.b, nb, 0, 0, TWO64 - nb, M.treebins[i], M.b.trie.root[i])
  {
    hide BinInv, TagInv, Agree, TreesOk, Tries.Wf, BinMap.IsMarked, TreeIndex.Index, Walked, TagsGuarded, LinksGuarded;
    Parts(M, M.Dv());
    InvParts(M.b, M.m, M.end, M.L());
    KeysOf(M.b, M.m, M.L());
    forall y | y in M.b.trie.node
      ensures nb <= y && i <= TreeIndex.Index(y)
    {
      BinMarked(M.b, M.m, M.end, M.L(), y);
    }
    NextBin(M.b, M.m, M.end, M.L(), nb, i);
  }

  // No chunk of a small bin is large enough.
  ghost predicate NoSmallFit(of: map<Addr, nat>, nb: nat) {
    forall q :: q in of && nb <= of[q] ==> MIN_LARGE_SIZE <= of[q]
  }

  // The search of tmalloc_small: from the root of the lowest tree bin in use.
  method FindSmallest(M: Mstate, nb: nat) returns (v: Addr, rsize: nat)
    requires M.Inv() && 0 < nb < MIN_LARGE_SIZE && NoSmallFit(M.b.of, nb) && M.treemap != 0
    ensures v != 0 && SmallestFit(RoomOf(M), v, nb) && MIN_LARGE_SIZE <= M.b.of[v] == rsize + nb
  {
    hide BinInv, TagInv, Agree, TreesOk, BinMap.IsMarked, BinMap.LeastBit, BinMap.Bit2Idx, AllCovered, AllFit,
         Tries.Wf, TreeIndex.Index, Oldest, TagsGuarded, LinksGuarded;
    ghost var b, l := M.b, M.L();
    Parts(M, M.Dv());
    AgreeSizes(M.b, M.G(), M.Dv());
    InvParts(b, M.m, M.end, l);
    BinMap.LowestMarked(M.treemap);
    var leastbit := BinMap.LeastBit(M.treemap);
    var i := BinMap.Bit2Idx(leastbit);
    TreesFitSmall(M, nb, i);
    var t := M.treebins[i];
    ghost var ts := b.trie.root[i];
    AtNode(b, M.m, M.end, l, ts);
    v := t;
    rsize := Minus(M.head[t].size, nb);
    ghost var vs := ts;
    t := if M.child0[t] != 0 then M.child0[t] else M.child1[t];
    ts := b.trie.node[ts].Leftmost();
    Descend(b, M.m, M.end, l, nb, 0, 0, TWO64 - nb, v, vs, v, vs, rsize, t, ts);
    v, rsize, vs := SmallestOf(M, t, v, rsize, nb, ts, vs);
    LowestIsThere(M, nb, i);
    FitsAreNodes(M, nb, v, rsize, vs);
  }

  lemma LowestIsThere(M: Mstate, nb: nat, i: nat)
    requires M.Inv() && i < NTREEBINS && BinMap.IsMarked(M.treemap, i) && 0 < nb < MIN_LARGE_SIZE
    ensures exists y :: y in M.b.trie.node && nb <= y
  {
    hide BinInv, TagInv, Agree, TreesOk, BinMap.IsMarked, Tries.Wf, TreeIndex.Index, TagsGuarded, LinksGuarded;
    Parts(M, M.Dv());
    InvParts(M.b, M.m, M.end, M.L());
    TreebinOf(M.b, M.m, M.L(), i);
    Tries.RootsOk(M.b.trie, i);
    KeysOf(M.b, M.m, M.L());
    assert M.b.trie.root[i] in M.b.trie.node;
  }

  // tmalloc_small
  method TmallocSmall(M: Mstate, nb: nat) returns (p: Addr)
    requires M.Inv() && MIN_CHUNK_SIZE <= nb < MIN_LARGE_SIZE && nb % 16 == 0 && M.dvsize < nb
    requires NoSmallFit(M.b.of, nb) && M.treemap != 0
    modifies M`smallmap, M`treemap, M`treebins, M`dv, M`dvsize, M`head, M`foot, M`fd, M`bk, M`child0, M`child1,
             M`parent, M`live, M`b
    ensures M.Inv() && p != 0
    ensures Allocated(old(M.Live()), M.Live(), p, nb)
    ensures SizeHeld(M.Live(), p) == SizeGot(old(RoomOf(M)), p, nb)
    ensures SmallestFit(old(RoomOf(M)), p, nb)
    ensures RoomOf(M) == After(old(RoomOf(M)), p, nb)
  {
    hide BinInv, TagInv, Agree, Used, Allocated, ChunkOk, NoSmallFit, TagsGuarded, LinksGuarded;
    var rsize;
    p, rsize := FindSmallest(M, nb);
    BinnedAt(M, M.Dv(), p);
    ChunkAt(M, M.Dv(), p);
    assert M.OkAddress(p);
    assert M.head[p].size == rsize + nb;
    assert p < p + nb;
    DvOutside(M, p);
    UnlinkTreeChunk(M, p, M.Dv());
    assert M.Dv() + {p} - {p} == M.Dv();
    var r := Carve(M, p, nb, M.Dv() + {p});
    if r != 0 {
      ReplaceDv(M, r, rsize);
    }
  }

  // ------------------------------------------------------ from a small bin

  // No binned chunk has an odd multiple of 8 for a size.
  lemma OddBinsEmpty(M: Mstate, i: nat)
    requires M.Inv() && i < BinMap.NBINS && i % 2 == 1
    ensures !BinMap.IsMarked(M.smallmap, i)
  {
    hide TagInv, Agree, BinMap.IsMarked, TreesOk, RingsOk;
    if 8 * i in M.b.q {
      QueueAt(M.b, 8 * i);
      Odd8(i);
    }
  }

  lemma Odd8(i: nat)
    requires i % 2 == 1
    ensures (8 * i) % 16 != 0
  {
    assert 8 * i == 16 * (i / 2) + 8;
  }

  // The first chunk of a marked small bin.
  lemma FirstOfBin(M: Mstate, i: nat)
    requires M.Inv() && i < BinMap.NBINS && BinMap.IsMarked(M.smallmap, i)
    ensures SmallbinAt(M.m, i) < |M.fd| && |M.fd| == M.end == |M.head|
    ensures var p := M.fd[SmallbinAt(M.m, i)];
      p in M.b.of && M.b.of[p] == 8 * i && p in M.live && p < |M.head| && M.head[p].size == 8 * i && !M.head[p].cinuse
      && p == NextOut(M.b.q, 8 * i)
  {
    hide TagInv, Agree, BinMap.IsMarked, BinInv, Rings.Ring, Rings.NoDup, TagsGuarded, LinksGuarded;
    Parts(M, M.Dv());
    SmallHeader(M.b, M.m, M.end, M.L(), 8 * i);
    var p := M.fd[SmallbinAt(M.m, i)];
    assert p in M.b.q[8 * i];
    BinnedAt(M, M.Dv(), p);
  }

  // Unlink the first chunk p of small bin i from a sound heap.
  method TakeFirst(M: Mstate, i: nat) returns (p: Addr)
    requires M.Inv() && i < BinMap.NBINS && BinMap.IsMarked(M.smallmap, i)
    modifies M`smallmap, M`fd, M`bk, M`b
    ensures M.Sound(M.Dv() + {p}) && p in old(M.b.of) && old(M.b.of)[p] == 8 * i
    ensures p == NextOut(old(M.b.q), 8 * i) && RoomOf(M) == old(RoomOf(M)).Out(p)
    ensures p in M.live && p < |M.head| && M.head[p].size == 8 * i && !M.head[p].cinuse
    ensures p != 0 && p != M.dv && M.Dv() + {p} - {p} == M.Dv()
  {
    hide BinInv, TagInv, Agree, BinMap.IsMarked, ChunkOk, ListsSame, TreesSame, TagsGuarded, LinksGuarded, FreeIn;
    ghost var of, l := M.b.of, M.L();
    AgreeFree(of, M.G(), M.Dv());
    FirstOfBin(M, i);
    var B := SmallbinAt(M.m, i);
    p := M.fd[B];
    DvOutside(M, p);
    UnlinkFirstSmallChunk(M, B, p, i);
    OnlyLists(of, M.m, M.end, l, M.L());
    AgreeUnlink(of, M.b.of, M.G(), M.Dv(), p);
    StillGuarded(M, of, l);
    assert M.Dv() + {p} - {p} == M.Dv();
  }

  // Remainderless fit to a small bin: bin idx, or the next one.
  method FromSmallBin(M: Mstate, nb: nat, idx: nat) returns (p: Addr)
    requires M.Inv() && idx < BinMap.NBINS && BinMap.IsMarked(M.smallmap, idx)
    requires nb == 8 * idx && MIN_CHUNK_SIZE <= nb
    modifies M`smallmap, M`fd, M`bk, M`b, M`head, M`foot
    ensures M.Inv() && p != 0
    ensures Allocated(old(M.Live()), M.Live(), p, nb)
    ensures SizeHeld(M.Live(), p) == SizeGot(old(RoomOf(M)), p, nb)
    ensures p in old(M.b.of) && old(M.b.of)[p] == nb && p == NextOut(old(M.b.q), nb)
    ensures RoomOf(M) == After(old(RoomOf(M)), p, nb)
  {
    hide BinInv, TagInv, Agree, Used, BinMap.IsMarked, ChunkOk, TagsGuarded, LinksGuarded;
    p := TakeFirst(M, idx);
    assert M.head[p].size == nb;
    UseWhole(M, p, 8 * idx, M.Dv() + {p});
  }

  // The next nonempty small bin i: split its first chunk.
  method FromNextSmall(M: Mstate, nb: nat, i: nat) returns (p: Addr)
    requires M.Inv() && i < BinMap.NBINS && BinMap.IsMarked(M.smallmap, i)
    requires MIN_CHUNK_SIZE <= nb < 8 * i && nb % 16 == 0 && M.dvsize < nb
    modifies M`smallmap, M`dv, M`dvsize, M`head, M`foot, M`fd, M`bk, M`live, M`b
    ensures M.Inv() && p != 0
    ensures Allocated(old(M.Live()), M.Live(), p, nb)
    ensures SizeHeld(M.Live(), p) == SizeGot(old(RoomOf(M)), p, nb)
    ensures p in old(M.b.of) && old(M.b.of)[p] == 8 * i && p == NextOut(old(M.b.q), 8 * i)
    ensures RoomOf(M) == After(old(RoomOf(M)), p, nb)
  {
    hide BinInv, TagInv, Agree, Used, BinMap.IsMarked, ChunkOk, Allocated, TagsGuarded, LinksGuarded;
    p := TakeFirst(M, i);
    assert M.head[p].size == 8 * i;
    var rsize := 8 * i - nb;
    var r := Carve(M, p, nb, M.Dv() + {p});
    if r != 0 {
      ReplaceDv(M, r, rsize);
    }
  }

  // ------------------------------------------------ from dv and from top

  method FromDv(M: Mstate, nb: nat) returns (p: Addr)
    requires M.Inv() && MIN_CHUNK_SIZE <= nb <= M.dvsize && nb % 16 == 0
    modifies M`dv, M`dvsize, M`head, M`foot, M`live
    ensures M.Inv() && p != 0 && p == old(M.dv)
    ensures Allocated(old(M.Live()), M.Live(), p, nb)
    ensures SizeHeld(M.Live(), p) == if old(M.dvsize) - nb < MIN_CHUNK_SIZE then old(M.dvsize) else nb
    ensures var rest := old(M.dvsize) - nb;
      RoomOf(M) == old(RoomOf(M)).(dv := if rest < MIN_CHUNK_SIZE then 0 else p + nb,
                                   dvsize := if rest < MIN_CHUNK_SIZE then 0 else rest)
  {
    hide BinInv, TagInv, Agree, Used, ChunkOk, TagsGuarded, LinksGuarded;
    var rsize := M.dvsize - nb;
    p := M.dv;
    ghost var out := {p};
    ChunkAt(M, M.Dv(), p);
    LooseChunk(M, M.Dv(), p);
    assert M.Dv() == out;
    var dvs := M.dvsize;
    M.dv := 0;
    M.dvsize := 0;
    assert out - {p} == M.Dv();
    if rsize >= MIN_CHUNK_SIZE {
      var r := Split(M, p, nb, out);
      assert out - {p} + {r} == {r};
      M.dv := r;
      M.dvsize := rsize;
      assert M.Dv() == {r};
    } else {
      UseWhole(M, p, dvs, out);
    }
  }

  // The first nb bytes of top become a chunk in use.
  method CutTop(M: Mstate, nb: nat) returns (p: Addr)
    requires TagInv(M.G()) && MIN_CHUNK_SIZE <= nb < M.topsize && nb % 16 == 0
    requires M.top < |M.head| && M.topsize == M.head[M.top].size
    modifies M`top, M`topsize, M`head, M`foot, M`live
    ensures TagInv(M.G()) && Kept(old(M.G()), M.G(), {}, {p})
    ensures Used(M.G()) == Used(old(M.G()))[p := nb]
    ensures p == old(M.top) && M.top == p + nb && M.topsize == old(M.topsize) - nb
    ensures p < |M.head| && M.head[p].cinuse && |M.foot| == |old(M.foot)|
    ensures M.top < |M.head| && M.topsize == M.head[M.top].size
  {
    hide TagInv, Used, Kept, ChunkOk;
    ghost var g := M.G();
    TagBounds(g);
    AboveBase(g);
    M.topsize := M.topsize - nb;
    var rsize := M.topsize;
    p := M.top;
    var r := p + nb;
    M.top := r;
    M.head := M.head[r := Head(rsize, true, false)];
    SetInuseChunk(M, p, nb);
    M.live := M.live + {p};
    assert M.head == g.head[p := Head(nb, true, true)][r := Head(rsize, true, false)];
    TopUsedEffect(g, M.G(), p, r);
    assert g.live * {p} == {};
  }

  method FromTop(M: Mstate, nb: nat) returns (p: Addr)
    requires M.Inv() && MIN_CHUNK_SIZE <= nb < M.topsize && nb % 16 == 0
    modifies M`top, M`topsize, M`head, M`foot, M`live
    ensures M.Inv() && p != 0 && p == old(M.top)
    ensures Allocated(old(M.Live()), M.Live(), p, nb)
    ensures SizeHeld(M.Live(), p) == nb
    ensures M.top == p + nb && M.topsize == old(M.topsize) - nb
  {
    hide BinInv, TagInv, Agree, Used, Kept, ChunkOk, Ready, TagsGuarded, LinksGuarded, Unkept, Safe, Sparing;
    ghost var g := M.G();
    ReadyTop(M);
    p := CutTop(M, nb);
    Finish(M, g, {}, {p}, M.Dv(), M.Dv());
  }

  lemma ReadyTop(M: Mstate)
    requires M.Inv()
    ensures Ready(M.b.of, M.msize, M.G(), M.dv, M.dvsize, {}, M.Dv())
    ensures M.G().lo == M.base && M.top !in M.Live()
    ensures M.base < M.top < |M.head| == |M.foot| == M.end && M.top % 16 == 0 && M.top !in M.live
      && M.head[M.top].pinuse
    ensures M.topsize == M.head[M.top].size && M.top + M.topsize + TOP_FOOT_SIZE == M.end
    ensures Watched(M, M.G()) && Unkept(M.keep, {})
  {
    hide BinInv, TagInv, Agree, Used, ChunkOk, TagsGuarded, LinksGuarded;
    Parts(M, M.Dv());
    TagBounds(M.G());
    AboveBase(M.G());
    TopNotUsed(M.G());
  }

  lemma AboveBase(g: Tags)
    requires TagInv(g)
    ensures g.lo < g.top && 0 < g.top && g.top % 16 == 0 && g.top !in g.live
  {
    hide TagInv;
    TagBounds(g);
    At(g, g.lo);
  }

  lemma TopNotUsed(g: Tags)
    requires TagInv(g)
    ensures g.top !in Used(g)
  {
    hide ChunkOk;
  }

  // ------------------------------------------------------- mspace_malloc

  ghost predicate BinsTold(M: Mstate)
    reads M
  {
    && (forall i :: 0 <= i < BinMap.NBINS ==> (BinMap.IsMarked(M.smallmap, i) <==> 8 * i in M.b.q))
    && (forall q :: q in M.b.of ==> M.b.of[q] in M.b.q)
    && (forall s :: s in M.b.q ==> s % 16 == 0 && 32 <= s)
  }

  lemma SmallmapTells(M: Mstate)
    requires M.Inv()
    ensures BinsTold(M)
    ensures M.treemap == 0 ==> forall q :: q in M.b.of ==> M.b.of[q] < MIN_LARGE_SIZE
  {
    hide TagInv, Agree, BinMap.IsMarked, TreesOk, RingsOk, QueueOk, HomeOk, Tries.Wf, TreeIndex.Index;
    forall q | q in M.b.of
      ensures M.b.of[q] in M.b.q
      ensures M.treemap == 0 ==> M.b.of[q] < MIN_LARGE_SIZE
    {
      HomeOf(M.b, M.m, M.end, M.L(), q);
      KeysOf(M.b, M.m, M.L());
      if M.treemap == 0 && M.b.of[q] >= MIN_LARGE_SIZE {
        BinMarked(M.b, M.m, M.end, M.L(), M.b.of[q]);
        BinMap.NothingMarked(TreeIndex.Index(M.b.of[q]));
      }
    }
    forall s | s in M.b.q
      ensures s % 16 == 0 && 32 <= s
    {
      QueueAt(M.b, s);
      SizeOfQueue(M.b, s);
    }
  }

  lemma SizeOfQueue(b: Bins, s: nat)
    requires s in b.q && QueueOk(b, s)
    ensures s % 16 == 0 && 32 <= s
  {
    hide Rings.NoDup;
  }

  // A small request: an exact small bin, or the next small bin, or a tree
  // bin; p is 0 when dv or top must serve it.
  method MallocSmall(M: Mstate, nb: nat) returns (p: Addr)
    requires M.Inv() && MIN_CHUNK_SIZE <= nb <= 240 && nb % 16 == 0
    modifies M`smallmap, M`treemap, M`treebins, M`dv, M`dvsize, M`head, M`foot, M`fd, M`bk, M`child0, M`child1,
             M`parent, M`live, M`b
    ensures M.Inv()
    ensures p == 0 ==>
      M.Cols() == old(M.Cols()) && M.G() == old(M.G()) && M.b == old(M.b) && M.dv == old(M.dv)
        && M.dvsize == old(M.dvsize)
    ensures p == 0 ==> if nb <= M.dvsize then forall q :: q in M.b.of ==> M.b.of[q] != nb else NoFit(M.b.of, nb)
    ensures p != 0 ==> Allocated(old(M.Live()), M.Live(), p, nb)
    ensures p != 0 ==> SizeHeld(M.Live(), p) == SizeGot(old(RoomOf(M)), p, nb)
    ensures p != 0 ==> SmallestFit(old(RoomOf(M)), p, nb) && (old(M.dvsize) < nb || old(M.b.of)[p] == nb)
    ensures RoomOf(M) == After(old(RoomOf(M)), p, nb)
  {
    hide BinInv, TagInv, Agree, Used, BinMap.IsMarked, ChunkOk, Allocated, BinMap.ShiftRight, BinMap.Above,
         BinMap.LeastBit, BinMap.Bit2Idx, TagsGuarded, LinksGuarded;
    p := 0;
    var idx := nb / 8;
    var smallbits := BinMap.ShiftRight(M.smallmap, idx);
    BinMap.SmallBits(M.smallmap, idx);
    SmallmapTells(M);
    EightsOf(M.b, nb);
    OddBinsEmpty(M, idx + 1);
    if smallbits & 3 != 0 {
      idx := idx + (!smallbits & 1) as nat;
      p := FromSmallBin(M, nb, idx);
    } else if nb > M.dvsize {
      if smallbits != 0 {
        var leftbits := BinMap.Above(BinMap.ShiftLeft(smallbits, idx), idx);
        BinMap.NextSmall(M.smallmap, idx);
        BinMap.NextAbove(M.smallmap, idx);
        NextIsThere(M, idx);
        var leastbit := BinMap.LeastBit(leftbits);
        var i := BinMap.Bit2Idx(leastbit);
        NextFits(M, idx, i);
        p := FromNextSmall(M, nb, i);
      } else {
        NoneSmall(M, idx);
        if M.treemap != 0 {
          p := TmallocSmall(M, nb);
        }
      }
    }
  }

  lemma EightsOf(b: Bins, nb: nat)
    requires nb % 16 == 0
    ensures 8 * (nb / 8) == nb && (nb / 8 + 1) % 2 == 1
  {
    assert nb == 16 * (nb / 16);
  }

  lemma NextIsThere(M: Mstate, idx: nat)
    requires idx < BinMap.NBINS && !BinMap.IsMarked(M.smallmap, idx)
    requires exists j :: idx <= j < BinMap.NBINS && BinMap.IsMarked(M.smallmap, j)
    ensures BinMap.Above(M.smallmap, idx) != 0
  {
    hide BinMap.IsMarked, BinMap.Above, BinMap.LeastBit, BinMap.Bit2Idx;
    BinMap.NextAbove(M.smallmap, idx);
  }

  lemma NextFits(M: Mstate, idx: nat, i: nat)
    requires BinsTold(M) && idx < i < BinMap.NBINS && BinMap.IsMarked(M.smallmap, i)
    requires !BinMap.IsMarked(M.smallmap, idx)
    requires forall j :: idx < j < i ==> !BinMap.IsMarked(M.smallmap, j)
    ensures forall q :: q in M.b.of && 8 * idx <= M.b.of[q] ==> 8 * i <= M.b.of[q]
  {
    hide BinMap.IsMarked;
    forall q | q in M.b.of && 8 * idx <= M.b.of[q]
      ensures 8 * i <= M.b.of[q]
    {
      Eighth(M.b.of[q]);
    }
  }

  lemma Eighth(s: nat)
    requires s % 16 == 0
    ensures s == 8 * (s / 8)
  {
    var q := s / 16;
    assert s == 16 * q;
    assert s / 8 == 2 * q;
  }

  lemma NoneSmall(M: Mstate, idx: nat)
    requires BinsTold(M)
    requires forall j :: idx <= j < BinMap.NBINS ==> !BinMap.IsMarked(M.smallmap, j)
    ensures NoSmallFit(M.b.of, 8 * idx)
  {
    hide BinMap.IsMarked;
    forall q | q in M.b.of && 8 * idx <= M.b.of[q]
      ensures MIN_LARGE_SIZE <= M.b.of[q]
    {
      Eighth(M.b.of[q]);
    }
  }

  // The chunk size for a request, and a binned chunk for it if one serves.
  method FromBins(M: Mstate, bytes: nat) returns (p: Addr, nb: nat)
    requires M.Inv() && bytes < TWO64
    modifies M`smallmap, M`treemap, M`treebins, M`dv, M`dvsize, M`head, M`foot, M`fd, M`bk, M`child0, M`child1,
             M`parent, M`index, M`live, M`b
    ensures M.Inv() && nb == if bytes < MAX_REQUEST then Request2Size(bytes) else MAX_SIZE_T
    ensures p == 0 ==>
      M.Cols() == old(M.Cols()) && M.G() == old(M.G()) && M.b == old(M.b) && M.dv == old(M.dv)
        && M.dvsize == old(M.dvsize)
    ensures p == 0 && bytes < MAX_REQUEST ==> BinsPass(RoomOf(M), nb)
    ensures p != 0 ==> bytes < MAX_REQUEST && Allocated(old(M.Live()), M.Live(), p, nb)
    ensures p != 0 ==> SizeHeld(M.Live(), p) == SizeGot(old(RoomOf(M)), p, nb)
    ensures p != 0 ==> BinServes(old(RoomOf(M)), nb, p)
    ensures RoomOf(M) == After(old(RoomOf(M)), p, nb)
  {
    hide BinInv, TagInv, Agree, Used, ChunkOk, Allocated, TagsGuarded, LinksGuarded;
    nb := MAX_SIZE_T;
    p := 0;
    SizeFits(bytes);
    SmallRequest(bytes);
    if bytes <= MAX_SMALL_REQUEST {
      nb := if bytes < MIN_REQUEST then MIN_CHUNK_SIZE else PadRequest(bytes);
      p := MallocSmall(M, nb);
    } else if bytes < MAX_REQUEST {
      nb := PadRequest(bytes);
      if M.treemap != 0 {
        p := TmallocLarge(M, nb);
      } else {
        SmallmapTells(M);
      }
    }
  }

  // mspace_malloc
  method MspaceMalloc(M: Mstate, bytes: nat) returns (mem: Addr)
    requires M.Inv() && bytes < TWO64
    modifies M`smallmap, M`treemap, M`treebins, M`dv, M`dvsize, M`top, M`topsize, M`head, M`foot, M`fd, M`bk,
             M`child0, M`child1, M`parent, M`index, M`live, M`b
    ensures M.Inv()
    ensures mem == 0 ==>
      M.Cols() == old(M.Cols()) && M.G() == old(M.G()) && M.b == old(M.b) && RoomOf(M) == old(RoomOf(M))
    ensures mem != 0 ==> mem > 16 && Allocated(old(M.Live()), M.Live(), mem - 16, Request2Size(bytes))
    ensures mem != 0 ==> SizeHeld(M.Live(), mem - 16) == SizeGot(old(RoomOf(M)), mem - 16, Request2Size(bytes))
    ensures bytes < MAX_REQUEST ==>
      Chosen(old(RoomOf(M)), Request2Size(bytes), ChunkOf(mem))
    ensures RoomOf(M) == After(old(RoomOf(M)), ChunkOf(mem), Request2Size(bytes))
    ensures mem == 0 <==>
      bytes >= MAX_REQUEST || old(Exhausted(M.b.of, M.dvsize, M.topsize, Request2Size(bytes)))
  {
    hide BinInv, TagInv, Agree, Used, ChunkOk, Allocated, TagsGuarded, LinksGuarded, After, SmallestFit, Mstate.Sound,
         Request2Size;
    SizeFits(bytes);
    SmallRequest(bytes);
    Bounded(M);
    FitsOrNot(M, bytes);
    var p, nb := FromBins(M, bytes);
    if p == 0 {
      p := FromDvOrTop(M, nb);
    }
    AfterNothing(old(RoomOf(M)), nb);
    mem := if p == 0 then 0 else p + 16;
  }

  ghost function ChunkOf(mem: Addr): Addr {
    if mem < 16 then 0 else mem - 16
  }

  lemma AfterNothing(a: Room, nb: nat)
    ensures forall n: nat :: After(a, 0, n) == a
  {
  }

  // Whether anything is left to serve a request.
  lemma FitsOrNot(M: Mstate, bytes: nat)
    requires M.Inv()
    ensures var nb := Request2Size(bytes);
      && (forall p :: BinServes(RoomOf(M), nb, p) ==> !Exhausted(M.b.of, M.dvsize, M.topsize, nb))
      && (BinsPass(RoomOf(M), nb) ==>
            (Exhausted(M.b.of, M.dvsize, M.topsize, nb) <==> nb > M.dvsize && nb >= M.topsize))
  {
    hide M.Sound;
  }

  // The remaining sources: dv, then top, and then sys_alloc, which fails.
  method FromDvOrTop(M: Mstate, nb: nat) returns (p: Addr)
    requires M.Inv() && MIN_CHUNK_SIZE <= nb < TWO64 && (nb % 16 == 0 || nb == MAX_SIZE_T)
    modifies M`dv, M`dvsize, M`top, M`topsize, M`head, M`foot, M`live
    ensures M.Inv()
    ensures p == 0 ==>
      M.Cols() == old(M.Cols()) && M.G() == old(M.G()) && M.dv == old(M.dv) && M.dvsize == old(M.dvsize)
    ensures p != 0 ==> nb % 16 == 0 && Allocated(old(M.Live()), M.Live(), p, nb)
    ensures p != 0 ==> SizeHeld(M.Live(), p) == SizeGot(old(RoomOf(M)), p, nb)
    ensures if nb <= old(M.dvsize) then p != 0 && p == old(M.dv)
            else if nb < old(M.topsize) then p != 0 && p == old(M.top)
            else p == 0
    ensures RoomOf(M) == After(old(RoomOf(M)), p, nb)
  {
    hide BinInv, TagInv, Agree, Used, ChunkOk, Allocated, TagsGuarded, LinksGuarded;
    Bounded(M);
    RoomsApart(M);
    if nb <= M.dvsize {
      p := FromDv(M, nb);
    } else if nb < M.topsize {
      p := FromTop(M, nb);
    } else {
      p := 0;
    }
  }

  // Neither dv nor top is binned.
  lemma RoomsApart(M: Mstate)
    requires M.Inv()
    ensures M.top !in M.b.of && M.top != M.dv
    ensures M.dvsize != 0 ==> M.dv !in M.b.of
  {
    hide BinInv, TagInv, Agree, Used, ChunkOk, TagsGuarded, LinksGuarded;
    ReadyTop(M);
    if M.top in M.b.of { BinnedAt(M, M.Dv(), M.top); }
    if M.dvsize != 0 && M.dv in M.b.of { DvOutside(M, M.dv); }
  }

  lemma Bounded(M: Mstate)
    requires M.Inv()
    ensures M.dvsize < MAX_SIZE_T - 16 && M.topsize < MAX_SIZE_T - 16
  {
    hide BinInv, TagInv, Agree, ChunkOk, TagsGuarded, LinksGuarded;
    Parts(M, M.Dv());
    TagBounds(M.G());
    if M.dvsize != 0 { ChunkAt(M, M.Dv(), M.dv); }
  }
}
