// The room of a heap, told by the chunks in use alone: the gaps between them and
// what is left behind the last one.
module Gaps {
  import opened Bins
  import opened Tags
  import opened Cuts
  import opened Mstate
  import opened Guards
  import opened Chunks
  import opened Malloc
  import opened Rooms
  import opened Layout

  datatype Extent = Extent(from: Addr, to: Addr)

  ghost predicate EndsAt(E: set<Extent>, lo: Addr, a: Addr) {
    a == lo || exists e :: e in E && e.to == a
  }

  ghost predicate StartsAt(E: set<Extent>, z: Addr) {
    exists e :: e in E && e.from == z
  }

  // Nothing lies between a, where one ends, and z, where the next one starts.
  ghost predicate Gap(E: set<Extent>, lo: Addr, a: Addr, z: Addr) {
    EndsAt(E, lo, a) && StartsAt(E, z) && a <= z && forall e :: e in E ==> !(a <= e.from < z)
  }

  // The last one ends at a.
  ghost predicate LastEnd(E: set<Extent>, lo: Addr, a: Addr) {
    EndsAt(E, lo, a) && forall e :: e in E ==> e.from < a
  }

  // No gap has room for nb bytes, and what is left up to hi has room for no more.
  ghost predicate Full(E: set<Extent>, lo: Addr, hi: Addr, nb: nat) {
    && (forall a: Addr, z: Addr :: Gap(E, lo, a, z) ==> z < a + nb)
    && (forall a: Addr :: LastEnd(E, lo, a) ==> hi <= a + nb)
  }

  // Nor is there room for e to grow to nb bytes where it is.
  ghost predicate Boxed(E: set<Extent>, lo: Addr, hi: Addr, e: Extent, nb: nat) {
    && e.to < e.from + nb
    && (forall z: Addr :: Gap(E, lo, e.to, z) ==> z < e.from + nb)
    && (LastEnd(E, lo, e.to) ==> hi <= e.from + nb)
  }

  // ------------------------------------------------------------ in a segment

  ghost function ExtentsOf(live: map<Addr, nat>): set<Extent> {
    set p | p in live :: Extent(p, p + live[p])
  }

  // Where the first chunk after the state record may start.
  ghost function Start(g: Tags): Addr {
    if g.lo < |g.head| then g.Next(g.lo) else g.lo
  }

  ghost predicate FreeAt(g: Tags, q: Addr) {
    q in g.live && q < |g.head| && !g.head[q].cinuse
  }

  lemma UsedIs(g: Tags, p: Addr)
    requires TagInv(g)
    ensures p in Used(g) <==> p in g.live && p < |g.head| && g.head[p].cinuse && p != g.lo
    ensures p in Used(g) ==> Used(g)[p] == g.head[p].size
  {
    hide TagInv;
  }

  lemma ExtentIs(g: Tags, e: Extent)
    requires TagInv(g) && e in ExtentsOf(Used(g))
    ensures e.from in Used(g) && e.from in g.live && e.from < |g.head| && g.head[e.from].cinuse
    ensures e.to == g.Next(e.from) && g.lo < e.from < g.top && e.from < e.to <= g.top && g.Border(e.to)
  {
    hide TagInv;
    UsedIs(g, e.from);
    NothingAbove(g, e.from);
    At(g, e.from);
  }

  lemma ExtentFrom(g: Tags, p: Addr)
    requires TagInv(g) && p in Used(g)
    ensures p < |g.head| && Extent(p, g.Next(p)) in ExtentsOf(Used(g))
  {
    hide TagInv;
    UsedIs(g, p);
  }

  lemma EndIsBorder(g: Tags, a: Addr)
    requires TagInv(g) && EndsAt(ExtentsOf(Used(g)), Start(g), a)
    ensures g.Border(a) && g.lo < a
  {
    hide TagInv, Used;
    TagBounds(g);
    NothingAbove(g, g.lo);
    if a != Start(g) {
      var e :| e in ExtentsOf(Used(g)) && e.to == a;
      ExtentIs(g, e);
    }
  }

  // The chunk before a border is in use when the border says so.
  lemma EndBefore(g: Tags, q: Addr)
    requires TagInv(g) && g.Border(q) && g.lo < q && q < |g.head| && g.head[q].pinuse
    ensures EndsAt(ExtentsOf(Used(g)), Start(g), q)
  {
    hide TagInv, Used;
    TagBounds(g);
    BelowBorder(g, q);
    var r := FindChunk(g, g.lo, q - 1);
    NothingAbove(g, r);
    NextIs(g, r, q);
    if !g.head[r].cinuse { PinuseStays(g, r); }
    if r != g.lo {
      UsedIs(g, r);
      ExtentFrom(g, r);
    }
  }

  lemma BelowBorder(g: Tags, q: Addr)
    requires TagInv(g) && g.Border(q) && g.lo < q
    ensures q <= g.top
  {
    hide TagInv;
    if q in g.live { NothingAbove(g, q); }
  }

  lemma NextIs(g: Tags, r: Addr, q: Addr)
    requires TagInv(g) && g.Border(q) && q > 0 && Inside(g, r, q - 1)
    ensures r < |g.head| && g.Next(r) == q
  {
    hide TagInv;
    NothingAbove(g, r);
    if q in g.live { TwoApart(g, r, q); }
  }

  // A free chunk is a gap.
  lemma FreeIsGap(g: Tags, q: Addr)
    requires TagInv(g) && FreeAt(g, q)
    ensures q < |g.head| && q < g.Next(q) && Gap(ExtentsOf(Used(g)), Start(g), q, g.Next(q))
  {
    hide TagInv, Used;
    FreeChunk(g, q);
    NothingAbove(g, q);
    var z := g.Next(q);
    LowFirst(g, q);
    EndBefore(g, q);
    UsedIs(g, z);
    LowFirst(g, z);
    ExtentFrom(g, z);
    forall e | e in ExtentsOf(Used(g))
      ensures !(q <= e.from < z)
    {
      ExtentIs(g, e);
      if q < e.from { TwoApart(g, q, e.from); }
    }
  }

  lemma LowFirst(g: Tags, q: Addr)
    requires TagInv(g) && q in g.live
    ensures g.lo <= q
  {
    hide TagInv;
    At(g, q);
  }

  // And a gap is a free chunk, unless it is empty.
  lemma GapIsFree(g: Tags, a: Addr, z: Addr)
    requires TagInv(g) && Gap(ExtentsOf(Used(g)), Start(g), a, z) && a < z
    ensures FreeAt(g, a) && g.Next(a) == z
  {
    hide TagInv, Used;
    EndIsBorder(g, a);
    var f :| f in ExtentsOf(Used(g)) && f.from == z;
    ExtentIs(g, f);
    assert a in g.live;
    NothingAbove(g, a);
    UsedIs(g, a);
    if a in Used(g) { ExtentFrom(g, a); }
    FreeChunk(g, a);
    UsedIs(g, g.Next(a));
    ExtentFrom(g, g.Next(a));
    TwoApart(g, a, z);
  }

  // Behind the last chunk in use begins top.
  lemma LastIsTop(g: Tags, a: Addr)
    requires TagInv(g)
    ensures LastEnd(ExtentsOf(Used(g)), Start(g), a) <==> a == g.top
  {
    hide TagInv, Used;
    TagBounds(g);
    AboveBase(g);
    if LastEnd(ExtentsOf(Used(g)), Start(g), a) && a != g.top {
      EndIsBorder(g, a);
      NothingAbove(g, a);
      UsedIs(g, a);
      if a in Used(g) { ExtentFrom(g, a); }
      FreeChunk(g, a);
      LowFirst(g, g.Next(a));
      UsedIs(g, g.Next(a));
      ExtentFrom(g, g.Next(a));
    }
    if a == g.top {
      EndBefore(g, a);
      forall e | e in ExtentsOf(Used(g))
        ensures e.from < a
      {
        ExtentIs(g, e);
      }
    }
  }

  // ----------------------------------------------------------------- in a heap

  ghost function AreaStart(M: Mstate): Addr {
    M.base + M.msize
  }

  ghost function AreaEnd(M: Mstate): Addr {
    if M.end >= TOP_FOOT_SIZE then M.end - TOP_FOOT_SIZE else 0
  }

  lemma AreaIs(M: Mstate)
    requires M.Inv()
    ensures Start(M.G()) == AreaStart(M) && M.top + M.topsize == AreaEnd(M) && TagInv(M.G()) && M.Live() == Used(M.G())
  {
    hide BinInv, TagInv, Agree, Used, ChunkOk, TagsGuarded, LinksGuarded;
    Parts(M, M.Dv());
    TagBounds(M.G());
  }

  // A free chunk of a heap is binned or the designated victim.
  lemma FreeIs(M: Mstate, q: Addr)
    requires M.Inv()
    ensures FreeAt(M.G(), q) <==> q in M.b.of || (M.dvsize != 0 && q == M.dv)
    ensures q in M.b.of ==> q < |M.head| && M.b.of[q] == M.head[q].size
    ensures M.dvsize != 0 && q == M.dv ==> q < |M.head| && M.dvsize == M.head[q].size
  {
    hide BinInv, TagInv, Used, ChunkOk, TagsGuarded, LinksGuarded;
    Parts(M, M.Dv());
  }

  // A heap has no chunk for a request exactly when its blocks leave no room.
  lemma ExhaustedIsFull(M: Mstate, nb: nat)
    requires M.Inv() && nb > 0
    ensures Exhausted(M.b.of, M.dvsize, M.topsize, nb) <==> Full(ExtentsOf(M.Live()), AreaStart(M), AreaEnd(M), nb)
  {
    hide BinInv, TagInv, Agree, Used, ChunkOk, TagsGuarded, LinksGuarded, Gap, LastEnd, FreeAt, Mstate.Sound;
    AreaIs(M);
    LastIsTop(M.G(), M.top);
    if Full(ExtentsOf(M.Live()), AreaStart(M), AreaEnd(M), nb) {
      forall q | q in M.b.of
        ensures M.b.of[q] < nb
      {
        FreeIs(M, q);
        FreeIsGap(M.G(), q);
      }
      if M.dvsize != 0 {
        FreeIs(M, M.dv);
        FreeIsGap(M.G(), M.dv);
      }
    }
    if Exhausted(M.b.of, M.dvsize, M.topsize, nb) {
      forall a: Addr, z: Addr | Gap(ExtentsOf(M.Live()), AreaStart(M), a, z)
        ensures z < a + nb
      {
        GapSmall(M, a, z, nb);
      }
      forall a: Addr | LastEnd(ExtentsOf(M.Live()), AreaStart(M), a)
        ensures AreaEnd(M) <= a + nb
      {
        LastIsTop(M.G(), a);
      }
    }
  }

  lemma GapSmall(M: Mstate, a: Addr, z: Addr, nb: nat)
    requires M.Inv() && nb > 0 && Gap(ExtentsOf(M.Live()), AreaStart(M), a, z)
    requires Exhausted(M.b.of, M.dvsize, M.topsize, nb)
    ensures z < a + nb
  {
    hide BinInv, TagInv, Agree, Used, ChunkOk, TagsGuarded, LinksGuarded, FreeAt, Mstate.Sound;
    AreaIs(M);
    if a < z {
      GapIsFree(M.G(), a, z);
      FreeIs(M, a);
    }
  }

  // And a block cannot grow exactly when its neighbours leave it no room.
  lemma StuckIsBoxed(M: Mstate, p: Addr, nb: nat)
    requires M.Inv() && p in M.Live()
    ensures Stuck(RoomOf(M), p, M.Live()[p], nb)
      <==> Boxed(ExtentsOf(M.Live()), AreaStart(M), AreaEnd(M), Extent(p, p + M.Live()[p]), nb)
  {
    hide BinInv, TagInv, Agree, Used, ChunkOk, TagsGuarded, LinksGuarded, LastEnd, Mstate.Sound;
    AreaIs(M);
    var g := M.G();
    UsedIs(g, p);
    ExtentFrom(g, p);
    ExtentIs(g, Extent(p, g.Next(p)));
    var z := p + M.Live()[p];
    LastIsTop(g, z);
    FreeIs(M, z);
    RoomsApart(M);
    if z == M.top {
      NoGapAtTop(g, z);
    } else if FreeAt(g, z) {
      FreeIsGap(g, z);
      OneGap(g, z);
    } else {
      NoGapBeforeUsed(g, z);
    }
  }

  lemma NoGapAtTop(g: Tags, z: Addr)
    requires TagInv(g) && z == g.top
    ensures forall y: Addr :: !Gap(ExtentsOf(Used(g)), Start(g), z, y)
  {
    hide TagInv, Used;
    forall y: Addr
      ensures !Gap(ExtentsOf(Used(g)), Start(g), z, y)
    {
      if Gap(ExtentsOf(Used(g)), Start(g), z, y) {
        var f :| f in ExtentsOf(Used(g)) && f.from == y;
        ExtentIs(g, f);
      }
    }
  }

  lemma OneGap(g: Tags, z: Addr)
    requires TagInv(g) && FreeAt(g, z)
    ensures z < |g.head| && forall y: Addr :: Gap(ExtentsOf(Used(g)), Start(g), z, y) ==> y == g.Next(z)
  {
    hide TagInv, Used;
    forall y: Addr | Gap(ExtentsOf(Used(g)), Start(g), z, y)
      ensures y == g.Next(z)
    {
      if z < y {
        GapIsFree(g, z, y);
      } else {
        var f :| f in ExtentsOf(Used(g)) && f.from == y;
        ExtentIs(g, f);
      }
    }
  }

  lemma NoGapBeforeUsed(g: Tags, z: Addr)
    requires TagInv(g) && g.Border(z) && z != g.top && !FreeAt(g, z) && g.lo < z
    ensures forall y: Addr :: Gap(ExtentsOf(Used(g)), Start(g), z, y) ==> y == z
  {
    hide TagInv, Used;
    NothingAbove(g, z);
    UsedIs(g, z);
    ExtentFrom(g, z);
  }
}
