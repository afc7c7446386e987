// The chunks in use determine the whole layout of a segment, so the order in
// which chunks are freed does not show.
module Layout {
  import opened Tags
  import opened Cuts
  import opened Bins
  import opened Mstate
  import opened Guards
  import opened Chunks
  import opened Free
  import opened BulkFree

  // Two segments cut in the same places, with the same head words.
  ghost predicate SameLayout(g: Tags, h: Tags) {
    && g.live == h.live && g.top == h.top
    && g.top < |g.head| && g.top < |h.head| && g.head[g.top] == h.head[h.top]
    && forall p :: p in g.live ==> p < |g.head| && p < |h.head| && g.head[p] == h.head[p]
  }

  ghost predicate Alike(g: Tags, h: Tags) {
    && TagInv(g) && TagInv(h)
    && g.lo == h.lo && g.n == h.n && Used(g) == Used(h)
    && g.lo < |g.head| && g.lo < |h.head| && g.head[g.lo].size == h.head[h.lo].size
  }

  // A chunk in use, or the one that holds the state record.
  ghost predicate IsUsed(g: Tags, p: nat) {
    p in g.live && p < |g.head| && g.head[p].cinuse
  }

  lemma TakenBoth(g: Tags, h: Tags, p: nat)
    requires Alike(g, h) && IsUsed(g, p)
    ensures IsUsed(h, p) && g.head[p].size == h.head[p].size
  {
    hide TagInv;
    TagBounds(h);
    if p != g.lo {
      assert p in Used(g);
    }
  }

  // The chunk that follows a free one is in use.
  lemma AfterFree(g: Tags, p: nat)
    requires TagInv(g) && p in g.live && !IsUsed(g, p)
    ensures p < |g.head| && IsUsed(g, g.Next(p)) && p < g.Next(p) < g.top
  {
    hide TagInv;
    At(g, p);
    TagBounds(g);
    At(g, g.Next(p));
  }

  lemma NothingAbove(g: Tags, p: nat)
    requires TagInv(g) && p in g.live
    ensures p < g.top && p < |g.head| && g.Next(p) <= g.top && p < g.Next(p) && g.Border(g.Next(p))
  {
    hide TagInv;
    At(g, p);
  }

  // A border of both segments is the top of both, or starts chunks of equal
  // size that are both in use or both free.
  lemma SameStep(g: Tags, h: Tags, p: nat)
    requires Alike(g, h) && g.Border(p) && h.Border(p)
    ensures p in g.live <==> p in h.live
    ensures p == g.top <==> p == h.top
    ensures p in g.live ==> p < |g.head| && p < |h.head| && SameChunk(g, h, p)
  {
    hide TagInv, Used;
    TagBounds(g);
    TagBounds(h);
    if p in g.live { OneWay(g, h, p); }
    if p in h.live { OneWay(h, g, p); }
  }

  lemma OneWay(g: Tags, h: Tags, p: nat)
    requires Alike(g, h) && h.Border(p) && p in g.live
    ensures p in h.live && p < |g.head| && p < |h.head| && SameChunk(g, h, p)
  {
    hide TagInv, Used;
    NothingAbove(g, p);
    if IsUsed(g, p) {
      TakenBoth(g, h, p);
    } else {
      AfterFree(g, p);
      var z := g.Next(p);
      TakenBoth(g, h, z);
      NothingAbove(h, z);
      assert p in h.live;
      FreeBoth(g, h, p);
    }
  }

  lemma FreeBoth(g: Tags, h: Tags, p: nat)
    requires Alike(g, h) && p in g.live && p in h.live && !IsUsed(g, p)
    ensures p < |g.head| && p < |h.head| && SameChunk(g, h, p)
  {
    hide TagInv, Used;
    if IsUsed(h, p) {
      TakenBoth(h, g, p);
    }
    AfterFree(g, p);
    AfterFree(h, p);
    TakenBoth(g, h, g.Next(p));
    TakenBoth(h, g, h.Next(p));
    TwoApart(g, p, h.Next(p));
    TwoApart(h, p, g.Next(p));
  }

  // From a common border upwards, the two segments are cut alike.
  lemma {:induction false} Upwards(g: Tags, h: Tags, p: nat, q: nat)
    requires Alike(g, h) && g.Border(p) && h.Border(p) && p <= q
    ensures g.top == h.top
    ensures q in g.live <==> q in h.live
    ensures q in g.live ==> q < |g.head| && q < |h.head| && SameChunk(g, h, q)
    decreases g.n - p
  {
    hide TagInv, Used;
    SameStep(g, h, p);
    TagBounds(g);
    if p in g.live {
      NothingAbove(g, p);
      NothingAbove(h, p);
      if g.Next(p) <= q {
        Upwards(g, h, g.Next(p), q);
      } else {
        Upwards(g, h, g.Next(p), g.Next(p));
        if q in g.live { TwoApart(g, p, q); }
        if q in h.live { TwoApart(h, p, q); }
      }
    } else {
      if q in g.live { NothingAbove(g, q); }
      if q in h.live { NothingAbove(h, q); }
    }
  }

  // The PINUSE bits follow from the rest.
  lemma SamePinuse(g: Tags, h: Tags, p: nat)
    requires Alike(g, h) && p in g.live
    requires forall q :: q in g.live <==> q in h.live
    requires forall q :: q in g.live ==> SameChunk(g, h, q)
    ensures p < |g.head| && p < |h.head| && g.head[p].pinuse == h.head[p].pinuse
  {
    hide TagInv, Used;
    assert SameChunk(g, h, p);
    if !g.head[p].pinuse { FreeAhead(g, h, p); }
    if !h.head[p].pinuse { FreeAhead(h, g, p); }
  }

  lemma FreeAhead(g: Tags, h: Tags, p: nat)
    requires Alike(g, h) && p in g.live && p < |g.head| && !g.head[p].pinuse
    requires forall q :: q in g.live ==> q in h.live && SameChunk(g, h, q)
    ensures p < |h.head| && !h.head[p].pinuse
  {
    hide TagInv, Used;
    At(g, p);
    var q := p - g.foot[p];
    assert SameChunk(g, h, q);
    At(h, q);
  }

  // The chunks in use, with their sizes, determine every other chunk, every
  // head word, and where top begins.
  lemma LayoutDetermined(g: Tags, h: Tags)
    requires Alike(g, h)
    ensures SameLayout(g, h)
  {
    hide TagInv, Used;
    TagBounds(g);
    TagBounds(h);
    Upwards(g, h, g.lo, g.lo);
    forall q
      ensures q in g.live <==> q in h.live
      ensures q in g.live ==> SameChunk(g, h, q)
    {
      if q in g.live { At(g, q); }
      if q in h.live { At(h, q); }
      if g.lo <= q { Upwards(g, h, g.lo, q); }
    }
    forall p | p in g.live
      ensures p < |g.head| && p < |h.head| && g.head[p] == h.head[p]
    {
      SamePinuse(g, h, p);
      assert SameChunk(g, h, p);
    }
  }

  // --------------------------------------------------------------- tiling

  ghost predicate Inside(g: Tags, p: nat, a: nat) {
    p in g.live && p < |g.head| && p <= a < g.Next(p)
  }

  lemma {:induction false} FindChunk(g: Tags, p: nat, a: nat) returns (q: nat)
    requires TagInv(g) && g.Border(p) && p <= a < g.top
    ensures Inside(g, q, a)
    decreases g.n - p
  {
    hide TagInv;
    TagBounds(g);
    NothingAbove(g, p);
    if a < g.Next(p) {
      q := p;
    } else {
      q := FindChunk(g, g.Next(p), a);
    }
  }

  // The chunks fill the segment up to top without gap or overlap: every
  // address below top lies in exactly one of them.
  lemma Tiled(g: Tags, a: nat)
    requires TagInv(g) && g.lo <= a < g.top
    ensures exists p :: Inside(g, p, a)
    ensures forall p, q :: Inside(g, p, a) && Inside(g, q, a) ==> p == q
  {
    hide TagInv;
    TagBounds(g);
    var c := FindChunk(g, g.lo, a);
    forall p, q | Inside(g, p, a) && Inside(g, q, a)
      ensures p == q
    {
      TwoApart(g, p, q);
      TwoApart(g, q, p);
    }
  }

  // Two spaces of the same extent, in use alike.
  ghost predicate Twins(M: Mstate, N: Mstate)
    reads M, N
  {
    && M.Inv() && N.Inv() && M.Live() == N.Live()
    && M.base == N.base && M.end == N.end && M.msize == N.msize
  }

  lemma TwinsLookAlike(M: Mstate, N: Mstate)
    requires Twins(M, N)
    ensures SameLayout(M.G(), N.G()) && M.topsize == N.topsize
  {
    hide TagInv, BinInv, Agree, SameLayout, Used, TagsGuarded, LinksGuarded;
    Parts(M, M.Dv());
    Parts(N, N.Dv());
    LayoutDetermined(M.G(), N.G());
    SameTop(M.G(), N.G());
  }

  lemma SameTop(g: Tags, h: Tags)
    requires SameLayout(g, h)
    ensures g.top == h.top && g.top < |g.head| && g.top < |h.head| && g.head[g.top].size == h.head[h.top].size
  {
  }

  // Free the chunks one by one, in the order given.
  method FreeEach(M: Mstate, order: seq<Addr>)
    requires M.Inv() && Distinct(M.Live(), order) && M.keep == map[]
    modifies M
    ensures M.Inv() && M.Live() == old(M.Live()) - Blocks(order)
  {
    hide BinInv, TagInv, Agree, Used, Blocks, Distinct, Mstate.Sound, TagsGuarded, LinksGuarded;
    var i := 0;
    assert order[0..] == order;
    while i < |order|
      invariant i <= |order| && M.Inv() && Distinct(M.Live(), order[i..]) && M.keep == map[]
      invariant M.Live() - Blocks(order[i..]) == old(M.Live()) - Blocks(order)
    {
      assert order[i..][1..] == order[i + 1..];
      if order[i] == 0 {
        SkipNull(M.Live(), order[i..]);
      } else {
        FirstEntry(M.Live(), order[i..]);
        FreeFirst(M.Live(), order[i..]);
      }
      MspaceFree(M, order[i]);
      i := i + 1;
    }
    NoBlocks(order[i..]);
  }

  // Freeing a set of chunks in one order, or in another, or in bulk, leads to
  // the same layout.
  method OrderDoesNotShow(M: Mstate, N: Mstate, P: Mstate, order: seq<Addr>, other: seq<Addr>, array_: array<Addr>)
    requires M != N && N != P && M != P && Twins(M, N) && Twins(M, P)
    requires Distinct(M.Live(), order) && Distinct(M.Live(), other) && Distinct(M.Live(), array_[..])
    requires Blocks(order) == Blocks(other) == Blocks(array_[..])
    requires M.keep == N.keep == P.keep == map[]
    modifies M, N, P, array_
    ensures SameLayout(M.G(), N.G()) && SameLayout(M.G(), P.G())
    ensures M.topsize == N.topsize == P.topsize
  {
    hide BinInv, TagInv, Agree, Used, Blocks, Distinct, Mstate.Sound, SameLayout, TagsGuarded, LinksGuarded;
    FreeEach(M, order);
    FreeEach(N, other);
    var unfreed := MspaceBulkFree(P, array_);
    TwinsLookAlike(M, N);
    TwinsLookAlike(M, P);
  }
}
