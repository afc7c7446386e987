// Boundary tags: how head words and feet cut the segment into chunks.
module Tags {
  import opened Word

  // A head word: the size of a chunk with its PINUSE and CINUSE bits.
  datatype Head = Head(size: nat, pinuse: bool, cinuse: bool)

  const MIN_CHUNK_SIZE: nat := 32
  const TOP_FOOT_SIZE: nat := 80

  // The chunks start at the addresses in live and end where top begins; lo is
  // the chunk that holds the state record, n the end of the segment, and
  // cookie what the foot of a chunk in use holds.
  datatype Tags = Tags(live: set<nat>, head: seq<Head>, foot: seq<nat>, top: nat,
                       lo: nat, n: nat, cookie: nat)
  {
    function Next(p: nat): nat
      requires p < |head|
    {
      p + head[p].size
    }

    predicate Border(p: nat) {
      p in live || p == top
    }
  }

  ghost predicate FreeBefore(g: Tags, p: nat)
    requires p < |g.foot|
  {
    && 0 < g.foot[p] <= p
    && var q := p - g.foot[p];
       q in g.live && q < |g.head| && g.head[q].size == g.foot[p] && !g.head[q].cinuse
  }

  ghost predicate ShapeOk(g: Tags, p: nat) {
    && g.lo <= p < |g.head| && p % 16 == 0
    && MIN_CHUNK_SIZE <= g.head[p].size && g.head[p].size % 16 == 0
    && g.Next(p) <= g.top && g.Border(g.Next(p))
  }

  ghost predicate BitsOk(g: Tags, p: nat)
    requires p < |g.head| && g.Next(p) < |g.head| && g.Next(p) < |g.foot| && p < |g.foot|
  {
    var z := g.Next(p);
    && g.head[z].pinuse == g.head[p].cinuse
    && (g.head[p].cinuse && p != g.lo ==> g.foot[z] == g.cookie)
    && (!g.head[p].cinuse ==>
          g.foot[z] == g.head[p].size && g.head[p].pinuse && z != g.top && g.head[z].cinuse)
    && (!g.head[p].pinuse ==> FreeBefore(g, p))
  }

  ghost predicate ChunkOk(g: Tags, p: nat) {
    && |g.head| == |g.foot| == g.n && g.top < g.n
    && ShapeOk(g, p) && BitsOk(g, p)
  }

  ghost predicate Apart(g: Tags, p: nat, q: nat)
    requires p < |g.head|
  {
    p < q ==> g.Next(p) <= q
  }

  ghost predicate TopOk(g: Tags) {
    && g.top < |g.head| && g.top % 16 == 0
    && g.head[g.top].pinuse && !g.head[g.top].cinuse
    && g.head[g.top].size > 0
    && g.Next(g.top) + TOP_FOOT_SIZE == g.n
    && g.Next(g.top) < |g.head| && !g.head[g.Next(g.top)].pinuse
  }

  ghost predicate LowOk(g: Tags) {
    && g.lo in g.live && g.lo < |g.head| && g.head[g.lo].pinuse && g.head[g.lo].cinuse
    && g.top !in g.live
  }

  ghost predicate TagInv(g: Tags) {
    && |g.head| == |g.foot| == g.n && g.n < TWO64
    && LowOk(g) && TopOk(g)
    && (forall p :: p in g.live ==> ChunkOk(g, p))
    && (forall p, q :: p in g.live && q in g.live ==> p < |g.head| && Apart(g, p, q))
  }

  lemma At(g: Tags, p: nat)
    requires TagInv(g) && p in g.live
    ensures ChunkOk(g, p) && TopOk(g) && LowOk(g)
  {
    hide ChunkOk, TopOk, LowOk;
  }

  lemma TwoApart(g: Tags, p: nat, q: nat)
    requires TagInv(g) && p in g.live && q in g.live
    ensures p < |g.head| && (p < q ==> g.Next(p) <= q)
  {
    hide ChunkOk, TopOk, LowOk;
    assert Apart(g, p, q);
  }

  lemma TagIntro(g: Tags)
    requires |g.head| == |g.foot| == g.n && g.n < TWO64
    requires LowOk(g) && TopOk(g)
    requires forall p :: p in g.live ==> ChunkOk(g, p)
    requires forall p, q :: p in g.live && q in g.live ==> p < |g.head| && Apart(g, p, q)
    ensures TagInv(g)
  {
    hide ChunkOk, TopOk, LowOk, Apart;
  }

  // ------------------------------------------------------------- recutting

  // g' differs from g only in the chunks between the borders a and z, where
  // its chunks are those in pieces.
  ghost predicate Recut(g: Tags, g': Tags, a: nat, z: nat, pieces: set<nat>) {
    && g'.top == g.top && g'.lo == g.lo && g'.n == g.n && g'.cookie == g.cookie
    && |g.head| == |g.foot| == |g'.head| == |g'.foot| == g.n
    && g.lo < a < z <= g.top < g.n
    && a in g.live && g.Border(z) && a in pieces
    && (forall p :: p in g'.live <==> (p in g.live && !(a <= p < z)) || p in pieces)
    && (forall p :: p in pieces ==> a <= p < z)
    && (forall p :: 0 <= p < g.n && p !in pieces && p != z ==> g'.head[p] == g.head[p])
    && (forall p :: 0 <= p < g.n && !(a < p <= z) ==> g'.foot[p] == g.foot[p])
    && g'.head[a].pinuse == g.head[a].pinuse
    && (!g.head[a].pinuse ==> g'.head[a].cinuse)
    && g'.head[z].size == g.head[z].size && g'.head[z].cinuse == g.head[z].cinuse
    && (z == g.top || !g.head[z].cinuse ==> g'.head[z].pinuse)
  }

  // A chunk outside the cut keeps its place.
  lemma OutsideShape(g: Tags, g': Tags, a: nat, z: nat, pieces: set<nat>, p: nat)
    requires TagInv(g) && Recut(g, g', a, z, pieces)
    requires p in g.live && !(a <= p < z)
    ensures ShapeOk(g', p) && g'.Next(p) == g.Next(p)
    ensures p < a ==> g.Next(p) <= a
    ensures z < p ==> g.n > g.Next(p) > z
  {
    hide TagInv, TopOk;
    At(g, p);
    At(g, a);
    TwoApart(g, p, a);
    if p < a && a <= g.Next(p) < z && g.Next(p) != a {
      TwoApart(g, a, p);
    }
  }

  lemma OutsideFree(g: Tags, g': Tags, a: nat, z: nat, pieces: set<nat>, p: nat)
    requires TagInv(g) && Recut(g, g', a, z, pieces)
    requires p in g.live && !(a <= p <= z) && !g.head[p].pinuse
    ensures p < |g'.foot| && FreeBefore(g', p)
  {
    hide TagInv, TopOk;
    At(g, p);
    var q := p - g.foot[p];
    At(g, q);
    if z < p && q < z {
      if z in g.live {
        TwoApart(g, q, z);
      }
    }
  }

  lemma OutsideOk(g: Tags, g': Tags, a: nat, z: nat, pieces: set<nat>, p: nat)
    requires TagInv(g) && Recut(g, g', a, z, pieces)
    requires p in g.live && !(a <= p < z)
    requires z in g.live && !g'.head[z].pinuse ==> FreeBefore(g', z)
    ensures ChunkOk(g', p)
  {
    hide TagInv, TopOk, FreeBefore, Recut;
    OutsideShape(g, g', a, z, pieces, p);
    At(g, p);
    RecutSizes(g, g', a, z, pieces);
    if p != z && !g.head[p].pinuse {
      OutsideFree(g, g', a, z, pieces, p);
    }
    OutsideBits(g, g', a, z, pieces, p);
  }

  lemma RecutSizes(g: Tags, g': Tags, a: nat, z: nat, pieces: set<nat>)
    requires Recut(g, g', a, z, pieces)
    ensures |g'.head| == |g'.foot| == g'.n && g'.top < g'.n && g'.top == g.top && g'.lo == g.lo && g'.cookie == g.cookie
    ensures g.n == g'.n && z <= g.top
  {
  }

  lemma OutsideBits(g: Tags, g': Tags, a: nat, z: nat, pieces: set<nat>, p: nat)
    requires Recut(g, g', a, z, pieces) && p in g.live && !(a <= p < z)
    requires ChunkOk(g, p) && ShapeOk(g', p) && g'.Next(p) == g.Next(p)
    requires p < a ==> g.Next(p) <= a
    requires z < p ==> g.Next(p) > z
    requires p != z && !g.head[p].pinuse ==> FreeBefore(g', p)
    requires z in g.live && !g'.head[z].pinuse ==> FreeBefore(g', z)
    ensures BitsOk(g', p)
  {
    hide FreeBefore;
    assert p !in pieces;
    if g.Next(p) == a {
      assert g'.head[a].pinuse == g.head[a].pinuse;
    }
  }

  lemma RecutInv(g: Tags, g': Tags, a: nat, z: nat, pieces: set<nat>)
    requires TagInv(g) && Recut(g, g', a, z, pieces)
    requires forall p :: p in pieces ==> ChunkOk(g', p) && g'.Next(p) <= z
    requires forall p, q :: p in pieces && q in pieces ==> p < |g'.head| && Apart(g', p, q)
    requires z in g.live && !g'.head[z].pinuse ==> FreeBefore(g', z)
    ensures TagInv(g')
  {
    hide ChunkOk, TagInv, TopOk, LowOk, Apart, FreeBefore, Recut;
    forall p | p in g'.live
      ensures ChunkOk(g', p)
    {
      RecutLive(g, g', a, z, pieces, p);
      if p !in pieces {
        OutsideOk(g, g', a, z, pieces, p);
      }
    }
    forall p, q | p in g'.live && q in g'.live
      ensures p < |g'.head| && Apart(g', p, q)
    {
      RecutLive(g, g', a, z, pieces, p);
      RecutLive(g, g', a, z, pieces, q);
      RecutApart(g, g', a, z, pieces, p, q);
    }
    RecutSizes(g, g', a, z, pieces);
    RecutEnds(g, g', a, z, pieces);
    TagIntro(g');
  }

  lemma RecutLive(g: Tags, g': Tags, a: nat, z: nat, pieces: set<nat>, p: nat)
    requires Recut(g, g', a, z, pieces)
    ensures p in g'.live <==> (p in g.live && !(a <= p < z)) || p in pieces
    ensures p in pieces ==> a <= p < z < |g'.head|
  {
  }

  lemma RecutApart(g: Tags, g': Tags, a: nat, z: nat, pieces: set<nat>, p: nat, q: nat)
    requires TagInv(g) && Recut(g, g', a, z, pieces)
    requires (p in g.live && !(a <= p < z)) || p in pieces
    requires (q in g.live && !(a <= q < z)) || q in pieces
    requires p in pieces ==> p < |g'.head| && g'.Next(p) <= z
    requires p in pieces && q in pieces ==> Apart(g', p, q)
    ensures p < |g'.head| && Apart(g', p, q)
  {
    hide TagInv;
    if p !in pieces {
      OutsideShape(g, g', a, z, pieces, p);
      if q !in pieces {
        TwoApart(g, p, q);
      }
    }
  }

  lemma RecutEnds(g: Tags, g': Tags, a: nat, z: nat, pieces: set<nat>)
    requires TagInv(g) && Recut(g, g', a, z, pieces)
    ensures LowOk(g') && TopOk(g') && g.n < TWO64
  {
    hide ChunkOk;
  }

  // -------------------------------------------------------- recutting the top

  // g' differs from g only from the border a upwards, where its chunks are
  // those in pieces, followed by its own top.
  ghost predicate RecutTop(g: Tags, g': Tags, a: nat, pieces: set<nat>) {
    && g'.lo == g.lo && g'.n == g.n && g'.cookie == g.cookie
    && |g.head| == |g.foot| == |g'.head| == |g'.foot| == g.n
    && g.lo < a <= g.top < g.n && g.Border(a)
    && a <= g'.top < g.n && (a == g'.top <==> a !in pieces)
    && (forall p :: p in g'.live <==> (p in g.live && p < a) || p in pieces)
    && (forall p :: p in pieces ==> a <= p < g'.top)
    && (forall p :: 0 <= p < a ==> g'.head[p] == g.head[p])
    && (forall p :: 0 <= p <= a ==> g'.foot[p] == g.foot[p])
    && g'.head[a].pinuse == g.head[a].pinuse
    && (!g.head[a].pinuse ==> a in pieces && g'.head[a].cinuse)
  }

  lemma BelowShape(g: Tags, g': Tags, a: nat, pieces: set<nat>, p: nat)
    requires TagInv(g) && RecutTop(g, g', a, pieces) && p in g.live && p < a
    ensures ShapeOk(g', p) && g'.Next(p) == g.Next(p) <= a
  {
    hide TagInv, TopOk;
    At(g, p);
    if a in g.live {
      TwoApart(g, p, a);
    }
  }

  lemma BelowBits(g: Tags, g': Tags, a: nat, pieces: set<nat>, p: nat)
    requires RecutTop(g, g', a, pieces) && p in g.live && p < a
    requires ChunkOk(g, p) && ShapeOk(g', p) && g'.Next(p) == g.Next(p) <= a
    ensures BitsOk(g', p)
  {
  }

  lemma RecutTopInv(g: Tags, g': Tags, a: nat, pieces: set<nat>)
    requires TagInv(g) && RecutTop(g, g', a, pieces)
    requires forall p :: p in pieces ==> ChunkOk(g', p) && g'.Next(p) <= g'.top
    requires forall p, q :: p in pieces && q in pieces ==> p < |g'.head| && Apart(g', p, q)
    requires TopOk(g')
    ensures TagInv(g')
  {
    hide ChunkOk, TagInv, TopOk, Apart, ShapeOk, BitsOk;
    TagBounds(g);
    At(g, g.lo);
    forall p | p in g'.live
      ensures ChunkOk(g', p)
    {
      if p !in pieces {
        At(g, p);
        BelowShape(g, g', a, pieces, p);
        BelowBits(g, g', a, pieces, p);
        MakeOk(g', p);
      }
    }
    forall p, q | p in g'.live && q in g'.live
      ensures p < |g'.head| && Apart(g', p, q)
    {
      BelowApart(g, g', a, pieces, p, q);
    }
    TagIntro(g');
  }

  lemma TagBounds(g: Tags)
    requires TagInv(g)
    ensures g.n < TWO64 && g.lo in g.live && LowOk(g) && TopOk(g) && |g.head| == |g.foot| == g.n && g.top < g.n
  {
    hide ChunkOk;
  }

  lemma MakeOk(g: Tags, p: nat)
    requires |g.head| == |g.foot| == g.n && g.top < g.n && ShapeOk(g, p) && BitsOk(g, p)
    ensures ChunkOk(g, p)
  {
  }

  lemma BelowApart(g: Tags, g': Tags, a: nat, pieces: set<nat>, p: nat, q: nat)
    requires TagInv(g) && RecutTop(g, g', a, pieces)
    requires p in g'.live && q in g'.live
    requires p in pieces && q in pieces ==> p < |g'.head| && Apart(g', p, q)
    ensures p < |g'.head| && Apart(g', p, q)
  {
    hide TagInv;
    if p !in pieces {
      BelowShape(g, g', a, pieces, p);
      if q !in pieces {
        TwoApart(g, p, q);
      }
    }
  }
}
