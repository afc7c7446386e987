// The ways the allocator recuts a stretch of the segment, and what each of
// them does to the set of chunks in use.
module Cuts {
  import opened Tags

  // The chunks in use, apart from the one that holds the state record.
  ghost function Used(g: Tags): map<nat, nat> {
    map p | p in g.live && p < |g.head| && g.head[p].cinuse && p != g.lo :: g.head[p].size
  }

  // gone is exactly the set of chunks between the borders a and z.
  ghost predicate Covers(g: Tags, a: nat, z: nat, gone: set<nat>) {
    && g.lo < a < z <= g.top && a in g.live && g.Border(z)
    && (forall q :: q in g.live && a <= q < z ==> q in gone)
    && (forall q :: q in gone ==> q in g.live && a <= q < z)
  }

  lemma CoverOne(g: Tags, p: nat)
    requires TagInv(g) && p in g.live && p != g.lo
    ensures p < |g.head| && Covers(g, p, g.Next(p), {p})
  {
    hide TagInv, BitsOk, TopOk;
    At(g, p);
    forall q | q in g.live && p <= q < g.Next(p)
      ensures q == p
    {
      TwoApart(g, p, q);
    }
  }

  lemma CoverJoin(g: Tags, a: nat, y: nat, z: nat, s: set<nat>, t: set<nat>)
    requires Covers(g, a, y, s) && Covers(g, y, z, t)
    ensures Covers(g, a, z, s + t)
  {
  }

  ghost predicate Framed(g: Tags, g': Tags, gone: set<nat>, pieces: set<nat>) {
    && g'.lo == g.lo && g'.n == g.n && g'.cookie == g.cookie
    && g'.live == g.live - gone + pieces
  }

  function SetPinuse(head: seq<Head>, z: nat, pinuse: bool): seq<Head>
    requires z < |head|
  {
    head[z := head[z].(pinuse := pinuse)]
  }

  // A stretch between two borders.
  lemma Stretch(g: Tags, a: nat, z: nat)
    requires TagInv(g) && a in g.live && g.Border(z) && a < z
    ensures |g.head| == |g.foot| == g.n && z <= g.top < g.n && g.Next(a) <= z
    ensures ChunkOk(g, a) && (z in g.live ==> ChunkOk(g, z))
    ensures z % 16 == 0 && (z - a) % 16 == 0 && z - a >= MIN_CHUNK_SIZE
    ensures g.head[g.top].pinuse && !g.head[g.top].cinuse
  {
    hide TagInv, BitsOk;
    At(g, a);
    if z in g.live {
      At(g, z);
      TwoApart(g, a, z);
    }
    Multiple16(a, z);
  }

  lemma Multiple16(a: nat, z: nat)
    requires a <= z && a % 16 == 0 && z % 16 == 0
    ensures (z - a) % 16 == 0
  {
  }

  // One chunk in use from a to z.
  ghost predicate ToOneUsed(g: Tags, g': Tags, a: nat, z: nat, gone: set<nat>)
    requires a < z < |g.head| && z < |g.foot|
  {
    && Covers(g, a, z, gone) && Framed(g, g', gone, {a}) && g'.top == g.top
    && g'.head == SetPinuse(g.head[a := Head(z - a, g.head[a].pinuse, true)], z, true)
    && g'.foot == g.foot[z := g.cookie]
  }

  lemma OneUsed(g: Tags, g': Tags, a: nat, z: nat, gone: set<nat>)
    requires TagInv(g) && a < z < |g.head| && z < |g.foot| && ToOneUsed(g, g', a, z, gone)
    ensures TagInv(g') && Recut(g, g', a, z, {a})
  {
    hide TagInv, Recut, ChunkOk;
    Stretch(g, a, z);
    OneUsedRecut(g, g', a, z, gone);
    OneUsedPiece(g, g', a, z, gone);
    RecutInv(g, g', a, z, {a});
  }

  lemma OneUsedRecut(g: Tags, g': Tags, a: nat, z: nat, gone: set<nat>)
    requires a < z < |g.head| && z < |g.foot| && ToOneUsed(g, g', a, z, gone)
    requires |g.head| == |g.foot| == g.n && g.top < g.n
    ensures Recut(g, g', a, z, {a})
  {
  }

  lemma OneUsedPiece(g: Tags, g': Tags, a: nat, z: nat, gone: set<nat>)
    requires a < z < |g.head| && z < |g.foot| && ToOneUsed(g, g', a, z, gone)
    requires ChunkOk(g, a) && g.Next(a) <= z && (z - a) % 16 == 0 && z < g.n
    ensures ChunkOk(g', a) && g'.Next(a) == z && g'.head[z].pinuse
  {
  }

  // A chunk in use from a to r, then a free one up to z.
  ghost predicate ToUsedFree(g: Tags, g': Tags, a: nat, r: nat, z: nat, gone: set<nat>)
    requires a < r < z < |g.head| && z < |g.foot|
  {
    && Covers(g, a, z, gone) && Framed(g, g', gone, {a, r}) && g'.top == g.top
    && MIN_CHUNK_SIZE <= r - a && MIN_CHUNK_SIZE <= z - r && (r - a) % 16 == 0
    && z != g.top && g.head[z].cinuse
    && g'.head == SetPinuse(g.head[a := Head(r - a, g.head[a].pinuse, true)][r := Head(z - r, true, false)], z, false)
    && g'.foot == g.foot[r := g.cookie][z := z - r]
  }

  lemma UsedFree(g: Tags, g': Tags, a: nat, r: nat, z: nat, gone: set<nat>)
    requires TagInv(g) && a < r < z < |g.head| && z < |g.foot| && ToUsedFree(g, g', a, r, z, gone)
    ensures TagInv(g') && Recut(g, g', a, z, {a, r})
  {
    hide TagInv, Recut, ChunkOk, FreeBefore;
    Stretch(g, a, z);
    UsedFreeRecut(g, g', a, r, z, gone);
    UsedFreePieces(g, g', a, r, z, gone);
    RecutInv(g, g', a, z, {a, r});
  }

  lemma UsedFreeRecut(g: Tags, g': Tags, a: nat, r: nat, z: nat, gone: set<nat>)
    requires a < r < z < |g.head| && z < |g.foot| && ToUsedFree(g, g', a, r, z, gone)
    requires |g.head| == |g.foot| == g.n && g.top < g.n
    ensures Recut(g, g', a, z, {a, r})
  {
  }

  lemma UsedFreePieces(g: Tags, g': Tags, a: nat, r: nat, z: nat, gone: set<nat>)
    requires a < r < z < |g.head| && z < |g.foot| && ToUsedFree(g, g', a, r, z, gone)
    requires ChunkOk(g, a) && g.Next(a) <= z && (z - a) % 16 == 0 && z < g.n
    ensures ChunkOk(g', a) && g'.Next(a) == r
    ensures ChunkOk(g', r) && g'.Next(r) == z
    ensures FreeBefore(g', z)
  {
    Rest16(a, r, z);
  }

  lemma Rest16(a: nat, r: nat, z: nat)
    requires a <= r <= z && (z - a) % 16 == 0 && (r - a) % 16 == 0
    ensures (z - r) % 16 == 0
    ensures a % 16 == 0 ==> r % 16 == 0
  {
  }

  lemma Plus16(a: nat, t: nat)
    requires a <= t && a % 16 == 0 && (t - a) % 16 == 0
    ensures t % 16 == 0
  {
  }

  // Two chunks in use, from a to r and from r to z.
  ghost predicate ToTwoUsed(g: Tags, g': Tags, a: nat, r: nat, z: nat, gone: set<nat>)
    requires a < r < z < |g.head| && z < |g.foot|
  {
    && Covers(g, a, z, gone) && Framed(g, g', gone, {a, r}) && g'.top == g.top
    && MIN_CHUNK_SIZE <= r - a && MIN_CHUNK_SIZE <= z - r && (r - a) % 16 == 0
    && g'.head == SetPinuse(g.head[a := Head(r - a, g.head[a].pinuse, true)][r := Head(z - r, true, true)], z, true)
    && g'.foot == g.foot[r := g.cookie][z := g.cookie]
  }

  lemma TwoUsed(g: Tags, g': Tags, a: nat, r: nat, z: nat, gone: set<nat>)
    requires TagInv(g) && a < r < z < |g.head| && z < |g.foot| && ToTwoUsed(g, g', a, r, z, gone)
    ensures TagInv(g') && Recut(g, g', a, z, {a, r})
  {
    hide TagInv, Recut, ChunkOk, FreeBefore;
    Stretch(g, a, z);
    TwoUsedRecut(g, g', a, r, z, gone);
    TwoUsedPieces(g, g', a, r, z, gone);
    RecutInv(g, g', a, z, {a, r});
  }

  lemma TwoUsedRecut(g: Tags, g': Tags, a: nat, r: nat, z: nat, gone: set<nat>)
    requires a < r < z < |g.head| && z < |g.foot| && ToTwoUsed(g, g', a, r, z, gone)
    requires |g.head| == |g.foot| == g.n && g.top < g.n
    ensures Recut(g, g', a, z, {a, r})
  {
  }

  lemma TwoUsedPieces(g: Tags, g': Tags, a: nat, r: nat, z: nat, gone: set<nat>)
    requires a < r < z < |g.head| && z < |g.foot| && ToTwoUsed(g, g', a, r, z, gone)
    requires ChunkOk(g, a) && g.Next(a) <= z && (z - a) % 16 == 0 && z < g.n
    ensures ChunkOk(g', a) && g'.Next(a) == r
    ensures ChunkOk(g', r) && g'.Next(r) == z && g'.head[z].pinuse
  {
    Rest16(a, r, z);
  }

  // One free chunk from a to z.
  ghost predicate ToOneFree(g: Tags, g': Tags, a: nat, z: nat, gone: set<nat>)
    requires a < z < |g.head| && z < |g.foot|
  {
    && Covers(g, a, z, gone) && Framed(g, g', gone, {a}) && g'.top == g.top
    && g.head[a].pinuse && z != g.top && g.head[z].cinuse
    && g'.head == SetPinuse(g.head[a := Head(z - a, true, false)], z, false)
    && g'.foot == g.foot[z := z - a]
  }

  lemma OneFree(g: Tags, g': Tags, a: nat, z: nat, gone: set<nat>)
    requires TagInv(g) && a < z < |g.head| && z < |g.foot| && ToOneFree(g, g', a, z, gone)
    ensures TagInv(g') && Recut(g, g', a, z, {a})
  {
    hide TagInv, Recut, ChunkOk, FreeBefore;
    Stretch(g, a, z);
    OneFreeRecut(g, g', a, z, gone);
    OneFreePiece(g, g', a, z, gone);
    RecutInv(g, g', a, z, {a});
  }

  lemma OneFreeRecut(g: Tags, g': Tags, a: nat, z: nat, gone: set<nat>)
    requires a < z < |g.head| && z < |g.foot| && ToOneFree(g, g', a, z, gone)
    requires |g.head| == |g.foot| == g.n && g.top < g.n
    ensures Recut(g, g', a, z, {a})
  {
  }

  lemma OneFreePiece(g: Tags, g': Tags, a: nat, z: nat, gone: set<nat>)
    requires a < z < |g.head| && z < |g.foot| && ToOneFree(g, g', a, z, gone)
    requires ChunkOk(g, a) && g.Next(a) <= z && (z - a) % 16 == 0 && z < g.n
    ensures ChunkOk(g', a) && g'.Next(a) == z && FreeBefore(g', z)
  {
  }

  // A chunk in use from a to t, where top now begins.
  ghost predicate ToTopUsed(g: Tags, g': Tags, a: nat, t: nat)
    requires a < |g.head| && t < |g.head| && t < |g.foot|
  {
    && g'.lo == g.lo && g'.n == g.n && g'.cookie == g.cookie
    && g.lo < a <= g.top && g.Border(a) && (a in g.live ==> g.Next(a) == g.top)
    && g'.live == g.live + {a} && g'.top == t
    && a + MIN_CHUNK_SIZE <= t && (t - a) % 16 == 0
    && t + TOP_FOOT_SIZE < g.n
    && g'.head == g.head[a := Head(t - a, g.head[a].pinuse, true)][t := Head(g.n - TOP_FOOT_SIZE - t, true, false)]
    && g'.foot == g.foot[t := g.cookie]
  }

  // Top now begins at a.
  ghost predicate ToTopFree(g: Tags, g': Tags, a: nat, gone: set<nat>)
    requires a < |g.head|
  {
    && Covers(g, a, g.top, gone) && Framed(g, g', gone, {}) && g'.top == a
    && g.head[a].pinuse && a + TOP_FOOT_SIZE < g.n
    && g'.head == g.head[a := Head(g.n - TOP_FOOT_SIZE - a, true, false)]
    && g'.foot == g.foot
  }

  lemma TopFree(g: Tags, g': Tags, a: nat, gone: set<nat>)
    requires TagInv(g) && a < |g.head| && ToTopFree(g, g', a, gone)
    ensures TagInv(g') && RecutTop(g, g', a, {})
  {
    hide TagInv, RecutTop, ChunkOk;
    Stretch(g, a, g.top);
    TagBounds(g);
    BelowTop(g);
    TopFreeRecut(g, g', a, gone);
    RecutTopInv(g, g', a, {});
  }

  lemma BelowTop(g: Tags)
    requires TagInv(g)
    ensures forall p :: p in g.live ==> p < g.top
  {
    hide TagInv, TopOk, BitsOk;
    forall p | p in g.live
      ensures p < g.top
    {
      At(g, p);
    }
  }

  lemma TopFreeRecut(g: Tags, g': Tags, a: nat, gone: set<nat>)
    requires a < |g.head| && ToTopFree(g, g', a, gone) && TopOk(g)
    requires |g.head| == |g.foot| == g.n && g.top < g.n && a % 16 == 0
    requires forall p :: p in g.live ==> p < g.top
    ensures RecutTop(g, g', a, {}) && TopOk(g')
  {
  }

  lemma TopUsed(g: Tags, g': Tags, a: nat, t: nat)
    requires TagInv(g) && a < |g.head| && t < |g.head| && t < |g.foot| && ToTopUsed(g, g', a, t)
    ensures TagInv(g') && RecutTop(g, g', a, {a})
  {
    hide TagInv, RecutTop, ChunkOk;
    TagBounds(g);
    if a in g.live { At(g, a); }
    TopUsedRecut(g, g', a, t);
    TopUsedPiece(g, g', a, t);
    RecutTopInv(g, g', a, {a});
  }

  lemma TopUsedRecut(g: Tags, g': Tags, a: nat, t: nat)
    requires a < |g.head| && t < |g.head| && t < |g.foot| && ToTopUsed(g, g', a, t) && TagInv(g)
    ensures RecutTop(g, g', a, {a}) && TopOk(g')
  {
    hide ChunkOk;
    TagBounds(g);
    Aligned(g, a);
    Plus16(a, t);
    forall p | p in g'.live
      ensures (p in g.live && p < a) || p == a
    {
      TopmostChunk(g, a, p);
    }
  }

  lemma Aligned(g: Tags, a: nat)
    requires TagInv(g) && g.Border(a)
    ensures a % 16 == 0
  {
    hide TagInv;
    TagBounds(g);
    if a in g.live { At(g, a); }
  }

  // Nothing lies above the chunk that borders top.
  lemma TopmostChunk(g: Tags, a: nat, p: nat)
    requires TagInv(g) && g.Border(a) && (a in g.live ==> a < |g.head| && g.Next(a) == g.top)
    ensures p in g.live ==> p <= a
  {
    hide TagInv, TopOk, BitsOk;
    if p in g.live {
      At(g, p);
      if a in g.live && a < p {
        TwoApart(g, a, p);
      }
    }
  }

  lemma TopUsedPiece(g: Tags, g': Tags, a: nat, t: nat)
    requires a < |g.head| && t < |g.head| && t < |g.foot| && ToTopUsed(g, g', a, t) && TopOk(g)
    requires |g.head| == |g.foot| == g.n && (a in g.live ==> ChunkOk(g, a))
    ensures ChunkOk(g', a) && g'.Next(a) == t
  {
  }

  // ------------------------------------------ what a cut leaves as it was

  ghost predicate SameChunk(g: Tags, g': Tags, p: nat) {
    && p < |g.head| && p < |g'.head|
    && g'.head[p].size == g.head[p].size && g'.head[p].cinuse == g.head[p].cinuse
  }

  // The 8 bytes at w touch what a client keeps in the chunk p, of size s.
  predicate Touches(w: nat, p: nat, s: nat) {
    p + 16 < w + 8 && w < p + s
  }

  // No head word or foot that touches those bytes changes.
  ghost predicate Sparing(g: Tags, g': Tags, p: nat, s: nat) {
    && |g'.head| == |g.head| && |g'.foot| == |g.foot|
    && (forall a :: 0 <= a < |g.head| && Touches(a + 8, p, s) ==> g'.head[a] == g.head[a])
    && (forall a :: 0 <= a < |g.foot| && Touches(a, p, s) ==> g'.foot[a] == g.foot[a])
  }

  ghost predicate Kept(g: Tags, g': Tags, gone: set<nat>, pieces: set<nat>) {
    && |g'.head| == |g.head| && g'.lo == g.lo && g.lo !in gone && g.lo !in pieces
    && gone <= g.live && g'.live == g.live - gone + pieces
    && (forall p :: p in g.live && p !in gone ==> SameChunk(g, g', p) && p !in pieces)
    && (forall p :: p in g.live && p !in gone ==> p < |g.head| && Sparing(g, g', p, g.head[p].size))
  }

  lemma RecutKeeps(g: Tags, g': Tags, a: nat, z: nat, gone: set<nat>, pieces: set<nat>)
    requires TagInv(g) && Recut(g, g', a, z, pieces) && Covers(g, a, z, gone) && Framed(g, g', gone, pieces)
    ensures Kept(g, g', gone, pieces)
  {
    hide TagInv, Sparing;
    forall p | p in g.live && p !in gone
      ensures SameChunk(g, g', p) && p !in pieces && p < |g.head| && Sparing(g, g', p, g.head[p].size)
    {
      InHead(g, p);
      RecutSpares(g, g', a, z, gone, pieces, p);
    }
  }

  lemma RecutSpares(g: Tags, g': Tags, a: nat, z: nat, gone: set<nat>, pieces: set<nat>, p: nat)
    requires TagInv(g) && Recut(g, g', a, z, pieces) && Covers(g, a, z, gone) && p in g.live && p !in gone
    ensures p < |g.head| && Sparing(g, g', p, g.head[p].size)
  {
    hide TagInv;
    InHead(g, p);
    TwoApart(g, p, a);
  }

  lemma InHead(g: Tags, p: nat)
    requires TagInv(g) && p in g.live
    ensures p < |g.head| && p < g.top
  {
    hide TagInv, TopOk, BitsOk;
    At(g, p);
  }

  lemma RecutTopKeeps(g: Tags, g': Tags, a: nat, gone: set<nat>, pieces: set<nat>)
    requires TagInv(g) && RecutTop(g, g', a, pieces)
    requires g'.live == g.live - gone + pieces && gone <= g.live
    requires forall p :: p in g.live && a <= p ==> p in gone
    requires forall p :: p in gone ==> a <= p
    ensures Kept(g, g', gone, pieces)
  {
    hide TagInv, Sparing;
    forall p | p in g.live && p !in gone
      ensures SameChunk(g, g', p) && p !in pieces && p < |g.head| && Sparing(g, g', p, g.head[p].size)
    {
      InHead(g, p);
      RecutTopSpares(g, g', a, pieces, p);
    }
  }

  lemma RecutTopSpares(g: Tags, g': Tags, a: nat, pieces: set<nat>, p: nat)
    requires TagInv(g) && RecutTop(g, g', a, pieces) && p in g.live && p < a
    ensures p < |g.head| && Sparing(g, g', p, g.head[p].size)
  {
    hide TagInv;
    InHead(g, p);
    if a in g.live { TwoApart(g, p, a); } else { BelowTopEnd(g, p); }
  }

  lemma BelowTopEnd(g: Tags, p: nat)
    requires TagInv(g) && p in g.live
    ensures p < |g.head| && g.Next(p) <= g.top
  {
    hide TagInv, TopOk, BitsOk;
    At(g, p);
  }

  // The chunks in use after a cut.
  lemma UsedKept(g: Tags, g': Tags, gone: set<nat>, pieces: set<nat>)
    requires Kept(g, g', gone, pieces)
    ensures Used(g') == (Used(g) - gone) +
      (map p | p in pieces && p < |g'.head| && g'.head[p].cinuse :: g'.head[p].size)
  {
  }

  // The binned chunks are the free ones that are not in out.
  ghost predicate Agree(of: map<nat, nat>, g: Tags, out: set<nat>) {
    && (forall p :: p in of ==>
          p in g.live && p !in out && p < |g.head| && !g.head[p].cinuse && of[p] == g.head[p].size)
    && (forall p :: p in g.live && p !in out && p < |g.head| && !g.head[p].cinuse ==> p in of)
  }

  lemma AgreeKept(of: map<nat, nat>, g: Tags, g': Tags, gone: set<nat>, pieces: set<nat>, out: set<nat>, out': set<nat>)
    requires Kept(g, g', gone, pieces) && Agree(of, g, out)
    requires forall p :: p in gone ==> p !in of
    requires forall p :: p in g.live && p !in gone && p < |g.head| && !g.head[p].cinuse ==> (p in out' <==> p in out)
    requires forall p :: p in pieces ==> p in out' || (p < |g'.head| && g'.head[p].cinuse)
    ensures Agree(of, g', out')
  {
    forall p | p in of
      ensures p in g'.live && p !in out' && p < |g'.head| && !g'.head[p].cinuse && of[p] == g'.head[p].size
    {
      assert SameChunk(g, g', p);
    }
  }

  // ---------------------------------------- what a cut leaves in its first chunk

  lemma OneUsedSpares(g: Tags, g': Tags, a: nat, z: nat, gone: set<nat>)
    requires a < z < |g.head| && z < |g.foot| && ToOneUsed(g, g', a, z, gone)
    ensures Sparing(g, g', a, z - a)
  {
  }

  lemma UsedFreeSpares(g: Tags, g': Tags, a: nat, r: nat, z: nat, gone: set<nat>)
    requires a < r < z < |g.head| && z < |g.foot| && ToUsedFree(g, g', a, r, z, gone)
    ensures Sparing(g, g', a, r - a)
  {
  }

  lemma TwoUsedSpares(g: Tags, g': Tags, a: nat, r: nat, z: nat, gone: set<nat>)
    requires a < r < z < |g.head| && z < |g.foot| && ToTwoUsed(g, g', a, r, z, gone)
    ensures Sparing(g, g', a, r - a)
  {
  }

  lemma TopUsedSpares(g: Tags, g': Tags, a: nat, t: nat)
    requires a < |g.head| && t < |g.head| && t < |g.foot| && ToTopUsed(g, g', a, t)
    ensures Sparing(g, g', a, t - a)
  {
  }

  // ------------------------------------------------ the six cuts, in full

  lemma OneUsedEffect(g: Tags, g': Tags, a: nat, z: nat, gone: set<nat>)
    requires TagInv(g) && a < z < |g.head| && z < |g.foot| && ToOneUsed(g, g', a, z, gone)
    ensures TagInv(g') && Kept(g, g', gone, {a})
    ensures Used(g') == (Used(g) - gone)[a := z - a]
    ensures Sparing(g, g', a, z - a)
    ensures g'.head[g'.top].size == g.head[g.top].size
  {
    hide TagInv, Recut, Kept, Sparing;
    TagBounds(g);
    OneUsed(g, g', a, z, gone);
    OneUsedSpares(g, g', a, z, gone);
    RecutKeeps(g, g', a, z, gone, {a});
    UsedKept(g, g', gone, {a});
  }

  lemma UsedFreeEffect(g: Tags, g': Tags, a: nat, r: nat, z: nat, gone: set<nat>)
    requires TagInv(g) && a < r < z < |g.head| && z < |g.foot| && ToUsedFree(g, g', a, r, z, gone)
    ensures TagInv(g') && Kept(g, g', gone, {a, r})
    ensures Used(g') == (Used(g) - gone)[a := r - a]
    ensures Sparing(g, g', a, r - a)
    ensures g'.head[g'.top].size == g.head[g.top].size
  {
    hide TagInv, Recut, Kept, Sparing;
    TagBounds(g);
    UsedFree(g, g', a, r, z, gone);
    UsedFreeSpares(g, g', a, r, z, gone);
    RecutKeeps(g, g', a, z, gone, {a, r});
    UsedKept(g, g', gone, {a, r});
  }

  lemma TwoUsedEffect(g: Tags, g': Tags, a: nat, r: nat, z: nat, gone: set<nat>)
    requires TagInv(g) && a < r < z < |g.head| && z < |g.foot| && ToTwoUsed(g, g', a, r, z, gone)
    ensures TagInv(g') && Kept(g, g', gone, {a, r})
    ensures Used(g') == (Used(g) - gone)[a := r - a][r := z - r]
    ensures Sparing(g, g', a, r - a)
    ensures g'.head[g'.top].size == g.head[g.top].size
  {
    hide TagInv, Recut, Kept, Sparing;
    TagBounds(g);
    TwoUsed(g, g', a, r, z, gone);
    TwoUsedSpares(g, g', a, r, z, gone);
    RecutKeeps(g, g', a, z, gone, {a, r});
    UsedKept(g, g', gone, {a, r});
  }

  lemma OneFreeEffect(g: Tags, g': Tags, a: nat, z: nat, gone: set<nat>)
    requires TagInv(g) && a < z < |g.head| && z < |g.foot| && ToOneFree(g, g', a, z, gone)
    ensures TagInv(g') && Kept(g, g', gone, {a})
    ensures Used(g') == Used(g) - gone
    ensures g'.head[g'.top].size == g.head[g.top].size
  {
    hide TagInv, Recut, Kept;
    TagBounds(g);
    OneFree(g, g', a, z, gone);
    RecutKeeps(g, g', a, z, gone, {a});
    UsedKept(g, g', gone, {a});
  }

  lemma TopUsedEffect(g: Tags, g': Tags, a: nat, t: nat)
    requires TagInv(g) && a < |g.head| && t < |g.head| && t < |g.foot| && ToTopUsed(g, g', a, t)
    ensures TagInv(g') && Kept(g, g', g.live * {a}, {a})
    ensures Used(g') == Used(g)[a := t - a]
    ensures Sparing(g, g', a, t - a)
  {
    hide TagInv, RecutTop, Kept, Sparing;
    TopUsed(g, g', a, t);
    TagBounds(g);
    TopUsedSpares(g, g', a, t);
    forall p | p in g.live && a <= p
      ensures p == a
    {
      TopmostChunk(g, a, p);
    }
    assert g'.live == g.live - g.live * {a} + {a};
    RecutTopKeeps(g, g', a, g.live * {a}, {a});
    UsedKept(g, g', g.live * {a}, {a});
  }

  lemma TopFreeEffect(g: Tags, g': Tags, a: nat, gone: set<nat>)
    requires TagInv(g) && a < |g.head| && ToTopFree(g, g', a, gone)
    ensures TagInv(g') && Kept(g, g', gone, {})
    ensures Used(g') == Used(g) - gone
  {
    hide TagInv, RecutTop, Kept;
    TopFree(g, g', a, gone);
    BelowTop(g);
    RecutTopKeeps(g, g', a, gone, {});
    UsedKept(g, g', gone, {});
  }
}
