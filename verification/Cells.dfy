// Where the fields of chunks lie in memory: the fields that mean something
// never overlap each other or what clients keep in their chunks.
module Cells {
  import opened TreeIndex
  import opened BinMap
  import opened Rings
  import opened Tries
  import opened Bins
  import opened Tags
  import opened Cuts
  import opened Mstate
  import opened Guards
  import opened Chunks
  import opened TreeLinks
  import opened TreeBins
  import opened Malloc
  import opened Free
  import opened Payloads
  import opened Watch
  import Align

  // A word of memory that the allocator may rely on. FootCell(p) is the last
  // word of the chunk p, the prev_foot of the chunk after it; a small-bin
  // header is two words of the state record.
  datatype Cell =
    | HeadCell(p: Addr)
    | FootCell(p: Addr)
    | FdCell(p: Addr)
    | BkCell(p: Addr)
    | Child0Cell(p: Addr)
    | Child1Cell(p: Addr)
    | ParentCell(p: Addr)
    | IndexCell(p: Addr)
    | BinFdCell(i: nat)
    | BinBkCell(i: nat)
    | TreebinCell(i: nat)

  ghost predicate Binned(M: Mstate, p: Addr)
    reads M
  {
    p in M.b.of
  }

  ghost predicate Large(M: Mstate, p: Addr)
    reads M
  {
    p in M.b.of && M.b.of[p] >= MIN_LARGE_SIZE
  }

  // The fields that mean something in this state.
  ghost predicate Meaningful(M: Mstate, c: Cell)
    reads M
  {
    match c
    case HeadCell(p) => p in M.live || p == M.top || p == M.top + M.topsize
    case FootCell(p) => p in M.live && p != M.base
    case FdCell(p) => Binned(M, p)
    case BkCell(p) => Binned(M, p)
    case Child0Cell(p) => Large(M, p)
    case Child1Cell(p) => Large(M, p)
    case ParentCell(p) => Large(M, p)
    case IndexCell(p) => Large(M, p)
    case BinFdCell(i) => i < NBINS
    case BinBkCell(i) => i < NBINS
    case TreebinCell(i) => i < NTREEBINS
  }

  // The chunk a field belongs to.
  ghost function Owner(M: Mstate, c: Cell): Addr
  {
    match c
    case BinFdCell(i) => M.base
    case BinBkCell(i) => M.base
    case TreebinCell(i) => M.base
    case _ => c.p
  }

  // Its distance from the start of that chunk.
  ghost function Offset(M: Mstate, c: Cell): nat
    reads M
  {
    match c
    case HeadCell(p) => 8
    case FootCell(p) => if p < |M.head| then M.head[p].size else 0
    case FdCell(p) => FD
    case BkCell(p) => BK
    case Child0Cell(p) => CHILD0
    case Child1Cell(p) => CHILD1
    case ParentCell(p) => PARENT
    case IndexCell(p) => INDEX
    case BinFdCell(i) => SmallbinAt(M.m, i) + FD - M.base
    case BinBkCell(i) => SmallbinAt(M.m, i) + BK - M.base
    case TreebinCell(i) => TreebinAt(M.m, i) - M.base
  }

  ghost function WordOf(M: Mstate, c: Cell): Addr
    reads M
  {
    Owner(M, c) + Offset(M, c)
  }

  // Every field lies between the head of its chunk and its foot.
  lemma WithinOwner(M: Mstate, c: Cell)
    requires M.Inv() && Meaningful(M, c)
    ensures var p := Owner(M, c);
      && (p in M.live || p == M.top || p == M.top + M.topsize)
      && 8 <= Offset(M, c)
      && (p in M.live ==> p < |M.head| && Offset(M, c) <= M.head[p].size && Offset(M, c) % 8 == 0)
      && (p !in M.live ==> c == HeadCell(p) && Offset(M, c) == 8)
  {
    hide TagInv, BinInv, Agree, ChunkOk, Mstate.Sound, TagsGuarded, LinksGuarded, SmallbinAt, TreebinAt;
    InSegmentAt(M);
    var p := Owner(M, c);
    if p in M.live { SizeAt(M, p); }
    match c
    case BinFdCell(i) => BinOffsets(M, i);
    case BinBkCell(i) => BinOffsets(M, i);
    case TreebinCell(i) => TreebinOffset(M, i);
    case HeadCell(q) =>
    case FootCell(q) =>
    case _ => LinkOffsets(M, p, c);
  }

  lemma BinOffsets(M: Mstate, i: nat)
    requires i < NBINS
    ensures var d := SmallbinAt(M.m, i) - M.base; 8 <= d + FD && d + BK <= 896 && (d + FD) % 8 == 0 && (d + BK) % 8 == 0
  {
    Align.Multiple(8, 13 + 2 * i, 0);
    Align.Multiple(8, 14 + 2 * i, 0);
  }

  lemma TreebinOffset(M: Mstate, i: nat)
    requires i < NTREEBINS
    ensures var d := TreebinAt(M.m, i) - M.base; 8 <= d <= 896 && d % 8 == 0
  {
    Align.Multiple(8, 77 + i, 0);
  }

  // The links of a free chunk lie before its end.
  lemma LinkOffsets(M: Mstate, p: Addr, c: Cell)
    requires M.Inv() && Meaningful(M, c) && !c.HeadCell? && !c.FootCell? && !c.BinFdCell? && !c.BinBkCell?
      && !c.TreebinCell?
    requires p == c.p
    ensures p in M.live && p < |M.head| && 8 <= Offset(M, c) <= M.head[p].size && Offset(M, c) % 8 == 0
  {
    hide TagInv, BinInv, Agree, ChunkOk, Mstate.Sound, TagsGuarded, LinksGuarded;
    BinnedSize(M, p);
    SizeAt(M, p);
  }

  lemma InSegmentAt(M: Mstate)
    requires M.Inv()
    ensures M.base in M.live && M.base < |M.head| && M.head[M.base].size == M.msize >= 896
    ensures M.base !in M.b.of
  {
    hide TagInv, BinInv, Agree, ChunkOk, TagsGuarded, LinksGuarded;
    Parts(M, M.Dv());
    if M.base in M.b.of { BinnedAt(M, M.Dv(), M.base); }
  }

  lemma SizeAt(M: Mstate, p: Addr)
    requires M.Inv() && p in M.live
    ensures p < |M.head| && 32 <= M.head[p].size && M.head[p].size % 16 == 0
  {
    hide TagInv, BinInv, Agree, ChunkOk, TagsGuarded, LinksGuarded;
    ChunkAt(M, M.Dv(), p);
  }

  lemma BinnedSize(M: Mstate, p: Addr)
    requires M.Inv() && p in M.b.of
    ensures p in M.live && p < |M.head| && M.b.of[p] == M.head[p].size
  {
    hide TagInv, BinInv, Agree, ChunkOk, TagsGuarded, LinksGuarded;
    BinnedAt(M, M.Dv(), p);
  }

  // Fields of one chunk are apart.
  lemma OneOwner(M: Mstate, c: Cell, d: Cell)
    requires M.Inv() && Meaningful(M, c) && Meaningful(M, d) && Owner(M, c) == Owner(M, d)
    requires Offset(M, c) == Offset(M, d)
    ensures c == d
  {
    hide TagInv, BinInv, Agree, ChunkOk, TagsGuarded, LinksGuarded;
    Parts(M, M.Dv());
    TagBounds(M.G());
    var p := Owner(M, c);
    if p in M.live { ChunkAt(M, M.Dv(), p); }
    if p in M.b.of { BinnedAt(M, M.Dv(), p); }
  }

  // Fields of two chunks are apart, but for the heads of top and of the fake
  // chunk behind it, which meet when top has less than 8 bytes.
  lemma TwoOwners(M: Mstate, c: Cell, d: Cell)
    requires M.Inv() && Meaningful(M, c) && Meaningful(M, d) && Owner(M, c) < Owner(M, d)
    ensures WordOf(M, c) + 8 <= WordOf(M, d) || (Tops(M, c, d) && M.topsize < 8)
  {
    hide TagInv, BinInv, Agree, ChunkOk, TagsGuarded, LinksGuarded, Offset, Meaningful, Mstate.Sound;
    WithinOwner(M, c);
    WithinOwner(M, d);
    InOrder(M, Owner(M, c), Owner(M, d));
    AllBelowTop(M);
  }

  ghost predicate Tops(M: Mstate, c: Cell, d: Cell)
    reads M
  {
    c == HeadCell(M.top) && d == HeadCell(M.top + M.topsize)
  }

  lemma AllBelowTop(M: Mstate)
    requires M.Inv()
    ensures M.topsize > 0
    ensures forall p :: p in M.live ==> p < M.top
  {
    hide TagInv, BinInv, Agree, ChunkOk, TagsGuarded, LinksGuarded;
    Parts(M, M.Dv());
    TagBounds(M.G());
    BelowTop(M.G());
  }

  // That is, when 4 bytes are left of a segment that ends 4 above a multiple of
  // 16. The head of top is then stored over the low half of the other one, of
  // which only PINUSE is ever read, and that stays clear.
  lemma TopsMeet(M: Mstate)
    requires M.Inv() && M.end % 4 == 0
    ensures M.topsize < 8 <==> M.topsize == 4
    ensures M.topsize == 4 ==> M.end % 16 == 4 && (M.topsize + 1) / 0x1_0000_0000 % 2 == 0
  {
    hide TagInv, BinInv, Agree, ChunkOk, TagsGuarded, LinksGuarded;
    Parts(M, M.Dv());
    TagBounds(M.G());
    RoomAtTop(M.top, M.topsize);
  }

  lemma RoomAtTop(top: Addr, topsize: nat)
    requires top % 16 == 0 && 0 < topsize && (top + topsize + TOP_FOOT_SIZE) % 4 == 0
    ensures topsize < 8 ==> topsize == 4 && (top + topsize + TOP_FOOT_SIZE) % 16 == 4
  {
    if topsize < 8 {
      var k, x := top / 16, topsize / 4;
      assert top == 16 * k;
      Align.Multiple(16, k + 5, topsize);
      Align.Multiple(4, 4 * k + 20 + x, topsize - 4 * x);
    }
  }

  lemma InOrder(M: Mstate, p: Addr, q: Addr)
    requires M.Inv() && p < q
    requires p in M.live || p == M.top || p == M.top + M.topsize
    requires q in M.live || q == M.top || q == M.top + M.topsize
    ensures p in M.live ==> p < |M.head| && p + M.head[p].size <= q
  {
    hide TagInv, BinInv, Agree, ChunkOk, TagsGuarded, LinksGuarded;
    Parts(M, M.Dv());
    TagBounds(M.G());
    if p in M.live {
      InHead(M.G(), p);
      At(M.G(), p);
      BelowTopNext(M.G(), p);
      if q in M.live { TwoApart(M.G(), p, q); }
    }
  }

  lemma BelowTopNext(g: Tags, p: nat)
    requires TagInv(g) && p in g.live
    ensures p < |g.head| && g.Next(p) <= g.top
  {
    hide TagInv;
    At(g, p);
  }

  // No two fields that mean something overlap, but for the heads of a top of
  // less than 8 bytes and of the fake chunk.
  lemma CellsApart(M: Mstate, c: Cell, d: Cell)
    requires M.Inv() && Meaningful(M, c) && Meaningful(M, d)
    ensures
      || c == d || WordOf(M, c) + 8 <= WordOf(M, d) || WordOf(M, d) + 8 <= WordOf(M, c)
      || (M.topsize < 8 && (Tops(M, c, d) || Tops(M, d, c)))
  {
    hide TagInv, BinInv, Agree, ChunkOk, Meaningful, Offset, Owner, Mstate.Sound, TagsGuarded, LinksGuarded;
    if Owner(M, c) < Owner(M, d) {
      TwoOwners(M, c, d);
    } else if Owner(M, d) < Owner(M, c) {
      TwoOwners(M, d, c);
    } else {
      WithinOwner(M, c);
      WithinOwner(M, d);
      if Offset(M, c) == Offset(M, d) { OneOwner(M, c, d); }
    }
  }

  // Nor does any of them overlap the bytes a client may use.
  lemma CellsOutsidePayload(M: Mstate, c: Cell, p: Addr)
    requires M.Inv() && Meaningful(M, c) && p in M.Live()
    ensures WordOf(M, c) + 8 <= p + 16 || p + M.Live()[p] <= WordOf(M, c)
  {
    hide TagInv, BinInv, Agree, ChunkOk, Meaningful, Offset, TagsGuarded, LinksGuarded;
    SizeIs(M, p);
    WithinOwner(M, c);
    InUse(M, M.Dv(), p);
    var q := Owner(M, c);
    if q < p { InOrder(M, q, p); }
    if p < q { InOrder(M, p, q); }
    if q == p { OwnFields(M, c, p); }
  }

  lemma OwnFields(M: Mstate, c: Cell, p: Addr)
    requires M.Inv() && Meaningful(M, c) && p in M.Live() && Owner(M, c) == p
    ensures Offset(M, c) == 8 || Offset(M, c) == M.Live()[p]
  {
    hide TagInv, BinInv, Agree, ChunkOk, TagsGuarded, LinksGuarded;
    InUse(M, M.Dv(), p);
  }

  // ------------------------------------------------- what clients may write

  // A column changes only where its words touch the payload of p.
  ghost predicate ChangesInside<T>(old_: seq<T>, new_: seq<T>, offset: nat, p: Addr, s: nat) {
    && |new_| == |old_|
    && forall a :: 0 <= a < |old_| && new_[a] != old_[a] ==> Touches(a + offset, p, s)
  }

  // The links of binned chunks and of the bins, as far as they mean anything,
  // are the same.
  ghost predicate SameLinks(b: Bins, m: nat, n: nat, l: Links, l': Links) {
    && Sized(l, n) && Sized(l', n)
    && l'.treebins == l.treebins && l'.smallmap == l.smallmap && l'.treemap == l.treemap
    && (forall x :: x in b.of && x < n ==> l'.fd[x] == l.fd[x] && l'.bk[x] == l.bk[x])
    && (forall i :: 0 <= i < NBINS && SmallbinAt(m, i) < n ==>
          l'.fd[SmallbinAt(m, i)] == l.fd[SmallbinAt(m, i)] && l'.bk[SmallbinAt(m, i)] == l.bk[SmallbinAt(m, i)])
    && (forall x :: x in b.of && b.of[x] >= MIN_LARGE_SIZE && x < n ==>
          l'.child0[x] == l.child0[x] && l'.child1[x] == l.child1[x] && l'.parent[x] == l.parent[x]
            && l'.index[x] == l.index[x])
  }

  lemma LinksFrame(b: Bins, m: nat, n: nat, l: Links, l': Links)
    requires BinInv(b, m, n, l) && SameLinks(b, m, n, l, l')
    ensures BinInv(b, m, n, l')
  {
    hide QueuesOk, RingsOk, SmallmapOk, TreesOk, SameLinks;
    RingsSame(b, m, n, l, l');
    TreesUnchanged(b, m, n, l, l');
    SameMaps(b, m, n, l, l');
  }

  lemma SameMaps(b: Bins, m: nat, n: nat, l: Links, l': Links)
    requires SameLinks(b, m, n, l, l')
    ensures Sized(l', n) && l'.smallmap == l.smallmap
  {
  }

  lemma RingsSame(b: Bins, m: nat, n: nat, l: Links, l': Links)
    requires QueuesOk(b) && Placed(b, m, n) && Floor(m) <= n && RingsOk(b.q, m, l.fd, l.bk) && SameLinks(b, m, n, l, l')
    ensures RingsOk(b.q, m, l'.fd, l'.bk)
  {
    hide QueuesOk, Ring, NoDup;
    forall s | s in b.q
      ensures Ring(l'.fd, l'.bk, Cycle(b.q, m, s))
    {
      CycleBelongs(b, m, n, s);
      var c := Cycle(b.q, m, s);
      forall x | x in c
        ensures x < n && l'.fd[x] == l.fd[x] && l'.bk[x] == l.bk[x]
      {
        assert Belongs(b, m, n, s, x);
      }
      RingFrame(l.fd, l.bk, l'.fd, l'.bk, c);
    }
  }

  lemma TreesUnchanged(b: Bins, m: nat, n: nat, l: Links, l': Links)
    requires QueuesOk(b) && Placed(b, m, n) && TreesOk(b, m, l) && SameLinks(b, m, n, l, l')
    ensures TreesOk(b, m, l')
  {
    hide QueuesOk, TreesOk, Wf, TreebinOk, TreeAt, IndexedAt;
    KeysOf(b, m, l);
    forall i | 0 <= i < NTREEBINS
      ensures TreebinOk(b.trie, b.q, l'.treebins, l'.treemap, i)
    {
      TreebinOf(b, m, l, i);
    }
    forall s | s in b.trie.node
      ensures TreeAt(b, m, l', s)
    {
      TreeOf(b, m, l, s);
      OldestOf(b, s);
      TreeAtSame(b, m, n, l, l', s);
    }
    forall p | p in b.of
      ensures IndexedAt(b, l', p)
    {
      IndexedOf(b, m, l, p);
      IndexedSame(b, m, n, l, l', p);
    }
    TreesIntro(b, m, l');
  }

  lemma TreeAtSame(b: Bins, m: nat, n: nat, l: Links, l': Links, s: nat)
    requires s in b.trie.node && TreeAt(b, m, l, s) && SameLinks(b, m, n, l, l') && Placed(b, m, n)
      && s >= MIN_LARGE_SIZE
    requires |b.q[s]| > 0
    requires forall j :: 0 <= j < |b.q[s]| ==> b.q[s][j] in b.of && b.of[b.q[s][j]] == s
    ensures TreeAt(b, m, l', s)
  {
    hide Index;
  }

  lemma IndexedSame(b: Bins, m: nat, n: nat, l: Links, l': Links, p: nat)
    requires p in b.of && IndexedAt(b, l, p) && SameLinks(b, m, n, l, l') && Placed(b, m, n)
    ensures IndexedAt(b, l', p)
  {
    hide Index;
  }

  // The tags of chunks are the same.
  ghost predicate SameTags(g: Tags, g': Tags) {
    && g' == g.(head := g'.head, foot := g'.foot)
    && |g'.head| == |g.head| == |g'.foot| == |g.foot|
    && (forall p :: p in g.live && p < |g.head| ==>
          g'.head[p] == g.head[p] && (p != g.lo && g.Next(p) < |g.foot| ==> g'.foot[g.Next(p)] == g.foot[g.Next(p)]))
    && (g.top < |g.head| ==>
          g'.head[g.top] == g.head[g.top]
            && (g.Next(g.top) < |g.head| ==> g'.head[g.Next(g.top)] == g.head[g.Next(g.top)]))
  }

  lemma TagsFrame(g: Tags, g': Tags)
    requires TagInv(g) && SameTags(g, g')
    ensures TagInv(g') && Used(g') == Used(g)
  {
    hide TagInv, ChunkOk, Apart;
    TagBounds(g);
    forall p | p in g'.live
      ensures ChunkOk(g', p)
    {
      At(g, p);
      BorderSame(g, g', p);
    }
    forall p, q | p in g'.live && q in g'.live
      ensures p < |g'.head| && Apart(g', p, q)
    {
      At(g, p);
      ApartSame(g, g', p, q);
    }
    TagIntro(g');
  }

  lemma ApartSame(g: Tags, g': Tags, p: nat, q: nat)
    requires TagInv(g) && SameTags(g, g') && p in g.live && q in g.live
    ensures p < |g'.head| && Apart(g', p, q)
  {
    hide TagInv;
    TwoApart(g, p, q);
  }

  lemma BorderSame(g: Tags, g': Tags, p: nat)
    requires TagInv(g) && SameTags(g, g') && p in g.live && ChunkOk(g, p)
    ensures ChunkOk(g', p)
  {
    hide TagInv;
    TagBounds(g);
    if !g.head[p].pinuse {
      At(g, p - g.foot[p]);
    }
  }

  ghost predicate InsideOf(M: Mstate, w: Columns, p: Addr, s: nat)
    reads M
  {
    && ChangesInside(M.head, w.head, 8, p, s) && ChangesInside(M.foot, w.foot, 0, p, s)
    && ChangesInside(M.fd, w.fd, FD, p, s) && ChangesInside(M.bk, w.bk, BK, p, s)
    && ChangesInside(M.child0, w.child0, CHILD0, p, s) && ChangesInside(M.child1, w.child1, CHILD1, p, s)
    && ChangesInside(M.parent, w.parent, PARENT, p, s) && ChangesInside(M.index, w.index, INDEX, p, s)
  }

  lemma TagsSurvive(M: Mstate, w: Columns, p: Addr, s: nat)
    requires M.Inv() && p in M.Live() && s == M.Live()[p] && InsideOf(M, w, p, s)
    ensures SameTags(M.G(), M.G().(head := w.head, foot := w.foot))
  {
    hide TagInv, BinInv, Agree, ChunkOk, Mstate.Sound, TagsGuarded, LinksGuarded;
    Lengths(M);
    forall q | q in M.live
      ensures q < |M.head| && w.head[q] == M.head[q]
      ensures q != M.base ==> M.G().Next(q) < |M.foot| && w.foot[M.G().Next(q)] == M.foot[M.G().Next(q)]
    {
      OneChunk(M, q);
      CellsOutsidePayload(M, HeadCell(q), p);
      if q != M.base { CellsOutsidePayload(M, FootCell(q), p); }
    }
    CellsOutsidePayload(M, HeadCell(M.top), p);
    CellsOutsidePayload(M, HeadCell(M.top + M.topsize), p);
  }

  lemma OneChunk(M: Mstate, q: Addr)
    requires M.Inv() && q in M.live
    ensures q < |M.head| && M.G().Next(q) < |M.foot|
  {
    hide TagInv, BinInv, Agree, ChunkOk, TagsGuarded, LinksGuarded;
    Parts(M, M.Dv());
    ChunkAt(M, M.Dv(), q);
  }

  lemma Lengths(M: Mstate)
    requires M.Inv()
    ensures |M.head| == |M.foot| == M.end && Sized(M.L(), M.end)
    ensures M.top < |M.head| && M.topsize == M.head[M.top].size && M.top + M.topsize < M.end
  {
    hide TagInv, BinInv, Agree, ChunkOk, TagsGuarded, LinksGuarded;
    Parts(M, M.Dv());
    TagBounds(M.G());
    InvParts(M.b, M.m, M.end, M.L());
  }

  lemma LinksSurvive(M: Mstate, w: Columns, p: Addr, s: nat)
    requires M.Inv() && p in M.Live() && s == M.Live()[p] && InsideOf(M, w, p, s)
    ensures SameLinks(M.b, M.m, M.end, M.L(),
              M.L().(fd := w.fd, bk := w.bk, child0 := w.child0, child1 := w.child1, parent := w.parent,
                index := w.index))
  {
    hide TagInv, BinInv, Agree, ChunkOk, Mstate.Sound, TagsGuarded, LinksGuarded;
    Lengths(M);
    forall x | x in M.b.of && x < M.end
      ensures w.fd[x] == M.fd[x] && w.bk[x] == M.bk[x]
    {
      CellsOutsidePayload(M, FdCell(x), p);
      CellsOutsidePayload(M, BkCell(x), p);
    }
    forall i | 0 <= i < NBINS && SmallbinAt(M.m, i) < M.end
      ensures w.fd[SmallbinAt(M.m, i)] == M.fd[SmallbinAt(M.m, i)]
        && w.bk[SmallbinAt(M.m, i)] == M.bk[SmallbinAt(M.m, i)]
    {
      CellsOutsidePayload(M, BinFdCell(i), p);
      CellsOutsidePayload(M, BinBkCell(i), p);
    }
    forall x | x in M.b.of && M.b.of[x] >= MIN_LARGE_SIZE && x < M.end
      ensures w.child0[x] == M.child0[x] && w.child1[x] == M.child1[x] && w.parent[x] == M.parent[x]
        && w.index[x] == M.index[x]
    {
      TreeFieldsOutside(M, x, p);
    }
  }

  lemma TreeFieldsOutside(M: Mstate, x: Addr, p: Addr)
    requires M.Inv() && p in M.Live() && x in M.b.of && M.b.of[x] >= MIN_LARGE_SIZE
    ensures !Touches(x + CHILD0, p, M.Live()[p]) && !Touches(x + CHILD1, p, M.Live()[p])
    ensures !Touches(x + PARENT, p, M.Live()[p]) && !Touches(x + INDEX, p, M.Live()[p])
  {
    hide TagInv, BinInv, Agree, ChunkOk, Mstate.Sound, TagsGuarded, LinksGuarded;
    CellsOutsidePayload(M, Child0Cell(x), p);
    CellsOutsidePayload(M, Child1Cell(x), p);
    CellsOutsidePayload(M, ParentCell(x), p);
    CellsOutsidePayload(M, IndexCell(x), p);
  }

  method Rewrite(M: Mstate, w: Columns, data: seq<bv8>)
    modifies M`head, M`foot, M`fd, M`bk, M`child0, M`child1, M`parent, M`index, M`data
    ensures M.G() == old(M.G()).(head := w.head, foot := w.foot) && M.data == data
    ensures M.L() == old(M.L()).(fd := w.fd, bk := w.bk, child0 := w.child0, child1 := w.child1, parent := w.parent,
      index := w.index)
  {
    M.head, M.foot := w.head, w.foot;
    M.fd, M.bk, M.child0, M.child1, M.parent, M.index := w.fd, w.bk, w.child0, w.child1, w.parent, w.index;
    M.data := data;
  }

  // Whatever a client writes into its own chunk, in whatever layout memory is
  // read, the heap stays sound, the chunks in use stay the same, and neither
  // watched chunks nor the bytes of other clients change.
  method ClientWrites(M: Mstate, p: Addr, w: Columns, data: seq<bv8>)
    requires M.Inv() && p in M.Live() && InsideOf(M, w, p, M.Live()[p]) && p !in M.keep
    requires |M.data| == M.end && OnlyWithin(M.data, data, p + 16, p + M.Live()[p])
    modifies M`head, M`foot, M`fd, M`bk, M`child0, M`child1, M`parent, M`index, M`data
    ensures M.Inv() && M.Live() == old(M.Live()) && M.data == data && M.Cols() == w
    ensures Untouched(M.Live() - {p}, old(M.data), M.data)
  {
    hide TagInv, BinInv, Agree, ChunkOk, Ready, Kept, InsideOf, Used, TagsGuarded, LinksGuarded, Unkept, Safe,
         Sparing, OnlyWithin, Untouched;
    ghost var g := M.G();
    Foreseen(M, w, p);
    OthersKeep(M, p, data);
    Rewrite(M, w, data);
    Finish(M, g, {p}, {p}, M.Dv(), M.Dv());
  }

  lemma OthersKeep(M: Mstate, p: Addr, data: seq<bv8>)
    requires M.Inv() && p in M.Live() && |M.data| == M.end
    requires OnlyWithin(M.data, data, p + 16, p + M.Live()[p])
    ensures Untouched(M.Live() - {p}, M.data, data)
  {
    hide TagInv, BinInv, Agree, Used, TagsGuarded, LinksGuarded, Mstate.Sound;
    forall q | q in M.Live() && q != p
      ensures Payload(data, q, M.Live()[q]) == Payload(M.data, q, M.Live()[q])
    {
      LiveApart(M, q, p);
      OutsideSame(M.data, data, p + 16, p + M.Live()[p], q + 16, q + M.Live()[q]);
    }
  }

  lemma Foreseen(M: Mstate, w: Columns, p: Addr)
    requires M.Inv() && p in M.Live() && InsideOf(M, w, p, M.Live()[p]) && p !in M.keep
    ensures var g, g' := M.G(), M.G().(head := w.head, foot := w.foot);
      && TagInv(g') && Used(g') == Used(g) && Kept(g, g', {p}, {p}) && g.lo == M.base
      && Ready(M.b.of, M.msize, g, M.dv, M.dvsize, {p}, M.Dv())
      && g.top < |g'.head| && g'.head[g.top].size == M.topsize
      && p < |g'.head| && g'.head[p].cinuse && |g'.foot| == |g.foot|
    ensures TagsGuarded(M.keep, M.was, M.G()) && Unkept(M.keep, {p})
    ensures var l' := M.L().(fd := w.fd, bk := w.bk, child0 := w.child0, child1 := w.child1, parent := w.parent,
      index := w.index);
      BinInv(M.b, M.m, M.end, l') && LinksGuarded(M.keep, M.was, l')
  {
    hide TagInv, BinInv, Agree, ChunkOk, SameTags, SameLinks, InsideOf, Used, TagsGuarded, LinksGuarded, Kept;
    TagsSurvive(M, w, p, M.Live()[p]);
    LinksSurvive(M, w, p, M.Live()[p]);
    Parts(M, M.Dv());
    var g' := M.G().(head := w.head, foot := w.foot);
    TagsFrame(M.G(), g');
    LinksFrame(M.b, M.m, M.end, M.L(),
               M.L().(fd := w.fd, bk := w.bk, child0 := w.child0, child1 := w.child1, parent := w.parent,
                 index := w.index));
    InUse(M, M.Dv(), p);
    KeptAll(M, g', p, w);
    StillWatched(M, w, p);
  }

  lemma KeptAll(M: Mstate, g': Tags, p: Addr, w: Columns)
    requires M.Inv() && p in M.Live() && InsideOf(M, w, p, M.Live()[p])
    requires g' == M.G().(head := w.head, foot := w.foot) && SameTags(M.G(), g')
    ensures Kept(M.G(), g', {p}, {p}) && M.top < |g'.head| && g'.head[M.top].size == M.topsize
    ensures p < |g'.head| && g'.head[p].cinuse && |g'.foot| == |M.foot|
  {
    hide TagInv, BinInv, Agree, TagsGuarded, LinksGuarded, Sparing, InsideOf;
    var g := M.G();
    Parts(M, M.Dv());
    TagBounds(g);
    InUse(M, M.Dv(), p);
    assert g.live == g.live - {p} + {p};
    forall q | q in g.live
      ensures SameChunk(g, g', q) && q < |g.head| && (q != p ==> Sparing(g, g', q, g.head[q].size))
    {
      At(g, q);
      if q != p { OthersSpared(M, g', p, w, q); }
    }
  }

  lemma OthersSpared(M: Mstate, g': Tags, p: Addr, w: Columns, q: Addr)
    requires M.Inv() && p in M.Live() && InsideOf(M, w, p, M.Live()[p]) && q in M.live && q != p
    requires g' == M.G().(head := w.head, foot := w.foot)
    ensures q < |M.head| && Sparing(M.G(), g', q, M.head[q].size)
  {
    hide TagInv, BinInv, Agree, TagsGuarded, LinksGuarded;
    Parts(M, M.Dv());
    InUse(M, M.Dv(), p);
    TwoApart(M.G(), p, q);
    TwoApart(M.G(), q, p);
  }

  // Writes into one chunk do not hit the watched ones.
  lemma StillWatched(M: Mstate, w: Columns, p: Addr)
    requires M.Inv() && p in M.Live() && InsideOf(M, w, p, M.Live()[p]) && p !in M.keep
    ensures LinksGuarded(M.keep, M.was,
              M.L().(fd := w.fd, bk := w.bk, child0 := w.child0, child1 := w.child1, parent := w.parent,
                index := w.index))
    ensures Unkept(M.keep, {p})
  {
    hide TagInv, BinInv, Agree, TagsGuarded, Hit, Touches, ChangesInside;
    var s := M.Live()[p];
    forall x: nat | Touches(x, p, s)
      ensures !Hit(M.keep, x)
    {
      NotHit(M, p, x);
    }
    ColumnWatched(M.keep, M.was.fd, M.fd, w.fd, FD, p, s);
    ColumnWatched(M.keep, M.was.bk, M.bk, w.bk, BK, p, s);
    ColumnWatched(M.keep, M.was.child0, M.child0, w.child0, CHILD0, p, s);
    ColumnWatched(M.keep, M.was.child1, M.child1, w.child1, CHILD1, p, s);
    ColumnWatched(M.keep, M.was.parent, M.parent, w.parent, PARENT, p, s);
    ColumnWatched(M.keep, M.was.index, M.index, w.index, INDEX, p, s);
  }

  lemma NotHit(M: Mstate, p: Addr, x: Addr)
    requires M.Inv() && p in M.Live() && p !in M.keep && Touches(x, p, M.Live()[p])
    ensures !Hit(M.keep, x)
  {
    hide TagInv, BinInv, Agree, TagsGuarded, LinksGuarded;
    Watching(M, M.Dv());
    forall q | q in M.keep
      ensures !Touches(x, q, M.keep[q])
    {
      LiveApart(M, p, q);
    }
  }

  lemma ColumnWatched<T>(keep: map<Addr, nat>, was: seq<T>, now: seq<T>, then_: seq<T>, offset: nat, p: Addr, s: nat)
    requires Same(was, now, offset, keep) && ChangesInside(now, then_, offset, p, s)
    requires forall x: nat :: Touches(x, p, s) ==> !Hit(keep, x)
    ensures Same(was, then_, offset, keep)
  {
    hide Hit, Touches;
  }

  // A column after s - 16 bytes have been written at p + 16: in the words that
  // touch them, it holds what the noise says.
  function Blend<T>(was: seq<T>, noise: seq<T>, offset: nat, p: Addr, s: nat): seq<T> {
    seq(|was|, a requires 0 <= a < |was| => if a < |noise| && Touches(a + offset, p, s) then noise[a] else was[a])
  }

  lemma BlendInside<T>(was: seq<T>, noise: seq<T>, offset: nat, p: Addr, s: nat)
    ensures ChangesInside(was, Blend(was, noise, offset, p, s), offset, p, s)
  {
  }

  function Blended(M: Mstate, noise: Columns, p: Addr, s: nat): Columns
    reads M
  {
    Columns(Blend(M.head, noise.head, HEAD, p, s), Blend(M.foot, noise.foot, FOOT, p, s),
            Blend(M.fd, noise.fd, FD, p, s), Blend(M.bk, noise.bk, BK, p, s),
            Blend(M.child0, noise.child0, CHILD0, p, s), Blend(M.child1, noise.child1, CHILD1, p, s),
            Blend(M.parent, noise.parent, PARENT, p, s), Blend(M.index, noise.index, INDEX, p, s))
  }

  lemma BlendedInside(M: Mstate, noise: Columns, p: Addr, s: nat)
    ensures InsideOf(M, Blended(M, noise, p, s), p, s)
  {
    hide Blend, ChangesInside;
    BlendInside(M.head, noise.head, HEAD, p, s);
    BlendInside(M.foot, noise.foot, FOOT, p, s);
    BlendInside(M.fd, noise.fd, FD, p, s);
    BlendInside(M.bk, noise.bk, BK, p, s);
    BlendInside(M.child0, noise.child0, CHILD0, p, s);
    BlendInside(M.child1, noise.child1, CHILD1, p, s);
    BlendInside(M.parent, noise.parent, PARENT, p, s);
    BlendInside(M.index, noise.index, INDEX, p, s);
  }

  function Overwritten(s: seq<bv8>, from: nat, text: seq<bv8>): seq<bv8>
    requires from + |text| <= |s|
  {
    s[..from] + text + s[from + |text|..]
  }

  lemma WithinBlock(data: seq<bv8>, a: nat, z: nat, from: nat, text: seq<bv8>)
    requires a <= z <= |data| && a + from + |text| <= z
    ensures |Overwritten(data, a + from, text)| == |data|
    ensures Overwritten(data, a + from, text)[a..z] == Overwritten(data[a..z], from, text)
    ensures OnlyWithin(data, Overwritten(data, a + from, text), a, z)
  {
  }

  // Only words that touch the s - 16 bytes at p + 16 differ.
  ghost predicate OnlyTouched(a: Columns, b: Columns, p: Addr, s: nat) {
    && ChangesInside(a.head, b.head, 8, p, s) && ChangesInside(a.foot, b.foot, 0, p, s)
    && ChangesInside(a.fd, b.fd, FD, p, s) && ChangesInside(a.bk, b.bk, BK, p, s)
    && ChangesInside(a.child0, b.child0, CHILD0, p, s) && ChangesInside(a.child1, b.child1, CHILD1, p, s)
    && ChangesInside(a.parent, b.parent, PARENT, p, s) && ChangesInside(a.index, b.index, INDEX, p, s)
  }

  lemma InsideMore(M: Mstate, w: Columns, to: Addr, n: nat, p: Addr, s: nat)
    requires p + 16 <= to && to + n <= p + s && InsideOf(M, w, to - 16, n + 16)
    ensures InsideOf(M, w, p, s) && OnlyTouched(M.Cols(), w, to - 16, n + 16)
  {
  }

  // Text is written into the chunk p, which is in use; noise is what it leaves in
  // the words that the allocator would read there.
  method PutBytes(M: Mstate, p: Addr, to: Addr, text: seq<bv8>, noise: Columns)
    requires M.Inv() && |M.data| == M.end && p in M.Live() && p !in M.keep
    requires p + 16 <= to && to + |text| <= p + M.Live()[p]
    modifies M`head, M`foot, M`fd, M`bk, M`child0, M`child1, M`parent, M`index, M`data
    ensures M.Inv() && M.Live() == old(M.Live())
    ensures |M.data| == |old(M.data)| && to + |text| <= |M.data| && M.data == Overwritten(old(M.data), to, text)
    ensures Untouched(M.Live() - {p}, old(M.data), M.data)
    ensures OnlyTouched(old(M.Cols()), M.Cols(), to - 16, |text| + 16)
  {
    hide BinInv, TagInv, Agree, Used, Mstate.Sound, TagsGuarded, LinksGuarded, InsideOf, Blended, Untouched,
         OnlyWithin, Overwritten, OnlyTouched;
    SizeIs(M, p);
    ghost var s := M.Live()[p];
    WithinBlock(M.data, p + 16, p + s, to - p - 16, text);
    var w := Blended(M, noise, to - 16, |text| + 16);
    BlendedInside(M, noise, to - 16, |text| + 16);
    InsideMore(M, w, to, |text|, p, s);
    ClientWrites(M, p, w, Overwritten(M.data, to, text));
  }

  ghost predicate IsCopy(data: seq<bv8>, data': seq<bv8>, to: Addr, from: Addr, n: nat) {
    && |data'| == |data| && to + n <= |data| && from + n <= |data|
    && data' == Overwritten(data, to, data[from..from + n])
  }

  // memcpy(to, from, n) from one chunk in use into another: noise is how the bytes
  // read where the allocator has its fields.
  method Memcpy(M: Mstate, p': Addr, to: Addr, p: Addr, from: Addr, n: nat)
    requires M.Inv() && |M.data| == M.end && p in M.Live() && p' in M.Live() && p' != p && p' !in M.keep
    requires p + 16 <= from && from + n <= p + M.Live()[p]
    requires p' + 16 <= to && to + n <= p' + M.Live()[p']
    modifies M`head, M`foot, M`fd, M`bk, M`child0, M`child1, M`parent, M`index, M`data
    ensures M.Inv() && M.Live() == old(M.Live()) && IsCopy(old(M.data), M.data, to, from, n)
    ensures Untouched(M.Live() - {p'}, old(M.data), M.data)
    ensures OnlyTouched(old(M.Cols()), M.Cols(), to - 16, n + 16)
  {
    hide BinInv, TagInv, Agree, Used, Mstate.Sound, TagsGuarded, LinksGuarded, Untouched, OnlyTouched, Overwritten;
    SizeIs(M, p);
    var noise: Columns := *;
    PutBytes(M, p', to, M.data[from..from + n], noise);
  }
}
