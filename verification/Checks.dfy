// The debugging checks of a memory space: in a sound heap none of their
// asserts can fail, and they find what they look for.
module Checks {
  import opened Word
  import opened TreeIndex
  import opened BinMap
  import opened Rings
  import opened Tries
  import opened Bins
  import opened Tags
  import opened Cuts
  import opened Mstate
  import opened Guards
  import opened Chunks
  import opened TreeLinks
  import opened TreeBins
  import opened Tmalloc
  import opened Malloc
  import opened Free

  // is_inuse
  predicate IsInuse(h: Head) {
    h.pinuse ==> h.cinuse
  }

  // is_mmapped
  predicate IsMmapped(h: Head) {
    !h.pinuse && !h.cinuse
  }

  // What do_check_any_chunk asserts.
  predicate AnyChunk(M: Mstate, p: Addr) {
    (p + 16) % 16 == 0 && M.OkAddress(p)
  }

  // What do_check_top_chunk asserts.
  predicate TopChunk(M: Mstate, p: Addr)
    reads M
  {
    && AnyChunk(M, p)
    && p < |M.head| && M.base <= p < M.end
    && var sz := M.head[p].size;
       && sz == M.topsize && sz > 0
       && M.end - p >= TOP_FOOT_SIZE && sz == M.end - p - TOP_FOOT_SIZE
       && M.head[p].pinuse
       && p + sz < |M.head| && !M.head[p + sz].pinuse
  }

  // What do_check_inuse_chunk asserts.
  predicate InuseChunk(M: Mstate, p: Addr)
    reads M
  {
    && AnyChunk(M, p)
    && p < |M.head| && IsInuse(M.head[p])
    && Next(M, p) < |M.head| && M.head[Next(M, p)].pinuse
    && (M.head[p].pinuse || Next(M, Prev(M, p)) == p)
  }

  // What do_check_free_chunk asserts.
  predicate FreeChunkOk(M: Mstate, p: Addr)
    reads M
  {
    && AnyChunk(M, p)
    && p < |M.head| && !IsInuse(M.head[p])
    && var sz, next := M.head[p].size, Next(M, p);
       && next < |M.head| && !M.head[next].pinuse
       && !IsMmapped(M.head[p])
       && (p != M.dv && p != M.top ==>
             && MIN_CHUNK_SIZE <= sz && sz % 16 == 0
             && next < |M.foot| && M.foot[next] == sz
             && M.head[p].pinuse
             && (next == M.top || IsInuse(M.head[next]))
             && LinkedBack(M, p))
  }

  // fd->bk and bk->fd lead back.
  predicate LinkedBack(M: Mstate, p: Addr)
    reads M
  {
    && p < |M.fd| && p < |M.bk|
    && M.fd[p] < |M.bk| && M.bk[M.fd[p]] == p
    && M.bk[p] < |M.fd| && M.fd[M.bk[p]] == p
  }

  // What do_check_malloced_chunk asserts, for a request of chunk size s.
  predicate MallocedChunk(M: Mstate, p: Addr, s: nat)
    reads M
  {
    && InuseChunk(M, p)
    && var sz := M.head[p].size;
       sz % 16 == 0 && MIN_CHUNK_SIZE <= sz && s <= sz < s + MIN_CHUNK_SIZE
  }

  lemma TopPasses(M: Mstate)
    requires M.Inv()
    ensures TopChunk(M, M.top) && M.topsize > 0
  {
    hide TagInv, BinInv, Agree, ChunkOk, TagsGuarded, LinksGuarded;
    Parts(M, M.Dv());
    TagBounds(M.G());
    AboveBase(M.G());
  }

  lemma InusePasses(M: Mstate, p: Addr)
    requires M.Inv() && p in M.live && p < |M.head| && M.head[p].cinuse
    ensures InuseChunk(M, p)
  {
    hide TagInv, BinInv, Agree, TagsGuarded, LinksGuarded;
    Parts(M, M.Dv());
    At(M.G(), p);
  }

  lemma MallocedPasses(M: Mstate, p: Addr, s: nat)
    requires M.Inv() && p in M.Live() && s <= M.Live()[p] < s + MIN_CHUNK_SIZE
    ensures MallocedChunk(M, p, s)
  {
    hide TagInv, BinInv, Agree, ChunkOk, InuseChunk, TagsGuarded, LinksGuarded;
    InUse(M, M.Dv(), p);
    InusePasses(M, p);
    ChunkAt(M, M.Dv(), p);
  }

  lemma FreePasses(M: Mstate, p: Addr)
    requires M.Inv() && p in M.live && p < |M.head| && !M.head[p].cinuse
    ensures FreeChunkOk(M, p)
    ensures p == M.dv || p in M.b.of
  {
    hide TagInv, BinInv, Agree, LinkedBack, TagsGuarded, LinksGuarded;
    Parts(M, M.Dv());
    At(M.G(), p);
    if p != M.dv {
      Unbinned(M, p);
      At(M.G(), M.G().Next(p));
      LinksBack(M.b, M.m, M.end, M.L(), p);
      Mutual(M, p);
    }
  }

  lemma Unbinned(M: Mstate, p: Addr)
    requires M.Inv() && p in M.live && p < |M.head| && !M.head[p].cinuse && p != M.dv
    ensures p in M.b.of
  {
    hide TagInv, BinInv, TagsGuarded, LinksGuarded;
  }

  lemma LinksBack(b: Bins, m: nat, n: nat, l: Links, p: nat)
    requires BinInv(b, m, n, l) && p in b.of
    ensures |l.fd| == |l.bk| == n && p < n
    ensures l.fd[p] < n && l.bk[l.fd[p]] == p && l.bk[p] < n && l.fd[l.bk[p]] == p
  {
    hide QueuesOk, SmallmapOk, TreesOk, Ring, IsMarked, IndexOf, Placed, Cycle;
    HomeOf(b, m, n, l, p);
    var s := b.of[p];
    var j := InCycle(b, m, s, p);
    BothWays(l.fd, l.bk, Cycle(b.q, m, s), j);
  }

  // Both neighbours of a node of a ring lead back to it.
  lemma BothWays(fd: seq<nat>, bk: seq<nat>, c: seq<nat>, j: nat)
    requires Ring(fd, bk, c) && j < |c| && |fd| == |bk|
    ensures var p := c[j];
      && p < |fd| && fd[p] < |bk| && bk[fd[p]] == p && bk[p] < |fd| && fd[bk[p]] == p
  {
    hide Ring;
    RingAt(fd, bk, c, j);
    RingAt(fd, bk, c, if j + 1 < |c| then j + 1 else 0);
    RingAt(fd, bk, c, if j > 0 then j - 1 else |c| - 1);
  }

  lemma InCycle(b: Bins, m: nat, s: nat, p: nat) returns (j: nat)
    requires s in b.q && p in b.q[s]
    ensures j < |Cycle(b.q, m, s)| && Cycle(b.q, m, s)[j] == p
  {
    hide IndexOf;
    j := IndexOf(b.q[s], p) + if s < MIN_LARGE_SIZE then 1 else 0;
  }

  lemma Mutual(M: Mstate, p: Addr)
    requires |M.fd| == |M.bk| && p < |M.fd|
    requires M.fd[p] < |M.bk| && M.bk[M.fd[p]] == p && M.bk[p] < |M.fd| && M.fd[M.bk[p]] == p
    ensures LinkedBack(M, p)
  {
  }

  // ------------------------------------------------------------- bin_find

  // Follow the fd links all the way round, looking for x.
  method RingFind(M: Mstate, start: Addr, x: Addr, ghost c: seq<Addr>) returns (found: bool)
    requires |c| > 0 && c[0] == start && Ring(M.fd, M.bk, c) && NoDup(c)
    ensures found <==> x in c
  {
    hide Ring;
    RingAt(M.fd, M.bk, c, 0);
    var p := start;
    ghost var j := |c|;
    while true
      invariant 1 <= j <= |c| && p == (if j == |c| then c[0] else c[j])
      invariant forall k :: j < k < |c| ==> c[k] != x
      invariant j < |c| ==> c[0] != x
      decreases j
    {
      if p == x {
        return true;
      }
      RingAt(M.fd, M.bk, c, if j == |c| then 0 else j);
      p := M.fd[p];
      j := j - 1;
      if p == start {
        break;
      }
    }
    found := false;
  }

  // The bin a size would be in is searched, and nothing else needs to be.
  method BinFind(M: Mstate, x: Addr) returns (found: bool)
    requires M.Inv() && x < |M.head| && M.head[x].size < TWO64 && (x == M.base || Floor(M.m) <= x)
    requires x in M.b.of ==> M.b.of[x] == M.head[x].size
    ensures found <==> x in M.b.of
  {
    hide TagInv, BinInv, Agree, IsMarked, Ring, NoDup, TagsGuarded, LinksGuarded;
    Parts(M, M.Dv());
    AgreeSizes(M.b, M.G(), M.Dv());
    var size := M.head[x].size;
    if x in M.b.of { HomeOf(M.b, M.m, M.end, M.L(), x); }
    if size < MIN_LARGE_SIZE {
      found := SmallFind(M, x, size);
    } else {
      found := TreeFind(M, x, size);
    }
  }

  method SmallFind(M: Mstate, x: Addr, size: nat) returns (found: bool)
    requires M.Binned() && size < MIN_LARGE_SIZE && (x == M.base || Floor(M.m) <= x)
    requires x in M.b.of ==> M.b.of[x] == size && size in M.b.q && x in M.b.q[size]
    ensures found <==> x in M.b.of
  {
    hide BinInv, IsMarked, Ring, NoDup, TagsGuarded, LinksGuarded;
    var sidx := size / 8;
    SmallHeader(M.b, M.m, M.end, M.L(), 8 * sidx);
    if x in M.b.of { Eights(M.b, M.m, M.end, M.L(), size); }
    if IsMarked(M.smallmap, sidx) {
      found := RingFind(M, SmallbinAt(M.m, sidx), x, Cycle(M.b.q, M.m, 8 * sidx));
    } else {
      found := false;
    }
  }

  lemma Eights(b: Bins, m: nat, n: nat, l: Links, s: nat)
    requires BinInv(b, m, n, l) && s in b.q
    ensures 8 * (s / 8) == s
  {
    hide RingsOk, TreesOk, SmallmapOk, QueueOk;
    QueueAt(b, s);
    SizeOfQueue(b, s);
    Eighth(s);
  }

  method TreeFind(M: Mstate, x: Addr, size: nat) returns (found: bool)
    requires M.Binned() && MIN_LARGE_SIZE <= size < TWO64 && SizesAgree(M.b, M.head)
    requires x in M.b.of ==> M.b.of[x] == size && size in M.b.q && x in M.b.q[size]
    ensures found <==> x in M.b.of
  {
    hide BinInv, IsMarked, Ring, NoDup, Index, Bit, OnPath, LeftShift, OpenBits, Oldest, SizesAgree, TagsGuarded,
         LinksGuarded;
    found := false;
    var tidx := Index(size);
    TreeSizes(M.b, M.m, M.end, M.L());
    if size in M.b.q { BinMarked(M.b, M.m, M.end, M.L(), size); }
    if IsMarked(M.treemap, tidx) {
      var t := DownTo(M, size);
      if t != 0 {
        RingOldest(M.b, M.m, M.end, M.L(), size);
        QueueMembers(M.b, M.m, M.end, M.L(), size);
        OldestIs(M.b, size);
        found := RingFind(M, t, x, M.b.q[size]);
      }
    }
  }

  lemma TreeSizes(b: Bins, m: nat, n: nat, l: Links)
    requires BinInv(b, m, n, l)
    ensures forall s :: s in b.trie.node <==> s in b.q && s >= MIN_LARGE_SIZE
    ensures 0 !in b.q
  {
    hide BinInv, TagsGuarded, LinksGuarded;
    InvParts(b, m, n, l);
    KeysOf(b, m, l);
    NoZero(b);
  }

  lemma QueueMembers(b: Bins, m: nat, n: nat, l: Links, s: nat)
    requires BinInv(b, m, n, l) && s in b.q
    ensures forall p :: p in b.q[s] ==> p in b.of && b.of[p] == s
  {
    hide BinInv, TagsGuarded, LinksGuarded;
    InvParts(b, m, n, l);
    OldestOf(b, s);
  }

  lemma OldestIs(b: Bins, s: nat)
    requires s in b.q && |b.q[s]| > 0
    ensures Oldest(b.q, s) == b.q[s][0]
  {
  }

  // The node of a size, or 0, found by following its bits down from the root.
  method DownTo(M: Mstate, size: nat) returns (t: Addr)
    requires M.Binned() && MIN_LARGE_SIZE <= size < TWO64 && SizesAgree(M.b, M.head) && IsMarked(M.treemap, Index(size))
    ensures t != 0 <==> size in M.b.q
    ensures t != 0 ==> t == Oldest(M.b.q, size)
  {
    hide BinInv, IsMarked, Index, Bit, OnPath, Wf, LeftShift, OpenBits, Oldest, Reg, TagsGuarded, LinksGuarded;
    PathStart(M.b, M.m, M.end, M.L(), size);
    t := M.treebins[Index(size)];
    ghost var s := M.b.trie.root[Index(size)];
    OnPathNode(M.b, s, size);
    AtNode(M.b, M.m, M.end, M.L(), s);
    var sizebits := Reg(size, LeftShift(Index(size)));
    while t != 0 && M.head[t].size != size
      invariant t == 0 ==> size !in M.b.q
      invariant t != 0 ==>
        && s in M.b.trie.node && OnPath(M.b, s, size) && M.b.trie.node[s].lev <= 64
        && t == Oldest(M.b.q, s) && t in M.b.of && M.b.of[t] == s && s in M.b.q
        && sizebits == Reg(size, 64 - M.b.trie.node[s].lev)
      decreases if t != 0 then 1 + M.b.trie.node[s].lev else 0
    {
      ghost var s';
      t, sizebits, s' := StepDown(M, size, t, sizebits, s);
      s := s';
    }
  }

  // One step down the path of a size.
  method StepDown(M: Mstate, size: nat, t: Addr, sizebits: nat, ghost s: nat)
    returns (t': Addr, sizebits': nat, ghost s': nat)
    requires M.Binned() && size < TWO64 && size != s
    requires s in M.b.trie.node && OnPath(M.b, s, size) && M.b.trie.node[s].lev <= 64
    requires t == Oldest(M.b.q, s) && sizebits == Reg(size, 64 - M.b.trie.node[s].lev) && size >= MIN_LARGE_SIZE
    ensures t' == 0 ==> size !in M.b.q
    ensures t' != 0 ==>
      && s' in M.b.trie.node && OnPath(M.b, s', size) && M.b.trie.node[s'].lev < M.b.trie.node[s].lev
      && t' == Oldest(M.b.q, s') && t' in M.b.of && M.b.of[t'] == s' && s' in M.b.q
      && sizebits' == Reg(size, 64 - M.b.trie.node[s'].lev)
  {
    hide BinInv, IsMarked, Index, Bit, OnPath, Wf, OpenBits, Oldest, Reg;
    PathDown(M.b, M.m, M.end, M.L(), s, size);
    AtNode(M.b, M.m, M.end, M.L(), s);
    Steer(size, M.b.trie.node[s].lev);
    var bit := (sizebits / TWO63) % 2;
    t' := if bit == 0 then M.child0[t] else M.child1[t];
    sizebits' := (2 * sizebits) % TWO64;
    s' := M.b.trie.node[s].Kid(bit);
    if t' != 0 {
      OnPathNode(M.b, s', size);
      AtNode(M.b, M.m, M.end, M.L(), s');
    }
  }

  // -------------------------------------------------- traverse_and_check

  method TraverseAndCheck(M: Mstate) returns (sum: nat)
    requires M.Inv()
    ensures sum == M.end - M.base
  {
    hide TagInv, BinInv, Agree, ChunkOk, FreeChunkOk, InuseChunk, TagsGuarded, LinksGuarded;
    Parts(M, M.Dv());
    TagBounds(M.G());
    AboveBase(M.G());
    sum := M.topsize + TOP_FOOT_SIZE;
    var q := M.base;
    var lastq: Addr := 0;
    assert M.head[q].pinuse;
    while q < M.end && q != M.top
      invariant M.base <= q <= M.top && M.G().Border(q)
      invariant sum == M.topsize + TOP_FOOT_SIZE + (q - M.base)
      invariant lastq != 0 ==> lastq in M.live && lastq < |M.head| && M.G().Next(lastq) == q
      decreases M.top - q
    {
      Walk(M, q);
      sum := sum + M.head[q].size;
      var found := BinFind(M, q);
      if IsInuse(M.head[q]) {
        assert !found;
        InusePasses(M, q);
        assert InuseChunk(M, q);
      } else {
        FreePasses(M, q);
        assert q == M.dv || found;
        if lastq != 0 { TwoFree(M, lastq); }
        assert lastq == 0 || IsInuse(M.head[lastq]);
        assert FreeChunkOk(M, q);
      }
      lastq := q;
      q := q + M.head[q].size;
    }
  }

  // A chunk met on the way from the base to top.
  lemma Walk(M: Mstate, q: Addr)
    requires M.Inv() && M.G().Border(q) && q != M.top
    ensures q in M.live && q < |M.head| && 32 <= M.head[q].size < TWO64
    ensures M.G().Border(q + M.head[q].size) && q + M.head[q].size <= M.top
    ensures q == M.base || Floor(M.m) <= q
    ensures IsInuse(M.head[q]) <==> M.head[q].cinuse
    ensures q in M.b.of ==> M.b.of[q] == M.head[q].size && !M.head[q].cinuse
  {
    hide TagInv, BinInv, Agree, TagsGuarded, LinksGuarded;
    Parts(M, M.Dv());
    ChunkAt(M, M.Dv(), q);
    At(M.G(), q);
    if q in M.b.of { BinnedAt(M, M.Dv(), q); }
  }

  // No two free chunks touch.
  lemma TwoFree(M: Mstate, p: Addr)
    requires M.Inv() && p in M.live && p < |M.head| && Next(M, p) in M.live
    requires Next(M, p) < |M.head| && !M.head[Next(M, p)].cinuse
    ensures IsInuse(M.head[p])
  {
    hide TagInv, BinInv, Agree, TagsGuarded, LinksGuarded;
    Parts(M, M.Dv());
    At(M.G(), p);
  }

  // ------------------------------------------------------------ small bins

  // What do_check_smallbin asserts of a chunk p of bin i.
  predicate InSmallbin(M: Mstate, i: nat, p: Addr)
    reads M
  {
    && FreeChunkOk(M, p)
    && p < |M.head| && M.head[p].size / 8 == i
    && p < |M.bk|
    && (M.bk[p] == SmallbinAt(M.m, i) || (M.bk[p] < |M.head| && M.head[M.bk[p]].size == M.head[p].size))
    && InuseChunk(M, Next(M, p))
  }

  // do_check_smallbin
  method CheckSmallbin(M: Mstate, i: nat)
    requires M.Inv() && i < NBINS
  {
    hide TagInv, BinInv, Agree, IsMarked, Ring, NoDup, InSmallbin, LinkedBack, TagsGuarded, LinksGuarded;
    var b := SmallbinAt(M.m, i);
    SmallHeader(M.b, M.m, M.end, M.L(), 8 * i);
    var p := M.bk[b];
    var empty := !IsMarked(M.smallmap, i);
    if !empty {
      ghost var c, j := Cycle(M.b.q, M.m, 8 * i), 1;
      HeaderOnly(c, p);
      assert c[1] == p;
      assert p != b;
      while p != b
        invariant 1 <= j <= |c| && p == (if j == |c| then c[0] else c[j])
        decreases |c| - j
      {
        HeaderOnly(c, p);
        SmallChunkPasses(M, i, p);
        assert InSmallbin(M, i, p);
        RingAt(M.fd, M.bk, c, j);
        p := M.bk[p];
        j := j + 1;
      }
    }
  }

  lemma HeaderOnly(c: seq<Addr>, p: Addr)
    requires NoDup(c) && |c| > 0
    ensures forall j :: 1 <= j < |c| ==> c[j] != c[0]
  {
  }

  lemma SmallChunkPasses(M: Mstate, i: nat, p: Addr)
    requires M.Inv() && i < NBINS && 8 * i in M.b.q && p in M.b.q[8 * i]
    ensures InSmallbin(M, i, p)
  {
    hide TagInv, BinInv, Agree, FreeChunkOk, InuseChunk, TagsGuarded, LinksGuarded;
    QueueMembers(M.b, M.m, M.end, M.L(), 8 * i);
    BinnedAt(M, M.Dv(), p);
    FreePasses(M, p);
    FollowedByUsed(M, p);
    InusePasses(M, Next(M, p));
    SmallNeighbours(M.b, M.m, M.end, M.L(), 8 * i, p);
    Parts(M, M.Dv());
    if M.bk[p] in M.b.of { BinnedAt(M, M.Dv(), M.bk[p]); }
  }

  // A free chunk is followed by one in use.
  lemma FollowedByUsed(M: Mstate, p: Addr)
    requires M.Inv() && p in M.live && p < |M.head| && !M.head[p].cinuse
    ensures Next(M, p) in M.live && Next(M, p) < |M.head| && M.head[Next(M, p)].cinuse && !M.head[Next(M, p)].pinuse
  {
    hide TagInv, BinInv, Agree, ChunkOk, TagsGuarded, LinksGuarded;
    Parts(M, M.Dv());
    FreeChunk(M.G(), p);
    PinuseStays(M.G(), p);
  }

  // ------------------------------------------------------------- tree bins

  // What do_check_tree asserts of every chunk u of a ring.
  predicate InTreebin(M: Mstate, u: Addr, tindex: nat, tsize: nat)
    reads M
  {
    && AnyChunk(M, u)
    && u < |M.index| && M.index[u] == tindex
    && u < |M.head| && M.head[u].size == tsize
    && !IsInuse(M.head[u])
    && Next(M, u) < |M.head| && !M.head[Next(M, u)].pinuse
    && LinkedBack(M, u)
  }

  // The chunk a treebin points to, when a is the address of one.
  function TreebinWord(M: Mstate, a: Addr): Addr
    reads M
  {
    if TreebinAt(M.m, 0) <= a && (a - TreebinAt(M.m, 0)) % 8 == 0 && (a - TreebinAt(M.m, 0)) / 8 < |M.treebins|
    then M.treebins[(a - TreebinAt(M.m, 0)) / 8] else 0
  }

  // What do_check_tree asserts of the one chunk u of a ring that has a parent.
  predicate TreeNode(M: Mstate, u: Addr)
    reads M
  {
    && ParentKnows(M, u) && u < |M.child0| && u < |M.child1|
    && ChildOf(M, u, M.child0[u]) && ChildOf(M, u, M.child1[u])
    && (M.child0[u] != 0 && M.child1[u] != 0 ==>
          && M.child0[u] < |M.head| && M.child1[u] < |M.head|
          && M.head[M.child0[u]].size < M.head[M.child1[u]].size)
  }

  predicate ParentKnows(M: Mstate, u: Addr)
    reads M
  {
    && u < |M.parent|
    && var P := M.parent[u];
       && P != u
       && ((P < |M.child0| && M.child0[P] == u) || (P < |M.child1| && M.child1[P] == u) || TreebinWord(M, P) == u)
  }

  predicate ChildOf(M: Mstate, u: Addr, c: Addr)
    reads M
  {
    c != 0 ==> c < |M.parent| && M.parent[c] == u && c != u
  }

  // The size and the index of a ring in a tree agree.
  predicate TreeSize(tindex: nat, tsize: nat) {
    && tindex == Index(tsize) && tsize >= MIN_LARGE_SIZE
    && tsize >= MinSize(tindex)
    && (tindex == NTREEBINS - 1 || tsize < MinSize(tindex + 1))
  }

  // do_check_tree, for the tree below the ring of size s
  method CheckTree(M: Mstate, t: Addr, ghost s: nat)
    requires M.Inv() && s in M.b.trie.node && t == Oldest(M.b.q, s)
    decreases M.b.trie.node[s].lev
  {
    hide TagInv, BinInv, Agree, InTreebin, TreeNode, TreeSize, Ring, NoDup, Oldest, IsMarked, ChunkOk, Index,
         TagsGuarded, LinksGuarded;
    var head: Addr := 0;
    var u := t;
    AtNode(M.b, M.m, M.end, M.L(), s);
    HomeOf(M.b, M.m, M.end, M.L(), t);
    TreeChunk(M, s, t);
    var tindex := M.index[t];
    var tsize := M.head[t].size;
    assert TreeSize(tindex, tsize);
    RingOldest(M.b, M.m, M.end, M.L(), s);
    OldestIs(M.b, s);
    ghost var c := M.b.q[s];
    ghost var j := |c|;
    HeaderOnly(c, u);
    while true
      invariant 1 <= j <= |c| && u == (if j == |c| then c[0] else c[j])
      invariant head == if j == |c| then 0 else t
      decreases j
    {
      TreeChunk(M, s, u);
      assert InTreebin(M, u, tindex, tsize);
      if M.parent[u] == 0 {
        assert M.child0[u] == 0;
        assert M.child1[u] == 0;
      } else {
        assert head == 0;
        head := u;
        TreeNodePasses(M, s);
        assert TreeNode(M, u);
        if M.child0[u] != 0 {
          CheckTree(M, M.child0[u], M.b.trie.node[s].kid0);
        }
        if M.child1[u] != 0 {
          CheckTree(M, M.child1[u], M.b.trie.node[s].kid1);
        }
      }
      RingAt(M.fd, M.bk, c, if j == |c| then 0 else j);
      u := M.fd[u];
      j := j - 1;
      if u == t {
        break;
      }
    }
    assert head != 0;
  }

  // A chunk of a ring in a tree.
  lemma TreeChunk(M: Mstate, s: nat, u: Addr)
    requires M.Inv() && s in M.b.trie.node && s in M.b.q && u in M.b.q[s]
    ensures u < |M.index| && u < |M.head| && M.head[u].size == s
    ensures InTreebin(M, u, M.index[u], s) && TreeSize(M.index[u], s)
    ensures M.index[u] == Index(s)
    ensures u < |M.parent| && u < |M.child0| && u < |M.child1|
    ensures u == Oldest(M.b.q, s) <==> M.parent[u] != 0
    ensures u != Oldest(M.b.q, s) ==> M.child0[u] == 0 == M.child1[u]
  {
    hide TagInv, BinInv, Agree, FreeChunkOk, Index, Oldest, TagsGuarded, LinksGuarded;
    QueueMembers(M.b, M.m, M.end, M.L(), s);
    BinnedAt(M, M.Dv(), u);
    FreePasses(M, u);
    PassesInTreebin(M, u);
    TreeFields(M.b, M.m, M.end, M.L(), s, u);
    SizeRange(s);
  }

  lemma PassesInTreebin(M: Mstate, u: Addr)
    requires M.Inv() && FreeChunkOk(M, u) && u in M.b.of
    ensures u < |M.head| && AnyChunk(M, u) && !IsInuse(M.head[u])
    ensures Next(M, u) < |M.head| && !M.head[Next(M, u)].pinuse && LinkedBack(M, u)
  {
    hide TagInv, BinInv, LinkedBack, TagsGuarded, LinksGuarded;
    DvOutside(M, u);
    LinksBack(M.b, M.m, M.end, M.L(), u);
    Mutual(M, u);
  }

  lemma TreeFields(b: Bins, m: nat, n: nat, l: Links, s: nat, u: nat)
    requires BinInv(b, m, n, l) && s in b.trie.node && s in b.q && u in b.q[s]
    ensures u in b.of && b.of[u] == s && MIN_LARGE_SIZE <= s
    ensures u < n && Sized(l, n) && l.index[u] == Index(s)
    ensures u == Oldest(b.q, s) <==> l.parent[u] != 0
    ensures u != Oldest(b.q, s) ==> l.child0[u] == 0 == l.child1[u]
  {
    hide BinInv, TreesOk, Index, Wf, QueuesOk, HeadOk, TailOk, TagsGuarded, LinksGuarded;
    InvParts(b, m, n, l);
    QueueMembers(b, m, n, l, s);
    HomeOf(b, m, n, l, u);
    KeysOf(b, m, l);
    IndexedOf(b, m, l, u);
    TreeOf(b, m, l, s);
    ParentOf(b, m, n, l, s);
    if u != Oldest(b.q, s) { YoungerFields(b, l, s, u); }
  }

  lemma YoungerFields(b: Bins, l: Links, s: nat, u: nat)
    requires s in b.q && u in b.q[s] && u != Oldest(b.q, s) && TailOk(b.q[s], l.child0, l.child1, l.parent)
    ensures u < |l.child0| && u < |l.child1| && u < |l.parent|
    ensures l.child0[u] == 0 && l.child1[u] == 0 && l.parent[u] == 0
  {
    var j :| 0 <= j < |b.q[s]| && b.q[s][j] == u;
  }

  // The parent of the oldest chunk of a size.
  lemma ParentOf(b: Bins, m: nat, n: nat, l: Links, s: nat)
    requires BinInv(b, m, n, l) && s in b.trie.node
    ensures Sized(l, n) && Oldest(b.q, s) < n
    ensures var e, P := b.trie.node[s], l.parent[Oldest(b.q, s)];
      && P != 0
      && (e.par == 0 ==> P == TreebinAt(m, Index(s)) && l.treebins[Index(s)] == Oldest(b.q, s))
      && (e.par != 0 ==>
            e.par in b.trie.node && P == Oldest(b.q, e.par)
              && (b.trie.node[e.par].kid0 == s || b.trie.node[e.par].kid1 == s))
  {
    hide BinInv, Index, Wf, QueuesOk, RingsOk, SmallmapOk, TreesOk, Hi, Bit, IsMarked, OpenBits, Oldest, TagsGuarded,
         LinksGuarded;
    InvParts(b, m, n, l);
    KeysOf(b, m, l);
    TreeOf(b, m, l, s);
    KinOk(b.trie, s);
    AtNode(b, m, n, l, s);
    var e := b.trie.node[s];
    if e.par != 0 {
      AtNode(b, m, n, l, e.par);
    } else {
      TreebinOf(b, m, l, Index(s));
    }
  }

  lemma TreeNodePasses(M: Mstate, s: nat)
    requires M.Inv() && s in M.b.trie.node
    ensures TreeNode(M, Oldest(M.b.q, s))
    ensures var u, e := Oldest(M.b.q, s), M.b.trie.node[s];
      && u < |M.child0| && u < |M.child1|
      && (M.child0[u] != 0 ==> KidOf(M.b, s, e.kid0) && M.child0[u] == Oldest(M.b.q, e.kid0))
      && (M.child1[u] != 0 ==> KidOf(M.b, s, e.kid1) && M.child1[u] == Oldest(M.b.q, e.kid1))
  {
    hide TagInv, BinInv, Agree, Index, Oldest, KidOf, TagsGuarded, LinksGuarded;
    var u, e := Oldest(M.b.q, s), M.b.trie.node[s];
    Parts(M, M.Dv());
    AtNode(M.b, M.m, M.end, M.L(), s);
    ParentPasses(M, s);
    if M.child0[u] != 0 { KidPasses(M, s, e.kid0); }
    if M.child1[u] != 0 { KidPasses(M, s, e.kid1); }
    if M.child0[u] != 0 && M.child1[u] != 0 { KidsInOrder(M.b, M.m, M.end, M.L(), s); }
  }

  ghost predicate KidOf(b: Bins, s: nat, k: nat) {
    k in b.trie.node && s in b.trie.node && b.trie.node[k].par == s && b.trie.node[k].lev < b.trie.node[s].lev
  }

  lemma ParentPasses(M: Mstate, s: nat)
    requires M.Inv() && s in M.b.trie.node
    ensures ParentKnows(M, Oldest(M.b.q, s))
  {
    hide TagInv, BinInv, Agree, Index, Oldest, TagsGuarded, LinksGuarded;
    var u, e := Oldest(M.b.q, s), M.b.trie.node[s];
    ParentOf(M.b, M.m, M.end, M.L(), s);
    AtNode(M.b, M.m, M.end, M.L(), s);
    if e.par != 0 {
      AtNode(M.b, M.m, M.end, M.L(), e.par);
      NotOwnParent(M.b, M.m, M.end, M.L(), s);
    } else {
      TreebinWordIs(M, Index(s));
    }
  }

  lemma TreebinWordIs(M: Mstate, i: nat)
    requires i < |M.treebins|
    ensures TreebinWord(M, TreebinAt(M.m, i)) == M.treebins[i]
  {
  }

  lemma NotOwnParent(b: Bins, m: nat, n: nat, l: Links, s: nat)
    requires BinInv(b, m, n, l) && s in b.trie.node && b.trie.node[s].par != 0
    ensures b.trie.node[s].par != s
  {
    hide BinInv, Index, Wf, TreesOk, Hi, Bit, OpenBits, TagsGuarded, LinksGuarded;
    InvParts(b, m, n, l);
    KeysOf(b, m, l);
    KinOk(b.trie, s);
  }

  lemma KidPasses(M: Mstate, s: nat, k: nat)
    requires M.Inv() && s in M.b.trie.node && k != 0 && (k == M.b.trie.node[s].kid0 || k == M.b.trie.node[s].kid1)
    ensures KidOf(M.b, s, k) && ChildOf(M, Oldest(M.b.q, s), Oldest(M.b.q, k))
    ensures Oldest(M.b.q, k) < |M.head| && M.head[Oldest(M.b.q, k)].size == k
  {
    hide TagInv, BinInv, Agree, Index, Oldest, Wf, TreesOk, Hi, Bit, OpenBits, TagsGuarded, LinksGuarded;
    InvParts(M.b, M.m, M.end, M.L());
    KeysOf(M.b, M.m, M.L());
    KinOk(M.b.trie, s);
    ParentOf(M.b, M.m, M.end, M.L(), k);
    AtNode(M.b, M.m, M.end, M.L(), k);
    BinnedAt(M, M.Dv(), Oldest(M.b.q, k));
    AtNode(M.b, M.m, M.end, M.L(), s);
  }

  lemma KidsInOrder(b: Bins, m: nat, n: nat, l: Links, s: nat)
    requires BinInv(b, m, n, l) && s in b.trie.node && b.trie.node[s].kid0 != 0 && b.trie.node[s].kid1 != 0
    ensures b.trie.node[s].kid0 < b.trie.node[s].kid1
  {
    hide BinInv, Index, Wf, TreesOk, Hi, OpenBits, TagsGuarded, LinksGuarded;
    InvParts(b, m, n, l);
    KeysOf(b, m, l);
    KinOk(b.trie, s);
    var e := b.trie.node[s];
    BitOrder(e.kid0, e.kid1, e.lev - 1);
  }

  // Numbers with the same bits above k are in the order of their bits k.
  lemma BitOrder(x: nat, y: nat, k: nat)
    requires Hi(x, k + 1) == Hi(y, k + 1) && Bit(x, k) == 0 && Bit(y, k) == 1
    ensures x < y
  {
    HiLess(x, y, k);
  }

  // do_check_treebin
  method CheckTreebin(M: Mstate, i: nat)
    requires M.Inv() && i < NTREEBINS
  {
    hide TagInv, BinInv, Agree, IsMarked, Oldest, TreesOk, Index, TagsGuarded, LinksGuarded;
    InvParts(M.b, M.m, M.end, M.L());
    TreebinOf(M.b, M.m, M.L(), i);
    RootsOk(M.b.trie, i);
    var t := M.treebins[i];
    var empty := !IsMarked(M.treemap, i);
    if t == 0 {
      RootNull(M, i);
      assert empty;
    }
    if !empty {
      CheckTree(M, t, M.b.trie.root[i]);
    }
  }

  lemma RootNull(M: Mstate, i: nat)
    requires M.Inv() && i < NTREEBINS && |M.treebins| == NTREEBINS && M.treebins[i] == 0
    ensures !IsMarked(M.treemap, i)
  {
    hide TagInv, BinInv, Agree, IsMarked, Oldest, TreesOk, Index, TagsGuarded, LinksGuarded;
    InvParts(M.b, M.m, M.end, M.L());
    TreebinOf(M.b, M.m, M.L(), i);
    RootsOk(M.b.trie, i);
    if M.b.trie.root[i] != 0 { AtNode(M.b, M.m, M.end, M.L(), M.b.trie.root[i]); }
  }

  // ---------------------------------------------------------- the whole state

  // do_check_malloc_state: every assert holds, and the total is all of
  // the segment from its first aligned chunk on.
  method CheckMallocState(M: Mstate) returns (total: nat)
    requires M.Inv()
    ensures total == M.end - M.base
  {
    hide TagInv, BinInv, Agree, TopChunk, ChunkOk, TagsGuarded, LinksGuarded;
    for i := 0 to NBINS {
      CheckSmallbin(M, i);
    }
    for i := 0 to NTREEBINS {
      CheckTreebin(M, i);
    }
    if M.dvsize != 0 {
      ChunkAt(M, M.Dv(), M.dv);
      LooseChunk(M, M.Dv(), M.dv);
      FreePasses(M, M.dv);
      assert AnyChunk(M, M.dv);
      assert M.dvsize == M.head[M.dv].size;
      assert M.dvsize >= MIN_CHUNK_SIZE;
      var found := BinFind(M, M.dv);
      assert !found;
    }
    TopPasses(M);
    TopUnbinned(M);
    assert TopChunk(M, M.top) && M.topsize > 0;
    var found := BinFind(M, M.top);
    assert !found;
    total := TraverseAndCheck(M);
    assert total <= M.end - M.least;
  }

  lemma TopUnbinned(M: Mstate)
    requires M.Inv()
    ensures M.top !in M.b.of && M.top < |M.head| && M.head[M.top].size < TWO64 && Floor(M.m) <= M.top
  {
    hide TagInv, BinInv, Agree, ChunkOk, TagsGuarded, LinksGuarded;
    Parts(M, M.Dv());
    TagBounds(M.G());
    Bounded(M);
    if M.top in M.b.of { BinnedAt(M, M.Dv(), M.top); }
    NothingLower(M);
  }

  lemma NothingLower(M: Mstate)
    requires M.Inv()
    ensures Floor(M.m) <= M.top
  {
    hide TagInv, BinInv, Agree, TagsGuarded, LinksGuarded;
    Parts(M, M.Dv());
    At(M.G(), M.base);
  }

  // Everything the checks assert, of every chunk and every bin.
  ghost predicate StateOk(M: Mstate)
    reads M
  {
    && TopChunk(M, M.top)
    && (forall p :: p in M.live ==> p < |M.head| && if M.head[p].cinuse then InuseChunk(M, p) else FreeChunkOk(M, p))
    && (forall p :: p in M.live ==> if p < |M.head| && M.head[p].cinuse then p !in M.b.of else p == M.dv || p in M.b.of)
    && (forall p :: p in M.b.of && M.b.of[p] < MIN_LARGE_SIZE ==> InSmallbin(M, M.b.of[p] / 8, p))
    && (forall p :: p in M.b.of && M.b.of[p] >= MIN_LARGE_SIZE ==> InTreebin(M, p, Index(M.b.of[p]), M.b.of[p]))
    && (forall s :: s in M.b.trie.node ==> TreeSize(Index(s), s) && TreeNode(M, Oldest(M.b.q, s)))
  }

  // A sound heap passes every check there is.
  lemma StatePasses(M: Mstate)
    requires M.Inv()
    ensures StateOk(M)
  {
    hide TagInv, BinInv, Agree, TopChunk, InuseChunk, FreeChunkOk, InSmallbin, InTreebin, TreeNode, TreeSize, Index,
         Oldest, ChunkOk, TagsGuarded, LinksGuarded;
    TopPasses(M);
    forall p | p in M.live
      ensures p < |M.head| && if M.head[p].cinuse then InuseChunk(M, p) else FreeChunkOk(M, p)
      ensures if p < |M.head| && M.head[p].cinuse then p !in M.b.of else p == M.dv || p in M.b.of
    {
      ChunkAt(M, M.Dv(), p);
      if M.head[p].cinuse {
        InusePasses(M, p);
        if p in M.b.of { BinnedAt(M, M.Dv(), p); }
      } else {
        FreePasses(M, p);
      }
    }
    TreeSizes(M.b, M.m, M.end, M.L());
    forall p | p in M.b.of
      ensures M.b.of[p] < MIN_LARGE_SIZE ==> InSmallbin(M, M.b.of[p] / 8, p)
      ensures M.b.of[p] >= MIN_LARGE_SIZE ==> InTreebin(M, p, Index(M.b.of[p]), M.b.of[p])
    {
      HomeOf(M.b, M.m, M.end, M.L(), p);
      if M.b.of[p] < MIN_LARGE_SIZE {
        Eights(M.b, M.m, M.end, M.L(), M.b.of[p]);
        SmallChunkPasses(M, M.b.of[p] / 8, p);
      } else {
        TreeChunk(M, M.b.of[p], p);
      }
    }
    forall s | s in M.b.trie.node
      ensures TreeSize(Index(s), s) && TreeNode(M, Oldest(M.b.q, s))
    {
      AtNode(M.b, M.m, M.end, M.L(), s);
      HomeOf(M.b, M.m, M.end, M.L(), Oldest(M.b.q, s));
      TreeChunk(M, s, Oldest(M.b.q, s));
      TreeNodePasses(M, s);
    }
  }
}
