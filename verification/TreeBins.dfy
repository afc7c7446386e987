// Linking free chunks into the tree bins.
module TreeBins {
  import opened Word
  import opened TreeIndex
  import opened BinMap
  import opened Rings
  import opened Tries
  import opened Bins
  import opened TreeLinks
  import opened Tags
  import opened Mstate

  // The head words of binned chunks carry their sizes.
  ghost predicate SizesAgree(b: Bins, head: seq<Head>) {
    forall p :: p in b.of ==> p < |head| && head[p].size == b.of[p]
  }

  // Size t lies on the path that leads to size s, or to where it belongs.
  ghost predicate OnPath(b: Bins, t: nat, s: nat) {
    && t in b.trie.node
    && Index(t) == Index(s)
    && Hi(t, b.trie.node[t].lev) == Hi(s, b.trie.node[t].lev)
    && (s in b.trie.node ==> Under(b.trie, t, s))
  }

  lemma OnPathNode(b: Bins, t: nat, s: nat)
    requires OnPath(b, t, s)
    ensures t in b.trie.node
  {
  }

  lemma PathStart(b: Bins, m: nat, n: nat, l: Links, s: nat)
    requires BinInv(b, m, n, l) && MIN_LARGE_SIZE <= s < TWO64 && IsMarked(l.treemap, Index(s))
    ensures |b.trie.root| == NTREEBINS == |l.treebins|
    ensures var t := b.trie.root[Index(s)];
      && OnPath(b, t, s)
      && b.trie.node[t].lev == OpenBits(Index(s))
      && l.treebins[Index(s)] == Oldest(b.q, t)
  {
    hide QueuesOk, RingsOk, SmallmapOk, TreesOk, Index, OpenBits, Hi, Wf, IsMarked;
    KeysOf(b, m, l);
    TreebinOf(b, m, l, Index(s));
    RootsOk(b.trie, Index(s));
    var t := b.trie.root[Index(s)];
    NodeOk(b.trie, t);
    SameBin(t, s);
    if s in b.trie.node {
      UnderRoot(b.trie, s);
    }
  }

  lemma PathDown(b: Bins, m: nat, n: nat, l: Links, t: nat, s: nat)
    requires BinInv(b, m, n, l) && OnPath(b, t, s) && t != s
    ensures b.trie.node[t].lev > 0
    ensures var k := b.trie.node[t].lev - 1; var u := b.trie.node[t].Kid(Bit(s, k));
      if u == 0 then s !in b.q || s < MIN_LARGE_SIZE
      else OnPath(b, u, s) && b.trie.node[u].lev == k
  {
    hide QueuesOk, RingsOk, SmallmapOk, TreesOk, Index, OpenBits, Wf, IsMarked;
    KeysOf(b, m, l);
    NodeOk(b.trie, t);
    var k := b.trie.node[t].lev - 1;
    var u := b.trie.node[t].Kid(Bit(s, k));
    if u != 0 {
      PathKids(b.trie, t, s);
    }
    if s in b.trie.node {
      UnderStep(b.trie, t, s);
    }
  }

  // The chunk that stands for a size of the tree, and its children.
  lemma AtNode(b: Bins, m: nat, n: nat, l: Links, t: nat)
    requires BinInv(b, m, n, l) && t in b.trie.node
    ensures var T, e := Oldest(b.q, t), b.trie.node[t];
      && Sized(l, n) && Floor(m) <= T < n && T in b.of && b.of[T] == t
      && l.child0[T] == Oldest(b.q, e.kid0)
      && l.child1[T] == Oldest(b.q, e.kid1)
      && (e.kid0 == 0 <==> Oldest(b.q, e.kid0) == 0)
      && (e.kid1 == 0 <==> Oldest(b.q, e.kid1) == 0)
      && MIN_LARGE_SIZE <= t < TWO64 && e.lev <= 64 && t in b.q
  {
    hide QueuesOk, RingsOk, SmallmapOk, TreesOk, Index, Wf, IsMarked;
    KeysOf(b, m, l);
    TreeOf(b, m, l, t);
    OldestOf(b, t);
    NoZero(b);
    KinOk(b.trie, t);
    var e := b.trie.node[t];
    if e.kid0 != 0 { OldestOf(b, e.kid0); }
    if e.kid1 != 0 { OldestOf(b, e.kid1); }
  }

  lemma Steer(s: nat, lev: nat)
    requires 0 < lev <= 64
    ensures (Reg(s, 64 - lev) / TWO63) % 2 == Bit(s, lev - 1)
    ensures (2 * Reg(s, 64 - lev)) % TWO64 == Reg(s, 64 - (lev - 1))
  {
    RegTop(s, 64 - lev);
    RegStep(s, 64 - lev);
  }

  method LinkRoot(M: Mstate, x: Addr, s: nat)
    requires M.Binned() && x !in M.b.of && Floor(M.m) <= x < M.end
    requires MIN_LARGE_SIZE <= s < TWO64 && s % 16 == 0 && !IsMarked(M.treemap, Index(s))
    requires Sized(M.L(), M.end) && M.index[x] == Index(s) && M.child0[x] == 0 == M.child1[x]
    modifies M`treemap, M`treebins, M`fd, M`bk, M`parent, M`b
    ensures M.Binned()
    ensures M.b.q == Put(old(M.b.q), x, s) && M.b.of == old(M.b.of)[x := s]
    ensures ListsSame(M.b.of, M.m, M.end, old(M.L()), M.L()) && TreesSame(M.b.of, M.end, old(M.L()), M.L())
  {
    hide BinInv, ListsSame, TreesSame, IsMarked, Mark, Index, QueuesOk, TreesOk, TreebinOk, Wf;
    ghost var b, l := M.b, M.L();
    EmptyBin(b, M.m, M.end, l, s);
    var i := Index(s);
    M.treemap := Mark(M.treemap, i);
    M.treebins := M.treebins[i := x];
    M.parent := M.parent[x := TreebinAt(M.m, i)];
    M.fd := M.fd[x := x];
    M.bk := M.bk[x := x];
    M.b := Bins(Put(b.q, x, s), b.of[x := s], InsertRoot(b.trie, s));
    InsertRootTrees(b, M.b, M.m, M.end, l, M.L(), x, s);
    InsertLargeInv(b, M.b, M.m, M.end, l, M.L(), x, s);
    RingFrames(b, M.m, M.end, l, M.L(), x, s);
    RootFrame(b, M.m, M.end, l, M.L(), x, s);
  }

  lemma EmptyBin(b: Bins, m: nat, n: nat, l: Links, s: nat)
    requires BinInv(b, m, n, l) && s >= MIN_LARGE_SIZE && !IsMarked(l.treemap, Index(s))
    ensures QueuesOk(b) && TreesOk(b, m, l)
    ensures |b.trie.root| == NTREEBINS && b.trie.root[Index(s)] == 0 && s !in b.q
  {
    hide QueuesOk, RingsOk, SmallmapOk, TreesOk, IsMarked, Index, Wf;
    KeysOf(b, m, l);
    TreebinOf(b, m, l, Index(s));
    NoZero(b);
    if s in b.q {
      UnderRoot(b.trie, s);
    }
  }

  // *C = X, where C is the empty child slot of T on the side of bit.
  method LinkKid(M: Mstate, T: Addr, bit: nat, x: Addr, s: nat, ghost t: nat)
    requires M.Binned() && x !in M.b.of && Floor(M.m) <= x < M.end
    requires MIN_LARGE_SIZE <= s < TWO64 && s % 16 == 0
    requires Sized(M.L(), M.end) && M.index[x] == Index(s) && M.child0[x] == 0 == M.child1[x]
    requires OnPath(M.b, t, s) && t != s && T == Oldest(M.b.q, t)
    requires M.b.trie.node[t].lev > 0 && bit == Bit(s, M.b.trie.node[t].lev - 1)
    requires M.b.trie.node[t].Kid(bit) == 0
    modifies M`child0, M`child1, M`fd, M`bk, M`parent, M`b
    ensures M.Binned()
    ensures M.b.q == Put(old(M.b.q), x, s) && M.b.of == old(M.b.of)[x := s]
    ensures ListsSame(M.b.of, M.m, M.end, old(M.L()), M.L()) && TreesSame(M.b.of, M.end, old(M.L()), M.L())
  {
    hide BinInv, ListsSame, TreesSame, Index, QueuesOk, TreesOk, Wf, Hi, Bit;
    ghost var b, l := M.b, M.L();
    AtNode(b, M.m, M.end, l, t);
    PathDown(b, M.m, M.end, l, t, s);
    InvParts(b, M.m, M.end, l);
    assert M.OkAddress(T + 32 + 8 * bit);
    if bit == 0 {
      M.child0 := M.child0[T := x];
    } else {
      M.child1 := M.child1[T := x];
    }
    M.parent := M.parent[x := T];
    M.fd := M.fd[x := x];
    M.bk := M.bk[x := x];
    M.b := Bins(Put(b.q, x, s), b.of[x := s], InsertUnder(b.trie, t, s));
    InsertKidTrees(b, M.b, M.m, M.end, l, M.L(), x, s, t);
    InsertLargeInv(b, M.b, M.m, M.end, l, M.L(), x, s);
    RingFrames(b, M.m, M.end, l, M.L(), x, s);
    KidFrame(b, M.m, M.end, l, M.L(), x, s, t);
  }

  lemma InvParts(b: Bins, m: nat, n: nat, l: Links)
    requires BinInv(b, m, n, l)
    ensures QueuesOk(b) && TreesOk(b, m, l) && Sized(l, n)
  {
  }

  // X joins the ring of T, which has its size.
  method LinkYounger(M: Mstate, T: Addr, x: Addr, s: nat)
    requires M.Binned() && x !in M.b.of && Floor(M.m) <= x < M.end
    requires MIN_LARGE_SIZE <= s < TWO64 && s % 16 == 0
    requires Sized(M.L(), M.end) && M.index[x] == Index(s) && M.child0[x] == 0 == M.child1[x]
    requires s in M.b.q && T == Oldest(M.b.q, s)
    modifies M`fd, M`bk, M`parent, M`b
    ensures M.Binned()
    ensures M.b.q == Put(old(M.b.q), x, s) && M.b.of == old(M.b.of)[x := s]
    ensures ListsSame(M.b.of, M.m, M.end, old(M.L()), M.L()) && TreesSame(M.b.of, M.end, old(M.L()), M.L())
  {
    hide BinInv, ListsSame, TreesSame, Index, QueuesOk, TreesOk, Ring;
    ghost var b, l := M.b, M.L();
    InvParts(b, M.m, M.end, l);
    RingOldest(b, M.m, M.end, l, s);
    var F := M.fd[T];
    assert M.OkAddress(T) && M.OkAddress(F);
    M.fd := M.fd[T := x];
    M.bk := M.bk[F := x];
    M.fd := M.fd[x := F];
    M.bk := M.bk[x := T];
    M.parent := M.parent[x := 0];
    M.b := Bins(Put(b.q, x, s), b.of[x := s], b.trie);
    InsertYoungerTrees(b, M.b, M.m, M.end, l, M.L(), x, s);
    InsertLargeInv(b, M.b, M.m, M.end, l, M.L(), x, s);
    RingFrames(b, M.m, M.end, l, M.L(), x, s);
    YoungerFrame(b, M.end, l, M.L(), x, s);
  }

  // The oldest chunk of a large size, and the youngest behind it.
  lemma RingOldest(b: Bins, m: nat, n: nat, l: Links, s: nat)
    requires BinInv(b, m, n, l) && s in b.q && s >= MIN_LARGE_SIZE
    ensures |b.q[s]| > 0 && Sized(l, n)
    ensures forall j :: 0 <= j < |b.q[s]| ==> Floor(m) <= b.q[s][j] < n
    ensures l.fd[b.q[s][0]] == b.q[s][|b.q[s]| - 1]
    ensures Ring(l.fd, l.bk, b.q[s]) && NoDup(b.q[s])
  {
    hide SmallmapOk, TreesOk, Ring, NoDup;
    QueueAt(b, s);
    RingAt(l.fd, l.bk, Cycle(b.q, m, s), 0);
  }

  // Walk down the tree of bin i, which is not empty, to the place of size s.
  method LinkAlongPath(M: Mstate, x: Addr, s: nat, i: nat)
    requires M.Binned() && x !in M.b.of && Floor(M.m) <= x < M.end
    requires MIN_LARGE_SIZE <= s < TWO64 && s % 16 == 0 && i == Index(s) && IsMarked(M.treemap, i)
    requires Sized(M.L(), M.end) && M.index[x] == i && M.child0[x] == 0 == M.child1[x]
    requires SizesAgree(M.b, M.head)
    modifies M`fd, M`bk, M`child0, M`child1, M`parent, M`b
    ensures M.Binned()
    ensures M.b.q == Put(old(M.b.q), x, s) && M.b.of == old(M.b.of)[x := s]
    ensures ListsSame(M.b.of, M.m, M.end, old(M.L()), M.L()) && TreesSame(M.b.of, M.end, old(M.L()), M.L())
  {
    hide BinInv, ListsSame, TreesSame, IsMarked, Index, Bit, OnPath, Wf, LeftShift, OpenBits, Oldest;
    ghost var b, l := M.b, M.L();
    PathStart(b, M.m, M.end, M.L(), s);
    var T := M.treebins[i];
    ghost var t := b.trie.root[i];
    assert t in b.trie.node by { OnPathNode(b, t, s); }
    AtNode(b, M.m, M.end, M.L(), t);
    var K := Reg(s, LeftShift(i));
    while true
      invariant M.b == b && M.L() == l && M.Binned() && SizesAgree(M.b, M.head)
      invariant Sized(M.L(), M.end) && M.index[x] == i && M.child0[x] == 0 == M.child1[x]
      invariant t in b.trie.node && OnPath(b, t, s) && b.trie.node[t].lev <= 64
      invariant T == Oldest(b.q, t) && K == Reg(s, 64 - b.trie.node[t].lev)
      decreases b.trie.node[t].lev
    {
      AtNode(b, M.m, M.end, M.L(), t);
      if M.head[T].size != s {
        PathDown(b, M.m, M.end, M.L(), t, s);
        Steer(s, b.trie.node[t].lev);
        var bit := (K / TWO63) % 2;
        var C := if bit == 0 then M.child0[T] else M.child1[T];
        K := (2 * K) % TWO64;
        if C != 0 {
          T := C;
          t := b.trie.node[t].Kid(bit);
          OnPathNode(b, t, s);
        } else {
          LinkKid(M, T, bit, x, s, t);
          return;
        }
      } else {
        LinkYounger(M, T, x, s);
        return;
      }
    }
  }

  // insert_large_chunk
  method InsertLargeChunk(M: Mstate, x: Addr, s: nat)
    requires M.Binned() && x !in M.b.of && Floor(M.m) <= x < M.end
    requires MIN_LARGE_SIZE <= s < TWO64 && s % 16 == 0
    requires SizesAgree(M.b, M.head)
    modifies M`treemap, M`treebins, M`fd, M`bk, M`child0, M`child1, M`parent, M`index, M`b
    ensures M.Binned()
    ensures M.b.q == Put(old(M.b.q), x, s) && M.b.of == old(M.b.of)[x := s]
    ensures ListsSame(M.b.of, M.m, M.end, old(M.L()), M.L()) && TreesSame(M.b.of, M.end, old(M.L()), M.L())
  {
    hide BinInv, ListsSame, TreesSame, IsMarked, Index, Bit, OnPath, Wf, LeftShift, OpenBits, Oldest;
    ghost var l := M.L();
    ghost var b := M.b;
    InvParts(b, M.m, M.end, l);
    var i := Index(s);
    M.index := M.index[x := i];
    M.child0 := M.child0[x := 0];
    M.child1 := M.child1[x := 0];
    LooseFields(b, M.m, M.end, l, M.L(), x);
    ghost var l1 := M.L();
    LooseFrame(b.of, M.m, M.end, l, l1, x, s);
    if !IsMarked(M.treemap, i) {
      LinkRoot(M, x, s);
    } else {
      LinkAlongPath(M, x, s, i);
    }
    FrameTrans(M.b.of, M.m, M.end, l, l1, M.L());
  }

  lemma LooseFrame(of: map<nat, nat>, m: nat, n: nat, l: Links, l': Links, x: nat, s: nat)
    requires Sized(l, n) && Sized(l', n) && s >= MIN_LARGE_SIZE
    requires l' == l.(index := l'.index, child0 := l'.child0, child1 := l'.child1)
    requires forall h :: 0 <= h < n && h != x ==>
      l'.child0[h] == l.child0[h] && l'.child1[h] == l.child1[h] && l'.index[h] == l.index[h]
    ensures ListsSame(of[x := s], m, n, l, l') && TreesSame(of[x := s], n, l, l')
  {
  }
}
