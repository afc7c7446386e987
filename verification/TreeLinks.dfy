// What linking a chunk into a tree bin, and unlinking it, do to the trees.
module TreeLinks {
  import opened Word
  import opened TreeIndex
  import opened BinMap
  import opened Tries
  import opened Bins

  // TreesOk, one size, one bin and one chunk at a time.
  ghost predicate TreeAt(b: Bins, m: nat, l: Links, s: nat)
    requires s in b.trie.node
  {
    && s in b.q
    && HeadOk(b.trie, b.q, m, l.child0, l.child1, l.parent, s)
    && TailOk(b.q[s], l.child0, l.child1, l.parent)
  }

  ghost predicate IndexedAt(b: Bins, l: Links, p: nat)
    requires p in b.of
  {
    b.of[p] >= MIN_LARGE_SIZE ==> p < |l.index| && l.index[p] == Index(b.of[p])
  }

  lemma TreesIntro(b: Bins, m: nat, l: Links)
    requires Wf(b.trie)
    requires forall s :: s in b.trie.node <==> s in b.q && s >= MIN_LARGE_SIZE
    requires forall i :: 0 <= i < NTREEBINS ==> TreebinOk(b.trie, b.q, l.treebins, l.treemap, i)
    requires forall s :: s in b.trie.node ==> TreeAt(b, m, l, s)
    requires forall p :: p in b.of ==> IndexedAt(b, l, p)
    ensures TreesOk(b, m, l)
  {
    hide Wf, HeadOk, TailOk, TreebinOk, Index;
  }

  lemma TreeOf(b: Bins, m: nat, l: Links, s: nat)
    requires TreesOk(b, m, l) && s in b.trie.node
    ensures TreeAt(b, m, l, s) && s >= MIN_LARGE_SIZE
  {
    hide Wf, HeadOk, TailOk, TreebinOk, Index;
  }

  lemma TreebinOf(b: Bins, m: nat, l: Links, i: nat)
    requires TreesOk(b, m, l) && i < NTREEBINS
    ensures Wf(b.trie) && TreebinOk(b.trie, b.q, l.treebins, l.treemap, i)
  {
    hide Wf, HeadOk, TailOk, TreebinOk, Index;
  }

  lemma IndexedOf(b: Bins, m: nat, l: Links, p: nat)
    requires TreesOk(b, m, l) && p in b.of
    ensures IndexedAt(b, l, p)
  {
    hide Wf, HeadOk, TailOk, TreebinOk, Index;
  }

  lemma KeysOf(b: Bins, m: nat, l: Links)
    requires TreesOk(b, m, l)
    ensures Wf(b.trie)
    ensures forall s :: s in b.trie.node <==> s in b.q && s >= MIN_LARGE_SIZE
  {
    hide Wf, HeadOk, TailOk, TreebinOk, Index;
  }

  // The chunks that carry the tree links of different sizes are different.
  lemma OldestOf(b: Bins, s: nat)
    requires QueuesOk(b) && s in b.q
    ensures |b.q[s]| > 0 && Oldest(b.q, s) in b.of && b.of[Oldest(b.q, s)] == s
    ensures forall j :: 0 <= j < |b.q[s]| ==> b.q[s][j] in b.of && b.of[b.q[s][j]] == s
    ensures forall j :: 1 <= j < |b.q[s]| ==> b.q[s][j] != b.q[s][0]
  {
    QueueAt(b, s);
  }

  lemma NoZero(b: Bins)
    requires QueuesOk(b)
    ensures 0 !in b.q && Oldest(b.q, 0) == 0
  {
  }

  // ---------------------------------------------------------------- insert

  // The fields of the new chunk x, common to all three ways of linking it.
  ghost predicate Fresh(b: Bins, n: nat, l: Links, l': Links, x: nat, s: nat) {
    && x !in b.of && x < n
    && Sized(l, n) && Sized(l', n)
    && l'.index[x] == Index(s)
    && (forall h :: 0 <= h < n && h != x ==> l'.index[h] == l.index[h])
    && l'.child0[x] == 0 && l'.child1[x] == 0
    && (forall h :: 0 <= h < n && h != x ==> l'.parent[h] == l.parent[h])
  }

  // x becomes the root of an empty bin.
  ghost predicate AsRoot(b: Bins, m: nat, n: nat, l: Links, l': Links, x: nat, s: nat) {
    && Fresh(b, n, l, l', x, s)
    && (forall h :: 0 <= h < n && h != x ==> l'.child0[h] == l.child0[h] && l'.child1[h] == l.child1[h])
    && l'.parent[x] == TreebinAt(m, Index(s))
    && l'.treebins == l.treebins[Index(s) := x]
    && l'.treemap == Mark(l.treemap, Index(s))
  }

  lemma RootHead(b: Bins, c: Bins, m: nat, n: nat, l: Links, l': Links, x: nat, s: nat, t: nat)
    requires QueuesOk(b) && TreesOk(b, m, l) && AsRoot(b, m, n, l, l', x, s)
    requires s >= MIN_LARGE_SIZE && s !in b.q && |b.trie.root| == NTREEBINS
    requires c == Bins(Put(b.q, x, s), b.of[x := s], InsertRoot(b.trie, s))
    requires t in c.trie.node
    ensures TreeAt(c, m, l', t)
  {
    hide Wf, TreesOk, QueuesOk, UpOk, DownOk, Index;
    NoZero(b);
    KeysOf(b, m, l);
    if t != s {
      TreeOf(b, m, l, t);
      OldestOf(b, t);
      KinOk(b.trie, t);
    }
  }

  lemma RootBin(b: Bins, c: Bins, m: nat, n: nat, l: Links, l': Links, x: nat, s: nat, i: nat)
    requires QueuesOk(b) && TreesOk(b, m, l) && AsRoot(b, m, n, l, l', x, s)
    requires s >= MIN_LARGE_SIZE && s !in b.q && |b.trie.root| == NTREEBINS
    requires c == Bins(Put(b.q, x, s), b.of[x := s], InsertRoot(b.trie, s))
    requires i < NTREEBINS
    ensures TreebinOk(c.trie, c.q, l'.treebins, l'.treemap, i)
  {
    hide Wf, TreesOk, QueuesOk, Index, IsMarked, Mark;
    MarkBits(l.treemap, Index(s));
    TreebinOf(b, m, l, i);
    NoZero(b);
    KeysOf(b, m, l);
    RootsOk(b.trie, i);
  }

  lemma FreshIndex(b: Bins, c: Bins, m: nat, n: nat, l: Links, l': Links, x: nat, s: nat, p: nat)
    requires TreesOk(b, m, l) && Fresh(b, n, l, l', x, s)
    requires c.of == b.of[x := s] && p in c.of
    ensures IndexedAt(c, l', p)
  {
    hide TreesOk, Index;
    if p != x { IndexedOf(b, m, l, p); }
  }

  lemma InsertRootTrees(b: Bins, c: Bins, m: nat, n: nat, l: Links, l': Links, x: nat, s: nat)
    requires QueuesOk(b) && TreesOk(b, m, l) && AsRoot(b, m, n, l, l', x, s)
    requires MIN_LARGE_SIZE <= s < TWO64 && s !in b.q
    requires |b.trie.root| == NTREEBINS && b.trie.root[Index(s)] == 0
    requires c == Bins(Put(b.q, x, s), b.of[x := s], InsertRoot(b.trie, s))
    ensures TreesOk(c, m, l')
  {
    hide Wf, QueuesOk, TreesOk, Fresh, TreeAt, TreebinOk, Index, IsMarked;
    KeysOf(b, m, l);
    InsertRootWf(b.trie, s);
    forall t | t in c.trie.node
      ensures TreeAt(c, m, l', t)
    {
      RootHead(b, c, m, n, l, l', x, s, t);
    }
    forall i | 0 <= i < NTREEBINS
      ensures TreebinOk(c.trie, c.q, l'.treebins, l'.treemap, i)
    {
      RootBin(b, c, m, n, l, l', x, s, i);
    }
    forall p | p in c.of
      ensures IndexedAt(c, l', p)
    {
      FreshIndex(b, c, m, n, l, l', x, s, p);
    }
    TreesIntro(c, m, l');
  }

  // x becomes a child of the chunk that stands for size p.
  ghost predicate AsKid(b: Bins, n: nat, l: Links, l': Links, x: nat, s: nat, p: nat)
    requires p in b.trie.node && b.trie.node[p].lev > 0
  {
    var T, bit := Oldest(b.q, p), Bit(s, b.trie.node[p].lev - 1);
    && Fresh(b, n, l, l', x, s)
    && T < n && T != x
    && (forall h :: 0 <= h < n && h != x ==>
          l'.child0[h] == if h == T && bit == 0 then x else l.child0[h])
    && (forall h :: 0 <= h < n && h != x ==>
          l'.child1[h] == if h == T && bit == 1 then x else l.child1[h])
    && l'.parent[x] == T
    && l'.treebins == l.treebins
    && l'.treemap == l.treemap
  }

  lemma KidHead(b: Bins, c: Bins, m: nat, n: nat, l: Links, l': Links, x: nat, s: nat, p: nat, t: nat)
    requires QueuesOk(b) && TreesOk(b, m, l)
    requires p in b.trie.node && b.trie.node[p].lev > 0 && AsKid(b, n, l, l', x, s, p)
    requires s >= MIN_LARGE_SIZE && s !in b.q
    requires c == Bins(Put(b.q, x, s), b.of[x := s], InsertUnder(b.trie, p, s))
    requires t in c.trie.node
    ensures HeadOk(c.trie, c.q, m, l'.child0, l'.child1, l'.parent, t)
  {
    hide Wf, TreesOk, QueuesOk, UpOk, DownOk, TailOk, Index;
    NoZero(b);
    KeysOf(b, m, l);
    TreeOf(b, m, l, p);
    OldestOf(b, p);
    KinOk(b.trie, p);
    if t != s {
      TreeOf(b, m, l, t);
      OldestOf(b, t);
      KinOk(b.trie, t);
    }
  }

  lemma KidTail(b: Bins, c: Bins, m: nat, n: nat, l: Links, l': Links, x: nat, s: nat, p: nat, t: nat)
    requires QueuesOk(b) && TreesOk(b, m, l)
    requires p in b.trie.node && b.trie.node[p].lev > 0 && AsKid(b, n, l, l', x, s, p)
    requires s >= MIN_LARGE_SIZE && s !in b.q
    requires c == Bins(Put(b.q, x, s), b.of[x := s], InsertUnder(b.trie, p, s))
    requires t in c.trie.node
    ensures t in c.q && TailOk(c.q[t], l'.child0, l'.child1, l'.parent)
  {
    hide Wf, TreesOk, QueuesOk, UpOk, DownOk, HeadOk, Index, Bit;
    KeysOf(b, m, l);
    OldestOf(b, p);
    if t != s {
      TreeOf(b, m, l, t);
      OldestOf(b, t);
    }
  }

  lemma KidBin(b: Bins, c: Bins, m: nat, n: nat, l: Links, l': Links, x: nat, s: nat, i: nat)
    requires QueuesOk(b) && TreesOk(b, m, l)
    requires s >= MIN_LARGE_SIZE && s !in b.q
    requires c.q == Put(b.q, x, s) && c.trie.root == b.trie.root
    requires l'.treebins == l.treebins && l'.treemap == l.treemap
    requires i < NTREEBINS
    ensures TreebinOk(c.trie, c.q, l'.treebins, l'.treemap, i)
  {
    hide Wf, TreesOk, QueuesOk, Index, IsMarked;
    TreebinOf(b, m, l, i);
    NoZero(b);
    KeysOf(b, m, l);
    RootsOk(b.trie, i);
  }

  lemma InsertKidTrees(b: Bins, c: Bins, m: nat, n: nat, l: Links, l': Links, x: nat, s: nat, p: nat)
    requires QueuesOk(b) && TreesOk(b, m, l)
    requires p in b.trie.node && b.trie.node[p].lev > 0 && AsKid(b, n, l, l', x, s, p)
    requires MIN_LARGE_SIZE <= s < TWO64 && s !in b.q
    requires Index(p) == Index(s) && Hi(p, b.trie.node[p].lev) == Hi(s, b.trie.node[p].lev)
    requires b.trie.node[p].Kid(Bit(s, b.trie.node[p].lev - 1)) == 0
    requires c == Bins(Put(b.q, x, s), b.of[x := s], InsertUnder(b.trie, p, s))
    ensures TreesOk(c, m, l')
  {
    hide Wf, QueuesOk, TreesOk, Fresh, HeadOk, TailOk, TreebinOk, Index, IsMarked;
    KeysOf(b, m, l);
    InsertUnderWf(b.trie, p, s);
    forall t | t in c.trie.node
      ensures TreeAt(c, m, l', t)
    {
      KidHead(b, c, m, n, l, l', x, s, p, t);
      KidTail(b, c, m, n, l, l', x, s, p, t);
    }
    forall i | 0 <= i < NTREEBINS
      ensures TreebinOk(c.trie, c.q, l'.treebins, l'.treemap, i)
    {
      KidBin(b, c, m, n, l, l', x, s, i);
    }
    forall y | y in c.of
      ensures IndexedAt(c, l', y)
    {
      FreshIndex(b, c, m, n, l, l', x, s, y);
    }
    TreesIntro(c, m, l');
  }

  // x joins the chunks of a size the tree already has.
  ghost predicate AsYounger(b: Bins, n: nat, l: Links, l': Links, x: nat, s: nat) {
    && Fresh(b, n, l, l', x, s)
    && (forall h :: 0 <= h < n && h != x ==> l'.child0[h] == l.child0[h] && l'.child1[h] == l.child1[h])
    && l'.parent[x] == 0
    && l'.treebins == l.treebins
    && l'.treemap == l.treemap
  }

  lemma YoungerHead(b: Bins, c: Bins, m: nat, n: nat, l: Links, l': Links, x: nat, s: nat, t: nat)
    requires QueuesOk(b) && TreesOk(b, m, l) && AsYounger(b, n, l, l', x, s)
    requires s >= MIN_LARGE_SIZE && s in b.q
    requires c == Bins(Put(b.q, x, s), b.of[x := s], b.trie)
    requires t in c.trie.node
    ensures TreeAt(c, m, l', t)
  {
    hide Wf, TreesOk, QueuesOk, UpOk, DownOk, Index;
    NoZero(b);
    OldestOf(b, s);
    KeysOf(b, m, l);
    TreeOf(b, m, l, t);
    OldestOf(b, t);
    KinOk(b.trie, t);
  }

  lemma YoungerBin(b: Bins, c: Bins, m: nat, l: Links, l': Links, x: nat, s: nat, i: nat)
    requires QueuesOk(b) && TreesOk(b, m, l) && s in b.q
    requires c.q == Put(b.q, x, s) && c.trie == b.trie
    requires l'.treebins == l.treebins && l'.treemap == l.treemap
    requires i < NTREEBINS
    ensures TreebinOk(c.trie, c.q, l'.treebins, l'.treemap, i)
  {
    hide Wf, TreesOk, QueuesOk, Index, IsMarked;
    TreebinOf(b, m, l, i);
    OldestOf(b, s);
  }

  lemma InsertYoungerTrees(b: Bins, c: Bins, m: nat, n: nat, l: Links, l': Links, x: nat, s: nat)
    requires QueuesOk(b) && TreesOk(b, m, l) && AsYounger(b, n, l, l', x, s)
    requires s >= MIN_LARGE_SIZE && s in b.q
    requires c == Bins(Put(b.q, x, s), b.of[x := s], b.trie)
    ensures TreesOk(c, m, l')
  {
    hide Wf, QueuesOk, TreesOk, Fresh, TreeAt, TreebinOk, Index, IsMarked;
    KeysOf(b, m, l);
    forall t | t in c.trie.node
      ensures TreeAt(c, m, l', t)
    {
      YoungerHead(b, c, m, n, l, l', x, s, t);
    }
    forall i | 0 <= i < NTREEBINS
      ensures TreebinOk(c.trie, c.q, l'.treebins, l'.treemap, i)
    {
      YoungerBin(b, c, m, l, l', x, s, i);
    }
    forall y | y in c.of
      ensures IndexedAt(c, l', y)
    {
      FreshIndex(b, c, m, n, l, l', x, s, y);
    }
    TreesIntro(c, m, l');
  }

  // ------------------------------------------------------ whole invariants

  // Tree fields of a chunk that is in no bin do not matter.
  lemma LooseFields(b: Bins, m: nat, n: nat, l: Links, l': Links, x: nat)
    requires BinInv(b, m, n, l) && x !in b.of && Sized(l', n)
    requires l' == l.(index := l'.index, child0 := l'.child0, child1 := l'.child1, parent := l'.parent)
    requires forall h :: 0 <= h < n && h != x ==>
      l'.index[h] == l.index[h] && l'.child0[h] == l.child0[h]
      && l'.child1[h] == l.child1[h] && l'.parent[h] == l.parent[h]
    ensures BinInv(b, m, n, l')
  {
    hide QueuesOk, RingsOk, SmallmapOk, TreesOk, IsMarked, HeadOk, TailOk, TreebinOk, Index, Wf;
    KeysOf(b, m, l);
    forall t | t in b.trie.node
      ensures TreeAt(b, m, l', t)
    {
      LooseHead(b, m, n, l, l', x, t);
    }
    forall i | 0 <= i < NTREEBINS
      ensures TreebinOk(b.trie, b.q, l'.treebins, l'.treemap, i)
    {
      TreebinOf(b, m, l, i);
    }
    forall y | y in b.of
      ensures IndexedAt(b, l', y)
    {
      IndexedOf(b, m, l, y);
    }
    TreesIntro(b, m, l');
  }

  lemma LooseHead(b: Bins, m: nat, n: nat, l: Links, l': Links, x: nat, t: nat)
    requires QueuesOk(b) && TreesOk(b, m, l) && x !in b.of && t in b.trie.node
    requires Sized(l, n) && Sized(l', n)
    requires forall h :: 0 <= h < n && h != x ==>
      l'.child0[h] == l.child0[h] && l'.child1[h] == l.child1[h] && l'.parent[h] == l.parent[h]
    ensures TreeAt(b, m, l', t)
  {
    hide QueuesOk, TreesOk, Wf, Index;
    KeysOf(b, m, l);
    TreeOf(b, m, l, t);
    OldestOf(b, t);
  }

  // The ring links that put x last among the chunks of its size.
  ghost predicate RingLinks(b: Bins, n: nat, l: Links, l': Links, x: nat, s: nat)
    requires |l.fd| == |l.bk| == n && x < n
  {
    var q := Queue(b.q, s);
    if q == [] then l'.fd == l.fd[x := x] && l'.bk == l.bk[x := x]
    else
      && q[0] < n && q[|q| - 1] < n
      && l'.fd == l.fd[q[0] := x][x := q[|q| - 1]]
      && l'.bk == l.bk[q[|q| - 1] := x][x := q[0]]
  }

  lemma InsertLargeInv(b: Bins, c: Bins, m: nat, n: nat, l: Links, l': Links, x: nat, s: nat)
    requires BinInv(b, m, n, l) && x !in b.of && Floor(m) <= x < n
    requires MIN_LARGE_SIZE <= s < TWO64 && s % 16 == 0
    requires c.q == Put(b.q, x, s) && c.of == b.of[x := s]
    requires Sized(l', n) && l'.smallmap == l.smallmap && RingLinks(b, n, l, l', x, s)
    requires TreesOk(c, m, l')
    ensures BinInv(c, m, n, l')
  {
    hide QueuesOk, RingsOk, SmallmapOk, TreesOk;
    PutQueues(b, c, x, s);
    RingsPut(b, m, n, l.fd, l.bk, x, s, l'.fd, l'.bk);
    SmallmapPut(b.q, l.smallmap, x, s);
  }

  // ------------------------------------------------ which links have changed

  lemma RingFrames(b: Bins, m: nat, n: nat, l: Links, l': Links, x: nat, s: nat)
    requires QueuesOk(b) && Sized(l, n) && Sized(l', n) && x < n && RingLinks(b, n, l, l', x, s)
    ensures ListsSame(b.of[x := s], m, n, l, l')
  {
    hide QueuesOk;
    if s in b.q { OldestOf(b, s); }
  }

  lemma RootFrame(b: Bins, m: nat, n: nat, l: Links, l': Links, x: nat, s: nat)
    requires AsRoot(b, m, n, l, l', x, s) && s >= MIN_LARGE_SIZE
    ensures TreesSame(b.of[x := s], n, l, l')
  {
    hide Index;
  }

  lemma YoungerFrame(b: Bins, n: nat, l: Links, l': Links, x: nat, s: nat)
    requires AsYounger(b, n, l, l', x, s) && s >= MIN_LARGE_SIZE
    ensures TreesSame(b.of[x := s], n, l, l')
  {
    hide Index;
  }

  lemma KidFrame(b: Bins, m: nat, n: nat, l: Links, l': Links, x: nat, s: nat, p: nat)
    requires QueuesOk(b) && TreesOk(b, m, l) && p in b.trie.node && b.trie.node[p].lev > 0
    requires AsKid(b, n, l, l', x, s, p) && s >= MIN_LARGE_SIZE
    ensures TreesSame(b.of[x := s], n, l, l')
  {
    hide Index, Bit, QueuesOk, TreesOk;
    KeysOf(b, m, l);
    OldestOf(b, p);
  }

  lemma FrameTrans(of: map<nat, nat>, m: nat, n: nat, l: Links, l1: Links, l': Links)
    ensures ListsSame(of, m, n, l, l1) && ListsSame(of, m, n, l1, l') ==> ListsSame(of, m, n, l, l')
    ensures TreesSame(of, n, l, l1) && TreesSame(of, n, l1, l') ==> TreesSame(of, n, l, l')
  {
  }
}
