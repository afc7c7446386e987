// The invariant of the bins after a chunk has left a tree bin.
module TakeLarge {
  import opened Word
  import opened TreeIndex
  import opened BinMap
  import opened Rings
  import opened Tries
  import opened Bins
  import opened TreeLinks
  import opened Relink

  // A chunk that hangs off an older one of its size.
  ghost predicate Younger(b: Bins, y: nat) {
    y in b.of && Oldest(b.q, b.of[y]) != y
  }

  ghost predicate SameTreeFields(n: nat, l: Links, l': Links, y: nat) {
    && Sized(l, n) && Sized(l', n) && y < n
    && l'.child0[y] == l.child0[y] && l'.child1[y] == l.child1[y] && l'.parent[y] == l.parent[y]
  }

  lemma DroppedYounger(b: Bins, m: nat, n: nat, l: Links, l': Links, r: nat, y: nat)
    requires Hung(b.trie, b.q, b.of, m, n, l) && r in b.trie.node
    requires Dropped(b.trie, b.q, n, l, l', r) && Younger(b, y) && y < n
    ensures SameTreeFields(n, l, l', y)
  {
    hide Hung, Wf, Index, Hi, Bit, Oldest;
    KinOf(b.trie, b.q, b.of, m, n, l, r);
  }

  lemma MovedYounger(t: Trie, q: map<nat, seq<nat>>, b: Bins, m: nat, n: nat, l: Links, l': Links, x: nat, R: nat,
                     y: nat)
    requires Hung(t, q, b.of, m, n, l) && x in t.node && Oldest(q, x) < n && R < n && Sized(l, n)
    requires Moved(t, n, l, l', x, Oldest(q, x), R)
    requires 0 < y < n && y in b.of && Oldest(q, b.of[y]) != y && y != R
    ensures SameTreeFields(n, l, l', y)
  {
    hide Hung, Wf, Index, Hi, Bit;
    KinOf(t, q, b.of, m, n, l, x);
  }

  // Position j of a queue after x has been taken from the queue of size s.
  lemma TakenAt(b: Bins, x: nat, s: nat, t: nat, j: nat)
    requires QueuesOk(b) && s in b.q && x in b.q[s] && t in Taken(b.q, x, s)
    requires j < |Taken(b.q, x, s)[t]|
    ensures var y := Taken(b.q, x, s)[t][j];
      && t in b.q && y in b.of && b.of[y] == t
      && (j >= 1 ==> Younger(b, y) && y != Taken(b.q, x, s)[t][0])
      && (x != Oldest(b.q, s) || t != s ==> (j == 0 ==> y == Oldest(b.q, t)))
  {
    hide IndexOf, QueuesOk, NoDup;
    QueueAt(b, t);
    var c := b.q[t];
    if t == s {
      var k := IndexOf(c, x);
      InQueueAt(b, t, if j < k then j else j + 1);
      DistinctIn(c, 0, if j < k then j else j + 1);
      DistinctIn(c, if k == 0 then 1 else 0, if j < k then j else j + 1);
    } else {
      InQueueAt(b, t, j);
      DistinctIn(c, 0, j);
    }
  }

  lemma InQueueAt(b: Bins, t: nat, i: nat)
    requires t in b.q && QueueOk(b, t) && i < |b.q[t]|
    ensures b.q[t][i] in b.of && b.of[b.q[t][i]] == t
  {
    hide NoDup;
  }

  lemma DistinctIn(c: seq<nat>, i: nat, j: nat)
    requires NoDup(c) && i < |c| && j < |c|
    ensures c[i] == c[j] ==> i == j
  {
  }

  lemma TakenTail(b: Bins, n: nat, l: Links, l': Links, x: nat, s: nat, t: nat)
    requires QueuesOk(b) && s in b.q && x in b.q[s] && t in Taken(b.q, x, s) && Sized(l, n)
    requires t in b.q && TailOk(b.q[t], l.child0, l.child1, l.parent)
    requires forall j :: 1 <= j < |Taken(b.q, x, s)[t]| ==> SameTreeFields(n, l, l', Taken(b.q, x, s)[t][j])
    ensures TailOk(Taken(b.q, x, s)[t], l'.child0, l'.child1, l'.parent)
  {
    hide QueuesOk, IndexOf, Taken;
    var c := Taken(b.q, x, s)[t];
    forall j | 1 <= j < |c|
      ensures c[j] < |l'.child0| && c[j] < |l'.child1| && c[j] < |l'.parent|
      ensures l'.child0[c[j]] == 0 && l'.child1[c[j]] == 0 && l'.parent[c[j]] == 0
    {
      assert SameTreeFields(n, l, l', c[j]);
      var k := WasAt(b, x, s, t, j);
    }
  }

  lemma WasAt(b: Bins, x: nat, s: nat, t: nat, j: nat) returns (k: nat)
    requires s in b.q && x in b.q[s] && t in Taken(b.q, x, s) && j < |Taken(b.q, x, s)[t]|
    ensures t in b.q && j <= k < |b.q[t]| && b.q[t][k] == Taken(b.q, x, s)[t][j]
  {
    hide IndexOf;
    k := if t == s && j >= IndexOf(b.q[s], x) then j + 1 else j;
  }

  lemma TakeLargeInv(b: Bins, c: Bins, m: nat, n: nat, l: Links, l': Links, x: nat, s: nat)
    requires BinInv(b, m, n, l) && x in b.of && b.of[x] == s && s >= MIN_LARGE_SIZE
    requires s in b.q && x in b.q[s]
    requires c.q == Taken(b.q, x, s) && c.of == b.of - {x}
    requires x < n && l.fd[x] < n && l.bk[x] < n
    requires if |b.q[s]| == 1 then l'.fd == l.fd && l'.bk == l.bk
             else l'.fd == l.fd[l.bk[x] := l.fd[x]] && l'.bk == l.bk[l.fd[x] := l.bk[x]]
    requires l'.smallmap == l.smallmap && l'.index == l.index
    requires Hung(c.trie, c.q, b.of, m, n, l')
    requires forall t :: t in c.trie.node <==> t in c.q && t >= MIN_LARGE_SIZE
    requires forall t, j :: t in c.q && 1 <= j < |c.q[t]| ==> SameTreeFields(n, l, l', c.q[t][j])
    ensures BinInv(c, m, n, l')
  {
    hide QueuesOk, RingsOk, SmallmapOk, TreesOk, Taken, Index, Wf, TreebinOk, HungAt, QueueOk, HeadOk, TailOk;
    TakeQueues(b, c, x, s);
    QueueAt(b, s);
    LargeSize(b, s, x);
    RingsTake(b, m, n, l.fd, l.bk, x, s, l'.fd, l'.bk);
    SmallmapTake(b.q, l.smallmap, x, s);
    forall t | t in c.trie.node
      ensures TreeAt(c, m, l', t)
    {
      TakenKeys(b, x, s, t);
      KeysOf(b, m, l);
      TreeOf(b, m, l, t);
      TakenTail(b, n, l, l', x, s, t);
      assert HungAt(c.trie, c.q, b.of, m, n, l', t);
      HungHead(c.trie, c.q, b.of, m, n, l', t);
    }
    forall p | p in c.of
      ensures IndexedAt(c, l', p)
    {
      IndexedOf(b, m, l, p);
    }
    TreesIntro(c, m, l');
  }

  lemma HungHead(t: Trie, q: map<nat, seq<nat>>, of: map<nat, nat>, m: nat, n: nat, l: Links, s: nat)
    requires s in t.node && HungAt(t, q, of, m, n, l, s)
    ensures HeadOk(t, q, m, l.child0, l.child1, l.parent, s)
  {
  }

  lemma TakenKeys(b: Bins, x: nat, s: nat, t: nat)
    requires s in b.q && x in b.q[s] && t in Taken(b.q, x, s)
    ensures t in b.q
  {
  }

  lemma LargeSize(b: Bins, s: nat, x: nat)
    requires s in b.q && QueueOk(b, s)
    ensures s % 8 == 0
  {
    EighthOf(s);
  }

  lemma EighthOf(s: nat)
    ensures s % 16 == 0 ==> s % 8 == 0
  {
    if s % 16 == 0 {
      assert s == 8 * (2 * (s / 16));
    }
  }

  // Only the links of the ring change: the tree hangs as before.
  lemma HungSame(t: Trie, q: map<nat, seq<nat>>, q': map<nat, seq<nat>>, of: map<nat, nat>, m: nat, n: nat, l: Links,
                 l': Links)
    requires Hung(t, q, of, m, n, l) && 0 !in q' && Sized(l', n)
    requires forall s :: s in t.node || s == 0 ==> Oldest(q', s) == Oldest(q, s)
    requires l' == l.(fd := l'.fd, bk := l'.bk)
    ensures Hung(t, q', of, m, n, l')
  {
    hide Wf, Index, Hi, Bit, TreebinOk, HungAt;
    forall s | s in t.node
      ensures HungAt(t, q', of, m, n, l', s)
    {
      KinOf(t, q, of, m, n, l, s);
      SameAt(t, q, q', of, m, n, l, l', s);
    }
    forall i | 0 <= i < NTREEBINS
      ensures TreebinOk(t, q', l'.treebins, l'.treemap, i)
    {
      assert TreebinOk(t, q, l.treebins, l.treemap, i);
      RootsOk(t, i);
      SameRoot(t, q, q', l, i);
    }
  }

  lemma SameAt(t: Trie, q: map<nat, seq<nat>>, q': map<nat, seq<nat>>, of: map<nat, nat>, m: nat, n: nat, l: Links,
               l': Links, s: nat)
    requires s in t.node && KinHung(t, q, of, m, n, l, s)
    requires forall s :: s in t.node || s == 0 ==> Oldest(q', s) == Oldest(q, s)
    requires l' == l.(fd := l'.fd, bk := l'.bk)
    ensures HungAt(t, q', of, m, n, l', s)
  {
    hide Index, Hi, Bit, Oldest;
  }

  lemma SameRoot(t: Trie, q: map<nat, seq<nat>>, q': map<nat, seq<nat>>, l: Links, i: nat)
    requires i < NTREEBINS && TreebinOk(t, q, l.treebins, l.treemap, i) && RootOk(t, i)
    requires forall s :: s in t.node || s == 0 ==> Oldest(q', s) == Oldest(q, s)
    ensures TreebinOk(t, q', l.treebins, l.treemap, i)
  {
    hide Oldest, IsMarked, Index;
  }

  // The ring links of a chunk in a tree bin.
  lemma LargeNeighbours(b: Bins, m: nat, n: nat, l: Links, x: nat)
    requires BinInv(b, m, n, l) && x in b.of && b.of[x] >= MIN_LARGE_SIZE
    ensures var s := b.of[x]; s in b.q && x in b.q[s] && |b.q[s]| > 0 && Floor(m) <= x < n && Sized(l, n) && s % 16 == 0
    ensures var s, F, R := b.of[x], l.fd[x], l.bk[x];
      && Floor(m) <= F < n && Floor(m) <= R < n
      && InTree(b.of, F) && InTree(b.of, R)
      && l.bk[F] == x && l.fd[R] == x
      && (R == x <==> |b.q[s]| == 1)
      && (x == b.q[s][0] && |b.q[s]| > 1 ==> R == b.q[s][1])
  {
    hide SmallmapOk, TreesOk, Ring, NoDup, IndexOf;
    var s := b.of[x];
    assert HomeOk(b, x);
    QueueAt(b, s);
    var q, k := b.q[s], IndexOf(b.q[s], x);
    LargeRing(l.fd, l.bk, q, k);
    assert Cycle(b.q, m, s) == q;
    OneOldest(q, k);
  }

  lemma LargeRing(fd: seq<nat>, bk: seq<nat>, q: seq<nat>, k: nat)
    requires Ring(fd, bk, q) && NoDup(q) && k < |q|
    ensures q[k] < |fd| && q[k] < |bk|
    ensures var F, R := fd[q[k]], bk[q[k]];
      && F in q && R in q && F < |bk| && R < |fd| && bk[F] == q[k] && fd[R] == q[k]
      && (R == q[k] <==> |q| == 1)
      && (k == 0 && |q| > 1 ==> R == q[1])
  {
    RingAt(fd, bk, q, k);
    RingAt(fd, bk, q, if k > 0 then k - 1 else |q| - 1);
    RingAt(fd, bk, q, if k + 1 < |q| then k + 1 else 0);
  }

  lemma OneOldest(q: seq<nat>, k: nat)
    requires NoDup(q) && k < |q|
    ensures q[k] == q[0] <==> k == 0
  {
  }

  // A younger chunk leaves: the tree does not change.
  lemma YoungerLeaves(b: Bins, c: Bins, m: nat, n: nat, l: Links, l': Links, x: nat, s: nat)
    requires BinInv(b, m, n, l) && x in b.of && b.of[x] == s && s >= MIN_LARGE_SIZE
    requires s in b.q && x in b.q[s] && |b.q[s]| > 1 && x != b.q[s][0]
    requires c == Bins(Taken(b.q, x, s), b.of - {x}, b.trie)
    requires Sized(l, n) && x < n && l.fd[x] < n && l.bk[x] < n
    requires l' == l.(fd := l.fd[l.bk[x] := l.fd[x]], bk := l.bk[l.fd[x] := l.bk[x]])
    ensures BinInv(c, m, n, l')
  {
    hide BinInv, Hung, Wf, QueuesOk, RingsOk, SmallmapOk, TreesOk, IndexOf;
    BinParts(b, m, n, l);
    HungOf(b, m, n, l);
    NoZero(b);
    KeysOf(b, m, l);
    HungSame(b.trie, b.q, c.q, b.of, m, n, l, l');
    forall t, j | t in c.q && 1 <= j < |c.q[t]|
      ensures SameTreeFields(n, l, l', c.q[t][j])
    {
      TakenAt(b, x, s, t, j);
      PlacedAt(b, m, n, c.q[t][j]);
    }
    TakeLargeInv(b, c, m, n, l, l', x, s);
  }

  lemma BinParts(b: Bins, m: nat, n: nat, l: Links)
    requires BinInv(b, m, n, l)
    ensures QueuesOk(b) && TreesOk(b, m, l) && Sized(l, n) && Placed(b, m, n)
  {
  }

  lemma PlacedAt(b: Bins, m: nat, n: nat, y: nat)
    requires Placed(b, m, n) && y in b.of
    ensures Floor(m) <= y < n
  {
  }

  // The oldest of several chunks leaves: the next oldest takes its place.
  lemma OldestLeaves(b: Bins, c: Bins, m: nat, n: nat, l: Links, l1: Links, l': Links, x: nat, s: nat, R: nat)
    requires BinInv(b, m, n, l) && x in b.of && b.of[x] == s && s in b.trie.node
    requires s in b.q && x in b.q[s] && |b.q[s]| > 1 && x == b.q[s][0] && R == b.q[s][1]
    requires c == Bins(Taken(b.q, x, s), b.of - {x}, b.trie)
    requires Sized(l, n) && x < n && l.fd[x] < n && l.bk[x] < n && 0 < R < n
    requires l1 == l.(fd := l.fd[l.bk[x] := l.fd[x]], bk := l.bk[l.fd[x] := l.bk[x]])
    requires Moved(b.trie, n, l1, l', s, x, R)
    requires l'.fd == l1.fd && l'.bk == l1.bk && l'.smallmap == l.smallmap && l'.index == l.index
    ensures BinInv(c, m, n, l')
  {
    hide BinInv, Hung, Wf, QueuesOk, RingsOk, SmallmapOk, TreesOk, IndexOf, Moved, Index, Hi, Replace;
    BinParts(b, m, n, l);
    HungOf(b, m, n, l);
    NoZero(b);
    KeysOf(b, m, l);
    TakenAt(b, x, s, s, 0);
    HungSame(b.trie, b.q, b.q, b.of, m, n, l, l1);
    PlacedAt(b, m, n, x);
    OldestSpare(b, n, s, R);
    OldestTaken(b, c.q, x, s, R);
    RootsOk(b.trie, 0);
    MoveAll(b.trie, b.q, b.of, m, n, l1, l', s, s, R, c.q);
    ReplaceSame(b.trie, s);
    forall t, j | t in c.q && 1 <= j < |c.q[t]|
      ensures SameTreeFields(n, l, l', c.q[t][j])
    {
      TakenAt(b, x, s, t, j);
      PlacedAt(b, m, n, c.q[t][j]);
      MovedYounger(b.trie, b.q, b, m, n, l1, l', s, R, c.q[t][j]);
    }
    TakeLargeInv(b, c, m, n, l, l', x, s);
  }

  lemma OldestSpare(b: Bins, n: nat, s: nat, R: nat)
    requires QueuesOk(b) && s in b.q && |b.q[s]| > 1 && R == b.q[s][1] && 0 < R < n && s in b.trie.node
    ensures Spare(b.trie, b.q, b.of, n, s, s, R)
  {
    hide QueuesOk;
    OldestOf(b, s);
  }

  lemma OldestTaken(b: Bins, q': map<nat, seq<nat>>, x: nat, s: nat, R: nat)
    requires QueuesOk(b) && s in b.q && |b.q[s]| > 1 && x == b.q[s][0] && R == b.q[s][1]
    requires x in b.q[s] && q' == Taken(b.q, x, s) && 0 !in b.q
    ensures Represents(b.q, q', s, s, R)
  {
    hide QueuesOk;
    assert IndexOf(b.q[s], x) == 0;
  }

  // The only chunk of its size leaves a node that is a leaf.
  lemma LeafLeaves(b: Bins, c: Bins, m: nat, n: nat, l: Links, l': Links, x: nat, s: nat)
    requires BinInv(b, m, n, l) && x in b.of && b.of[x] == s && s in b.trie.node && |b.trie.root| == NTREEBINS
    requires s in b.q && x in b.q[s] && |b.q[s]| == 1
    requires b.trie.node[s].kid0 == 0 && b.trie.node[s].kid1 == 0
    requires c == Bins(Taken(b.q, x, s), b.of - {x}, DropLeaf(b.trie, s))
    requires Sized(l, n) && x < n && l.fd[x] < n && l.bk[x] < n
    requires Dropped(b.trie, b.q, n, l, l', s)
    requires l'.fd == l.fd && l'.bk == l.bk && l'.smallmap == l.smallmap && l'.index == l.index
    ensures BinInv(c, m, n, l')
  {
    hide BinInv, Hung, Wf, QueuesOk, RingsOk, SmallmapOk, TreesOk, IndexOf, Dropped, Index, Hi, DropLeaf;
    BinParts(b, m, n, l);
    HungOf(b, m, n, l);
    KeysOf(b, m, l);
    DropAll(b.trie, b.q, b.of, m, n, l, l', s);
    forall t, j | t in c.q && 1 <= j < |c.q[t]|
      ensures SameTreeFields(n, l, l', c.q[t][j])
    {
      TakenAt(b, x, s, t, j);
      PlacedAt(b, m, n, c.q[t][j]);
      DroppedYounger(b, m, n, l, l', s, c.q[t][j]);
    }
    TakeLargeInv(b, c, m, n, l, l', x, s);
  }

  // x is the only chunk of its size s, and the leaf r, whose oldest chunk is R,
  // lies below the node of s.
  ghost predicate LeafBelow(b: Bins, n: nat, x: nat, s: nat, r: nat, R: nat) {
    && x in b.of && b.of[x] == s && s in b.trie.node && |b.trie.root| == NTREEBINS
    && s in b.q && x in b.q[s] && |b.q[s]| == 1 && x == Oldest(b.q, s) && x < n
    && r in b.trie.node && r != s && Under(b.trie, s, r) && r in b.q && R == Oldest(b.q, r) && 0 < R < n
    && b.trie.node[r].kid0 == 0 && b.trie.node[r].kid1 == 0
    && s in DropLeaf(b.trie, r).node
  }

  // c is b without x, with the leaf r in the place of s.
  ghost predicate LeafPromoted(b: Bins, c: Bins, x: nat, s: nat, r: nat) {
    && s in b.q && x in b.q[s] && |b.trie.root| == NTREEBINS && r in b.trie.node
    && s in DropLeaf(b.trie, r).node && |DropLeaf(b.trie, r).root| == NTREEBINS
    && c == Bins(Taken(b.q, x, s), b.of - {x}, Replace(DropLeaf(b.trie, r), s, r))
  }

  // l1 has the leaf r cut off, and l' has it in the place of s.
  ghost predicate LeafMoved(b: Bins, n: nat, l: Links, l1: Links, l': Links, x: nat, s: nat, r: nat, R: nat) {
    && Sized(l, n) && Sized(l1, n) && x < n && l.fd[x] < n && l.bk[x] < n
    && |b.trie.root| == NTREEBINS && R < n && r in b.trie.node && Dropped(b.trie, b.q, n, l, l1, r)
    && s in DropLeaf(b.trie, r).node
    && Moved(DropLeaf(b.trie, r), n, l1, l', s, x, R)
    && l'.fd == l.fd && l'.bk == l.bk && l'.smallmap == l.smallmap && l'.index == l.index
  }

  // The only chunk of its size leaves an inner node: the leaf r, cut off from
  // below it, takes its place.
  lemma LastLeaves(b: Bins, c: Bins, m: nat, n: nat, l: Links, l1: Links, l': Links, x: nat, s: nat, r: nat, R: nat)
    requires BinInv(b, m, n, l) && LeafBelow(b, n, x, s, r, R) && LeafMoved(b, n, l, l1, l', x, s, r, R)
    requires LeafPromoted(b, c, x, s, r)
    ensures BinInv(c, m, n, l')
  {
    hide BinInv, Hung, Wf, QueuesOk, RingsOk, SmallmapOk, TreesOk, IndexOf, Dropped, Moved, Index, Hi, DropLeaf,
         Replace, Under;
    BinParts(b, m, n, l);
    HungOf(b, m, n, l);
    KeysOf(b, m, l);
    NoZero(b);
    var u, q1 := DropLeaf(b.trie, r), b.q - {r};
    DropAll(b.trie, b.q, b.of, m, n, l, l1, r);
    PlacedAt(b, m, n, x);
    LeafSpare(b, m, n, l, s, r, R);
    HungWf(u, q1, b.of, m, n, l1);
    RootsOk(u, 0);
    MoveAll(u, q1, b.of, m, n, l1, l', s, r, R, c.q);
    forall t, j | t in c.q && 1 <= j < |c.q[t]|
      ensures SameTreeFields(n, l, l', c.q[t][j])
    {
      TakenAt(b, x, s, t, j);
      PlacedAt(b, m, n, c.q[t][j]);
      DroppedYounger(b, m, n, l, l1, r, c.q[t][j]);
      MovedYounger(u, q1, b, m, n, l1, l', s, R, c.q[t][j]);
    }
    TakeLargeInv(b, c, m, n, l, l', x, s);
  }

  lemma HungWf(t: Trie, q: map<nat, seq<nat>>, of: map<nat, nat>, m: nat, n: nat, l: Links)
    requires Hung(t, q, of, m, n, l)
    ensures Wf(t)
  {
  }

  lemma LeafSpare(b: Bins, m: nat, n: nat, l: Links, s: nat, r: nat, R: nat)
    requires BinInv(b, m, n, l) && s in b.trie.node && |b.trie.root| == NTREEBINS
    requires r in b.trie.node && r != s && Under(b.trie, s, r) && R == Oldest(b.q, r) && 0 < R < n
    requires b.trie.node[r].kid0 == 0 && b.trie.node[r].kid1 == 0
    ensures s in DropLeaf(b.trie, r).node
    ensures Spare(DropLeaf(b.trie, r), b.q - {r}, b.of, n, s, r, R)
    ensures Represents(b.q - {r}, b.q - {s}, s, r, R)
  {
    hide BinInv, QueuesOk, TreesOk, Wf, Index, Hi, Bit, UpOk, DownOk;
    BinParts(b, m, n, l);
    KeysOf(b, m, l);
    NoZero(b);
    OldestOf(b, r);
    OldestOf(b, s);
    KinOk(b.trie, r);
  }
}
