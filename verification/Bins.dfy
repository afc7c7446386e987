// The free chunks of the small bins and tree bins, and the links that hold them.
module Bins {
  import opened Word
  import opened TreeIndex
  import opened BinMap
  import opened Rings
  import opened Tries

  // Offsets of the bin headers inside the state record of a space at address m.
  // A small-bin header is addressed as the chunk whose fd and bk it stands for.
  function SmallbinAt(m: nat, i: nat): nat {
    m + 72 + 16 * i
  }

  function TreebinAt(m: nat, i: nat): nat {
    m + 600 + 8 * i
  }

  // Chunks lie above every header.
  function Floor(m: nat): nat {
    m + 880
  }

  // q[s] holds the binned chunks of size s, oldest first; of[p] is the size
  // of the binned chunk p; trie arranges the sizes that are not small.
  datatype Bins = Bins(q: map<nat, seq<nat>>, of: map<nat, nat>, trie: Trie)

  // The chunk fields and state fields that implement them.
  datatype Links = Links(
    fd: seq<nat>, bk: seq<nat>,
    child0: seq<nat>, child1: seq<nat>, parent: seq<nat>, index: seq<nat>,
    treebins: seq<nat>, smallmap: bv32, treemap: bv32)

  ghost predicate QueueOk(b: Bins, s: nat)
    requires s in b.q
  {
    && |b.q[s]| > 0
    && NoDup(b.q[s])
    && 32 <= s < TWO64 && s % 16 == 0
    && forall j :: 0 <= j < |b.q[s]| ==> b.q[s][j] in b.of && b.of[b.q[s][j]] == s
  }

  ghost predicate HomeOk(b: Bins, p: nat)
    requires p in b.of
  {
    b.of[p] in b.q && p in b.q[b.of[p]]
  }

  // Every binned chunk is once in the queue of its size, and nowhere else.
  ghost predicate QueuesOk(b: Bins) {
    && (forall s :: s in b.q ==> QueueOk(b, s))
    && (forall p :: p in b.of ==> HomeOk(b, p))
  }

  ghost predicate Placed(b: Bins, m: nat, n: nat) {
    forall p :: p in b.of ==> Floor(m) <= p < n
  }

  // The links of a queue, the header of a small bin being part of its ring.
  function Cycle(q: map<nat, seq<nat>>, m: nat, s: nat): seq<nat>
    requires s in q
  {
    if s < MIN_LARGE_SIZE then [SmallbinAt(m, s / 8)] + q[s] else q[s]
  }

  ghost predicate RingsOk(q: map<nat, seq<nat>>, m: nat, fd: seq<nat>, bk: seq<nat>) {
    forall s :: s in q ==> Ring(fd, bk, Cycle(q, m, s))
  }

  ghost predicate SmallmapOk(q: map<nat, seq<nat>>, smallmap: bv32) {
    forall i :: 0 <= i < NBINS ==> (IsMarked(smallmap, i) <==> 8 * i in q)
  }

  // The oldest chunk of a size stands in the tree for all of them.
  function Oldest(q: map<nat, seq<nat>>, s: nat): nat {
    if s in q && |q[s]| > 0 then q[s][0] else 0
  }

  ghost predicate HeadOk(t: Trie, q: map<nat, seq<nat>>, m: nat,
                         child0: seq<nat>, child1: seq<nat>, parent: seq<nat>, s: nat)
    requires s in t.node
  {
    var h, n := Oldest(q, s), t.node[s];
    && h < |child0| && h < |child1| && h < |parent|
    && child0[h] == Oldest(q, n.kid0)
    && child1[h] == Oldest(q, n.kid1)
    && parent[h] == if n.par == 0 then TreebinAt(m, Index(s)) else Oldest(q, n.par)
  }

  // The younger chunks of a size hang off the oldest and have no tree links.
  ghost predicate TailOk(c: seq<nat>, child0: seq<nat>, child1: seq<nat>, parent: seq<nat>) {
    forall j :: 1 <= j < |c| ==>
      && c[j] < |child0| && c[j] < |child1| && c[j] < |parent|
      && child0[c[j]] == 0 && child1[c[j]] == 0 && parent[c[j]] == 0
  }

  ghost predicate TreebinOk(t: Trie, q: map<nat, seq<nat>>, treebins: seq<nat>, treemap: bv32, i: nat)
    requires i < NTREEBINS
  {
    && |t.root| == NTREEBINS && |treebins| == NTREEBINS
    && treebins[i] == Oldest(q, t.root[i])
    && (IsMarked(treemap, i) <==> t.root[i] != 0)
  }

  ghost predicate TreesOk(b: Bins, m: nat, l: Links) {
    && Wf(b.trie)
    && (forall s :: s in b.trie.node <==> s in b.q && s >= MIN_LARGE_SIZE)
    && (forall i :: 0 <= i < NTREEBINS ==> TreebinOk(b.trie, b.q, l.treebins, l.treemap, i))
    && (forall s :: s in b.trie.node ==> HeadOk(b.trie, b.q, m, l.child0, l.child1, l.parent, s))
    && (forall s :: s in b.trie.node ==> TailOk(b.q[s], l.child0, l.child1, l.parent))
    && (forall p :: p in b.of && b.of[p] >= MIN_LARGE_SIZE ==>
          p < |l.index| && l.index[p] == Index(b.of[p]))
  }

  ghost predicate Sized(l: Links, n: nat) {
    |l.fd| == |l.bk| == |l.child0| == |l.child1| == |l.parent| == |l.index| == n
    && |l.treebins| == NTREEBINS
  }

  ghost predicate BinInv(b: Bins, m: nat, n: nat, l: Links) {
    && Sized(l, n)
    && Floor(m) <= n
    && QueuesOk(b)
    && Placed(b, m, n)
    && RingsOk(b.q, m, l.fd, l.bk)
    && SmallmapOk(b.q, l.smallmap)
    && TreesOk(b, m, l)
  }

  // ------------------------------------------ which links operations may touch

  ghost predicate InTree(of: map<nat, nat>, h: nat) {
    h in of && of[h] >= MIN_LARGE_SIZE
  }

  // List links change only in binned chunks and in the headers of small bins.
  ghost predicate ListsSame(of: map<nat, nat>, m: nat, n: nat, l: Links, l': Links) {
    && Sized(l, n) && Sized(l', n)
    && forall h :: m + 600 <= h < n && h !in of ==> l'.fd[h] == l.fd[h] && l'.bk[h] == l.bk[h]
  }

  // Tree links change only in chunks of the tree bins.
  ghost predicate TreesSame(of: map<nat, nat>, n: nat, l: Links, l': Links) {
    && Sized(l, n) && Sized(l', n)
    && forall h :: 0 < h < n && !InTree(of, h) ==>
      && l'.child0[h] == l.child0[h] && l'.child1[h] == l.child1[h]
      && l'.parent[h] == l.parent[h] && l'.index[h] == l.index[h]
  }

  lemma OnlyLists(of: map<nat, nat>, m: nat, n: nat, l: Links, l': Links)
    requires ListsSame(of, m, n, l, l')
    requires l'.child0 == l.child0 && l'.child1 == l.child1 && l'.parent == l.parent && l'.index == l.index
    ensures TreesSame(of, n, l, l')
  {
  }

  // ------------------------------------------------- what the operations do

  function Queue(q: map<nat, seq<nat>>, s: nat): seq<nat> {
    if s in q then q[s] else []
  }

  function Put(q: map<nat, seq<nat>>, p: nat, s: nat): map<nat, seq<nat>> {
    q[s := Queue(q, s) + [p]]
  }

  function IndexOf(c: seq<nat>, p: nat): (j: nat)
    requires p in c
    ensures j < |c| && c[j] == p
  {
    if c[0] == p then 0 else 1 + IndexOf(c[1..], p)
  }

  function Taken(q: map<nat, seq<nat>>, p: nat, s: nat): map<nat, seq<nat>>
    requires s in q && p in q[s]
  {
    if |q[s]| == 1 then q - {s} else q[s := Without(q[s], IndexOf(q[s], p))]
  }

  // ------------------------------------------------------------ the queues

  lemma PutQueues(b: Bins, c: Bins, p: nat, s: nat)
    requires QueuesOk(b) && p !in b.of && 32 <= s < TWO64 && s % 16 == 0
    requires c.q == Put(b.q, p, s) && c.of == b.of[p := s]
    ensures QueuesOk(c)
  {
    hide NoDup;
    forall t | t in c.q
      ensures QueueOk(c, t)
    {
      if t in b.q { assert QueueOk(b, t); }
      if t == s {
        PutQueue(b, p, s);
      }
    }
    forall x | x in c.of
      ensures HomeOk(c, x)
    {
      if x == p {
        assert c.q[s][|c.q[s]| - 1] == p;
      } else {
        assert HomeOk(b, x);
      }
    }
  }

  lemma PutQueue(b: Bins, p: nat, s: nat)
    requires s in b.q ==> QueueOk(b, s)
    requires p !in b.of
    ensures NoDup(Put(b.q, p, s)[s])
  {
  }

  lemma TakeQueues(b: Bins, c: Bins, p: nat, s: nat)
    requires QueuesOk(b) && p in b.of && s == b.of[p]
    requires s in b.q && p in b.q[s]
    requires c.q == Taken(b.q, p, s) && c.of == b.of - {p}
    ensures QueuesOk(c)
  {
    hide NoDup, IndexOf;
    assert QueueOk(b, s);
    forall t | t in c.q
      ensures QueueOk(c, t)
    {
      assert QueueOk(b, t);
      if t == s {
        WithoutQueue(b, p, s);
      } else {
        forall j | 0 <= j < |c.q[t]| ensures c.q[t][j] in c.of && c.of[c.q[t][j]] == t {
        }
      }
    }
    forall x | x in c.of
      ensures HomeOk(c, x)
    {
      assert HomeOk(b, x);
      if b.of[x] == s {
        WithoutHas(b.q[s], IndexOf(b.q[s], p), x);
      }
    }
  }

  lemma WithoutQueue(b: Bins, p: nat, s: nat)
    requires s in b.q && QueueOk(b, s) && p in b.q[s] && |b.q[s]| > 1
    ensures var d := Without(b.q[s], IndexOf(b.q[s], p));
      |d| > 0 && NoDup(d) && forall j :: 0 <= j < |d| ==> d[j] != p && d[j] in b.of && b.of[d[j]] == s
  {
    hide IndexOf;
    var k := IndexOf(b.q[s], p);
    var d := Without(b.q[s], k);
    forall j | 0 <= j < |d|
      ensures d[j] == b.q[s][if j < k then j else j + 1]
    {
    }
  }

  lemma WithoutHas(c: seq<nat>, k: nat, x: nat)
    requires k < |c| && x in c && x != c[k]
    ensures x in Without(c, k)
  {
    var j :| 0 <= j < |c| && c[j] == x;
    assert Without(c, k)[if j < k then j else j - 1] == x;
  }

  // ------------------------------------------------------------- the rings

  // The ring of size s as it stands, or as it will stand, around its queue.
  function CycleOf(q: map<nat, seq<nat>>, m: nat, s: nat): seq<nat> {
    if s < MIN_LARGE_SIZE then [SmallbinAt(m, s / 8)] + Queue(q, s) else Queue(q, s)
  }

  ghost predicate Belongs(b: Bins, m: nat, n: nat, s: nat, x: nat) {
    (x in b.of && b.of[x] == s && Floor(m) <= x < n)
    || (s < MIN_LARGE_SIZE && x == SmallbinAt(m, s / 8))
  }

  lemma CycleBelongs(b: Bins, m: nat, n: nat, s: nat)
    requires QueuesOk(b) && Placed(b, m, n) && Floor(m) <= n
    ensures forall x :: x in CycleOf(b.q, m, s) ==> Belongs(b, m, n, s, x)
    ensures NoDup(CycleOf(b.q, m, s))
  {
    if s in b.q { assert QueueOk(b, s); }
    forall x | x in CycleOf(b.q, m, s)
      ensures Belongs(b, m, n, s, x)
    {
      if x in Queue(b.q, s) {
        var j :| 0 <= j < |b.q[s]| && b.q[s][j] == x;
      }
    }
  }

  // Rings of different sizes share no node.
  lemma CyclesApart(b: Bins, m: nat, n: nat, s: nat, t: nat, x: nat)
    requires Belongs(b, m, n, t, x) && Belongs(b, m, n, s, x)
    requires s % 16 == 0 && t % 16 == 0
    ensures s == t
  {
  }

  lemma RingsPut(b: Bins, m: nat, n: nat, fd: seq<nat>, bk: seq<nat>, p: nat, s: nat, fd': seq<nat>, bk': seq<nat>)
    requires QueuesOk(b) && Placed(b, m, n) && Floor(m) <= n && RingsOk(b.q, m, fd, bk)
    requires |fd| == |bk| == n && p !in b.of && Floor(m) <= p < n && s % 16 == 0 && s < TWO64
    requires var c := CycleOf(b.q, m, s);
      if c == [] then fd' == fd[p := p] && bk' == bk[p := p]
      else
        && c[0] < n && c[|c| - 1] < n
        && fd' == fd[c[0] := p][p := c[|c| - 1]]
        && bk' == bk[c[|c| - 1] := p][p := c[0]]
    ensures RingsOk(Put(b.q, p, s), m, fd', bk')
  {
    hide QueuesOk, Placed, Ring, NoDup;
    var c := CycleOf(b.q, m, s);
    CycleBelongs(b, m, n, s);
    forall t | t in Put(b.q, p, s)
      ensures Ring(fd', bk', Cycle(Put(b.q, p, s), m, t))
    {
      if t == s {
        NotInCycle(b, m, n, s, p);
        RingGrows(b, m, fd, bk, p, s, c, fd', bk');
      } else {
        CycleBelongs(b, m, n, t);
        QueueAt(b, t);
        RingStays(b, m, n, fd, bk, fd', bk', s, t, p);
      }
    }
  }

  lemma NotInCycle(b: Bins, m: nat, n: nat, s: nat, p: nat)
    requires forall x :: x in CycleOf(b.q, m, s) ==> Belongs(b, m, n, s, x)
    requires p !in b.of && Floor(m) <= p && s < TWO64
    ensures p !in CycleOf(b.q, m, s)
  {
    assert !Belongs(b, m, n, s, p);
  }

  lemma RingGrows(b: Bins, m: nat, fd: seq<nat>, bk: seq<nat>, p: nat, s: nat, c: seq<nat>, fd': seq<nat>,
                  bk': seq<nat>)
    requires RingsOk(b.q, m, fd, bk) && |fd| == |bk| && p < |fd|
    requires c == CycleOf(b.q, m, s) && p !in c && NoDup(c)
    requires
      if c == [] then fd' == fd[p := p] && bk' == bk[p := p]
      else
        && c[0] < |fd| && c[|c| - 1] < |fd|
        && fd' == fd[c[0] := p][p := c[|c| - 1]]
        && bk' == bk[c[|c| - 1] := p][p := c[0]]
    ensures Ring(fd', bk', Cycle(Put(b.q, p, s), m, s))
  {
    hide NoDup, Ring;
    assert Cycle(Put(b.q, p, s), m, s) == c + [p];
    if c == [] {
      SelfLinked(fd', bk', p);
      assert c + [p] == [p];
    } else {
      if s in b.q {
        assert Cycle(b.q, m, s) == c;
      }
      Append(fd, bk, c, p, fd', bk');
    }
  }

  lemma SelfLinked(fd: seq<nat>, bk: seq<nat>, p: nat)
    requires p < |fd| && p < |bk| && fd[p] == p && bk[p] == p
    ensures Ring(fd, bk, [p])
  {
  }

  // Changing links of ring s and of a loose chunk p leaves ring t alone.
  lemma RingStays(b: Bins, m: nat, n: nat, fd: seq<nat>, bk: seq<nat>, fd': seq<nat>, bk': seq<nat>, s: nat, t: nat,
                  p: nat)
    requires RingsOk(b.q, m, fd, bk) && t in b.q && |fd| == |bk| == |fd'| == |bk'| == n
    requires s != t && s % 16 == 0 && t % 16 == 0
    requires forall x :: x in CycleOf(b.q, m, t) ==> Belongs(b, m, n, t, x)
    requires forall x :: 0 <= x < n && !Belongs(b, m, n, s, x) && x != p ==> fd'[x] == fd[x] && bk'[x] == bk[x]
    requires !Belongs(b, m, n, t, p)
    ensures Ring(fd', bk', Cycle(b.q, m, t))
  {
    hide NoDup, Ring;
    var c := Cycle(b.q, m, t);
    assert c == CycleOf(b.q, m, t);
    forall x | x in c && x < n
      ensures fd'[x] == fd[x] && bk'[x] == bk[x]
    {
      assert Belongs(b, m, n, t, x);
      if Belongs(b, m, n, s, x) { CyclesApart(b, m, n, s, t, x); }
    }
    RingFrame(fd, bk, fd', bk', c);
  }

  lemma RingsTake(b: Bins, m: nat, n: nat, fd: seq<nat>, bk: seq<nat>, p: nat, s: nat, fd': seq<nat>, bk': seq<nat>)
    requires QueuesOk(b) && Placed(b, m, n) && Floor(m) <= n && RingsOk(b.q, m, fd, bk)
    requires |fd| == |bk| == n && s in b.q && p in b.q[s] && Floor(m) <= p < n && fd[p] < n && bk[p] < n
    requires if |b.q[s]| == 1 then fd' == fd && bk' == bk
             else fd' == fd[bk[p] := fd[p]] && bk' == bk[fd[p] := bk[p]]
    ensures RingsOk(Taken(b.q, p, s), m, fd', bk')
  {
    hide QueuesOk, Placed, Ring, NoDup, IndexOf, CycleOf;
    CycleBelongs(b, m, n, s);
    QueueAt(b, s);
    InQueue(b, s, p);
    if |b.q[s]| > 1 {
      RingShrinks(b, m, n, fd, bk, p, s, fd', bk');
      forall t | t in Taken(b.q, p, s)
        ensures Ring(fd', bk', Cycle(Taken(b.q, p, s), m, t))
      {
        if t != s {
          CycleBelongs(b, m, n, t);
          QueueAt(b, t);
          RingStays(b, m, n, fd, bk, fd', bk', s, t, p);
        }
      }
    }
  }

  lemma QueueAt(b: Bins, s: nat)
    requires QueuesOk(b) && s in b.q
    ensures QueueOk(b, s)
  {
  }

  lemma InQueue(b: Bins, s: nat, p: nat)
    requires s in b.q && QueueOk(b, s) && p in b.q[s]
    ensures p in b.of && b.of[p] == s
  {
  }

  lemma CycleWithout(q: map<nat, seq<nat>>, m: nat, p: nat, s: nat) returns (j: nat)
    requires s in q && |q[s]| > 1 && p in q[s]
    ensures Cycle(q, m, s) == CycleOf(q, m, s)
    ensures j < |CycleOf(q, m, s)| && CycleOf(q, m, s)[j] == p
    ensures Cycle(Taken(q, p, s), m, s) == Without(CycleOf(q, m, s), j)
  {
    hide IndexOf, Without;
    var k := IndexOf(q[s], p);
    assert Taken(q, p, s)[s] == Without(q[s], k);
    if s < MIN_LARGE_SIZE {
      j := k + 1;
      WithoutBehind(SmallbinAt(m, s / 8), q[s], k);
    } else {
      j := k;
    }
  }

  lemma WithoutBehind(h: nat, c: seq<nat>, k: nat)
    requires k < |c|
    ensures [h] + Without(c, k) == Without([h] + c, k + 1)
  {
  }

  lemma RingShrinks(b: Bins, m: nat, n: nat, fd: seq<nat>, bk: seq<nat>, p: nat, s: nat, fd': seq<nat>, bk': seq<nat>)
    requires RingsOk(b.q, m, fd, bk)
    requires |fd| == |bk| == n && s in b.q && |b.q[s]| > 1 && p in b.q[s] && p < n && fd[p] < n && bk[p] < n
    requires forall x :: x in CycleOf(b.q, m, s) ==> Belongs(b, m, n, s, x)
    requires NoDup(CycleOf(b.q, m, s))
    requires fd' == fd[bk[p] := fd[p]] && bk' == bk[fd[p] := bk[p]]
    ensures Ring(fd', bk', Cycle(Taken(b.q, p, s), m, s))
    ensures Belongs(b, m, n, s, fd[p]) && Belongs(b, m, n, s, bk[p])
  {
    hide NoDup, Ring, IndexOf, Belongs;
    var c := CycleOf(b.q, m, s);
    var j := CycleWithout(b.q, m, p, s);
    Unlink(fd, bk, c, j, fd', bk');
    RingAt(fd, bk, c, j);
    assert fd[p] in c && bk[p] in c;
  }

  // ------------------------------------------------- what small bins leave

  ghost predicate SameLarge(b: Bins, c: Bins) {
    && c.trie == b.trie
    && (forall t :: (t == 0 || t >= MIN_LARGE_SIZE) && t in b.q ==> t in c.q && c.q[t] == b.q[t])
    && (forall t :: (t == 0 || t >= MIN_LARGE_SIZE) && t in c.q ==> t in b.q)
    && (forall p :: p in c.of && c.of[p] >= MIN_LARGE_SIZE ==> p in b.of && b.of[p] == c.of[p])
  }

  lemma SameHead(b: Bins, c: Bins, m: nat, l: Links, s: nat)
    requires SameLarge(b, c) && Wf(b.trie) && s in b.trie.node
    requires HeadOk(b.trie, b.q, m, l.child0, l.child1, l.parent, s)
    ensures HeadOk(c.trie, c.q, m, l.child0, l.child1, l.parent, s)
  {
    hide Wf, UpOk, DownOk, Index;
    KinOk(b.trie, s);
  }

  lemma SameTreebin(b: Bins, c: Bins, l: Links, i: nat)
    requires SameLarge(b, c) && Wf(b.trie) && i < NTREEBINS
    requires TreebinOk(b.trie, b.q, l.treebins, l.treemap, i)
    ensures TreebinOk(c.trie, c.q, l.treebins, l.treemap, i)
  {
    hide Wf, UpOk, DownOk, Index;
    RootsOk(b.trie, i);
    if b.trie.root[i] != 0 {
      KinOk(b.trie, b.trie.root[i]);
    }
  }

  lemma TreesStay(b: Bins, c: Bins, m: nat, l: Links, l': Links)
    requires TreesOk(b, m, l) && SameLarge(b, c)
    requires l'.child0 == l.child0 && l'.child1 == l.child1 && l'.parent == l.parent && l'.index == l.index
    requires l'.treebins == l.treebins && l'.treemap == l.treemap
    ensures TreesOk(c, m, l')
  {
    hide Wf, HeadOk, TailOk, TreebinOk, Index;
    forall s | s in c.trie.node
      ensures HeadOk(c.trie, c.q, m, l'.child0, l'.child1, l'.parent, s)
    {
      SameHead(b, c, m, l, s);
    }
    forall i | 0 <= i < NTREEBINS
      ensures TreebinOk(c.trie, c.q, l'.treebins, l'.treemap, i)
    {
      SameTreebin(b, c, l, i);
    }
  }

  lemma SmallmapPut(q: map<nat, seq<nat>>, smallmap: bv32, p: nat, s: nat)
    requires SmallmapOk(q, smallmap) && s % 8 == 0
    ensures s < MIN_LARGE_SIZE ==> SmallmapOk(Put(q, p, s), Mark(smallmap, s / 8))
    ensures s < MIN_LARGE_SIZE && s in q ==> SmallmapOk(Put(q, p, s), smallmap)
    ensures s >= MIN_LARGE_SIZE ==> SmallmapOk(Put(q, p, s), smallmap)
  {
    hide IsMarked, Mark;
    if s < MIN_LARGE_SIZE {
      MarkBits(smallmap, s / 8);
    }
  }

  lemma SmallmapTake(q: map<nat, seq<nat>>, smallmap: bv32, p: nat, s: nat)
    requires SmallmapOk(q, smallmap) && s % 8 == 0 && s in q && p in q[s]
    ensures s < MIN_LARGE_SIZE && |q[s]| == 1 ==> SmallmapOk(Taken(q, p, s), Clear(smallmap, s / 8))
    ensures |q[s]| != 1 || s >= MIN_LARGE_SIZE ==> SmallmapOk(Taken(q, p, s), smallmap)
  {
    hide IsMarked, Clear, IndexOf;
    if s < MIN_LARGE_SIZE {
      MarkBits(smallmap, s / 8);
    }
  }

  // --------------------------------------------------- small-bin operations

  // Where a small bin's header points while the bin holds chunks.
  lemma SmallHeader(b: Bins, m: nat, n: nat, l: Links, s: nat)
    requires BinInv(b, m, n, l) && s < MIN_LARGE_SIZE && s % 8 == 0
    ensures IsMarked(l.smallmap, s / 8) <==> s in b.q
    ensures SmallbinAt(m, s / 8) < n && |l.fd| == |l.bk| == n
    ensures s in b.q ==>
      var q, h := b.q[s], SmallbinAt(m, s / 8);
      && |q| > 0
      && l.fd[h] == q[|q| - 1]
      && l.fd[h] < n && l.bk[l.fd[h]] == h
      && l.bk[h] == q[0]
      && Ring(l.fd, l.bk, Cycle(b.q, m, s)) && NoDup(Cycle(b.q, m, s))
    ensures s in b.q ==> forall p :: p in b.q[s] ==> Floor(m) <= p < n && p in b.of && b.of[p] == s
  {
    hide IsMarked, Ring, NoDup, TreesOk, QueuesOk, QueueOk, CycleOf;
    if s in b.q {
      QueueAt(b, s);
      CycleBelongs(b, m, n, s);
      var c := Cycle(b.q, m, s);
      SmallCycle(b, m, n, s);
      RingAt(l.fd, l.bk, c, 0);
      RingAt(l.fd, l.bk, c, |c| - 1);
    }
  }

  lemma SmallCycle(b: Bins, m: nat, n: nat, s: nat)
    requires s in b.q && QueueOk(b, s) && s < MIN_LARGE_SIZE && Placed(b, m, n)
    ensures Cycle(b.q, m, s) == CycleOf(b.q, m, s)
    ensures |b.q[s]| > 0
    ensures forall p :: p in b.q[s] ==> Floor(m) <= p < n && p in b.of && b.of[p] == s
  {
    hide NoDup;
  }

  // l' is l with p written in as the first chunk of small bin s.
  ghost predicate WritesFirst(b: Bins, m: nat, l: Links, p: nat, s: nat, l': Links) {
    var c := CycleOf(b.q, m, s);
    && |c| > 0 && c[0] < |l.bk| && c[|c| - 1] < |l.bk| && c[0] < |l.fd| && p < |l.fd| && p < |l.bk|
    && l' == l.(
         fd := l.fd[c[0] := p][p := c[|c| - 1]],
         bk := l.bk[c[|c| - 1] := p][p := c[0]],
         smallmap := if s in b.q then l.smallmap else Mark(l.smallmap, s / 8))
  }

  lemma InsertSmallInv(b: Bins, m: nat, n: nat, l: Links, p: nat, s: nat, l': Links)
    requires BinInv(b, m, n, l) && p !in b.of && Floor(m) <= p < n
    requires 32 <= s < MIN_LARGE_SIZE && s % 16 == 0
    requires WritesFirst(b, m, l, p, s, l')
    ensures BinInv(b.(q := Put(b.q, p, s), of := b.of[p := s]), m, n, l')
  {
    hide QueuesOk, RingsOk, SmallmapOk, TreesOk, IsMarked, Mark;
    var c := b.(q := Put(b.q, p, s), of := b.of[p := s]);
    PutQueues(b, c, p, s);
    RingsPut(b, m, n, l.fd, l.bk, p, s, l'.fd, l'.bk);
    SmallmapPut(b.q, l.smallmap, p, s);
    TreesStay(b, c, m, l, l');
  }

  lemma UnlinkSmallInv(b: Bins, m: nat, n: nat, l: Links, p: nat, s: nat, l': Links)
    requires BinInv(b, m, n, l) && s < MIN_LARGE_SIZE
    requires s in b.q && p in b.q[s] && p < n && l.fd[p] < n && l.bk[p] < n
    requires l' ==
      if |b.q[s]| == 1 then l.(smallmap := Clear(l.smallmap, s / 8))
      else l.(fd := l.fd[l.bk[p] := l.fd[p]], bk := l.bk[l.fd[p] := l.bk[p]])
    ensures BinInv(b.(q := Taken(b.q, p, s), of := b.of - {p}), m, n, l')
  {
    hide QueuesOk, RingsOk, SmallmapOk, TreesOk, IsMarked, Clear, QueueOk, IndexOf;
    var c := b.(q := Taken(b.q, p, s), of := b.of - {p});
    QueueAt(b, s);
    SmallSize(b, s, p);
    TakeQueues(b, c, p, s);
    RingsTake(b, m, n, l.fd, l.bk, p, s, l'.fd, l'.bk);
    SmallmapTake(b.q, l.smallmap, p, s);
    TreesStay(b, c, m, l, l');
  }

  lemma SmallSize(b: Bins, s: nat, p: nat)
    requires s in b.q && QueueOk(b, s) && p in b.q[s]
    ensures s % 16 == 0 && 32 <= s && p in b.of && b.of[p] == s && |b.q[s]| > 0
  {
  }

  // The neighbours of a chunk in its small bin.
  lemma SmallNeighbours(b: Bins, m: nat, n: nat, l: Links, s: nat, p: nat)
    requires BinInv(b, m, n, l) && s < MIN_LARGE_SIZE && s in b.q && p in b.q[s]
    ensures Floor(m) <= p < n && |l.fd| == |l.bk| == n && s % 16 == 0
    ensures var f, k, h := l.fd[p], l.bk[p], SmallbinAt(m, s / 8);
      && h < n && f < n && k < n && f != p && k != p
      && (f == h || (Floor(m) <= f && f in b.of && b.of[f] == s)) && l.bk[f] == p
      && (k == h || (Floor(m) <= k && k in b.of && b.of[k] == s)) && l.fd[k] == p
      && (f == k <==> |b.q[s]| == 1)
  {
    hide IsMarked, Ring, NoDup, TreesOk, QueuesOk, RingsOk, SmallmapOk, QueueOk, IndexOf;
    QueueAt(b, s);
    SmallSize(b, s, p);
    SmallHeader(b, m, n, l, s);
    var c, j := Cycle(b.q, m, s), IndexOf(b.q[s], p) + 1;
    Neighbours(l.fd, l.bk, c, j);
    RingAt(l.fd, l.bk, c, j);
  }

  lemma HomeOf(b: Bins, m: nat, n: nat, l: Links, p: nat)
    requires BinInv(b, m, n, l) && p in b.of
    ensures b.of[p] in b.q && p in b.q[b.of[p]] && Floor(m) <= p < n
  {
    hide RingsOk, SmallmapOk, TreesOk, QueueOk;
    assert HomeOk(b, p);
  }

  lemma Neighbours(fd: seq<nat>, bk: seq<nat>, c: seq<nat>, j: nat)
    requires Ring(fd, bk, c) && NoDup(c) && 0 < j < |c|
    ensures var f, k := c[j - 1], if j + 1 < |c| then c[j + 1] else c[0];
      && f in c && k in c && f != c[j] && k != c[j]
      && f < |bk| && k < |fd| && bk[f] == c[j] && fd[k] == c[j]
      && (f == k <==> |c| == 2)
  {
    RingAt(fd, bk, c, j - 1);
    RingAt(fd, bk, c, if j + 1 < |c| then j + 1 else 0);
  }

  lemma FirstFrame(b: Bins, m: nat, n: nat, l: Links, p: nat, s: nat, l': Links)
    requires BinInv(b, m, n, l) && s < MIN_LARGE_SIZE && s % 16 == 0 && WritesFirst(b, m, l, p, s, l')
    ensures ListsSame(b.of[p := s], m, n, l, l')
  {
    hide IsMarked, Mark, Ring, NoDup, TreesOk, RingsOk, SmallmapOk;
    CycleBelongs(b, m, n, s);
    var c := CycleOf(b.q, m, s);
    assert Belongs(b, m, n, s, c[0]) && Belongs(b, m, n, s, c[|c| - 1]);
  }

  lemma UnlinkFrame(b: Bins, m: nat, n: nat, l: Links, p: nat, s: nat, l': Links)
    requires BinInv(b, m, n, l) && s < MIN_LARGE_SIZE && s in b.q && p in b.q[s]
    requires p < n && l.fd[p] < n && l.bk[p] < n
    requires (l' == l.(smallmap := l'.smallmap)
      || l' == l.(fd := l.fd[l.bk[p] := l.fd[p]], bk := l.bk[l.fd[p] := l.bk[p]]))
    ensures ListsSame(b.of, m, n, l, l')
  {
    hide IsMarked, Clear, Ring, NoDup, TreesOk, RingsOk, SmallmapOk, QueuesOk;
    SmallNeighbours(b, m, n, l, s, p);
  }
}
