// Taking a node out of a tree bin: the effect on the tree links.
module Relink {
  import opened Word
  import opened TreeIndex
  import opened BinMap
  import opened Tries
  import opened Bins
  import opened TreeLinks

  // The chunk standing for size s hangs in the tree as t says.
  ghost predicate HungAt(t: Trie, q: map<nat, seq<nat>>, of: map<nat, nat>, m: nat, n: nat, l: Links, s: nat)
    requires s in t.node
  {
    && HeadOk(t, q, m, l.child0, l.child1, l.parent, s)
    && 0 < Oldest(q, s) < n
    && Oldest(q, s) in of && of[Oldest(q, s)] == s
  }

  ghost predicate Hung(t: Trie, q: map<nat, seq<nat>>, of: map<nat, nat>, m: nat, n: nat, l: Links) {
    && Wf(t)
    && Sized(l, n)
    && 0 !in q
    && (forall s :: s in t.node ==> HungAt(t, q, of, m, n, l, s))
    && (forall i :: 0 <= i < NTREEBINS ==> TreebinOk(t, q, l.treebins, l.treemap, i))
  }

  lemma HungOf(b: Bins, m: nat, n: nat, l: Links)
    requires BinInv(b, m, n, l)
    ensures Hung(b.trie, b.q, b.of, m, n, l)
  {
    hide QueuesOk, RingsOk, SmallmapOk, TreesOk, HeadOk, TailOk, TreebinOk, Wf, Index;
    KeysOf(b, m, l);
    NoZero(b);
    forall s | s in b.trie.node
      ensures HungAt(b.trie, b.q, b.of, m, n, l, s)
    {
      TreeOf(b, m, l, s);
      OldestOf(b, s);
    }
    forall i | 0 <= i < NTREEBINS
      ensures TreebinOk(b.trie, b.q, l.treebins, l.treemap, i)
    {
      TreebinOf(b, m, l, i);
    }
  }

  // A node with its parent and children, in the trie and in memory.
  ghost predicate KinHung(t: Trie, q: map<nat, seq<nat>>, of: map<nat, nat>, m: nat, n: nat, l: Links, s: nat) {
    && AllOk(t, s) && HungAt(t, q, of, m, n, l, s)
    && var e := t.node[s];
    && (e.par != 0 ==> AllOk(t, e.par) && HungAt(t, q, of, m, n, l, e.par))
    && (e.kid0 != 0 ==> AllOk(t, e.kid0) && HungAt(t, q, of, m, n, l, e.kid0))
    && (e.kid1 != 0 ==> AllOk(t, e.kid1) && HungAt(t, q, of, m, n, l, e.kid1))
  }

  lemma KinOf(t: Trie, q: map<nat, seq<nat>>, of: map<nat, nat>, m: nat, n: nat, l: Links, s: nat)
    requires Hung(t, q, of, m, n, l) && s in t.node
    ensures KinHung(t, q, of, m, n, l, s) && Wf(t) && Sized(l, n) && 0 !in q
  {
    hide Wf, HungAt, TreebinOk, SizeOk, UpOk, DownOk;
    KinOk(t, s);
  }

  // ------------------------------------------------------- dropping a leaf

  // The slot that held the leaf r, or the root of its bin, is emptied.
  ghost predicate Dropped(t: Trie, q: map<nat, seq<nat>>, n: nat, l: Links, l': Links, r: nat)
    requires r in t.node
  {
    var e := t.node[r];
    var P, bit := Oldest(q, e.par), Bit(r, e.lev);
    && Sized(l', n) && Sized(l, n)
    && l'.parent == l.parent
    && (forall h :: 0 <= h < n ==> l'.child0[h] == if e.par != 0 && h == P && bit == 0 then 0 else l.child0[h])
    && (forall h :: 0 <= h < n ==> l'.child1[h] == if e.par != 0 && h == P && bit == 1 then 0 else l.child1[h])
    && l'.treebins == (if e.par == 0 then l.treebins[Index(r) := 0] else l.treebins)
    && l'.treemap == (if e.par == 0 then Clear(l.treemap, Index(r)) else l.treemap)
  }

  lemma DropHung(t: Trie, q: map<nat, seq<nat>>, of: map<nat, nat>, m: nat, n: nat, l: Links, l': Links, r: nat, s: nat)
    requires |t.root| == NTREEBINS && r in t.node && KinHung(t, q, of, m, n, l, r) && 0 !in q
    requires t.node[r].kid0 == 0 && t.node[r].kid1 == 0 && Dropped(t, q, n, l, l', r)
    requires s in t.node && s != r && KinHung(t, q, of, m, n, l, s)
    ensures s in DropLeaf(t, r).node
    ensures HungAt(DropLeaf(t, r), q - {r}, of, m, n, l', s)
  {
    hide Index, OpenBits, Hi;
  }

  lemma DropRoot(t: Trie, q: map<nat, seq<nat>>, of: map<nat, nat>, m: nat, n: nat, l: Links, l': Links, r: nat, i: nat)
    requires Hung(t, q, of, m, n, l) && |t.root| == NTREEBINS && r in t.node && i < NTREEBINS
    requires Dropped(t, q, n, l, l', r)
    ensures TreebinOk(DropLeaf(t, r), q - {r}, l'.treebins, l'.treemap, i)
  {
    hide Wf, IsMarked, Clear, OpenBits, Hi, HungAt, Bit;
    MarkBits(l.treemap, Index(r));
    RootsOk(t, i);
    KinOk(t, r);
    assert TreebinOk(t, q, l.treebins, l.treemap, i);
    if t.root[i] != 0 { KinOk(t, t.root[i]); }
  }

  lemma DropAll(t: Trie, q: map<nat, seq<nat>>, of: map<nat, nat>, m: nat, n: nat, l: Links, l': Links, r: nat)
    requires Hung(t, q, of, m, n, l) && |t.root| == NTREEBINS && r in t.node
    requires t.node[r].kid0 == 0 && t.node[r].kid1 == 0 && Dropped(t, q, n, l, l', r)
    ensures Hung(DropLeaf(t, r), q - {r}, of, m, n, l')
    ensures DropLeaf(t, r).node.Keys == t.node.Keys - {r}
  {
    hide Wf, HungAt, TreebinOk, KinHung, Index, Bit;
    var u := DropLeaf(t, r);
    DropLeafWf(t, r);
    KinOf(t, q, of, m, n, l, r);
    forall s | s in u.node
      ensures HungAt(u, q - {r}, of, m, n, l', s)
    {
      KinOf(t, q, of, m, n, l, s);
      DropHung(t, q, of, m, n, l, l', r, s);
    }
    forall i | 0 <= i < NTREEBINS
      ensures TreebinOk(u, q - {r}, l'.treebins, l'.treemap, i)
    {
      DropRoot(t, q, of, m, n, l, l', r, i);
    }
  }

  // ----------------------------------------------------- moving into place

  // Chunk R takes over the place of the chunk X that stood for size x.
  ghost predicate Moved(t: Trie, n: nat, l: Links, l': Links, x: nat, X: nat, R: nat)
    requires x in t.node && X < n && R < n && Sized(l, n)
  {
    var P, inner := l.parent[X], t.node[x].par != 0;
    && Sized(l', n)
    && (inner ==> P < n)
    && l'.child0[R] == l.child0[X]
    && l'.child1[R] == l.child1[X]
    && l'.parent[R] == P
    && (forall h :: 0 <= h < n && h != R ==>
          l'.child0[h] == if inner && h == P && l.child0[P] == X then R else l.child0[h])
    && (forall h :: 0 <= h < n && h != R ==>
          l'.child1[h] == if inner && h == P && l.child0[P] != X then R else l.child1[h])
    && (forall h :: 0 < h < n && h != R ==>
          l'.parent[h] == if h == l.child0[X] || h == l.child1[X] then R else l.parent[h])
    && l'.treebins == (if inner then l.treebins else l.treebins[Index(x) := R])
    && l'.treemap == l.treemap
  }

  // The queues after the move: r is now represented by R, x no longer.
  ghost predicate Represents(q: map<nat, seq<nat>>, q': map<nat, seq<nat>>, x: nat, r: nat, R: nat) {
    && 0 !in q'
    && (forall s :: s != x && s != r ==> Oldest(q', s) == Oldest(q, s))
    && Oldest(q', r) == R
  }

  // R is not one of the chunks that carry tree links.
  ghost predicate Spare(t: Trie, q: map<nat, seq<nat>>, of: map<nat, nat>, n: nat, x: nat, r: nat, R: nat)
    requires x in t.node
  {
    && 0 < R < n && R in of && of[R] == r && R != Oldest(q, x)
    && (r == x || Fits(t, x, r))
  }

  lemma MoveSelf(t: Trie, q: map<nat, seq<nat>>, of: map<nat, nat>, m: nat, n: nat, l: Links, l': Links,
                 x: nat, r: nat, R: nat, q': map<nat, seq<nat>>)
    requires |t.root| == NTREEBINS && x in t.node && KinHung(t, q, of, m, n, l, x) && 0 !in q
    requires Sized(l, n) && Spare(t, q, of, n, x, r, R) && Moved(t, n, l, l', x, Oldest(q, x), R)
    requires Represents(q, q', x, r, R)
    ensures r in Replace(t, x, r).node
    ensures HungAt(Replace(t, x, r), q', of, m, n, l', r)
  {
    hide Index, OpenBits, Hi;
  }

  // The parent of x, any other node that keeps its children, a child of x,
  // and any other node that keeps its parent.
  lemma MoveParent(t: Trie, q: map<nat, seq<nat>>, of: map<nat, nat>, m: nat, n: nat, l: Links, l': Links,
                   x: nat, r: nat, R: nat, q': map<nat, seq<nat>>, s: nat)
    requires |t.root| == NTREEBINS && x in t.node && KinHung(t, q, of, m, n, l, x) && 0 !in q
    requires Sized(l, n) && Spare(t, q, of, n, x, r, R) && Moved(t, n, l, l', x, Oldest(q, x), R)
    requires Represents(q, q', x, r, R)
    requires s in t.node && s != x && KinHung(t, q, of, m, n, l, s)
    requires s == t.node[x].par
    ensures s in Replace(t, x, r).node
    ensures var h, e := Oldest(q', s), Replace(t, x, r).node[s];
      && 0 < h < n && h in of && of[h] == s
      && l'.child0[h] == Oldest(q', e.kid0) && l'.child1[h] == Oldest(q', e.kid1)
  {
    hide Index, OpenBits, Hi;
  }

  lemma MoveDown(t: Trie, q: map<nat, seq<nat>>, of: map<nat, nat>, m: nat, n: nat, l: Links, l': Links,
                 x: nat, r: nat, R: nat, q': map<nat, seq<nat>>, s: nat)
    requires |t.root| == NTREEBINS && x in t.node && KinHung(t, q, of, m, n, l, x) && 0 !in q
    requires Sized(l, n) && Spare(t, q, of, n, x, r, R) && Moved(t, n, l, l', x, Oldest(q, x), R)
    requires Represents(q, q', x, r, R)
    requires s in t.node && s != x && KinHung(t, q, of, m, n, l, s)
    requires s != t.node[x].par
    ensures s in Replace(t, x, r).node
    ensures var h, e := Oldest(q', s), Replace(t, x, r).node[s];
      && 0 < h < n && h in of && of[h] == s
      && l'.child0[h] == Oldest(q', e.kid0) && l'.child1[h] == Oldest(q', e.kid1)
  {
    hide Index, OpenBits, Hi, Bit;
    var e := t.node[s];
    assert e.kid0 != x && e.kid1 != x;
    assert e.kid0 != r && e.kid1 != r;
    assert Oldest(q, s) != R;
  }

  lemma MoveKid(t: Trie, q: map<nat, seq<nat>>, of: map<nat, nat>, m: nat, n: nat, l: Links, l': Links,
                x: nat, r: nat, R: nat, q': map<nat, seq<nat>>, s: nat)
    requires |t.root| == NTREEBINS && x in t.node && KinHung(t, q, of, m, n, l, x) && 0 !in q
    requires Sized(l, n) && Spare(t, q, of, n, x, r, R) && Moved(t, n, l, l', x, Oldest(q, x), R)
    requires Represents(q, q', x, r, R)
    requires s in t.node && s != x && KinHung(t, q, of, m, n, l, s)
    requires t.node[s].par == x
    ensures s in Replace(t, x, r).node
    ensures var h, e := Oldest(q', s), Replace(t, x, r).node[s];
      && h < n && l'.parent[h] == if e.par == 0 then TreebinAt(m, Index(s)) else Oldest(q', e.par)
  {
    hide Index, OpenBits, Hi, Bit;
  }

  lemma MoveUp(t: Trie, q: map<nat, seq<nat>>, of: map<nat, nat>, m: nat, n: nat, l: Links, l': Links,
               x: nat, r: nat, R: nat, q': map<nat, seq<nat>>, s: nat)
    requires |t.root| == NTREEBINS && x in t.node && KinHung(t, q, of, m, n, l, x) && 0 !in q
    requires Sized(l, n) && Spare(t, q, of, n, x, r, R) && Moved(t, n, l, l', x, Oldest(q, x), R)
    requires Represents(q, q', x, r, R)
    requires s in t.node && s != x && KinHung(t, q, of, m, n, l, s)
    requires t.node[s].par != x
    ensures s in Replace(t, x, r).node
    ensures var h, e := Oldest(q', s), Replace(t, x, r).node[s];
      && h < n && l'.parent[h] == if e.par == 0 then TreebinAt(m, Index(s)) else Oldest(q', e.par)
  {
    hide Index, OpenBits, Hi, Bit;
    assert s != t.node[x].kid0 && s != t.node[x].kid1;
    assert Oldest(q, s) != R;
  }

  lemma MoveRoot(t: Trie, q: map<nat, seq<nat>>, of: map<nat, nat>, m: nat, n: nat, l: Links, l': Links,
                 x: nat, r: nat, R: nat, q': map<nat, seq<nat>>, i: nat)
    requires Hung(t, q, of, m, n, l) && |t.root| == NTREEBINS && x in t.node && i < NTREEBINS
    requires 0 < Oldest(q, x) < n
    requires Spare(t, q, of, n, x, r, R) && Moved(t, n, l, l', x, Oldest(q, x), R)
    requires Represents(q, q', x, r, R)
    ensures TreebinOk(Replace(t, x, r), q', l'.treebins, l'.treemap, i)
  {
    hide Wf, IsMarked, OpenBits, Hi, HungAt, Bit;
    RootsOk(t, i);
    KinOk(t, x);
    assert TreebinOk(t, q, l.treebins, l.treemap, i);
    if t.root[i] != 0 { KinOk(t, t.root[i]); }
  }

  lemma ReplaceSame(t: Trie, x: nat)
    requires Wf(t) && |t.root| == NTREEBINS && x in t.node
    ensures Replace(t, x, x) == t
  {
    hide Wf, Index, OpenBits, Hi;
    KinOk(t, x);
    var u := Replace(t, x, x);
    assert u.node.Keys == t.node.Keys;
    forall s | s in t.node
      ensures u.node[s] == t.node[s]
    {
      KinOk(t, s);
    }
    assert u.node == t.node;
    assert u.root == t.root;
  }

  lemma MoveAll(t: Trie, q: map<nat, seq<nat>>, of: map<nat, nat>, m: nat, n: nat, l: Links, l': Links,
                x: nat, r: nat, R: nat, q': map<nat, seq<nat>>)
    requires Hung(t, q, of, m, n, l) && |t.root| == NTREEBINS && x in t.node
    requires 0 < Oldest(q, x) < n
    requires Spare(t, q, of, n, x, r, R) && Moved(t, n, l, l', x, Oldest(q, x), R)
    requires Represents(q, q', x, r, R)
    ensures Hung(Replace(t, x, r), q', of, m, n, l')
    ensures Replace(t, x, r).node.Keys == t.node.Keys - {x} + {r}
  {
    hide Wf, TreebinOk, KinHung, Index, Oldest, Fits, Represents, Replace;
    var u := Replace(t, x, r);
    KinOf(t, q, of, m, n, l, x);
    if r == x {
      ReplaceSame(t, x);
    } else {
      ReplaceWf(t, x, r);
    }
    forall s | s in u.node
      ensures HungAt(u, q', of, m, n, l', s)
    {
      if s == r {
        MoveSelf(t, q, of, m, n, l, l', x, r, R, q');
      } else {
        KinOf(t, q, of, m, n, l, s);
        if s == t.node[x].par {
          MoveParent(t, q, of, m, n, l, l', x, r, R, q', s);
        } else {
          MoveDown(t, q, of, m, n, l, l', x, r, R, q', s);
        }
        if t.node[s].par == x {
          MoveKid(t, q, of, m, n, l, l', x, r, R, q', s);
        } else {
          MoveUp(t, q, of, m, n, l, l', x, r, R, q', s);
        }
      }
    }
    forall i | 0 <= i < NTREEBINS
      ensures TreebinOk(u, q', l'.treebins, l'.treemap, i)
    {
      MoveRoot(t, q, of, m, n, l, l', x, r, R, q', i);
    }
    assert 0 !in q' by { RepresentsNoZero(q, q', x, r, R); }
  }

  lemma RepresentsNoZero(q: map<nat, seq<nat>>, q': map<nat, seq<nat>>, x: nat, r: nat, R: nat)
    requires Represents(q, q', x, r, R)
    ensures 0 !in q'
  {
  }
}
