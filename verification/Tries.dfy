// The bitwise digital trees of the tree bins, as trees of distinct chunk
// sizes: a node of level k shares all but the low k bits of its size with
// every size below it, and its two subtrees differ in bit k - 1.
module Tries {
  import opened Word
  import opened TreeIndex

  // Sizes name the nodes; 0 is no node.
  datatype Node = Node(lev: nat, par: nat, kid0: nat, kid1: nat) {
    function Kid(b: nat): nat {
      if b == 0 then kid0 else kid1
    }

    function SetKid(b: nat, s: nat): Node {
      if b == 0 then this.(kid0 := s) else this.(kid1 := s)
    }

    // leftmost_child
    function Leftmost(): nat {
      if kid0 != 0 then kid0 else kid1
    }
  }

  datatype Trie = Trie(root: seq<nat>, node: map<nat, Node>)

  ghost predicate RootOk(t: Trie, i: nat)
    requires |t.root| == NTREEBINS && i < NTREEBINS
  {
    t.root[i] != 0 ==>
      t.root[i] in t.node && Index(t.root[i]) == i && t.node[t.root[i]].par == 0
  }

  ghost predicate SizeOk(t: Trie, s: nat)
    requires s in t.node
  {
    && MIN_LARGE_SIZE <= s < TWO64
    && t.node[s].lev <= OpenBits(Index(s))
  }

  ghost predicate UpOk(t: Trie, s: nat)
    requires |t.root| == NTREEBINS && s in t.node
  {
    var n := t.node[s];
    if n.par == 0 then
      t.root[Index(s)] == s && n.lev == OpenBits(Index(s))
    else
      && n.par in t.node
      && Index(n.par) == Index(s)
      && t.node[n.par].lev == n.lev + 1
      && Hi(n.par, n.lev + 1) == Hi(s, n.lev + 1)
      && t.node[n.par].Kid(Bit(s, n.lev)) == s
  }

  ghost predicate DownOk(t: Trie, s: nat, b: nat)
    requires s in t.node
  {
    var n, c := t.node[s], t.node[s].Kid(b);
    c != 0 ==> n.lev > 0 && c in t.node && t.node[c].par == s && Bit(c, n.lev - 1) == b
  }

  ghost predicate Wf(t: Trie) {
    && |t.root| == NTREEBINS
    && (forall i :: 0 <= i < NTREEBINS ==> RootOk(t, i))
    && (forall s :: s in t.node ==> SizeOk(t, s))
    && (forall s :: s in t.node ==> UpOk(t, s))
    && (forall s :: s in t.node ==> DownOk(t, s, 0) && DownOk(t, s, 1))
  }

  // y lies in the subtree of x.
  ghost predicate Under(t: Trie, x: nat, y: nat) {
    && x in t.node && y in t.node
    && Index(x) == Index(y)
    && t.node[y].lev <= t.node[x].lev
    && Hi(y, t.node[x].lev) == Hi(x, t.node[x].lev)
  }

  lemma NodeOk(t: Trie, s: nat)
    requires Wf(t) && s in t.node
    ensures |t.root| == NTREEBINS
    ensures SizeOk(t, s) && UpOk(t, s) && DownOk(t, s, 0) && DownOk(t, s, 1)
  {
  }

  // Every node has an ancestor on each level up to the root's.
  lemma {:induction false} Ancestor(t: Trie, s: nat, k: nat) returns (a: nat)
    requires Wf(t) && s in t.node && t.node[s].lev <= k <= OpenBits(Index(s))
    ensures Under(t, a, s) && t.node[a].lev == k
    decreases k - t.node[s].lev
  {
    hide Wf, Index, OpenBits, Hi, Bit;
    NodeOk(t, s);
    var n := t.node[s];
    if n.lev == k {
      a := s;
    } else {
      a := Ancestor(t, n.par, k);
      HiCoarser(n.par, s, n.lev + 1, k);
    }
  }

  // A position in the tree holds at most one size.
  lemma {:induction false} OneAtPosition(t: Trie, x: nat, y: nat)
    requires Wf(t) && Under(t, x, y) && t.node[x].lev == t.node[y].lev
    ensures x == y
    decreases OpenBits(Index(x)) - t.node[x].lev
  {
    hide Wf, Index, OpenBits, Hi;
    NodeOk(t, x);
    NodeOk(t, y);
    var n, m := t.node[x], t.node[y];
    if n.par != 0 {
      NodeOk(t, n.par);
    }
    if m.par != 0 {
      NodeOk(t, m.par);
    }
    if n.par != 0 && m.par != 0 {
      HiCoarser(x, y, n.lev, n.lev + 1);
      OneAtPosition(t, n.par, m.par);
    }
  }

  // Below a node, the next bit of a size tells which child it is under.
  lemma UnderStep(t: Trie, x: nat, y: nat)
    requires Wf(t) && Under(t, x, y) && x != y
    ensures t.node[y].lev < t.node[x].lev
    ensures var c := t.node[x].Kid(Bit(y, t.node[x].lev - 1)); c != 0 && Under(t, c, y)
  {
    hide Wf, Index, OpenBits, Hi;
    var k := t.node[x].lev;
    if t.node[y].lev == k {
      OneAtPosition(t, x, y);
    }
    NodeOk(t, x);
    var a := Ancestor(t, y, k - 1);
    NodeOk(t, a);
    var p := t.node[a].par;
    HiCoarser(a, y, k - 1, k);
    OneAtPosition(t, p, x);
  }

  // Every size of a bin is under the bin's root.
  lemma UnderRoot(t: Trie, s: nat)
    requires Wf(t) && s in t.node
    ensures |t.root| == NTREEBINS && t.root[Index(s)] != 0 && Under(t, t.root[Index(s)], s)
  {
    hide Wf, OpenBits, Hi;
    NodeOk(t, s);
    var a := Ancestor(t, s, OpenBits(Index(s)));
    NodeOk(t, a);
    if t.node[a].par != 0 {
      NodeOk(t, t.node[a].par);
    }
  }

  lemma KidUnder(t: Trie, x: nat, b: nat)
    requires Wf(t) && x in t.node && b < 2 && t.node[x].Kid(b) != 0
    ensures Under(t, x, t.node[x].Kid(b)) && t.node[x].lev == t.node[t.node[x].Kid(b)].lev + 1
    ensures Bit(t.node[x].Kid(b), t.node[x].lev - 1) == b
  {
    hide Wf, Index, OpenBits, Hi;
    NodeOk(t, x);
    NodeOk(t, t.node[x].Kid(b));
  }

  lemma UnderTrans(t: Trie, x: nat, y: nat, z: nat)
    requires Under(t, x, y) && Under(t, y, z)
    ensures Under(t, x, z)
  {
    hide Index, Hi;
    HiCoarser(y, z, t.node[y].lev, t.node[x].lev);
  }

  // ---------------------------------------------------------------- search

  // Following leftmost children meets, or passes below, everything under x.
  lemma LeftmostStep(t: Trie, x: nat, y: nat)
    requires Wf(t) && Under(t, x, y) && x != y
    ensures var l := t.node[x].Leftmost();
      l != 0 && Under(t, x, l) && (Under(t, l, y) || l < y)
  {
    hide Wf, Index, OpenBits, Hi;
    var n := t.node[x];
    UnderStep(t, x, y);
    var b := Bit(y, n.lev - 1);
    NodeOk(t, x);
    if n.kid0 != 0 {
      KidUnder(t, x, 0);
      if b == 1 {
        Sibling(n.kid0, y, n.lev);
      }
    } else {
      KidUnder(t, x, 1);
    }
  }

  // Of two sizes that part at bit k - 1, the one with bit 0 is smaller.
  lemma Sibling(l: nat, r: nat, k: nat)
    requires k > 0 && Hi(l, k) == Hi(r, k) && Bit(l, k - 1) < Bit(r, k - 1)
    ensures Hi(l, k - 1) + 1 == Hi(r, k - 1) && l < r
  {
    assert Hi(l, k) == Hi(l, k - 1) / 2 && Hi(r, k) == Hi(r, k - 1) / 2;
    HiLess(l, r, k - 1);
  }

  // Every size below a left child is smaller than every size below its right
  // sibling.
  lemma LeftBeforeRight(t: Trie, x: nat, l: nat, r: nat)
    requires Wf(t) && x in t.node && t.node[x].kid0 != 0 && t.node[x].kid1 != 0
    requires Under(t, t.node[x].kid0, l) && Under(t, t.node[x].kid1, r)
    ensures l < r
  {
    hide Wf, Index, OpenBits, Hi;
    NodeOk(t, x);
    var a, b, k := t.node[x].kid0, t.node[x].kid1, t.node[x].lev - 1;
    NodeOk(t, a);
    NodeOk(t, b);
    assert t.node[a].lev == k == t.node[b].lev;
    Sibling(a, b, k + 1);
    HiLess(l, r, k);
  }

  // rst is the deepest right subtree passed by on the way towards nb.
  ghost predicate Passed(t: Trie, rst: nat, nb: nat, k: nat) {
    rst != 0 ==>
      && rst in t.node
      && Index(rst) == Index(nb)
      && k <= t.node[rst].lev
      && Hi(rst, t.node[rst].lev) == Hi(nb, t.node[rst].lev) + 1
  }

  // y is in the subtree of rst, or greater than everything there.
  ghost predicate Beyond(t: Trie, rst: nat, y: nat)
    requires rst in t.node
  {
    Under(t, rst, y) || Hi(y, t.node[rst].lev) > Hi(rst, t.node[rst].lev)
  }

  // One step of the exact-match path of tmalloc_large: a size of at least nb
  // under x is x, or is met later on the path, or lies beyond the right
  // subtree the step passes by.
  lemma PathStep(t: Trie, x: nat, nb: nat, y: nat)
    requires Wf(t) && Under(t, x, y) && x != y && nb <= y && nb != x
    requires Hi(nb, t.node[x].lev) == Hi(x, t.node[x].lev) && Index(nb) == Index(x)
    ensures t.node[x].lev > 0
    ensures var n := t.node[x]; var b := Bit(nb, n.lev - 1);
      || (n.Kid(b) != 0 && Under(t, n.Kid(b), y))
      || (b == 0 && n.kid1 != 0 && n.kid1 in t.node && Beyond(t, n.kid1, y))
  {
    hide Wf, Index, OpenBits, Hi;
    UnderStep(t, x, y);
    var k := t.node[x].lev;
    var b, c := Bit(nb, k - 1), Bit(y, k - 1);
    if c < b {
      Sibling(y, nb, k);
    }
    NodeOk(t, x);
    if b != c {
      KidUnder(t, x, 1);
    }
  }

  // The path reaches a child that still agrees with nb, and the right child
  // it passes by is a right subtree deeper than any passed before.
  lemma PathKids(t: Trie, x: nat, nb: nat)
    requires Wf(t) && x in t.node && t.node[x].lev > 0
    requires Hi(nb, t.node[x].lev) == Hi(x, t.node[x].lev) && Index(nb) == Index(x)
    ensures var n := t.node[x]; var b := Bit(nb, n.lev - 1);
      && (n.Kid(b) != 0 ==> (
        && n.Kid(b) in t.node
        && Index(n.Kid(b)) == Index(nb)
        && t.node[n.Kid(b)].lev == n.lev - 1
        && Hi(nb, n.lev - 1) == Hi(n.Kid(b), n.lev - 1)))
      && (b == 0 ==> Passed(t, n.kid1, nb, n.lev - 1))
  {
    hide Wf, Index, OpenBits;
    var n := t.node[x];
    var k, b := n.lev, Bit(nb, n.lev - 1);
    if n.Kid(b) != 0 {
      KidUnder(t, x, b);
      SameBit(nb, n.Kid(b), k);
    }
    if b == 0 && n.kid1 != 0 {
      KidUnder(t, x, 1);
      Sibling(nb, n.kid1, k);
    }
  }

  lemma SameBit(s: nat, r: nat, k: nat)
    requires k > 0 && Hi(s, k) == Hi(r, k) && Bit(s, k - 1) == Bit(r, k - 1)
    ensures Hi(s, k - 1) == Hi(r, k - 1)
  {
    assert Hi(s, k) == Hi(s, k - 1) / 2 && Hi(r, k) == Hi(r, k - 1) / 2;
  }

  // What lies beyond an earlier right subtree lies beyond a deeper one.
  lemma BeyondDeeper(t: Trie, old_: nat, rst: nat, nb: nat, y: nat)
    requires old_ != 0 && rst != 0 && rst in t.node
    requires Passed(t, old_, nb, t.node[rst].lev + 1)
    requires Passed(t, rst, nb, t.node[rst].lev) && Bit(nb, t.node[rst].lev) == 0
    requires Beyond(t, old_, y)
    ensures Beyond(t, rst, y)
  {
    hide Index;
    var m, k := t.node[old_].lev, t.node[rst].lev;
    assert Hi(nb, k + 1) == Hi(nb, k) / 2 && Hi(rst, k + 1) == Hi(rst, k) / 2;
    HiCoarser(rst, nb, k + 1, m);
    HiAgain(rst, k, m - k);
    HiAgain(y, k, m - k);
    if Hi(y, k) <= Hi(rst, k) {
      HiMono(Hi(y, k), Hi(rst, k), m - k);
    }
  }

  // ------------------------------------------------------ insert and remove

  ghost predicate AllOk(t: Trie, s: nat) {
    && |t.root| == NTREEBINS && s in t.node
    && SizeOk(t, s) && UpOk(t, s) && DownOk(t, s, 0) && DownOk(t, s, 1)
  }

  lemma WfIntro(t: Trie)
    requires |t.root| == NTREEBINS
    requires forall i :: 0 <= i < NTREEBINS ==> RootOk(t, i)
    requires forall s :: s in t.node ==> AllOk(t, s)
    ensures Wf(t)
  {
    hide RootOk, SizeOk, UpOk, DownOk;
  }

  lemma RootsOk(t: Trie, i: nat)
    requires Wf(t) && i < NTREEBINS
    ensures |t.root| == NTREEBINS && RootOk(t, i)
  {
    hide RootOk, SizeOk, UpOk, DownOk;
  }

  function InsertRoot(t: Trie, s: nat): Trie
    requires |t.root| == NTREEBINS
  {
    Trie(t.root[Index(s) := s], t.node[s := Node(OpenBits(Index(s)), 0, 0, 0)])
  }

  lemma InsertRootWf(t: Trie, s: nat)
    requires Wf(t) && |t.root| == NTREEBINS
    requires MIN_LARGE_SIZE <= s < TWO64 && s !in t.node && t.root[Index(s)] == 0
    ensures Wf(InsertRoot(t, s))
  {
    hide Wf, Index, OpenBits, Hi, Bit;
    var u := InsertRoot(t, s);
    forall x | x in u.node
      ensures AllOk(u, x)
    {
      if x != s {
        NodeOk(t, x);
      }
    }
    forall i | 0 <= i < NTREEBINS
      ensures RootOk(u, i)
    {
      RootsOk(t, i);
    }
    WfIntro(u);
  }

  function InsertUnder(t: Trie, p: nat, s: nat): Trie
    requires p in t.node && t.node[p].lev > 0
  {
    var k := t.node[p].lev - 1;
    Trie(t.root, t.node[p := t.node[p].SetKid(Bit(s, k), s)][s := Node(k, p, 0, 0)])
  }

  lemma InsertUnderNode(t: Trie, p: nat, s: nat, x: nat)
    requires AllOk(t, p) && t.node[p].lev > 0 && s !in t.node
    requires t.node[p].Kid(Bit(s, t.node[p].lev - 1)) == 0
    requires AllOk(t, x)
    ensures AllOk(InsertUnder(t, p, s), x)
  {
    hide Index, OpenBits, Hi, Bit;
  }

  lemma InsertUnderWf(t: Trie, p: nat, s: nat)
    requires Wf(t) && p in t.node && t.node[p].lev > 0 && s !in t.node
    requires MIN_LARGE_SIZE <= s < TWO64
    requires Index(p) == Index(s) && Hi(p, t.node[p].lev) == Hi(s, t.node[p].lev)
    requires t.node[p].Kid(Bit(s, t.node[p].lev - 1)) == 0
    ensures Wf(InsertUnder(t, p, s))
  {
    hide Wf, Index, OpenBits, Hi, Bit;
    var u := InsertUnder(t, p, s);
    NodeOk(t, p);
    forall x | x in u.node
      ensures AllOk(u, x)
    {
      if x != s {
        NodeOk(t, x);
        InsertUnderNode(t, p, s, x);
      }
    }
    forall i | 0 <= i < NTREEBINS
      ensures RootOk(u, i)
    {
      RootsOk(t, i);
    }
    WfIntro(u);
  }

  function DropLeaf(t: Trie, r: nat): Trie
    requires |t.root| == NTREEBINS && r in t.node
  {
    var p := t.node[r].par;
    if p == 0 then
      Trie(t.root[Index(r) := 0], t.node - {r})
    else if p in t.node then
      Trie(t.root, t.node[p := t.node[p].SetKid(Bit(r, t.node[r].lev), 0)] - {r})
    else
      t
  }

  lemma DropLeafNode(t: Trie, r: nat, x: nat)
    requires AllOk(t, r) && t.node[r].kid0 == 0 && t.node[r].kid1 == 0
    requires AllOk(t, x) && x != r
    ensures AllOk(DropLeaf(t, r), x)
  {
    hide Index, OpenBits, Hi, Bit;
  }

  lemma DropLeafWf(t: Trie, r: nat)
    requires Wf(t) && |t.root| == NTREEBINS && r in t.node
    requires t.node[r].kid0 == 0 && t.node[r].kid1 == 0
    ensures Wf(DropLeaf(t, r)) && DropLeaf(t, r).node.Keys == t.node.Keys - {r}
  {
    hide Wf, Index, OpenBits, Hi, Bit;
    var u := DropLeaf(t, r);
    NodeOk(t, r);
    forall x | x in u.node
      ensures AllOk(u, x)
    {
      NodeOk(t, x);
      DropLeafNode(t, r, x);
    }
    forall i | 0 <= i < NTREEBINS
      ensures RootOk(u, i)
    {
      RootsOk(t, i);
    }
    WfIntro(u);
  }

  // r takes over the place of x.
  function Patch(t: Trie, x: nat, r: nat, s: nat): Node
    requires x in t.node && (s == r || s in t.node)
  {
    var n := t.node[x];
    if s == r then n
    else if s == n.par then t.node[s].SetKid(Bit(x, n.lev), r)
    else if s == n.kid0 || s == n.kid1 then t.node[s].(par := r)
    else t.node[s]
  }

  function Replace(t: Trie, x: nat, r: nat): Trie
    requires |t.root| == NTREEBINS && x in t.node
  {
    Trie(
      if t.node[x].par == 0 then t.root[Index(x) := r] else t.root,
      map s | s in t.node.Keys - {x} + {r} :: Patch(t, x, r, s))
  }

  // The leaf that takes over the place of s: down to the right child, or to the
  // left one where there is no right one; s itself if it is a leaf.
  ghost function StandIn(t: Trie, s: nat): nat
    decreases if s in t.node then t.node[s].lev else 0
  {
    if s !in t.node then s
    else
      var k := t.node[s].Kid(if t.node[s].kid1 != 0 then 1 else 0);
      if k == 0 || k !in t.node || t.node[k].lev >= t.node[s].lev then s else StandIn(t, k)
  }

  // The trie without s.
  ghost function Unlinked(t: Trie, s: nat): Trie {
    var r := StandIn(t, s);
    if |t.root| != NTREEBINS || s !in t.node || r !in t.node then t
    else if r == s then DropLeaf(t, s)
    else if s in DropLeaf(t, r).node && |DropLeaf(t, r).root| == NTREEBINS then Replace(DropLeaf(t, r), s, r)
    else t
  }

  // A leaf below x, already taken out of the tree, fits the place of x.
  ghost predicate Fits(t: Trie, x: nat, r: nat)
    requires x in t.node
  {
    && MIN_LARGE_SIZE <= r < TWO64
    && r !in t.node
    && Index(r) == Index(x)
    && Hi(r, t.node[x].lev) == Hi(x, t.node[x].lev)
  }

  lemma ReplaceSelf(t: Trie, x: nat, r: nat)
    requires AllOk(t, x) && Fits(t, x, r)
    requires t.node[x].par != 0 ==> AllOk(t, t.node[x].par)
    requires t.node[x].kid0 != 0 ==> AllOk(t, t.node[x].kid0)
    requires t.node[x].kid1 != 0 ==> AllOk(t, t.node[x].kid1)
    ensures AllOk(Replace(t, x, r), r)
  {
    hide Index, OpenBits, Hi;
    HiCoarser(r, x, t.node[x].lev, t.node[x].lev + 1);
  }

  lemma ReplaceUp(t: Trie, x: nat, r: nat, s: nat)
    requires AllOk(t, x) && Fits(t, x, r) && AllOk(t, s) && s != x
    requires t.node[x].par != 0 ==> AllOk(t, t.node[x].par)
    requires t.node[s].par != 0 ==> AllOk(t, t.node[s].par)
    ensures SizeOk(Replace(t, x, r), s) && UpOk(Replace(t, x, r), s)
  {
    hide Index, OpenBits, Hi, Bit;
  }

  lemma ReplaceDown(t: Trie, x: nat, r: nat, s: nat, b: nat)
    requires AllOk(t, x) && Fits(t, x, r) && AllOk(t, s) && s != x && b < 2
    requires t.node[s].kid0 != 0 ==> AllOk(t, t.node[s].kid0)
    requires t.node[s].kid1 != 0 ==> AllOk(t, t.node[s].kid1)
    ensures DownOk(Replace(t, x, r), s, b)
  {
    hide Index, OpenBits, Hi;
  }

  lemma KinOk(t: Trie, s: nat)
    requires Wf(t) && s in t.node
    ensures AllOk(t, s)
    ensures t.node[s].par != 0 ==> AllOk(t, t.node[s].par)
    ensures t.node[s].kid0 != 0 ==> AllOk(t, t.node[s].kid0)
    ensures t.node[s].kid1 != 0 ==> AllOk(t, t.node[s].kid1)
  {
    hide Wf, Index, OpenBits, Hi, Bit;
    NodeOk(t, s);
    var n := t.node[s];
    if n.par != 0 { NodeOk(t, n.par); }
    if n.kid0 != 0 { NodeOk(t, n.kid0); }
    if n.kid1 != 0 { NodeOk(t, n.kid1); }
  }

  lemma ReplaceRoot(t: Trie, x: nat, r: nat, i: nat)
    requires Wf(t) && x in t.node && Fits(t, x, r) && i < NTREEBINS
    ensures |t.root| == NTREEBINS && RootOk(Replace(t, x, r), i)
  {
    hide Wf, OpenBits, Hi, Bit;
    RootsOk(t, i);
    KinOk(t, x);
    if t.root[i] != 0 { KinOk(t, t.root[i]); }
  }

  lemma ReplaceWf(t: Trie, x: nat, r: nat)
    requires Wf(t) && |t.root| == NTREEBINS && x in t.node && Fits(t, x, r)
    ensures Wf(Replace(t, x, r)) && Replace(t, x, r).node.Keys == t.node.Keys - {x} + {r}
  {
    hide Wf, UpOk, DownOk, SizeOk, RootOk, Fits, Index, Patch;
    var u := Replace(t, x, r);
    KinOk(t, x);
    forall s | s in u.node
      ensures AllOk(u, s)
    {
      if s == r {
        ReplaceSelf(t, x, r);
      } else {
        KinOk(t, s);
        ReplaceUp(t, x, r, s);
        ReplaceDown(t, x, r, s, 0);
        ReplaceDown(t, x, r, s, 1);
      }
    }
    forall i | 0 <= i < NTREEBINS
      ensures RootOk(u, i)
    {
      ReplaceRoot(t, x, r, i);
    }
    WfIntro(u);
  }
}
