// Unlinking a free chunk from the tree bins.
module TreeUnlink {
  import opened Word
  import opened TreeIndex
  import opened BinMap
  import opened Tries
  import opened Bins
  import opened TreeLinks
  import opened Relink
  import opened TakeLarge
  import opened TreeBins
  import opened Mstate

  // Address a stands for size k, or is NULL when there is no size k.
  ghost predicate StandsFor(of: map<nat, nat>, n: nat, a: nat, k: nat) {
    if k == 0 then a == 0 else 0 < a < n && a in of && of[a] == k
  }

  // What is found around the node of size s.
  ghost predicate Around(t: Trie, q: map<nat, seq<nat>>, of: map<nat, nat>, m: nat, n: nat, l: Links, s: nat)
    requires s in t.node && Sized(l, n)
  {
    var x, e := Oldest(q, s), t.node[s];
    && s != 0 && StandsFor(of, n, x, s)
    && StandsFor(of, n, l.child0[x], e.kid0) && e.kid0 != s
    && StandsFor(of, n, l.child1[x], e.kid1) && e.kid1 != s
    && (e.par != 0 ==> StandsFor(of, n, l.parent[x], e.par) && e.par != s)
    && (e.par == 0 ==> l.parent[x] == TreebinAt(m, Index(s)))
    && (e.par == 0 <==> l.treebins[Index(s)] == x)
  }

  lemma AroundNode(t: Trie, q: map<nat, seq<nat>>, of: map<nat, nat>, m: nat, n: nat, l: Links, s: nat)
    requires Hung(t, q, of, m, n, l) && s in t.node
    ensures Sized(l, n) && |t.root| == NTREEBINS && Around(t, q, of, m, n, l, s)
  {
    hide Hung, Wf, Index, OpenBits, Hi, Bit, IsMarked;
    KinOf(t, q, of, m, n, l, s);
    RootAt(t, q, of, m, n, l, Index(s));
  }

  lemma RootAt(t: Trie, q: map<nat, seq<nat>>, of: map<nat, nat>, m: nat, n: nat, l: Links, i: nat)
    requires Hung(t, q, of, m, n, l) && i < NTREEBINS
    ensures TreebinOk(t, q, l.treebins, l.treemap, i) && RootOk(t, i)
    ensures t.root[i] != 0 ==> t.root[i] in t.node && HungAt(t, q, of, m, n, l, t.root[i])
  {
    hide Wf, HungAt;
    RootsOk(t, i);
  }

  // On which side of its parent a node hangs.
  lemma SideOf(t: Trie, q: map<nat, seq<nat>>, of: map<nat, nat>, m: nat, n: nat, l: Links, s: nat)
    requires Hung(t, q, of, m, n, l) && s in t.node && t.node[s].par != 0
    ensures var x, P := Oldest(q, s), l.parent[Oldest(q, s)];
      P < n && (l.child0[P] == x <==> Bit(s, t.node[s].lev) == 0)
  {
    hide Hung, Wf, Index, OpenBits, Hi;
    KinOf(t, q, of, m, n, l, s);
    var p := t.node[s].par;
    KinOf(t, q, of, m, n, l, p);
  }

  // R is none of the chunks around x.
  lemma SpareApart(t: Trie, q: map<nat, seq<nat>>, of: map<nat, nat>, m: nat, n: nat, l: Links, s: nat, r: nat, R: nat)
    requires Hung(t, q, of, m, n, l) && s in t.node && Sized(l, n) && Spare(t, q, of, n, s, r, R)
    ensures var x := Oldest(q, s);
      && R in of && R < n && R != x && x < n && R != l.child0[x] && R != l.child1[x] && l.child0[x] < n
        && l.child1[x] < n
      && (t.node[s].par != 0 ==> R != l.parent[x] && l.parent[x] < n)
  {
    hide Hung, Wf, Index, OpenBits, Hi, Bit;
    AroundNode(t, q, of, m, n, l, s);
    KinOf(t, q, of, m, n, l, s);
  }

  // The slot of the parent XP of x, or the root of its bin, now holds R.
  ghost predicate SlotSet(l: Links, l': Links, n: nat, x: nat, XP: nat, R: nat, i: nat)
    requires Sized(l, n) && i < NTREEBINS
  {
    var top := l.treebins[i] == x;
    && (!top ==> XP < n)
    && Sized(l', n)
    && l'.parent == l.parent && l'.index == l.index
    && l'.fd == l.fd && l'.bk == l.bk && l'.smallmap == l.smallmap
    && l'.treebins == (if top then l.treebins[i := R] else l.treebins)
    && l'.treemap == (if top && R == 0 then Clear(l.treemap, i) else l.treemap)
    && (forall h :: 0 <= h < n ==>
          l'.child0[h] == if !top && h == XP && l.child0[XP] == x then R else l.child0[h])
    && (forall h :: 0 <= h < n ==>
          l'.child1[h] == if !top && h == XP && l.child0[XP] != x then R else l.child1[h])
  }

  // R has the parent XP and the children of x, which have R for a parent.
  ghost predicate Adopted(l: Links, l': Links, n: nat, x: nat, XP: nat, R: nat)
    requires Sized(l, n) && x < n && R < n
  {
    && Sized(l', n)
    && l'.child0 == l.child0[R := l.child0[x]]
    && l'.child1 == l.child1[R := l.child1[x]]
    && l'.index == l.index && l'.treebins == l.treebins && l'.treemap == l.treemap
    && l'.fd == l.fd && l'.bk == l.bk && l'.smallmap == l.smallmap
    && l'.parent[R] == XP
    && (forall h :: 0 < h < n && h != R ==>
          l'.parent[h] == if h == l.child0[x] || h == l.child1[x] then R else l.parent[h])
  }

  lemma SlotDropped(t: Trie, q: map<nat, seq<nat>>, n: nat, l: Links, l': Links, s: nat, x: nat)
    requires s in t.node && Sized(l, n) && x < n
    requires t.node[s].par == 0 <==> l.treebins[Index(s)] == x
    requires t.node[s].par != 0 ==>
      && l.parent[x] == Oldest(q, t.node[s].par) && l.parent[x] < n
      && (l.child0[l.parent[x]] == x <==> Bit(s, t.node[s].lev) == 0)
    requires SlotSet(l, l', n, x, l.parent[x], 0, Index(s))
    ensures Dropped(t, q, n, l, l', s)
  {
    hide Index, Bit, Clear, Oldest;
  }

  // Setting the slot changes neither the children of x nor those of R.
  lemma SlotApart(l: Links, l1: Links, n: nat, x: nat, XP: nat, R: nat, i: nat)
    requires Sized(l, n) && i < NTREEBINS && x < n && R < n && SlotSet(l, l1, n, x, XP, R, i)
    requires l.treebins[i] != x ==> XP != x && XP != R
    ensures Sized(l1, n) && l1.parent == l.parent
    ensures l1.child0[x] == l.child0[x] && l1.child1[x] == l.child1[x]
    ensures l1.child0[R] == l.child0[R] && l1.child1[R] == l.child1[R]
  {
  }

  lemma SlotMoved(t: Trie, n: nat, l: Links, l1: Links, l': Links, s: nat, x: nat, R: nat)
    requires s in t.node && Sized(l, n) && x < n && 0 < R < n && R != x
    requires t.node[s].par == 0 <==> l.treebins[Index(s)] == x
    requires t.node[s].par != 0 ==> l.parent[x] < n && l.parent[x] != R && l.parent[x] != x
    requires R != l.child0[x] && R != l.child1[x]
    requires SlotSet(l, l1, n, x, l.parent[x], R, Index(s))
    requires Sized(l1, n) && Adopted(l1, l', n, x, l.parent[x], R)
    ensures Moved(t, n, l, l', s, x, R)
  {
    hide Index;
  }

  // Step 3 of unlinking: relink the parent of x, or the root of its bin, and
  // the children of x to R, or empty the slot of x when R is NULL.
  method ReplaceNode(M: Mstate, x: Addr, XP: Addr, R: Addr,
                     ghost t: Trie, ghost q: map<nat, seq<nat>>, ghost of: map<nat, nat>, ghost s: nat, ghost r: nat)
    requires Hung(t, q, of, M.m, M.end, M.L()) && s in t.node
    requires Sized(M.L(), M.end) && x == Oldest(q, s) && 0 < x < M.end
    requires XP == M.parent[x] && M.index[x] == Index(s)
    requires R != 0 ==> Spare(t, q, of, M.end, s, r, R) && M.child0[R] == 0 && M.child1[R] == 0
    requires forall a :: a in of ==> M.OkAddress(a)
    modifies M`treebins, M`treemap, M`child0, M`child1, M`parent
    ensures R == 0 ==> Dropped(t, q, M.end, old(M.L()), M.L(), s)
    ensures R != 0 ==> Moved(t, M.end, old(M.L()), M.L(), s, x, R)
  {
    hide Hung, Index, Bit, Oldest, Spare, Dropped, Moved, SlotSet, Adopted;
    ghost var l := M.L();
    AroundNode(t, q, of, M.m, M.end, l, s);
    if R != 0 {
      SpareApart(t, q, of, M.m, M.end, l, s, r, R);
    }
    SetSlot(M, x, XP, R, s);
    if R != 0 {
      ghost var l1 := M.L();
      SlotApart(l, l1, M.end, x, XP, R, Index(s));
      AdoptChildren(M, x, XP, R);
      SlotMoved(t, M.end, l, l1, M.L(), s, x, R);
    } else {
      EmptySlot(t, q, of, M.m, M.end, l, M.L(), s);
    }
  }

  lemma EmptySlot(t: Trie, q: map<nat, seq<nat>>, of: map<nat, nat>, m: nat, n: nat, l: Links, l': Links, s: nat)
    requires Hung(t, q, of, m, n, l) && s in t.node && Sized(l, n) && Oldest(q, s) < n
    requires SlotSet(l, l', n, Oldest(q, s), l.parent[Oldest(q, s)], 0, Index(s))
    ensures Dropped(t, q, n, l, l', s)
  {
    hide Hung, Index, Bit, Clear, Oldest, UpOk, DownOk, SizeOk, Dropped, SlotSet, Wf;
    AroundNode(t, q, of, m, n, l, s);
    KinOf(t, q, of, m, n, l, s);
    if t.node[s].par != 0 {
      SideOf(t, q, of, m, n, l, s);
    }
    SlotDropped(t, q, n, l, l', s, Oldest(q, s));
  }

  method SetSlot(M: Mstate, x: Addr, XP: Addr, R: Addr, ghost s: nat)
    requires Sized(M.L(), M.end) && x < M.end && M.index[x] == Index(s)
    requires M.treebins[Index(s)] != x ==> XP < M.end && M.OkAddress(XP)
    modifies M`treebins, M`treemap, M`child0, M`child1
    ensures SlotSet(old(M.L()), M.L(), M.end, x, XP, R, Index(s))
  {
    hide Index, Clear;
    var i := M.index[x];
    if x == M.treebins[i] {
      M.treebins := M.treebins[i := R];
      if R == 0 {
        M.treemap := Clear(M.treemap, i);
      }
    } else {
      assert M.OkAddress(XP);
      if M.child0[XP] == x {
        M.child0 := M.child0[XP := R];
      } else {
        M.child1 := M.child1[XP := R];
      }
    }
  }

  method AdoptChildren(M: Mstate, x: Addr, XP: Addr, R: Addr)
    requires Sized(M.L(), M.end) && x < M.end && 0 < R < M.end && M.OkAddress(R)
    requires M.child0[x] < M.end && M.child1[x] < M.end && R != M.child0[x] && R != M.child1[x]
    requires M.child0[R] == 0 && M.child1[R] == 0
    requires (M.child0[x] != 0 ==> M.OkAddress(M.child0[x])) && (M.child1[x] != 0 ==> M.OkAddress(M.child1[x]))
    modifies M`child0, M`child1, M`parent
    ensures Adopted(old(M.L()), M.L(), M.end, x, XP, R)
  {
    assert M.OkAddress(R);
    M.parent := M.parent[R := XP];
    var C0 := M.child0[x];
    if C0 != 0 {
      assert M.OkAddress(C0);
      M.child0 := M.child0[R := C0];
      M.parent := M.parent[C0 := R];
    }
    var C1 := M.child1[x];
    if C1 != 0 {
      assert M.OkAddress(C1);
      M.child1 := M.child1[R := C1];
      M.parent := M.parent[C1 := R];
    }
  }

  // Where the walk down to a leaf stands: at the chunk of size r below s,
  // on side `side` of its parent, which is chunk P.
  ghost predicate AtLeafWalk(b: Bins, n: nat, s: nat, r: nat, R: Addr, P: Addr, side: nat) {
    && r in b.trie.node && s in b.trie.node && r != s
    && Under(b.trie, s, r)
    && b.trie.node[r].lev < b.trie.node[s].lev
    && R == Oldest(b.q, r)
    && b.trie.node[r].par != 0 && b.trie.node[r].par in b.trie.node
    && P == Oldest(b.q, b.trie.node[r].par)
    && side == Bit(r, b.trie.node[r].lev)
  }

  lemma WalkDown(b: Bins, m: nat, n: nat, l: Links, s: nat, t: nat, side: nat)
    requires BinInv(b, m, n, l) && Under(b.trie, s, t) && side < 2
    requires b.trie.node[t].Kid(side) != 0
    ensures var r := b.trie.node[t].Kid(side);
      && AtLeafWalk(b, n, s, r, Oldest(b.q, r), Oldest(b.q, t), side)
      && b.trie.node[r].lev < b.trie.node[t].lev
  {
    hide BinInv, TreesOk, Wf, Index, Hi, Bit, Oldest;
    InvParts(b, m, n, l);
    KeysOf(b, m, l);
    KidUnder(b.trie, t, side);
    NodeOk(b.trie, t);
    UnderTrans(b.trie, s, t, b.trie.node[t].Kid(side));
  }

  // Either the node s is a leaf, or R, of size r, was a leaf below it.
  ghost predicate LeafCut(b: Bins, n: nat, l: Links, l': Links, s: nat, r: nat, R: Addr) {
    && s in b.trie.node
    && (R == 0 ==> l' == l && b.trie.node[s].kid0 == 0 && b.trie.node[s].kid1 == 0)
    && (R != 0 ==>
          && r in b.trie.node && r != s && Under(b.trie, s, r)
          && R == Oldest(b.q, r)
          && b.trie.node[r].kid0 == 0 && b.trie.node[r].kid1 == 0
          && Dropped(b.trie, b.q, n, l, l', r))
  }

  // Step 2 of unlinking: find a leaf below x, rightmost first, and cut it off.
  method DetachLeaf(M: Mstate, x: Addr, ghost s: nat) returns (R: Addr, ghost r: nat)
    requires M.Binned() && s in M.b.trie.node && x == Oldest(M.b.q, s) && Sized(M.L(), M.end) && x < M.end
    modifies M`child0, M`child1
    ensures LeafCut(M.b, M.end, old(M.L()), M.L(), s, r, R)
    ensures StandIn(M.b.trie, s) == if R == 0 then s else r
  {
    hide BinInv, Index, Hi, Bit, Oldest, Under, StandIn;
    ghost var b, l := M.b, M.L();
    AtNode(b, M.m, M.end, l, s);
    r := 0;
    R := M.child1[x];
    var P, side := x, 1;
    if R == 0 {
      R := M.child0[x];
      side := 0;
      if R == 0 {
        LeafStands(b.trie, s);
        return;
      }
    }
    UnderSelf(b.trie, s);
    r := b.trie.node[s].Kid(side);
    WalkDown(b, M.m, M.end, l, s, s, side);
    KidStands(b.trie, s, side);
    AtNode(b, M.m, M.end, l, r);
    while M.child1[R] != 0 || M.child0[R] != 0
      invariant M.L() == l && AtLeafWalk(b, M.end, s, r, R, P, side) && R < M.end && Sized(l, M.end)
      invariant StandIn(b.trie, r) == StandIn(b.trie, s)
      decreases b.trie.node[r].lev
    {
      AtNode(b, M.m, M.end, l, r);
      P := R;
      side := if M.child1[R] != 0 then 1 else 0;
      WalkDown(b, M.m, M.end, l, s, r, side);
      KidStands(b.trie, r, side);
      r := b.trie.node[r].Kid(side);
      R := if side == 1 then M.child1[P] else M.child0[P];
      AtNode(b, M.m, M.end, l, r);
    }
    AtNode(b, M.m, M.end, l, r);
    LeafStands(b.trie, r);
    AtNode(b, M.m, M.end, l, b.trie.node[r].par);
    assert M.OkAddress(P + 32 + 8 * side);
    if side == 1 {
      M.child1 := M.child1[P := 0];
    } else {
      M.child0 := M.child0[P := 0];
    }
  }

  lemma LeafStands(t: Trie, s: nat)
    requires s in t.node && t.node[s].kid0 == 0 && t.node[s].kid1 == 0
    ensures StandIn(t, s) == s
  {
  }

  lemma KidStands(t: Trie, s: nat, side: nat)
    requires s in t.node && side == if t.node[s].kid1 != 0 then 1 else 0
    requires t.node[s].Kid(side) in t.node && t.node[t.node[s].Kid(side)].lev < t.node[s].lev
    requires t.node[s].Kid(side) != 0
    ensures StandIn(t, s) == StandIn(t, t.node[s].Kid(side))
  {
  }

  lemma UnderSelf(t: Trie, s: nat)
    requires s in t.node
    ensures Under(t, s, s)
  {
  }

  // What the parent field says about x.
  lemma ParentTells(b: Bins, m: nat, n: nat, l: Links, x: nat)
    requires BinInv(b, m, n, l) && x in b.of && b.of[x] >= MIN_LARGE_SIZE
    requires x < n && Sized(l, n)
    ensures b.of[x] in b.trie.node && l.index[x] == Index(b.of[x]) && |b.trie.root| == NTREEBINS
    ensures l.parent[x] != 0 <==> x == Oldest(b.q, b.of[x])
    ensures x != Oldest(b.q, b.of[x]) ==> l.child0[x] == 0 && l.child1[x] == 0
  {
    hide BinInv, QueuesOk, RingsOk, SmallmapOk, TreesOk, Wf, Index, HeadOk, Hung;
    var s := b.of[x];
    BinParts(b, m, n, l);
    HomeOf(b, m, n, l, x);
    KeysOf(b, m, l);
    IndexedOf(b, m, l, x);
    TreeOf(b, m, l, s);
    HungOf(b, m, n, l);
    AroundNode(b.trie, b.q, b.of, m, n, l, s);
    if x != Oldest(b.q, s) {
      var j :| 0 <= j < |b.q[s]| && b.q[s][j] == x;
    }
  }

  lemma AllAddresses(M: Mstate)
    requires M.Binned()
    ensures forall a :: a in M.b.of ==> M.OkAddress(a)
  {
  }

  // x has others of its size: step 1 unlinks it from their ring.
  method UnlinkChained(M: Mstate, x: Addr, ghost s: nat)
    requires M.Binned() && x in M.b.of && M.b.of[x] == s && s >= MIN_LARGE_SIZE
    requires s in M.b.q && x in M.b.q[s] && |M.b.q[s]| > 1
    modifies M`treebins, M`treemap, M`fd, M`bk, M`child0, M`child1, M`parent, M`b
    ensures M.Binned()
    ensures M.b == Bins(Taken(old(M.b.q), x, s), old(M.b.of) - {x}, old(M.b.trie))
    ensures ListsSame(old(M.b.of), M.m, M.end, old(M.L()), M.L()) && TreesSame(old(M.b.of), M.end, old(M.L()), M.L())
  {
    hide BinInv, Index, IndexOf, Hung, TreesOk, QueuesOk, Wf, Moved, ListsSame, TreesSame;
    ghost var b, l := M.b, M.L();
    BinParts(b, M.m, M.end, l);
    LargeNeighbours(b, M.m, M.end, l, x);
    ParentTells(b, M.m, M.end, l, x);
    AllAddresses(M);
    HungOf(b, M.m, M.end, l);
    NoZero(b);
    var XP := M.parent[x];
    var F := M.fd[x];
    var R := M.bk[x];
    assert M.OkAddress(F) && M.bk[F] == x && M.fd[R] == x;
    M.bk := M.bk[F := R];
    M.fd := M.fd[R := F];
    ghost var l1 := M.L();
    RingCut(b, M.m, M.end, l, l1, x);
    if XP != 0 {
      HungSame(b.trie, b.q, b.q, b.of, M.m, M.end, l, l1);
      OldestSpare(b, M.end, s, R);
      NextOldest(b, M.m, M.end, l, s);
      ReplaceNode(M, x, XP, R, b.trie, b.q, b.of, s, s);
      MovedFrame(b.trie, b.q, b.of, M.m, M.end, l1, M.L(), s, s, R);
      ListsKept(b.of, M.m, M.end, l1, M.L());
      FrameTrans(b.of, M.m, M.end, l, l1, M.L());
      M.b := Bins(Taken(b.q, x, s), b.of - {x}, b.trie);
      OldestLeaves(b, M.b, M.m, M.end, l, l1, M.L(), x, s, R);
    } else {
      M.b := Bins(Taken(b.q, x, s), b.of - {x}, b.trie);
      YoungerLeaves(b, M.b, M.m, M.end, l, M.L(), x, s);
    }
  }

  lemma RingCut(b: Bins, m: nat, n: nat, l: Links, l1: Links, x: Addr)
    requires BinInv(b, m, n, l) && InTree(b.of, x) && x < n && Sized(l, n) && l.fd[x] < n && l.bk[x] < n
    requires l1 == l.(fd := l.fd[l.bk[x] := l.fd[x]], bk := l.bk[l.fd[x] := l.bk[x]])
    ensures ListsSame(b.of, m, n, l, l1) && TreesSame(b.of, n, l, l1)
  {
    hide BinInv;
    LargeNeighbours(b, m, n, l, x);
  }

  lemma ListsKept(of: map<nat, nat>, m: nat, n: nat, l: Links, l': Links)
    requires TreesSame(of, n, l, l') && l'.fd == l.fd && l'.bk == l.bk
    ensures ListsSame(of, m, n, l, l')
  {
  }

  lemma NextOldest(b: Bins, m: nat, n: nat, l: Links, s: nat)
    requires BinInv(b, m, n, l) && s in b.trie.node && s in b.q && |b.q[s]| > 1
    ensures b.q[s][1] < n && Sized(l, n) && l.child0[b.q[s][1]] == 0 && l.child1[b.q[s][1]] == 0
  {
    hide QueuesOk, RingsOk, SmallmapOk, TreesOk, Wf, HeadOk;
    TreeOf(b, m, l, s);
  }

  // x is the only chunk of its size.
  method UnlinkLast(M: Mstate, x: Addr, ghost s: nat)
    requires M.Binned() && x in M.b.of && M.b.of[x] == s && s >= MIN_LARGE_SIZE
    requires s in M.b.q && x in M.b.q[s] && |M.b.q[s]| == 1
    modifies M`treebins, M`treemap, M`child0, M`child1, M`parent, M`b
    ensures M.Binned()
    ensures M.b == Bins(Taken(old(M.b.q), x, s), old(M.b.of) - {x}, Unlinked(old(M.b.trie), s))
    ensures ListsSame(old(M.b.of), M.m, M.end, old(M.L()), M.L()) && TreesSame(old(M.b.of), M.end, old(M.L()), M.L())
  {
    hide BinInv, Index, IndexOf, Hung, TreesOk, QueuesOk, Wf, Moved, Dropped, DropLeaf, Replace, Under, Spare,
         ListsSame, TreesSame, StandIn, Unlinked;
    ghost var b, l := M.b, M.L();
    LargeNeighbours(b, M.m, M.end, l, x);
    ParentTells(b, M.m, M.end, l, x);
    AllAddresses(M);
    HungOf(b, M.m, M.end, l);
    var XP := M.parent[x];
    ghost var r;
    var R;
    R, r := DetachLeaf(M, x, s);
    UnlinkedIs(b, s, r, R);
    ghost var l1 := M.L();
    CutFrame(b, M.m, M.end, l, l1, s, r, R);
    if XP != 0 {
      if R == 0 {
        ReplaceNode(M, x, XP, R, b.trie, b.q, b.of, s, 0);
        DroppedFrame(b.trie, b.q, b.of, M.m, M.end, l, M.L(), s);
        M.b := Bins(Taken(b.q, x, s), b.of - {x}, DropLeaf(b.trie, s));
        LeafLeaves(b, M.b, M.m, M.end, l, M.L(), x, s);
      } else {
        CutLeaf(b, M.m, M.end, l, l1, s, r, R, x);
        ReplaceNode(M, x, XP, R, DropLeaf(b.trie, r), b.q - {r}, b.of, s, r);
        MovedFrame(DropLeaf(b.trie, r), b.q - {r}, b.of, M.m, M.end, l1, M.L(), s, r, R);
        FrameTrans(b.of, M.m, M.end, l, l1, M.L());
        M.b := Bins(Taken(b.q, x, s), b.of - {x}, Replace(DropLeaf(b.trie, r), s, r));
        LastLeaves(b, M.b, M.m, M.end, l, l1, M.L(), x, s, r, R);
      }
    }
    ListsKept(b.of, M.m, M.end, l, M.L());
  }

  lemma UnlinkedIs(b: Bins, s: nat, r: nat, R: Addr)
    requires |b.trie.root| == NTREEBINS && s in b.trie.node && StandIn(b.trie, s) == if R == 0 then s else r
    requires R != 0 ==> r in b.trie.node && r != s
    ensures R == 0 ==> Unlinked(b.trie, s) == DropLeaf(b.trie, s)
    ensures R != 0 && s in DropLeaf(b.trie, r).node && |DropLeaf(b.trie, r).root| == NTREEBINS ==>
      Unlinked(b.trie, s) == Replace(DropLeaf(b.trie, r), s, r)
  {
    hide StandIn, DropLeaf, Replace;
  }

  lemma CutFrame(b: Bins, m: nat, n: nat, l: Links, l1: Links, s: nat, r: nat, R: Addr)
    requires BinInv(b, m, n, l) && LeafCut(b, n, l, l1, s, r, R) && l1.index == l.index
    ensures Sized(l, n) && Sized(l1, n)
    ensures R != 0 ==> TreesSame(b.of, n, l, l1) && r >= MIN_LARGE_SIZE
    ensures R == 0 ==> l1 == l
  {
    hide BinInv, Index, Hung, TreesOk, QueuesOk, Wf, Under, DropLeaf, Hi, Bit, Dropped;
    InvParts(b, m, n, l);
    HungOf(b, m, n, l);
    KeysOf(b, m, l);
    if R != 0 { DroppedFrame(b.trie, b.q, b.of, m, n, l, l1, r); }
  }

  lemma CutLeaf(b: Bins, m: nat, n: nat, l: Links, l1: Links, s: nat, r: nat, R: nat, x: nat)
    requires BinInv(b, m, n, l) && LeafCut(b, n, l, l1, s, r, R) && R != 0 && |b.trie.root| == NTREEBINS
    requires x == Oldest(b.q, s)
    ensures 0 < R < n && Sized(l1, n) && l1.parent == l.parent
    ensures l1.child0[R] == 0 && l1.child1[R] == 0
    ensures s in DropLeaf(b.trie, r).node && |DropLeaf(b.trie, r).root| == NTREEBINS
    ensures x == Oldest(b.q - {r}, s)
    ensures Spare(DropLeaf(b.trie, r), b.q - {r}, b.of, n, s, r, R)
    ensures Hung(DropLeaf(b.trie, r), b.q - {r}, b.of, m, n, l1)
  {
    hide BinInv, Index, Hung, TreesOk, QueuesOk, Wf, Spare, Under, DropLeaf, Hi, Bit;
    HungOf(b, m, n, l);
    AtNode(b, m, n, l, r);
    AroundNode(b.trie, b.q, b.of, m, n, l, r);
    LeafSpare(b, m, n, l, s, r, R);
    DropAll(b.trie, b.q, b.of, m, n, l, l1, r);
    HungWf(DropLeaf(b.trie, r), b.q - {r}, b.of, m, n, l1);
    RootsOk(DropLeaf(b.trie, r), 0);
  }

  // ------------------------------------------------ which links have changed

  lemma DroppedFrame(t: Trie, q: map<nat, seq<nat>>, of: map<nat, nat>, m: nat, n: nat, l: Links, l': Links, r: nat)
    requires Hung(t, q, of, m, n, l) && r in t.node && Dropped(t, q, n, l, l', r) && l'.index == l.index
    ensures TreesSame(of, n, l, l')
  {
    hide Hung, Index, Bit, Clear, Hi, OpenBits, Wf;
    KinOf(t, q, of, m, n, l, r);
  }

  lemma MovedFrame(t: Trie, q: map<nat, seq<nat>>, of: map<nat, nat>, m: nat, n: nat, l: Links, l': Links, s: nat,
                   r: nat, R: Addr)
    requires Hung(t, q, of, m, n, l) && s in t.node && Sized(l, n) && Oldest(q, s) < n && Spare(t, q, of, n, s, r, R)
    requires r >= MIN_LARGE_SIZE && R < n && Moved(t, n, l, l', s, Oldest(q, s), R) && l'.index == l.index
    ensures TreesSame(of, n, l, l')
  {
    hide Hung, Index, Bit, Hi, OpenBits, Wf, Spare, Around, UpOk, DownOk;
    AroundNode(t, q, of, m, n, l, s);
    KinSizes(t, q, of, m, n, l, s);
    SpareIs(t, q, of, n, s, r, R);
    MovedAround(t, q, of, m, n, l, l', s, R);
  }

  lemma KinSizes(t: Trie, q: map<nat, seq<nat>>, of: map<nat, nat>, m: nat, n: nat, l: Links, s: nat)
    requires Hung(t, q, of, m, n, l) && s in t.node
    ensures var e := t.node[s];
      && (e.par != 0 ==> e.par >= MIN_LARGE_SIZE) && (e.kid0 != 0 ==> e.kid0 >= MIN_LARGE_SIZE)
      && (e.kid1 != 0 ==> e.kid1 >= MIN_LARGE_SIZE)
  {
    hide Hung, Index, Bit, Hi, OpenBits, Wf, HeadOk;
    KinOf(t, q, of, m, n, l, s);
  }

  lemma SpareIs(t: Trie, q: map<nat, seq<nat>>, of: map<nat, nat>, n: nat, s: nat, r: nat, R: nat)
    requires s in t.node && Spare(t, q, of, n, s, r, R)
    ensures 0 < R < n && R in of && of[R] == r
  {
  }

  lemma MovedAround(t: Trie, q: map<nat, seq<nat>>, of: map<nat, nat>, m: nat, n: nat, l: Links, l': Links, s: nat,
                    R: nat)
    requires s in t.node && Sized(l, n) && Around(t, q, of, m, n, l, s) && InTree(of, R) && R < n
    requires var e := t.node[s];
      && (e.par != 0 ==> e.par >= MIN_LARGE_SIZE) && (e.kid0 != 0 ==> e.kid0 >= MIN_LARGE_SIZE)
      && (e.kid1 != 0 ==> e.kid1 >= MIN_LARGE_SIZE)
    requires Oldest(q, s) < n && Moved(t, n, l, l', s, Oldest(q, s), R) && l'.index == l.index
    ensures TreesSame(of, n, l, l')
  {
    hide Index, Oldest;
  }

  // unlink_large_chunk
  method UnlinkLargeChunk(M: Mstate, x: Addr)
    requires M.Binned() && x in M.b.of && M.b.of[x] >= MIN_LARGE_SIZE
    modifies M`treebins, M`treemap, M`fd, M`bk, M`child0, M`child1, M`parent, M`b
    ensures M.Binned()
    ensures var s := old(M.b.of)[x];
      && s in old(M.b.q) && x in old(M.b.q)[s]
      && M.b == Bins(Taken(old(M.b.q), x, s), old(M.b.of) - {x},
                     if |old(M.b.q)[s]| > 1 then old(M.b.trie) else Unlinked(old(M.b.trie), s))
    ensures ListsSame(old(M.b.of), M.m, M.end, old(M.L()), M.L()) && TreesSame(old(M.b.of), M.end, old(M.L()), M.L())
  {
    hide BinInv, IndexOf;
    ghost var s := M.b.of[x];
    LargeNeighbours(M.b, M.m, M.end, M.L(), x);
    if M.bk[x] != x {
      UnlinkChained(M, x, s);
    } else {
      UnlinkLast(M, x, s);
    }
  }
}
