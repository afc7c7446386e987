// Searching the tree bins for the best fit: tmalloc_large and tmalloc_small.
module Tmalloc {
  import opened Word
  import opened TreeIndex
  import opened BinMap
  import opened Tries
  import opened Bins
  import opened Mstate
  import opened TreeLinks
  import opened TreeBins

  // v stands for size vs, the best fit met so far; rsize is what is left over.
  ghost predicate BestSoFar(b: Bins, nb: nat, v: Addr, vs: nat, rsize: nat) {
    && 0 < nb < TWO64
    && (v == 0 ==> rsize == TWO64 - nb)
    && (v != 0 ==> vs in b.trie.node && v == Oldest(b.q, vs) && nb <= vs < TWO64 && rsize == vs - nb)
  }

  // Size y is no better than the best so far, or is still to be met in the
  // subtree of ts, or is beaten by what is there.
  ghost predicate Covered(b: Bins, v: Addr, vs: nat, t: Addr, ts: nat, y: nat) {
    || (v != 0 && vs <= y)
    || (t != 0 && (Under(b.trie, ts, y) || ts < y))
  }

  ghost predicate AllCovered(b: Bins, nb: nat, v: Addr, vs: nat, t: Addr, ts: nat) {
    forall y :: y in b.trie.node && nb <= y ==> Covered(b, v, vs, t, ts, y)
  }

  // Nothing below ts is too small, unless an exact fit was found already.
  ghost predicate AllFit(b: Bins, nb: nat, v: Addr, rsize: nat, t: Addr, ts: nat) {
    t != 0 ==>
      || (v != 0 && rsize == 0)
      || (forall z :: Under(b.trie, ts, z) ==> nb <= z)
  }

  lemma VisitCovers(b: Bins, nb: nat, v: Addr, vs: nat, rsize: nat, t: Addr, ts: nat, v': Addr, vs': nat, t': Addr,
                    ts': nat, y: nat)
    requires Wf(b.trie) && ts in b.trie.node && t != 0 && y in b.trie.node && nb <= y
    requires Covered(b, v, vs, t, ts, y)
    requires v' != 0 && (v != 0 ==> vs' <= vs) && (nb <= ts ==> vs' <= ts)
    requires (v != 0 && vs == nb) || nb <= ts
    requires ts' == b.trie.node[ts].Leftmost() && (t' == 0 <==> ts' == 0)
    ensures Covered(b, v', vs', t', ts', y)
  {
    hide Wf, Under, Hi, Index;
    if Under(b.trie, ts, y) && ts != y {
      LeftmostStep(b.trie, ts, y);
    }
  }

  // while (t != 0): find the smallest fit of a tree or subtree.
  method SmallestOf(M: Mstate, t0: Addr, v0: Addr, rsize0: nat, nb: nat, ghost ts0: nat, ghost vs0: nat)
    returns (v: Addr, rsize: nat, ghost vs: nat)
    requires M.Binned() && SizesAgree(M.b, M.head)
    requires BestSoFar(M.b, nb, v0, vs0, rsize0)
    requires t0 != 0 ==> ts0 in M.b.trie.node && t0 == Oldest(M.b.q, ts0)
    requires AllCovered(M.b, nb, v0, vs0, t0, ts0) && AllFit(M.b, nb, v0, rsize0, t0, ts0)
    ensures BestSoFar(M.b, nb, v, vs, rsize)
    ensures forall y :: y in M.b.trie.node && nb <= y ==> v != 0 && vs <= y
  {
    hide BinInv, AllCovered, AllFit, Wf, Under, Index, Hi, Oldest, Covered;
    var t := t0;
    ghost var ts := ts0;
    v, rsize, vs := v0, rsize0, vs0;
    while t != 0
      invariant BestSoFar(M.b, nb, v, vs, rsize)
      invariant t != 0 ==> ts in M.b.trie.node && t == Oldest(M.b.q, ts)
      invariant AllCovered(M.b, nb, v, vs, t, ts) && AllFit(M.b, nb, v, rsize, t, ts)
      decreases if t == 0 then 0 else 1 + M.b.trie.node[ts].lev
    {
      AtNode(M.b, M.m, M.end, M.L(), ts);
      var trem := Minus(M.head[t].size, nb);
      ghost var v', vs', rsize' := v, vs, rsize;
      if trem < rsize {
        rsize := trem;
        v := t;
        vs := ts;
      }
      ghost var tt, tts := t, ts;
      t := if M.child0[t] != 0 then M.child0[t] else M.child1[t];
      ts := M.b.trie.node[ts].Leftmost();
      Descend(M.b, M.m, M.end, M.L(), nb, v', vs', rsize', tt, tts, v, vs, rsize, t, ts);
    }
    NothingLeft(M.b, nb, v, vs, ts);
  }

  lemma NothingLeft(b: Bins, nb: nat, v: Addr, vs: nat, ts: nat)
    requires AllCovered(b, nb, v, vs, 0, ts)
    ensures forall y :: y in b.trie.node && nb <= y ==> v != 0 && vs <= y
  {
    forall y | y in b.trie.node && nb <= y
      ensures v != 0 && vs <= y
    {
      assert Covered(b, v, vs, 0, ts, y);
    }
  }

  lemma Descend(b: Bins, m: nat, n: nat, l: Links, nb: nat, v: Addr, vs: nat, rsize: nat, t: Addr, ts: nat,
                v': Addr, vs': nat, rsize': nat, t': Addr, ts': nat)
    requires BinInv(b, m, n, l) && t != 0 && ts in b.trie.node
    requires BestSoFar(b, nb, v, vs, rsize) && AllCovered(b, nb, v, vs, t, ts) && AllFit(b, nb, v, rsize, t, ts)
    requires BestSoFar(b, nb, v', vs', rsize')
    requires ts < TWO64
    requires if Minus(ts, nb) < rsize then v' == t && vs' == ts else v' == v && vs' == vs && rsize' == rsize
    requires ts' == b.trie.node[ts].Leftmost() && (t' == 0 <==> ts' == 0)
    ensures AllCovered(b, nb, v', vs', t', ts') && AllFit(b, nb, v', rsize', t', ts')
    ensures t' != 0 ==> ts' in b.trie.node && b.trie.node[ts'].lev < b.trie.node[ts].lev
  {
    hide BinInv, TreesOk, Wf, Index, Hi, Oldest;
    InvParts(b, m, n, l);
    KeysOf(b, m, l);
    UnderItself(b.trie, ts);
    if ts' != 0 {
      KidUnder(b.trie, ts, if b.trie.node[ts].kid0 != 0 then 0 else 1);
    }
    FitsBelow(b, nb, v, rsize, t, ts, v', rsize', t', ts');
    CoversBelow(b, nb, v, vs, rsize, t, ts, v', vs', rsize', t', ts');
  }

  lemma UnderItself(t: Trie, s: nat)
    requires s in t.node
    ensures Under(t, s, s)
  {
  }

  lemma FitsBelow(b: Bins, nb: nat, v: Addr, rsize: nat, t: Addr, ts: nat, v': Addr, rsize': nat, t': Addr, ts': nat)
    requires t != 0 && AllFit(b, nb, v, rsize, t, ts)
    requires t' != 0 ==> Under(b.trie, ts, ts')
    requires rsize' <= rsize && (v != 0 ==> v' != 0)
    ensures AllFit(b, nb, v', rsize', t', ts')
  {
    hide Under;
    if t' != 0 && !(v' != 0 && rsize' == 0) {
      forall z | Under(b.trie, ts', z)
        ensures nb <= z
      {
        UnderTrans(b.trie, ts, ts', z);
      }
    }
  }

  lemma CoversBelow(b: Bins, nb: nat, v: Addr, vs: nat, rsize: nat, t: Addr, ts: nat,
                    v': Addr, vs': nat, rsize': nat, t': Addr, ts': nat)
    requires Wf(b.trie) && t != 0 && ts in b.trie.node && Under(b.trie, ts, ts) && ts < TWO64
    requires BestSoFar(b, nb, v, vs, rsize) && AllCovered(b, nb, v, vs, t, ts) && AllFit(b, nb, v, rsize, t, ts)
    requires BestSoFar(b, nb, v', vs', rsize')
    requires if Minus(ts, nb) < rsize then v' == t && vs' == ts else v' == v && vs' == vs && rsize' == rsize
    requires ts' == b.trie.node[ts].Leftmost() && (t' == 0 <==> ts' == 0)
    ensures AllCovered(b, nb, v', vs', t', ts')
  {
    hide Wf, Under, Index, Hi, Oldest, Covered;
    forall y | y in b.trie.node && nb <= y
      ensures Covered(b, v', vs', t', ts', y)
    {
      assert Covered(b, v, vs, t, ts, y);
      VisitCovers(b, nb, v, vs, rsize, t, ts, v', vs', t', ts', y);
    }
  }

  // ------------------------------------------------- the exact-match path

  // Where the walk for a node of size nb stands: at node ts, having passed
  // the right subtree rs last. A fitting size of this bin is no better than
  // the best so far, or is below ts, or lies beyond rs.
  ghost predicate Walking(b: Bins, nb: nat, v: Addr, vs: nat, t: Addr, ts: nat, rst: Addr, rs: nat) {
    && ts in b.trie.node && t == Oldest(b.q, ts) && t != 0
    && Index(ts) == Index(nb)
    && Hi(nb, b.trie.node[ts].lev) == Hi(ts, b.trie.node[ts].lev)
    && (rst == 0 <==> rs == 0) && rst == Oldest(b.q, rs)
    && Passed(b.trie, rs, nb, b.trie.node[ts].lev)
    && (forall y :: y in b.trie.node && nb <= y && Index(y) == Index(nb) ==> OnWay(b, v, vs, ts, rs, y))
  }

  ghost predicate OnWay(b: Bins, v: Addr, vs: nat, ts: nat, rs: nat, y: nat) {
    || (v != 0 && vs <= y)
    || Under(b.trie, ts, y)
    || (rs != 0 && rs in b.trie.node && Beyond(b.trie, rs, y))
  }

  lemma WalkStart(b: Bins, m: nat, n: nat, l: Links, nb: nat)
    requires BinInv(b, m, n, l) && MIN_LARGE_SIZE <= nb < TWO64
    ensures |b.trie.root| == NTREEBINS == |l.treebins|
    ensures var ts, t := b.trie.root[Index(nb)], l.treebins[Index(nb)];
      if t == 0 then forall y :: y in b.trie.node ==> Index(y) != Index(nb)
      else
        && Walking(b, nb, 0, 0, t, ts, 0, 0)
        && b.trie.node[ts].lev == OpenBits(Index(nb))
  {
    hide BinInv, TreesOk, Wf, Index, OpenBits, Hi, Under, IsMarked;
    InvParts(b, m, n, l);
    KeysOf(b, m, l);
    NoZero(b);
    TreebinOf(b, m, l, Index(nb));
    RootsOk(b.trie, Index(nb));
    var ts := b.trie.root[Index(nb)];
    if ts != 0 {
      OldestOf(b, ts);
      AtNode(b, m, n, l, ts);
      NodeOk(b.trie, ts);
      SameBin(ts, nb);
    }
    forall y | y in b.trie.node && Index(y) == Index(nb)
      ensures ts != 0 && Under(b.trie, ts, y)
    {
      UnderRoot(b.trie, y);
    }
  }

  // One step of the path.
  lemma WalkStep(b: Bins, m: nat, n: nat, l: Links, nb: nat, v: Addr, vs: nat, v': Addr, vs': nat,
                 t: Addr, ts: nat, rst: Addr, rs: nat, us: nat, rs': nat)
    requires BinInv(b, m, n, l) && Walking(b, nb, v, vs, t, ts, rst, rs) && ts != nb
    requires nb <= ts ==> v' != 0 && vs' <= ts
    requires v != 0 ==> v' != 0 && vs' <= vs
    requires b.trie.node[ts].lev > 0
    requires us == b.trie.node[ts].Kid(Bit(nb, b.trie.node[ts].lev - 1))
    requires rs' == if b.trie.node[ts].kid1 != 0 && b.trie.node[ts].kid1 != us then b.trie.node[ts].kid1 else rs
    ensures us != 0 ==> Walking(b, nb, v', vs', Oldest(b.q, us), us, Oldest(b.q, rs'), rs')
    ensures us != 0 ==> us in b.trie.node && b.trie.node[us].lev == b.trie.node[ts].lev - 1
    ensures us == 0 ==> forall y :: y in b.trie.node && nb <= y && Index(y) == Index(nb) ==>
      (v' != 0 && vs' <= y) || (rs' != 0 && rs' in b.trie.node && Beyond(b.trie, rs', y))
    ensures Passed(b.trie, rs', nb, 0)
  {
    hide BinInv, TreesOk, Wf, Index, Hi, Under, Beyond, OnWay, Passed, Oldest, Bit;
    InvParts(b, m, n, l);
    KeysOf(b, m, l);
    var e := b.trie.node[ts];
    WalkKids(b, nb, ts, rs, us, rs');
    PassedMore(b.trie, rs', nb, e.lev - 1);
    WalkNodes(b, m, n, l, rs', us, nb);
    forall y | y in b.trie.node && nb <= y && Index(y) == Index(nb)
      ensures (v' != 0 && vs' <= y) || (us != 0 && Under(b.trie, us, y))
        || (rs' != 0 && rs' in b.trie.node && Beyond(b.trie, rs', y))
    {
      assert OnWay(b, v, vs, ts, rs, y);
      WalkOne(b, nb, v, vs, v', vs', ts, rs, us, rs', y);
    }
    if us != 0 {
      forall y | y in b.trie.node && nb <= y && Index(y) == Index(nb)
        ensures OnWay(b, v', vs', us, rs', y)
      {
        MakeOnWay(b, v', vs', us, rs', y);
      }
    }
  }

  lemma PassedMore(t: Trie, rs: nat, nb: nat, k: nat)
    requires Passed(t, rs, nb, k)
    ensures Passed(t, rs, nb, 0)
  {
  }

  lemma MakeOnWay(b: Bins, v: Addr, vs: nat, ts: nat, rs: nat, y: nat)
    requires (v != 0 && vs <= y) || Under(b.trie, ts, y) || (rs != 0 && rs in b.trie.node && Beyond(b.trie, rs, y))
    ensures OnWay(b, v, vs, ts, rs, y)
  {
  }

  lemma WalkOne(b: Bins, nb: nat, v: Addr, vs: nat, v': Addr, vs': nat, ts: nat, rs: nat, us: nat, rs': nat, y: nat)
    requires Wf(b.trie) && ts in b.trie.node && b.trie.node[ts].lev > 0 && ts != nb
    requires Hi(nb, b.trie.node[ts].lev) == Hi(ts, b.trie.node[ts].lev) && Index(nb) == Index(ts)
    requires Passed(b.trie, rs, nb, b.trie.node[ts].lev)
    requires us == b.trie.node[ts].Kid(Bit(nb, b.trie.node[ts].lev - 1))
    requires rs' == if b.trie.node[ts].kid1 != 0 && b.trie.node[ts].kid1 != us then b.trie.node[ts].kid1 else rs
    requires nb <= ts ==> v' != 0 && vs' <= ts
    requires v != 0 ==> v' != 0 && vs' <= vs
    requires nb <= y && OnWay(b, v, vs, ts, rs, y)
    ensures (v' != 0 && vs' <= y) || (us != 0 && Under(b.trie, us, y))
      || (rs' != 0 && rs' in b.trie.node && Beyond(b.trie, rs', y))
  {
    hide Wf, Index, Hi, Beyond, Under;
    PathKids(b.trie, ts, nb);
    KidsDiffer(b.trie, ts);
    if Under(b.trie, ts, y) {
      if ts != y {
        PathStep(b.trie, ts, nb, y);
      }
    } else if rs' != rs && !(v != 0 && vs <= y) {
      KidUnder(b.trie, ts, 1);
      BeyondDeeper(b.trie, rs, rs', nb, y);
    }
  }

  lemma WalkKids(b: Bins, nb: nat, ts: nat, rs: nat, us: nat, rs': nat)
    requires Wf(b.trie) && ts in b.trie.node && b.trie.node[ts].lev > 0
    requires Hi(nb, b.trie.node[ts].lev) == Hi(ts, b.trie.node[ts].lev) && Index(nb) == Index(ts)
    requires Passed(b.trie, rs, nb, b.trie.node[ts].lev)
    requires us == b.trie.node[ts].Kid(Bit(nb, b.trie.node[ts].lev - 1))
    requires rs' == if b.trie.node[ts].kid1 != 0 && b.trie.node[ts].kid1 != us then b.trie.node[ts].kid1 else rs
    ensures us != 0 ==> us in b.trie.node && Index(us) == Index(nb)
    ensures us != 0 ==> b.trie.node[us].lev == b.trie.node[ts].lev - 1
    ensures us != 0 ==> Hi(nb, b.trie.node[us].lev) == Hi(us, b.trie.node[us].lev)
    ensures Passed(b.trie, rs', nb, b.trie.node[ts].lev - 1)
  {
    hide Wf, Index, Hi;
    PathKids(b.trie, ts, nb);
    KidsDiffer(b.trie, ts);
  }

  lemma KidsDiffer(t: Trie, s: nat)
    requires Wf(t) && s in t.node
    ensures t.node[s].kid0 != 0 ==> t.node[s].kid0 != t.node[s].kid1
  {
    hide Wf, Index, Hi;
    NodeOk(t, s);
  }

  lemma WalkNodes(b: Bins, m: nat, n: nat, l: Links, rs': nat, us: nat, nb: nat)
    requires BinInv(b, m, n, l) && Passed(b.trie, rs', nb, 0)
    requires us != 0 ==> us in b.trie.node
    ensures us != 0 ==> Oldest(b.q, us) != 0
    ensures rs' == 0 <==> Oldest(b.q, rs') == 0
  {
    hide BinInv, Index, Hi;
    if us != 0 { AtNode(b, m, n, l, us); }
    if rs' != 0 { AtNode(b, m, n, l, rs'); }
    InvParts(b, m, n, l);
    NoZero(b);
  }

  lemma LevPositive(b: Bins, nb: nat, v: Addr, vs: nat, t: Addr, ts: nat, rst: Addr, rs: nat)
    requires Walking(b, nb, v, vs, t, ts, rst, rs) && ts != nb
    ensures ts in b.trie.node && b.trie.node[ts].lev > 0
  {
  }

  // What the walk leaves for the search of the remaining subtree.
  ghost predicate Walked(b: Bins, nb: nat, v: Addr, vs: nat, rsize: nat, t: Addr, ts: nat) {
    && BestSoFar(b, nb, v, vs, rsize)
    && (t != 0 ==> ts in b.trie.node && t == Oldest(b.q, ts))
    && AllFit(b, nb, v, rsize, t, ts)
    && (if v == 0 && t == 0 then forall y :: y in b.trie.node && nb <= y ==> Index(y) != Index(nb)
        else AllCovered(b, nb, v, vs, t, ts))
  }

  lemma WalkedExact(b: Bins, nb: nat, v: Addr, rsize: nat, t: Addr, ts: nat)
    requires BestSoFar(b, nb, v, nb, rsize) && v != 0 && rsize == 0
    requires ts in b.trie.node && t == Oldest(b.q, ts)
    ensures Walked(b, nb, v, nb, rsize, t, ts)
  {
    forall y | y in b.trie.node && nb <= y
      ensures Covered(b, v, nb, t, ts, y)
    {
    }
  }

  lemma WalkedThrough(b: Bins, nb: nat, v: Addr, vs: nat, rsize: nat, rst: Addr, rs: nat)
    requires Wf(b.trie) && BestSoFar(b, nb, v, vs, rsize) && nb >= MIN_LARGE_SIZE
    requires rst == Oldest(b.q, rs) && (rst == 0 <==> rs == 0)
    requires Passed(b.trie, rs, nb, 0)
    requires forall y :: y in b.trie.node && nb <= y && Index(y) == Index(nb) ==>
      (v != 0 && vs <= y) || (rs != 0 && rs in b.trie.node && Beyond(b.trie, rs, y))
    requires v != 0 ==> Index(vs) == Index(nb)
    ensures Walked(b, nb, v, vs, rsize, rst, rs)
  {
    hide Wf, Index;
    if rst != 0 {
      forall z | Under(b.trie, rs, z)
        ensures nb <= z
      {
        HiLess(nb, z, b.trie.node[rs].lev);
      }
    }
    if v != 0 || rst != 0 {
      forall y | y in b.trie.node && nb <= y
        ensures Covered(b, v, vs, rst, rs, y)
      {
        OtherBin(b, nb, v, vs, rst, rs, y);
      }
    }
  }

  lemma OtherBin(b: Bins, nb: nat, v: Addr, vs: nat, rst: Addr, rs: nat, y: nat)
    requires Wf(b.trie) && nb >= MIN_LARGE_SIZE && y in b.trie.node && nb <= y
    requires (v != 0 && Index(vs) == Index(nb)) || (rst != 0 && rs in b.trie.node && Index(rs) == Index(nb))
    requires Index(y) == Index(nb) ==>
      (v != 0 && vs <= y) || (rst != 0 && rs in b.trie.node && Beyond(b.trie, rs, y))
    requires v != 0 ==> vs >= MIN_LARGE_SIZE
    requires rst != 0 ==> rs in b.trie.node && Index(rs) == Index(nb)
    ensures Covered(b, v, vs, rst, rs, y)
  {
    hide Wf, Index, Hi;
    NodeOk(b.trie, y);
    IndexMono(nb, y);
    if Index(y) == Index(nb) {
      if !(v != 0 && vs <= y) {
        BeyondLess(b.trie, rs, y);
      }
    } else if v != 0 && Index(vs) == Index(nb) {
      if y < vs { IndexMono(y, vs); }
    } else {
      NodeOk(b.trie, rs);
      if y <= rs { IndexMono(y, rs); }
    }
  }

  lemma BeyondLess(t: Trie, rs: nat, y: nat)
    requires rs in t.node && Beyond(t, rs, y)
    ensures Under(t, rs, y) || rs < y
  {
    hide Index;
    var k := t.node[rs].lev;
    if Hi(rs, k) < Hi(y, k) {
      HiLess(rs, y, k);
    }
  }

  // for (;;): look for a node of size nb in the tree of its bin.
  method ExactPath(M: Mstate, t0: Addr, nb: nat, idx: nat)
    returns (t: Addr, v: Addr, rsize: nat, ghost ts: nat, ghost vs: nat)
    requires M.Binned() && SizesAgree(M.b, M.head) && |M.treebins| == NTREEBINS
    requires MIN_LARGE_SIZE <= nb < TWO64 && idx == Index(nb) && t0 == M.treebins[idx] && t0 != 0
    ensures Walked(M.b, nb, v, vs, rsize, t, ts)
  {
    hide BinInv, AllCovered, AllFit, Wf, Under, Index, Hi, Bit, Oldest, Covered, Walking, Passed, LeftShift, OpenBits,
         Beyond;
    ghost var b, l := M.b, M.L();
    WalkStart(b, M.m, M.end, l, nb);
    t, v, rsize := t0, 0, Minus(0, nb);
    ts, vs := b.trie.root[idx], 0;
    var sizebits := Reg(nb, LeftShift(idx));
    var rst: Addr := 0;
    ghost var rs: nat := 0;
    WalkAt(b, nb, v, vs, t, ts, rst, rs);
    AtNode(b, M.m, M.end, l, ts);
    while true
      invariant Walking(b, nb, v, vs, t, ts, rst, rs) && BestSoFar(b, nb, v, vs, rsize) && rsize > 0
      invariant v != 0 ==> Index(vs) == idx
      invariant ts in b.trie.node && b.trie.node[ts].lev <= 64
      invariant sizebits == Reg(nb, 64 - b.trie.node[ts].lev)
      decreases b.trie.node[ts].lev
    {
      WalkAt(b, nb, v, vs, t, ts, rst, rs);
      AtNode(b, M.m, M.end, l, ts);
      var trem := Minus(M.head[t].size, nb);
      ghost var v', vs' := v, vs;
      if trem < rsize {
        v := t;
        vs := ts;
        rsize := trem;
        if rsize == 0 {
          WalkedExact(b, nb, v, rsize, t, ts);
          return;
        }
      }
      LevPositive(b, nb, v', vs', t, ts, rst, rs);
      Steer(nb, b.trie.node[ts].lev);
      var rt := M.child1[t];
      var bit := (sizebits / TWO63) % 2;
      t := if bit == 0 then M.child0[t] else M.child1[t];
      ghost var us := b.trie.node[ts].Kid(bit);
      ghost var rs' := if b.trie.node[ts].kid1 != 0 && b.trie.node[ts].kid1 != us then b.trie.node[ts].kid1 else rs;
      SameSlots(b, M.m, M.end, l, ts, us);
      WalkStep(b, M.m, M.end, l, nb, v', vs', v, vs, Oldest(b.q, ts), ts, rst, rs, us, rs');
      if rt != 0 && rt != t {
        rst := rt;
      }
      rs := rs';
      if t == 0 {
        t := rst;
        ts := rs;
        InvParts(b, M.m, M.end, l);
        KeysOf(b, M.m, l);
        WalkNodes(b, M.m, M.end, l, rs, 0, nb);
        WalkedThrough(b, nb, v, vs, rsize, rst, rs);
        return;
      }
      ts := us;
      sizebits := (2 * sizebits) % TWO64;
    }
  }

  lemma WalkAt(b: Bins, nb: nat, v: Addr, vs: nat, t: Addr, ts: nat, rst: Addr, rs: nat)
    requires Walking(b, nb, v, vs, t, ts, rst, rs)
    ensures ts in b.trie.node && t == Oldest(b.q, ts) && t != 0 && rst == Oldest(b.q, rs) && (rst == 0 <==> rs == 0)
    ensures Index(ts) == Index(nb)
  {
  }

  // Slots compare as the sizes in them do.
  lemma SameSlots(b: Bins, m: nat, n: nat, l: Links, ts: nat, us: nat)
    requires BinInv(b, m, n, l) && ts in b.trie.node
    requires us == b.trie.node[ts].kid0 || us == b.trie.node[ts].kid1
    ensures Oldest(b.q, b.trie.node[ts].kid1) == Oldest(b.q, us) <==> b.trie.node[ts].kid1 == us
    ensures us == 0 <==> Oldest(b.q, us) == 0
  {
    hide BinInv, Index, Hi, Wf, QueuesOk, TreesOk;
    InvParts(b, m, n, l);
    KeysOf(b, m, l);
    NoZero(b);
    KinOk(b.trie, ts);
    var e := b.trie.node[ts];
    if e.kid0 != 0 { AtNode(b, m, n, l, e.kid0); }
    if e.kid1 != 0 { AtNode(b, m, n, l, e.kid1); }
  }

  // ------------------------------------------------------- the best fit

  // Starting from the root of the next tree bin that is not empty.
  lemma NextBin(b: Bins, m: nat, n: nat, l: Links, nb: nat, i: nat)
    requires BinInv(b, m, n, l) && 0 < nb < TWO64 && i < NTREEBINS && |l.treebins| == NTREEBINS
    requires IsMarked(l.treemap, i)
    requires forall y :: y in b.trie.node && nb <= y ==> i <= Index(y)
    requires forall y :: y in b.trie.node && i <= Index(y) ==> nb <= y
    ensures |b.trie.root| == NTREEBINS
    ensures l.treebins[i] != 0 && Walked(b, nb, 0, 0, TWO64 - nb, l.treebins[i], b.trie.root[i])
  {
    hide BinInv, TreesOk, Wf, Index, Hi, IsMarked, Under, Oldest;
    InvParts(b, m, n, l);
    KeysOf(b, m, l);
    TreebinOf(b, m, l, i);
    RootsOk(b.trie, i);
    var ts := b.trie.root[i];
    AtNode(b, m, n, l, ts);
    forall z | Under(b.trie, ts, z)
      ensures nb <= z
    {
      UnderSame(b.trie, ts, z);
    }
    forall y | y in b.trie.node && nb <= y
      ensures Covered(b, 0, 0, l.treebins[i], ts, y)
    {
      RootCovers(b, ts, y, l.treebins[i]);
    }
  }

  lemma UnderSame(t: Trie, x: nat, z: nat)
    requires Under(t, x, z)
    ensures z in t.node && Index(z) == Index(x)
  {
  }

  lemma RootCovers(b: Bins, ts: nat, y: nat, t: Addr)
    requires Wf(b.trie) && ts in b.trie.node && y in b.trie.node && Index(ts) <= Index(y) && t != 0
    requires |b.trie.root| == NTREEBINS && b.trie.root[Index(ts)] == ts
    ensures Covered(b, 0, 0, t, ts, y)
  {
    hide Wf, Index, Hi, Under;
    NodeOk(b.trie, ts);
    NodeOk(b.trie, y);
    if Index(ts) == Index(y) {
      UnderRoot(b.trie, y);
    } else if y <= ts {
      IndexMono(y, ts);
    }
  }

  lemma NoneAbove(b: Bins, m: nat, n: nat, l: Links, nb: nat, idx: nat)
    requires BinInv(b, m, n, l) && idx < NTREEBINS
    requires forall y :: y in b.trie.node && nb <= y ==> idx < Index(y)
    requires forall j :: idx < j < NTREEBINS ==> !IsMarked(l.treemap, j)
    ensures forall y :: y in b.trie.node ==> y < nb
  {
    hide BinInv, TreesOk, Wf, Index, IsMarked;
    forall y | y in b.trie.node
      ensures y < nb
    {
      BinMarked(b, m, n, l, y);
    }
  }

  // The bin of a size that is there is marked.
  lemma BinMarked(b: Bins, m: nat, n: nat, l: Links, y: nat)
    requires BinInv(b, m, n, l) && y in b.trie.node
    ensures IsMarked(l.treemap, Index(y))
  {
    hide BinInv, TreesOk, Wf, Index, IsMarked, Under;
    InvParts(b, m, n, l);
    KeysOf(b, m, l);
    UnderRoot(b.trie, y);
    TreebinOf(b, m, l, Index(y));
  }

  lemma LaterBins(b: Bins, nb: nat, y: nat)
    requires Wf(b.trie) && y in b.trie.node && nb >= MIN_LARGE_SIZE
    ensures nb <= y ==> Index(nb) <= Index(y)
    ensures Index(nb) < Index(y) ==> nb <= y
  {
    hide Wf, Index;
    NodeOk(b.trie, y);
    if nb <= y {
      IndexMono(nb, y);
    } else {
      IndexMono(y, nb);
    }
  }

  // The search of tmalloc_large.
  method BestFit(M: Mstate, nb: nat) returns (v: Addr, rsize: nat, ghost vs: nat)
    requires M.Binned() && SizesAgree(M.b, M.head) && |M.treebins| == NTREEBINS
    requires MIN_LARGE_SIZE <= nb < TWO64
    ensures BestSoFar(M.b, nb, v, vs, rsize)
    ensures forall y :: y in M.b.trie.node && nb <= y ==> v != 0 && vs <= y
  {
    hide BinInv, AllCovered, AllFit, Wf, Index, IsMarked, Above, LeastBit, Bit2Idx, TreesOk, Oldest;
    ghost var b, l := M.b, M.L();
    InvParts(b, M.m, M.end, l);
    KeysOf(b, M.m, l);
    forall y | y in b.trie.node
      ensures nb <= y ==> Index(nb) <= Index(y)
      ensures Index(nb) < Index(y) ==> nb <= y
    {
      LaterBins(b, nb, y);
    }
    v, rsize, vs := 0, Minus(0, nb), 0;
    ghost var ts := 0;
    var idx := Index(nb);
    var t := M.treebins[idx];
    if t != 0 {
      t, v, rsize, ts, vs := ExactPath(M, t, nb, idx);
    } else {
      EmptyTreebin(b, M.m, M.end, l, nb);
    }
    if t == 0 && v == 0 {
      var leftbits := Above(M.treemap, idx);
      NextAbove(M.treemap, idx);
      if leftbits != 0 {
        var leastbit := LeastBit(leftbits);
        var i := Bit2Idx(leastbit);
        FromNextBin(b, M.m, M.end, l, nb, i);
        t := M.treebins[i];
        ts, vs := b.trie.root[i], 0;
      } else {
        NoneAbove(b, M.m, M.end, l, nb, idx);
        return;
      }
    }
    v, rsize, vs := SmallestOf(M, t, v, rsize, nb, ts, vs);
  }

  lemma EmptyTreebin(b: Bins, m: nat, n: nat, l: Links, nb: nat)
    requires BinInv(b, m, n, l) && MIN_LARGE_SIZE <= nb < TWO64 && |l.treebins| == NTREEBINS
    requires l.treebins[Index(nb)] == 0
    ensures forall y :: y in b.trie.node ==> Index(y) != Index(nb)
  {
    hide BinInv, Index, OpenBits, Walking;
    WalkStart(b, m, n, l, nb);
  }

  lemma FromNextBin(b: Bins, m: nat, n: nat, l: Links, nb: nat, i: nat)
    requires BinInv(b, m, n, l) && MIN_LARGE_SIZE <= nb < TWO64 && |l.treebins| == NTREEBINS
    requires Index(nb) < i < NTREEBINS && IsMarked(l.treemap, i)
    requires forall j :: Index(nb) < j < i ==> !IsMarked(l.treemap, j)
    requires forall y :: y in b.trie.node && nb <= y ==> Index(y) != Index(nb)
    ensures |b.trie.root| == NTREEBINS
    ensures l.treebins[i] != 0 && Walked(b, nb, 0, 0, TWO64 - nb, l.treebins[i], b.trie.root[i])
  {
    hide BinInv, TreesOk, Wf, Index, IsMarked, Walked;
    InvParts(b, m, n, l);
    KeysOf(b, m, l);
    forall y | y in b.trie.node
      ensures nb <= y <==> i <= Index(y)
    {
      LaterBins(b, nb, y);
      BinMarked(b, m, n, l, y);
    }
    NextBin(b, m, n, l, nb, i);
  }
}
