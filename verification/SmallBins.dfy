// Linking free chunks into the small bins and unlinking them.
module SmallBins {
  import opened TreeIndex
  import opened BinMap
  import opened Rings
  import opened Bins
  import opened Mstate

  method InsertSmallChunk(M: Mstate, p: Addr, s: nat)
    requires M.Binned() && p !in M.b.of && Floor(M.m) <= p < M.end
    requires 32 <= s < MIN_LARGE_SIZE && s % 16 == 0
    modifies M`smallmap, M`fd, M`bk, M`b
    ensures M.Binned()
    ensures M.b == old(M.b).(q := Put(old(M.b.q), p, s), of := old(M.b.of)[p := s])
    ensures ListsSame(M.b.of, M.m, M.end, old(M.L()), M.L())
  {
    hide BinInv, ListsSame, IsMarked, Mark, Ring, NoDup;
    ghost var b, l := M.b, M.L();
    SmallHeader(b, M.m, M.end, l, s);
    assert s >= 32;
    var i := s / 8;
    var B := SmallbinAt(M.m, i);
    var F := B;
    if !IsMarked(M.smallmap, i) {
      M.smallmap := Mark(M.smallmap, i);
    } else {
      assert M.fd[B] in b.q[s];
      assert M.OkAddress(M.fd[B]);
      F := M.fd[B];
    }
    M.fd := M.fd[B := p];
    M.bk := M.bk[F := p];
    M.fd := M.fd[p := F];
    M.bk := M.bk[p := B];
    M.b := b.(q := Put(b.q, p, s), of := b.of[p := s]);
    InsertSmallInv(b, M.m, M.end, l, p, s, M.L());
    FirstFrame(b, M.m, M.end, l, p, s, M.L());
  }

  // unlink_small_chunk
  method UnlinkSmallChunk(M: Mstate, p: Addr, s: nat)
    requires M.Binned() && p in M.b.of && M.b.of[p] == s && s < MIN_LARGE_SIZE
    requires p < |M.head| && M.head[p].size == s
    modifies M`smallmap, M`fd, M`bk, M`b
    ensures M.Binned()
    ensures s in old(M.b.q) && p in old(M.b.q)[s]
    ensures M.b == old(M.b).(q := Taken(old(M.b.q), p, s), of := old(M.b.of) - {p})
    ensures ListsSame(old(M.b.of), M.m, M.end, old(M.L()), M.L())
  {
    hide BinInv, ListsSame, IsMarked, Clear, IndexOf;
    ghost var b, l := M.b, M.L();
    HomeOf(b, M.m, M.end, l, p);
    SmallNeighbours(b, M.m, M.end, l, s, p);
    var F := M.fd[p];
    var B := M.bk[p];
    var i := s / 8;
    assert p != B;
    assert p != F;
    assert M.head[p].size == 8 * i;
    assert F == SmallbinAt(M.m, i) || (M.OkAddress(F) && M.bk[F] == p);
    if B == F {
      M.smallmap := Clear(M.smallmap, i);
    } else {
      assert B == SmallbinAt(M.m, i) || (M.OkAddress(B) && M.fd[B] == p);
      M.bk := M.bk[F := B];
      M.fd := M.fd[B := F];
    }
    M.b := b.(q := Taken(b.q, p, s), of := b.of - {p});
    UnlinkSmallInv(b, M.m, M.end, l, p, s, M.L());
    UnlinkFrame(b, M.m, M.end, l, p, s, M.L());
  }

  // unlink_first_small_chunk: p is the chunk that header B points to.
  method UnlinkFirstSmallChunk(M: Mstate, B: Addr, p: Addr, i: nat)
    requires M.Binned() && i < NBINS && IsMarked(M.smallmap, i)
    requires B == SmallbinAt(M.m, i) && B < |M.fd| && p == M.fd[B]
    requires p < |M.head| && M.head[p].size == 8 * i
    modifies M`smallmap, M`fd, M`bk, M`b
    ensures M.Binned()
    ensures p in old(M.b.of) && old(M.b.of)[p] == 8 * i
    ensures 8 * i in old(M.b.q) && p in old(M.b.q)[8 * i]
    ensures M.b == old(M.b).(q := Taken(old(M.b.q), p, 8 * i), of := old(M.b.of) - {p})
    ensures ListsSame(old(M.b.of), M.m, M.end, old(M.L()), M.L())
  {
    hide BinInv, ListsSame, IsMarked, Clear, IndexOf, Ring, NoDup;
    ghost var b, l := M.b, M.L();
    ghost var s := 8 * i;
    SmallHeader(b, M.m, M.end, l, s);
    SmallNeighbours(b, M.m, M.end, l, s, p);
    var F := M.fd[p];
    assert p != B;
    assert p != F;
    assert M.head[p].size == 8 * i;
    if B == F {
      M.smallmap := Clear(M.smallmap, i);
    } else {
      assert M.OkAddress(F) && M.bk[F] == p;
      M.bk := M.bk[F := B];
      M.fd := M.fd[B := F];
    }
    M.b := b.(q := Taken(b.q, p, s), of := b.of - {p});
    UnlinkSmallInv(b, M.m, M.end, l, p, s, M.L());
    UnlinkFrame(b, M.m, M.end, l, p, s, M.L());
  }
}
