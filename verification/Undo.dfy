// What freeing a block undoes.
module Undo {
  import opened TreeIndex
  import opened Bins
  import opened Tags
  import opened Cuts
  import opened Guards
  import opened Sizes
  import opened Rings
  import opened Mstate
  import opened Chunks
  import opened Malloc
  import opened Rooms
  import opened Free
  import opened Clients
  import opened Shapes

  // The free chunk at p, be it binned, dv or top.
  ghost predicate FreeAt(a: Room, p: Addr) {
    p in a.of || a.IsDv(p) || p == a.top
  }

  ghost function FreeSize(a: Room, p: Addr): nat {
    if p in a.of then a.of[p] else if p == a.top then a.topsize else a.dvsize
  }

  // Between any two free chunks lies something else.
  ghost predicate Gap(a: Room, p: Addr, r: Addr) {
    p + FreeSize(a, p) < r || r + FreeSize(a, r) < p
  }

  // Free chunks do not touch, and each binned one is once in the queue of its size.
  ghost predicate Spaced(a: Room) {
    && (forall p, r :: FreeAt(a, p) && FreeAt(a, r) && p != r ==> Gap(a, p, r))
    && (forall p :: p in a.of ==> p > 0 && a.of[p] > 0 && !a.IsDv(p) && p != a.top && Queued(a, p))
    && (forall s :: s in a.q ==> a.q[s] != [] && forall x :: x in a.q[s] ==> x in a.of)
    && (if a.dvsize == 0 then a.dv == 0 else a.dv > 0) && a.top > 0 && !a.IsDv(a.top) && a.topsize <= MAX_SIZE_T
  }

  ghost predicate Queued(a: Room, p: Addr)
    requires p in a.of
  {
    a.of[p] in a.q && p in a.q[a.of[p]] && NoDup(a.q[a.of[p]])
  }

  lemma FreePair(a: Room, p: Addr, r: Addr)
    requires Spaced(a) && FreeAt(a, p) && FreeAt(a, r) && p != r
    ensures Gap(a, p, r)
  {
    hide FreeAt, Gap;
  }

  // Taking a chunk out of its queue and putting it back as the newest is nothing
  // exactly if it was the newest.
  lemma TakePut(q: map<nat, seq<Addr>>, p: Addr, s: nat)
    requires s in q && p in q[s] && NoDup(q[s])
    ensures Put(Taken(q, p, s), p, s) == q <==> q[s][|q[s]| - 1] == p
  {
    var c, j := q[s], IndexOf(q[s], p);
    if |c| == 1 {
      assert c == [p] == [] + [p];
      assert Put(Taken(q, p, s), p, s) == (q - {s})[s := [p]] == q;
    } else {
      var d := Put(Taken(q, p, s), p, s);
      assert d[s] == Without(c, j) + [p];
      if j == |c| - 1 {
        assert d[s] == c;
        assert d == q;
      } else {
        assert d[s][|c| - 1] == p;
      }
    }
  }

  // Putting it in and taking it out again is nothing.
  lemma PutTake(q: map<nat, seq<Addr>>, p: Addr, s: nat)
    requires s in q ==> p !in q[s] && q[s] != []
    ensures var d := Put(q, p, s); s in d && p in d[s] && Taken(d, p, s) == q
  {
    var c := Queue(q, s);
    var d := Put(q, p, s);
    assert d[s][|c|] == p;
    LastIndex(c, p);
    if s in q {
      assert Without(c + [p], |c|) == c;
      assert Taken(d, p, s) == q;
    } else {
      assert Taken(d, p, s) == q;
    }
  }

  lemma {:induction false} LastIndex(c: seq<Addr>, p: Addr)
    requires p !in c
    ensures p in c + [p] && IndexOf(c + [p], p) == |c|
  {
    assert (c + [p])[|c|] == p;
    if c != [] {
      assert (c + [p])[1..] == c[1..] + [p];
      LastIndex(c[1..], p);
    }
  }

  lemma NothingBefore(b: Room, p: Addr)
    requires b.dvsize != 0 ==> b.dv + b.dvsize != p
    requires forall x: Addr :: x in b.of ==> x + b.of[x] != p
    ensures FreeStart(b, p) == p
  {
  }

  // No free chunk touches the free chunk p.
  lemma Alone(a: Room, p: Addr)
    requires Spaced(a) && FreeAt(a, p)
    ensures FreeStart(a, p) == p
    ensures forall x: Addr :: x in a.of ==> x + a.of[x] != p
    ensures a.dvsize != 0 ==> a.dv + a.dvsize != p
    ensures forall z: Addr :: p < z <= p + FreeSize(a, p) ==> !FreeAt(a, z)
  {
    hide Spaced;
    forall x: Addr | x in a.of
      ensures x + a.of[x] != p
    {
      OfSpaced(a, x);
      if x != p { FreePair(a, x, p); }
    }
    if a.dvsize != 0 {
      DvSpaced(a);
      if a.dv != p { FreePair(a, a.dv, p); }
    }
    forall z: Addr | p < z <= p + FreeSize(a, p)
      ensures !FreeAt(a, z)
    {
      if FreeAt(a, z) { FreePair(a, p, z); }
    }
    NothingBefore(a, p);
  }

  lemma OfSpaced(a: Room, p: Addr)
    requires Spaced(a) && p in a.of
    ensures FreeAt(a, p) && FreeSize(a, p) == a.of[p] > 0 && p > 0 && !a.IsDv(p) && p != a.top && Queued(a, p)
    ensures a.dv != p
  {
  }

  lemma NotQueued(a: Room, p: Addr, s: nat)
    requires Spaced(a) && !FreeAt(a, p)
    ensures s in a.q ==> a.q[s] != [] && p !in a.q[s]
  {
    hide Queued, NoDup, Gap;
  }

  lemma DvSpaced(a: Room)
    requires Spaced(a) && a.dvsize != 0
    ensures a.dv > 0 && FreeAt(a, a.dv) && FreeSize(a, a.dv) == a.dvsize && a.dv !in a.of && a.dv != a.top
  {
  }

  // ------------------------------------------------ freeing what was allocated

  // A binned chunk that was taken whole.
  lemma WholeBack(a: Room, p: Addr)
    requires Spaced(a) && p in a.of
    ensures AfterReturn(a.Out(p), p, a.of[p]) == a <==> a.q[a.of[p]][|a.q[a.of[p]]| - 1] == p
  {
    hide Spaced, NoDup;
    OfSpaced(a, p);
    Alone(a, p);
    var b, s := a.Out(p), a.of[p];
    NothingBefore(b, p);
    assert !FreeAt(a, p + s);
    assert AfterReturn(b, p, s) == b.In(p, s);
    assert b.In(p, s).of == a.of;
    TakePut(a.q, p, s);
  }

  // One whose rest was binned.
  lemma CutBack(a: Room, p: Addr, nb: nat)
    requires Spaced(a) && p in a.of && 0 < nb < a.of[p]
    ensures AfterReturn(a.Out(p).In(p + nb, a.of[p] - nb), p, nb) == a
      <==> a.q[a.of[p]][|a.q[a.of[p]]| - 1] == p
  {
    hide Spaced, NoDup;
    OfSpaced(a, p);
    Alone(a, p);
    var s, z := a.of[p], p + nb;
    var b := a.Out(p).In(z, s - nb);
    NothingBefore(b, p);
    assert !FreeAt(a, z);
    NotQueued(a, z, s - nb);
    PutTake(a.Out(p).q, z, s - nb);
    assert b.Out(z).of == a.Out(p).of;
    assert b.Out(z) == a.Out(p);
    assert AfterReturn(b, p, nb) == a.Out(p).In(p, s);
    assert a.Out(p).In(p, s).of == a.of;
    TakePut(a.q, p, s);
  }

  // One whose rest became dv.
  lemma VictimBack(a: Room, p: Addr, nb: nat)
    requires Spaced(a) && p in a.of && 0 < nb < a.of[p]
    ensures AfterReturn(a.Out(p).Victim(p + nb, a.of[p] - nb), p, nb) != a
  {
    hide Spaced, NoDup;
    OfSpaced(a, p);
    Alone(a, p);
    var s, z := a.of[p], p + nb;
    var b := a.Out(p).Victim(z, s - nb);
    if a.dvsize != 0 { DvSpaced(a); }
    NothingBefore(b, p);
    assert !FreeAt(a, z);
    assert AfterReturn(b, p, nb).dv == p;
  }

  // dv, cut or used up.
  lemma DvBack(a: Room, nb: nat)
    requires Spaced(a) && a.dvsize != 0 && 0 < nb <= a.dvsize
    ensures nb < a.dvsize ==> AfterReturn(a.(dv := a.dv + nb, dvsize := a.dvsize - nb), a.dv, nb) == a
    ensures AfterReturn(a.NoVictim(), a.dv, a.dvsize) != a
  {
    hide Spaced, NoDup;
    DvSpaced(a);
    Alone(a, a.dv);
    var b := a.(dv := a.dv + nb, dvsize := a.dvsize - nb);
    NothingBefore(b, a.dv);
    NothingBefore(a.NoVictim(), a.dv);
    assert nb < a.dvsize ==> !FreeAt(a, a.dv + nb);
    assert !FreeAt(a, a.dv + a.dvsize);
    assert a.dv in AfterReturn(a.NoVictim(), a.dv, a.dvsize).of;
  }

  // Top, cut.
  lemma TopBack(a: Room, nb: nat)
    requires Spaced(a) && 0 < nb < a.topsize
    ensures AfterReturn(a.(top := a.top + nb, topsize := a.topsize - nb), a.top, nb) == a
  {
    hide NoDup;
    Alone(a, a.top);
    NothingBefore(a.(top := a.top + nb, topsize := a.topsize - nb), a.top);
  }

  // Freeing a chunk just allocated restores the free room exactly if it came from
  // top, left a dv behind, or was the newest of its bin and nothing of it became dv.
  ghost predicate Undoes(a: Room, p: Addr, nb: nat) {
    if p in a.of
    then (a.of[p] < nb + MIN_CHUNK_SIZE || nb >= MIN_LARGE_SIZE)
         && (a.of[p] < MIN_LARGE_SIZE || |Queue(a.q, a.of[p])| == 1)
    else p == a.top || nb + MIN_CHUNK_SIZE <= a.dvsize
  }

  lemma FreeUndoes(a: Room, p: Addr, nb: nat)
    requires Spaced(a) && nb > 0 && p != 0 && Chosen(a, nb, p)
    ensures AfterReturn(After(a, p, nb), p, SizeGot(a, p, nb)) == a <==> Undoes(a, p, nb)
    ensures After(a, p, nb).top != a.top <==> p == a.top
  {
    hide AfterReturn, Spaced, NoDup;
    if p in a.of {
      OfSpaced(a, p);
      NewestOrOldest(a, p);
      if a.of[p] < nb + MIN_CHUNK_SIZE {
        WholeBack(a, p);
      } else if nb >= MIN_LARGE_SIZE {
        CutBack(a, p, nb);
      } else {
        VictimBack(a, p, nb);
      }
    } else if nb <= a.dvsize {
      DvSpaced(a);
      DvBack(a, nb);
    } else {
      TopSpaced(a);
      TopBack(a, nb);
    }
  }

  lemma TopSpaced(a: Room)
    requires Spaced(a)
    ensures a.top > 0 && a.top !in a.of && a.top != a.dv
  {
  }

  // The chunk of a size that leaves first is the newest, or the only one.
  lemma NewestOrOldest(a: Room, p: Addr)
    requires p in a.of && Queued(a, p) && p == NextOut(a.q, a.of[p])
    ensures a.q[a.of[p]][|a.q[a.of[p]]| - 1] == p <==> a.of[p] < MIN_LARGE_SIZE || |Queue(a.q, a.of[p])| == 1
  {
  }

  // So much for the free room; the pointers held and the chunks in use are always
  // what they were.
  lemma FreeUndoesAllocate(a: Shape, b: Shape, c: Shape, bytes: nat)
    requires Spaced(a.room) && forall p :: FreeAt(a.room, p) ==> p !in a.live
    requires Reshaped(Allocate(bytes), a, b) && b.held != a.held && Reshaped(Release(|a.held|), b, c)
    ensures c.held == a.held && c.live == a.live
    ensures var p, nb := ChunkOf(b.held[|a.held|]), Request2Size(bytes);
      c.room == a.room <==> Undoes(a.room, p, nb) && (p == a.room.top ==> a.room.topsize <= a.room.trim)
  {
    hide Spaced, Chosen, After, AfterReturn, SizeGot, Request2Size;
    var nb := Request2Size(bytes);
    var p: Addr :| Chosen(a.room, nb, p) && b == Grown(a, p, nb);
    SizeFits(bytes);
    assert p != 0;
    assert b.held[|a.held|] == p + 16;
    assert Without(b.held, |a.held|) == a.held;
    FreeUndoes(a.room, p, nb);
    TopSpaced(a.room);
    ChosenFree(a.room, nb, p);
    assert b.live - {p} == a.live;
    ReleaseTop(a.room, b.room, p, SizeGot(a.room, p, nb));
  }

  lemma ChosenFree(a: Room, nb: nat, p: Addr)
    requires Spaced(a) && Chosen(a, nb, p) && p != 0 && nb > 0
    ensures FreeAt(a, p)
  {
  }

  lemma ReleaseTop(a: Room, b: Room, p: Addr, s: nat)
    requires Spaced(a) && (b.top != a.top <==> p == a.top)
    requires p == a.top ==> AfterReturn(b, p, s) == a
    ensures AfterRelease(b, p, s) == a
      <==> AfterReturn(b, p, s) == a && (p == a.top ==> a.topsize <= a.trim)
  {
    hide AfterReturn;
  }

  // The free room of a sound heap is like that.
  lemma SpacedIs(M: Mstate)
    requires M.Inv()
    ensures Spaced(RoomOf(M)) && forall p :: FreeAt(RoomOf(M), p) ==> p !in M.Live()
  {
    hide BinInv, TagInv, Agree, Used, ChunkOk, TagsGuarded, LinksGuarded, Mstate.Sound, FreeAt, FreeSize, Queued;
    var a := RoomOf(M);
    forall p, r | FreeAt(a, p) && FreeAt(a, r) && p != r
      ensures Gap(a, p, r)
    {
      if p < r { GapAfter(M, p, r); } else { GapAfter(M, r, p); }
    }
    forall p | FreeAt(a, p)
      ensures p !in M.Live()
    {
      FreeNotUsed(M, p);
    }
    QueuesSpaced(M);
    TopApart(M);
  }

  lemma FreeNotUsed(M: Mstate, p: Addr)
    requires M.Inv() && FreeAt(RoomOf(M), p)
    ensures p !in M.Live()
  {
    hide BinInv, TagInv, Agree, ChunkOk, TagsGuarded, LinksGuarded, Mstate.Sound;
    ReadyTop(M);
    if p != M.top { RoomChunk(M, p); }
  }

  lemma GapAfter(M: Mstate, p: Addr, r: Addr)
    requires M.Inv() && FreeAt(RoomOf(M), p) && FreeAt(RoomOf(M), r) && p < r
    ensures Gap(RoomOf(M), p, r)
  {
    hide BinInv, TagInv, Agree, ChunkOk, TagsGuarded, LinksGuarded, Mstate.Sound, Used;
    Parts(M, M.Dv());
    ReadyTop(M);
    RoomsApart(M);
    if r != M.top { RoomChunk(M, r); }
    if p == M.top {
      AboveAll(M, r);
    } else {
      RoomChunk(M, p);
      FreeChunk(M.G(), p);
      AboveAll(M, M.G().Next(p));
      if r != M.top { TwoApart(M.G(), p, r); }
    }
  }

  lemma AboveAll(M: Mstate, p: Addr)
    requires M.Inv() && p in M.live
    ensures p < M.top
  {
    hide BinInv, TagInv, Agree, ChunkOk, TagsGuarded, LinksGuarded, Covers;
    Parts(M, M.Dv());
    AboveBase(M.G());
    if p != M.base {
      ChunkAt(M, M.Dv(), p);
      CoverOne(M.G(), p);
      CoverEnds(M.G(), p, p + M.head[p].size, {p});
    }
  }

  lemma TopApart(M: Mstate)
    requires M.Inv()
    ensures M.top > 0 && M.topsize <= MAX_SIZE_T && !RoomOf(M).IsDv(M.top)
    ensures if M.dvsize == 0 then M.dv == 0 else M.dv > 0
  {
    hide BinInv, TagInv, Agree, ChunkOk, TagsGuarded, LinksGuarded, Used;
    ReadyTop(M);
    RoomsApart(M);
    Bounded(M);
    if M.dvsize != 0 {
      LooseChunk(M, M.Dv(), M.dv);
      ChunkAt(M, M.Dv(), M.dv);
    }
  }

  lemma QueuesSpaced(M: Mstate)
    requires M.Inv()
    ensures var a := RoomOf(M);
      && (forall p :: p in a.of ==> p > 0 && a.of[p] > 0 && !a.IsDv(p) && p != a.top && Queued(a, p))
      && (forall s :: s in a.q ==> a.q[s] != [] && forall x :: x in a.q[s] ==> x in a.of)
  {
    hide TagInv, Agree, ChunkOk, TagsGuarded, LinksGuarded, Used, TreesOk, RingsOk, SmallmapOk;
    RoomsApart(M);
    forall p | p in M.b.of
      ensures p > 0 && M.b.of[p] > 0 && Queued(RoomOf(M), p)
    {
      DvOutside(M, p);
      assert HomeOk(M.b, p);
      assert QueueOk(M.b, M.b.of[p]);
    }
    forall s | s in M.b.q
      ensures M.b.q[s] != [] && forall x :: x in M.b.q[s] ==> x in M.b.of
    {
      assert QueueOk(M.b, s);
    }
  }
}
