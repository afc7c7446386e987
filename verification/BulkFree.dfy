// mspace_bulk_free
module BulkFree {
  import opened Bins
  import opened Tags
  import opened Cuts
  import opened Mstate
  import opened Guards
  import opened Chunks
  import opened Malloc
  import opened Rooms
  import opened Payloads
  import opened Free

  // The chunks that an array of pointers names; null names none.
  ghost function Blocks(s: seq<Addr>): set<Addr> {
    set j | 0 <= j < |s| && s[j] >= 16 :: s[j] - 16
  }

  // An array of distinct pointers to chunks in use, and of nulls.
  ghost predicate Distinct(live: map<Addr, nat>, s: seq<Addr>) {
    && (forall j :: 0 <= j < |s| ==> s[j] == 0 || (s[j] >= 16 && s[j] - 16 in live))
    && (forall j, k :: 0 <= j < k < |s| && s[j] != 0 ==> s[j] != s[k])
  }

  // What becomes of the free room: a chunk whose successor is named next is joined
  // to it, and any other is free by itself.
  ghost function AfterBulk(a: Room, live: map<Addr, nat>, s: seq<Addr>): Room
    decreases |s|
  {
    if s == [] then a
    else if s[0] < 16 then AfterBulk(a, live, s[1..])
    else
      var p, n := s[0] - 16, SizeHeld(live, s[0] - 16);
      if |s| > 1 && s[1] == p + n + 16 then
        AfterBulk(a, (live - {p + n})[p := n + SizeHeld(live, p + n)], s[1..][0 := s[0]])
      else AfterBulk(AfterReturn(a, p, n), live - {p}, s[1..])
  }

  // set_inuse(p, newsize): p takes in next, which is in use as well.
  method JoinUsed(M: Mstate, p: Addr, next: Addr, newsize: nat)
    requires M.Inv() && p in M.Live() && next == Next(M, p) && next in M.Live() && p != next
    requires p !in M.keep && next !in M.keep
    requires newsize == M.Live()[p] + M.Live()[next]
    modifies M`head, M`foot, M`live
    ensures M.Inv()
    ensures M.Live() == (old(M.Live()) - {next})[p := newsize]
  {
    hide BinInv, TagInv, Agree, Used, ChunkOk, Covers, Kept, Ready, TagsGuarded, LinksGuarded, Unkept, Safe, Sparing;
    ghost var g := M.G();
    ReadyTwo(M, p, next);
    assert Unkept(M.keep, {p, next}) by { TwoUnkept(M.keep, p, next); }
    SetInuse(M, p, newsize);
    M.live := M.live - {p, next} + {p};
    OneUsedEffect(g, M.G(), p, p + newsize, {p, next});
    Finish(M, g, {p, next}, {p}, M.Dv(), M.Dv());
    assert (Used(g) - {p, next})[p := newsize] == (Used(g) - {next})[p := newsize];
  }

  lemma TwoUnkept(keep: map<Addr, nat>, p: Addr, q: Addr)
    requires p !in keep && q !in keep
    ensures Unkept(keep, {p, q})
  {
  }

  lemma ReadyTwo(M: Mstate, p: Addr, next: Addr)
    requires M.Inv() && p in M.Live() && next == Next(M, p) && next in M.Live() && p != next
    ensures Ready(M.b.of, M.msize, M.G(), M.dv, M.dvsize, {p, next}, M.Dv())
    ensures SameOut(M.G(), {p, next}, M.Dv(), M.Dv())
    ensures M.G().lo == M.base && M.Binned() && TagInv(M.G())
    ensures var z := p + M.Live()[p] + M.Live()[next];
      p < z < |M.head| == |M.foot| == M.end && Covers(M.G(), p, z, {p, next})
    ensures M.top < |M.head| && M.topsize == M.head[M.top].size
    ensures Watched(M, M.G())
  {
    hide BinInv, TagInv, Agree, Used, Covers, ChunkOk, TagsGuarded, LinksGuarded;
    UsedAt(M, p);
    UsedAt(M, next);
    Parts(M, M.Dv());
    TagBounds(M.G());
    CoverOne(M.G(), p);
    CoverOne(M.G(), next);
    CoverJoin(M.G(), p, next, Next(M, next), {p}, {next});
    assert {p} + {next} == {p, next};
    CoverEnds(M.G(), p, Next(M, next), {p, next});
  }

  lemma UsedAt(M: Mstate, p: Addr)
    requires M.Inv() && p in M.Live()
    ensures p in M.live && p != M.base && p !in M.b.of && p !in M.Dv()
    ensures p < |M.head| && M.head[p].size == M.Live()[p]
    ensures p + M.head[p].size < M.end && M.OkAddress(p)
  {
    hide BinInv, TagInv, Agree, ChunkOk, TagsGuarded, LinksGuarded;
    InUse(M, M.Dv(), p);
    ChunkAt(M, M.Dv(), p);
  }

  lemma SkipNull(live: map<Addr, nat>, s: seq<Addr>)
    requires Distinct(live, s) && |s| > 0 && s[0] == 0
    ensures Distinct(live, s[1..]) && Blocks(s[1..]) == Blocks(s)
  {
    forall x | x in Blocks(s)
      ensures x in Blocks(s[1..])
    {
      var j :| 0 <= j < |s| && s[j] >= 16 && s[j] - 16 == x;
      assert s[1..][j - 1] == s[j];
    }
  }

  lemma FreeFirst(live: map<Addr, nat>, s: seq<Addr>)
    requires Distinct(live, s) && |s| > 0 && s[0] != 0
    ensures Distinct(live - {s[0] - 16}, s[1..])
    ensures Blocks(s[1..]) <= Blocks(s) && s[0] - 16 in Blocks(s)
    ensures live - {s[0] - 16} - Blocks(s[1..]) == live - Blocks(s)
  {
    forall x | x in Blocks(s)
      ensures x == s[0] - 16 || x in Blocks(s[1..])
    {
      var j :| 0 <= j < |s| && s[j] >= 16 && s[j] - 16 == x;
      if j > 0 { assert s[1..][j - 1] == s[j]; }
    }
    assert s[0] - 16 in Blocks(s);
    forall x | x in Blocks(s[1..])
      ensures x in Blocks(s)
    {
      var j :| 0 <= j < |s[1..]| && s[1..][j] >= 16 && s[1..][j] - 16 == x;
      assert s[1..][j] == s[j + 1];
    }
  }

  lemma JoinFirst(live: map<Addr, nat>, s: seq<Addr>, x: nat)
    requires Distinct(live, s) && |s| > 1 && s[0] != 0 && s[1] != 0
    ensures s[1] >= 16 && s[1] - 16 in Blocks(s)
    ensures Blocks(s[1..][0 := s[0]]) <= Blocks(s) && s[0] - 16 in Blocks(s)
    ensures var l' := (live - {s[1] - 16})[s[0] - 16 := x];
      Distinct(l', s[1..][0 := s[0]]) && l' - Blocks(s[1..][0 := s[0]]) == live - Blocks(s)
  {
    var t := s[1..][0 := s[0]];
    forall y | y in Blocks(s)
      ensures y == s[1] - 16 || y in Blocks(t)
    {
      var j :| 0 <= j < |s| && s[j] >= 16 && s[j] - 16 == y;
      if j != 1 { assert t[if j == 0 then 0 else j - 1] == s[j]; }
    }
    assert s[1] - 16 in Blocks(s);
    assert s[0] - 16 in Blocks(s);
    forall y | y in Blocks(t)
      ensures y in Blocks(s)
    {
      var j :| 0 <= j < |t| && t[j] >= 16 && t[j] - 16 == y;
      assert t[j] == s[if j == 0 then 0 else j + 1];
    }
  }

  // One turn of the loop: the chunk p of array[i] is freed, or joined to the
  // chunk that follows it when the array names that one next.
  method FreeEntry(M: Mstate, array_: array<Addr>, i: nat)
    requires M.Inv() && i < array_.Length && Distinct(M.Live(), array_[i..]) && array_[i] != 0
    requires Unkept(M.keep, Blocks(array_[i..]))
    modifies M, array_
    ensures M.Inv() && M.keep == old(M.keep) && M.was == old(M.was)
    ensures Untouched(M.Live(), old(M.data), M.data) && |M.data| == |old(M.data)|
    ensures Unkept(M.keep, Blocks(array_[i + 1..]))
    ensures forall j :: 0 <= j < i ==> array_[j] == old(array_[j])
    ensures array_[i] == 0
    ensures AfterBulk(RoomOf(M), M.Live(), array_[i + 1..]) ==
      AfterBulk(old(RoomOf(M)), old(M.Live()), old(array_[i..]))
    ensures Distinct(M.Live(), array_[i + 1..])
    ensures M.Live() - Blocks(array_[i + 1..]) == old(M.Live()) - Blocks(old(array_[i..]))
  {
    hide BinInv, TagInv, Agree, Used, Blocks, Distinct, Mstate.Sound, TagsGuarded, LinksGuarded, AfterReturn, AfterBulk;
    ghost var s, live, room := array_[i..], M.Live(), RoomOf(M);
    BulkStep(room, live, s);
    FirstEntry(live, s);
    var p := array_[i] - 16;
    UsedAt(M, p);
    Guarded(M, p);
    var psize := M.head[p].size;
    assert M.foot[p + psize] == M.cookie;
    array_[i] := 0;
    assert M.OkAddress(p) && (M.head[p].pinuse ==> M.head[p].cinuse);
    var next := p + psize;
    if i + 1 < array_.Length && array_[i + 1] == next + 16 {
      SecondEntry(live, s);
      UsedAt(M, next);
      var newsize := M.head[next].size + psize;
      JoinFirst(live, s, newsize);
      JoinUsed(M, p, next, newsize);
      array_[i + 1] := p + 16;
      assert array_[i + 1..] == s[1..][0 := s[0]];
    } else {
      FreeFirst(live, s);
      DisposeChunk(M, p);
      assert array_[i + 1..] == s[1..];
    }
  }

  lemma BulkStep(a: Room, live: map<Addr, nat>, s: seq<Addr>)
    requires Distinct(live, s) && |s| > 0 && s[0] != 0
    ensures s[0] >= 16 && s[0] - 16 in live
    ensures var p, n := s[0] - 16, live[s[0] - 16];
      AfterBulk(a, live, s) ==
        if |s| > 1 && s[1] == p + n + 16 then
          AfterBulk(a, (live - {p + n})[p := n + SizeHeld(live, p + n)], s[1..][0 := s[0]])
        else AfterBulk(AfterReturn(a, p, n), live - {p}, s[1..])
  {
    hide AfterReturn;
  }

  lemma BulkSkip(a: Room, live: map<Addr, nat>, s: seq<Addr>)
    requires |s| > 0 && s[0] == 0
    ensures AfterBulk(a, live, s) == AfterBulk(a, live, s[1..])
  {
    hide AfterReturn;
  }

  lemma FirstEntry(live: map<Addr, nat>, s: seq<Addr>)
    requires Distinct(live, s) && |s| > 0 && s[0] != 0
    ensures s[0] >= 16 && s[0] - 16 in live
  {
  }

  lemma SecondEntry(live: map<Addr, nat>, s: seq<Addr>)
    requires Distinct(live, s) && |s| > 1 && s[1] != 0
    ensures s[1] >= 16 && s[1] - 16 in live && s[0] != s[1]
  {
  }

  // internal_bulk_free
  method MspaceBulkFree(M: Mstate, array_: array<Addr>) returns (unfreed: nat)
    requires M.Inv() && Distinct(M.Live(), array_[..]) && Unkept(M.keep, Blocks(array_[..]))
    modifies M, array_
    ensures M.Inv() && M.keep == old(M.keep) && M.was == old(M.was)
    ensures Untouched(M.Live(), old(M.data), M.data) && |M.data| == |old(M.data)|
    ensures M.Live() == old(M.Live()) - Blocks(old(array_[..]))
    ensures unfreed == 0
    ensures !ShouldTrim(M)
    ensures RoomOf(M) == Trimmed(AfterBulk(old(RoomOf(M)), old(M.Live()), old(array_[..])))
    ensures forall j :: 0 <= j < array_.Length ==> array_[j] == 0
  {
    hide BinInv, TagInv, Agree, Used, Blocks, Distinct, Mstate.Sound, TagsGuarded, LinksGuarded, Untouched, AfterBulk;
    unfreed := 0;
    NoneTouched(M.Live() - Blocks(array_[..]), M.data);
    var i := 0;
    assert array_[0..] == array_[..];
    while i < array_.Length
      invariant i <= array_.Length && M.Inv() && M.keep == old(M.keep) && M.was == old(M.was)
      invariant Untouched(M.Live() - Blocks(array_[i..]), old(M.data), M.data) && |M.data| == |old(M.data)|
      invariant Unkept(M.keep, Blocks(array_[i..]))
      invariant Distinct(M.Live(), array_[i..])
      invariant M.Live() - Blocks(array_[i..]) == old(M.Live()) - Blocks(old(array_[..]))
      invariant AfterBulk(RoomOf(M), M.Live(), array_[i..]) ==
        AfterBulk(old(RoomOf(M)), old(M.Live()), old(array_[..]))
      invariant forall j :: 0 <= j < i ==> array_[j] == 0
    {
      if array_[i] != 0 {
        ghost var data := M.data;
        FreeEntry(M, array_, i);
        UntouchedLess(M.Live(), M.Live() - Blocks(array_[i + 1..]), data, M.data);
        UntouchedTwice(M.Live() - Blocks(array_[i + 1..]), old(M.data), data, M.data);
      } else {
        SkipNull(M.Live(), array_[i..]);
        BulkSkip(RoomOf(M), M.Live(), array_[i..]);
        assert array_[i..][1..] == array_[i + 1..];
      }
      i := i + 1;
    }
    NoBlocks(array_[i..]);
    assert AfterBulk(RoomOf(M), M.Live(), []) == RoomOf(M) by { BulkEnd(RoomOf(M), M.Live()); }
    assert M.Live() - {} == M.Live();
    TrimIfLarge(M);
  }

  lemma BulkEnd(a: Room, live: map<Addr, nat>)
    ensures AfterBulk(a, live, []) == a
  {
  }

  // should_trim and sys_trim
  method TrimIfLarge(M: Mstate)
    requires M.Inv()
    modifies M`trim_check
    ensures M.Inv() && M.Live() == old(M.Live())
    ensures !ShouldTrim(M) && RoomOf(M) == Trimmed(old(RoomOf(M)))
  {
    hide BinInv, TagInv, Agree, Used, TagsGuarded, LinksGuarded;
    if ShouldTrim(M) {
      SysTrim(M);
    }
  }

  lemma NoBlocks(s: seq<Addr>)
    requires s == []
    ensures Blocks(s) == {}
  {
  }
}
