// Whole runs: whatever a client that only uses what it was given asks for, the
// heap stays sound and passes its checks after every step.
module Runs {
  import opened Word
  import opened Bins
  import opened Rings
  import opened Tags
  import opened Cuts
  import opened Sizes
  import opened Mstate
  import opened Guards
  import opened Malloc
  import opened Rooms
  import opened Free
  import opened Payloads
  import opened Realloc
  import opened Watch
  import opened Align
  import opened Memalign
  import opened BulkFree
  import opened Checks
  import opened Cells
  import opened Gaps
  import opened Clients
  import opened Shapes

  lemma HoldsNothing(live: map<Addr, nat>, held: seq<Addr>)
    requires Holds(live, held)
    ensures Distinct(live, held) && Holds(live - Blocks(held), [])
  {
    hide Held, Blocks;
    forall j | 0 <= j < |held|
      ensures held[j] >= 16 && held[j] - 16 in live
    {
      HeldAt(live, held, j);
    }
    forall p | p in live
      ensures p in Blocks(held)
    {
      HeldInBlocks(held, p);
    }
    assert live - Blocks(held) == map[];
  }

  lemma HeldInBlocks(held: seq<Addr>, p: Addr)
    requires Held(held, p)
    ensures p in Blocks(held)
  {
    var j :| 0 <= j < |held| && held[j] == p + 16;
  }

  // The chunks that a request names.
  ghost function Named(r: Request, held: seq<Addr>): set<Addr> {
    match r
    case Resize(k, bytes) => OneNamed(held, k)
    case Release(k) => OneNamed(held, k)
    case ReleaseAll => Blocks(held)
    case Write(k, from, text, noise) => OneNamed(held, k)
    case _ => {}
  }

  ghost function OneNamed(held: seq<Addr>, k: nat): set<Addr> {
    if k < |held| && held[k] >= 16 then {held[k] - 16} else {}
  }

  // The heap is sound, and its chunks in use are those that the clients hold.
  ghost predicate Serving(M: Mstate, held: seq<Addr>)
    reads M
  {
    M.Inv() && |M.data| == M.end && Holds(M.Live(), held)
  }

  // The blocks that the clients hold.
  ghost function Seen(M: Mstate, held: seq<Addr>): seq<Block>
    reads M
  {
    View(M.Live(), M.data, held)
  }

  // The heap follows the request.
  ghost predicate Obeys(r: Request, a: seq<Block>, b: seq<Block>, M: Mstate)
    reads M
  {
    Follows(r, a, b, AreaStart(M), AreaEnd(M))
  }

  // What becomes of the words over a block that the request names and that stays
  // where it is: the allocator writes none over the bytes that a resized block
  // keeps, and a write changes only those that it touches.
  ghost predicate WordsKept(r: Request, live: map<Addr, nat>, held: seq<Addr>, held': seq<Addr>, a: Columns,
                            b: Columns) {
    match r
    case Resize(k, bytes) =>
      k < |held| && k < |held'| && held'[k] == held[k] ==> WordsStay(live, a, b, ChunkOf(held[k]), bytes)
    case Write(k, from, text, noise) =>
      if k < |held| && ChunkOf(held[k]) in live && 16 + from + |text| <= live[ChunkOf(held[k])]
      then OnlyTouched(a, b, ChunkOf(held[k]) + from, |text| + 16)
      else b == a
    case _ => true
  }

  // One step of a run: the blocks change as the request says, and memory is there
  // for it exactly if the blocks leave room. The chunks that it does not name keep
  // every byte that belongs to their clients, in whatever field it may be read.
  method Step(M: Mstate, r: Request, held: seq<Addr>) returns (held': seq<Addr>)
    requires Serving(M, held) && Sensible(r)
    modifies M
    ensures Serving(M, held')
    ensures Obeys(r, old(Seen(M, held)), Seen(M, held'), M)
    ensures Untouched(old(M.Live()) - Named(r, held), old(M.data), M.data)
    ensures Unchanged(old(M.Live()) - Named(r, held), old(M.Cols()), M.Cols())
    ensures WordsKept(r, old(M.Live()), held, held', old(M.Cols()), M.Cols())
    ensures Reshaped(r, old(ShapeOf(M, held)), ShapeOf(M, held'))
  {
    hide BinInv, TagInv, Agree, Used, Holds, Unchanged, Named, Mstate.Sound, TagsGuarded, LinksGuarded, Follows, View,
         Untouched, WordsKept, Reshaped;
    ghost var keep := M.Live() - Named(r, held);
    Begin(M, keep);
    held' := Serve(M, r, held);
    StillUnchanged(M);
  }

  // One request is served, while the chunks it does not name are watched.
  method Serve(M: Mstate, r: Request, held: seq<Addr>) returns (held': seq<Addr>)
    requires Serving(M, held) && Sensible(r) && Unkept(M.keep, Named(r, held))
    modifies M
    ensures Serving(M, held') && M.keep == old(M.keep) && M.was == old(M.was)
    ensures Obeys(r, old(Seen(M, held)), Seen(M, held'), M)
    ensures Untouched(old(M.Live()) - Named(r, held), old(M.data), M.data)
    ensures WordsKept(r, old(M.Live()), held, held', old(M.Cols()), M.Cols())
    ensures Reshaped(r, old(ShapeOf(M, held)), ShapeOf(M, held'))
  {
    hide BinInv, TagInv, Agree, Used, Holds, Serving, Seen, Mstate.Sound, Blocks, TagsGuarded, LinksGuarded, Follows,
         View, OneNamed, Overwritten, Payload, After, WordsStay, OnlyTouched, Untouched;
    ghost var live := M.Live();
    assert live - {} == live;
    match r
    case Allocate(bytes) => held' := ServeNew(M, bytes, held);
    case AllocateAligned(alignment, bytes) => held' := ServeAligned(M, alignment, bytes, held);
    case Resize(k, bytes) => held' := ServeResize(M, k, bytes, held);
    case Release(k) => held' := ServeRelease(M, k, held);
    case ReleaseAll => held' := ServeAll(M, held);
    case Write(k, from, text, noise) =>
      held' := held;
      ServeWrite(M, k, from, text, noise, held);
  }

  method ServeNew(M: Mstate, bytes: nat, held: seq<Addr>) returns (held': seq<Addr>)
    requires Serving(M, held) && bytes < TWO64
    modifies M
    ensures Serving(M, held') && M.keep == old(M.keep) && M.was == old(M.was)
    ensures Untouched(old(M.Live()), old(M.data), M.data)
    ensures Obeys(Allocate(bytes), old(Seen(M, held)), Seen(M, held'), M)
    ensures Reshaped(Allocate(bytes), old(ShapeOf(M, held)), ShapeOf(M, held'))
  {
    hide BinInv, TagInv, Agree, Used, Holds, Mstate.Sound, Exhausted, Chosen, TagsGuarded, LinksGuarded, Added, View,
         Request2Size, After, Full, Untouched, NewShape, SizeGot;
    held' := held;
    ghost var a := ShapeOf(M, held);
    ghost var live := M.Live();
    SizeFits(bytes);
    NoneTouched(live, M.data);
    RoomIs(M, held, Request2Size(bytes));
    var mem := MspaceMalloc(M, bytes);
    if mem != 0 {
      SizeIs(M, mem - 16);
      HoldsMore(live, M.Live(), held, mem - 16);
      ViewAdded(live, M.Live(), M.data, held, mem - 16, bytes, 16);
      held' := held + [mem];
    }
    MakesNew(a, ShapeOf(M, held'), mem, bytes);
  }

  // Whether the heap is exhausted, told by the blocks held.
  lemma RoomIs(M: Mstate, held: seq<Addr>, nb: nat)
    requires Serving(M, held) && nb > 0
    ensures Exhausted(M.b.of, M.dvsize, M.topsize, nb) <==> Full(Extents(Seen(M, held)), AreaStart(M), AreaEnd(M), nb)
  {
    hide BinInv, TagInv, Agree, Used, Holds, Mstate.Sound, TagsGuarded, LinksGuarded, Full, View, Exhausted, Extents;
    ExtentsAre(M, held);
    ExhaustedIsFull(M, nb);
  }

  method ServeAligned(M: Mstate, alignment: nat, bytes: nat, held: seq<Addr>) returns (held': seq<Addr>)
    requires Serving(M, held) && alignment <= TWO63 && bytes < TWO64
    modifies M
    ensures Serving(M, held') && M.keep == old(M.keep) && M.was == old(M.was)
    ensures Untouched(old(M.Live()), old(M.data), M.data)
    ensures Obeys(AllocateAligned(alignment, bytes), old(Seen(M, held)), Seen(M, held'), M)
    ensures Reshaped(AllocateAligned(alignment, bytes), old(ShapeOf(M, held)), ShapeOf(M, held'))
  {
    hide BinInv, TagInv, Agree, Used, Holds, Mstate.Sound, Exhausted, TagsGuarded, LinksGuarded, Added, View, Alignment,
         Divides, Request2Size, Full, Untouched, Rounded;
    held' := held;
    ghost var a := ShapeOf(M, held);
    ghost var live, data := M.Live(), M.data;
    SizeFits(bytes);
    NoneTouched(live, M.data);
    RoomIs(M, held, Request2Size(bytes));
    ghost var req := Request2Size(bytes) + Rounded(alignment) + 16;
    SizeFits(req);
    RoomIs(M, held, Request2Size(req));
    var mem := MspaceMemalign(M, alignment, bytes);
    if mem != 0 {
      SizeIs(M, mem - 16);
      SameView(live, data, M.data, held);
      HoldsMore(live, M.Live(), held, mem - 16);
      ViewAdded(live, M.Live(), M.data, held, mem - 16, bytes, Alignment(alignment));
      held' := held + [mem];
    }
    if alignment <= 16 {
      if mem == 0 && bytes < MAX_REQUEST { NoneChosen(a.room, Request2Size(bytes)); }
      MakesNew(a, ShapeOf(M, held'), mem, bytes);
    } else {
      MakesAligned(a, ShapeOf(M, held'), mem, alignment, bytes);
    }
  }

  method ServeResize(M: Mstate, k: nat, bytes: nat, held: seq<Addr>) returns (held': seq<Addr>)
    requires Serving(M, held) && bytes < TWO64 && Unkept(M.keep, OneNamed(held, k))
    modifies M
    ensures Serving(M, held') && M.keep == old(M.keep) && M.was == old(M.was)
    ensures Obeys(Resize(k, bytes), old(Seen(M, held)), Seen(M, held'), M)
    ensures Untouched(old(M.Live()) - OneNamed(held, k), old(M.data), M.data)
    ensures WordsKept(Resize(k, bytes), old(M.Live()), held, held', old(M.Cols()), M.Cols())
    ensures Reshaped(Resize(k, bytes), old(ShapeOf(M, held)), ShapeOf(M, held'))
  {
    hide BinInv, TagInv, Agree, Used, Holds, Mstate.Sound, Exhausted, NoRoom, TagsGuarded, LinksGuarded, Regrown, View,
         Payload, Request2Size, Preserved, Reallocated, Stuck, BoxedIn, NoMalloc, WordsStay, Untouched, Stays,
         RoomFollows;
    held' := held;
    ghost var a := ShapeOf(M, held);
    ghost var live, data := M.Live(), M.data;
    NoneTouched(live - OneNamed(held, k), data);
    if k < |held| {
      HeldAt(live, held, k);
      StandsStill(live, M.Cols(), held[k] - 16, bytes);
      CanResize(M, held, k, bytes);
      var mem := MspaceRealloc(M, held[k], bytes);
      if mem != 0 {
        NowHeld(live, M.Live(), held[k] - 16, mem - 16, Request2Size(bytes));
        SizeIs(M, mem - 16);
        HoldsOther(live, M.Live(), held, k, mem - 16, Request2Size(bytes));
        ViewRegrown(live, M.Live(), data, M.data, held, k, mem - 16, bytes);
        OthersKept(live, data, M.data, held[k] - 16, mem - 16, bytes);
        StaysIs(live, M.Live(), data, M.data, held, k, mem);
        held' := held[k := mem];
      }
      MakesResized(a, ShapeOf(M, held'), k, mem, bytes);
    }
  }

  lemma StaysIs(live: map<Addr, nat>, live': map<Addr, nat>, data: seq<bv8>, data': seq<bv8>, held: seq<Addr>, k: nat,
                mem: Addr)
    requires k < |held|
    ensures Stays(View(live, data, held), View(live', data', held[k := mem]), k) <==> mem == held[k]
  {
    hide Content;
  }

  // Whether a block can be resized, told by the blocks held.
  lemma CanResize(M: Mstate, held: seq<Addr>, k: nat, bytes: nat)
    requires Serving(M, held) && k < |held| && held[k] >= 16 && held[k] - 16 in M.Live()
    ensures bytes < MAX_REQUEST ==>
      (BoxedIn(Seen(M, held), AreaStart(M), AreaEnd(M), k, bytes) <==>
       NoRoom(M, held[k] - 16, Request2Size(bytes)))
    ensures NoRoom(M, held[k] - 16, Request2Size(bytes)) <==>
      Stuck(RoomOf(M), held[k] - 16, M.Live()[held[k] - 16], Request2Size(bytes))
    ensures NoRealloc(Seen(M, held), AreaStart(M), AreaEnd(M), k, bytes) <==>
      bytes >= MAX_REQUEST
      || (Exhausted(M.b.of, M.dvsize, M.topsize, Request2Size(bytes)) && NoRoom(M, held[k] - 16, Request2Size(bytes)))
  {
    hide BinInv, TagInv, Agree, Used, Holds, Mstate.Sound, TagsGuarded, LinksGuarded, Full, Boxed, View, Exhausted,
         Extents,
         Request2Size, NoRoom, Stuck;
    SizeFits(bytes);
    RoomIs(M, held, Request2Size(bytes));
    ExtentsAre(M, held);
    BlockSeen(M, held, k);
    StuckIs(M, held[k] - 16, Request2Size(bytes));
    StuckIsBoxed(M, held[k] - 16, Request2Size(bytes));
  }

  lemma StandsStill(live: map<Addr, nat>, a: Columns, p: Addr, bytes: nat)
    ensures WordsStay(live, a, a, p, bytes)
  {
    hide Unchanged;
    NoneDiffer(map[p := KeptBy(live, p, bytes) + 16], a);
  }

  lemma NowHeld(live: map<Addr, nat>, live': map<Addr, nat>, p: Addr, p': Addr, nb: nat)
    requires Reallocated(live, live', p, p', nb)
    ensures p' in live'
  {
  }

  lemma OthersKept(live: map<Addr, nat>, data: seq<bv8>, data': seq<bv8>, p: Addr, p': Addr, bytes: nat)
    requires Preserved(live, data, data', p, p', bytes)
    ensures Untouched(live - {p}, data, data')
  {
    hide Payload;
  }

  method ServeRelease(M: Mstate, k: nat, held: seq<Addr>) returns (held': seq<Addr>)
    requires Serving(M, held) && Unkept(M.keep, OneNamed(held, k))
    modifies M
    ensures Serving(M, held') && M.keep == old(M.keep) && M.was == old(M.was)
    ensures Obeys(Release(k), old(Seen(M, held)), Seen(M, held'), M)
    ensures Untouched(old(M.Live()) - OneNamed(held, k), old(M.data), M.data)
    ensures Reshaped(Release(k), old(ShapeOf(M, held)), ShapeOf(M, held'))
  {
    hide BinInv, TagInv, Agree, Used, Holds, Mstate.Sound, TagsGuarded, LinksGuarded, View, Without, Untouched,
         OnlyWithin;
    held' := held;
    ghost var data := M.data;
    NoneTouched(M.Live() - OneNamed(held, k), data);
    if k < |held| {
      HeldAt(M.Live(), held, k);
      HoldsLess(M.Live(), held, k);
      ViewLess(M.Live(), data, held, k);
      MspaceFree(M, held[k]);
      held' := Without(held, k);
      SameView(M.Live(), data, M.data, held');
    }
  }

  method ServeAll(M: Mstate, held: seq<Addr>) returns (held': seq<Addr>)
    requires Serving(M, held) && Unkept(M.keep, Blocks(held))
    modifies M
    ensures Serving(M, held') && M.keep == old(M.keep) && M.was == old(M.was)
    ensures Obeys(ReleaseAll, old(Seen(M, held)), Seen(M, held'), M)
    ensures Untouched(old(M.Live()) - Blocks(held), old(M.data), M.data)
    ensures Reshaped(ReleaseAll, old(ShapeOf(M, held)), ShapeOf(M, held'))
  {
    hide BinInv, TagInv, Agree, Used, Holds, Mstate.Sound, Blocks, Distinct, TagsGuarded, LinksGuarded, Untouched;
    HoldsNothing(M.Live(), held);
    var all := new Addr[|held|](i requires 0 <= i < |held| => held[i]);
    assert all[..] == held;
    var unfreed := MspaceBulkFree(M, all);
    held' := [];
  }

  // A client writes into its own block; it does not write past its end.
  method ServeWrite(M: Mstate, k: nat, from: nat, text: seq<bv8>, noise: Columns, held: seq<Addr>)
    requires Serving(M, held) && Unkept(M.keep, OneNamed(held, k))
    modifies M
    ensures Serving(M, held) && M.keep == old(M.keep) && M.was == old(M.was)
    ensures Obeys(Write(k, from, text, noise), old(Seen(M, held)), Seen(M, held), M)
    ensures Untouched(old(M.Live()) - OneNamed(held, k), old(M.data), M.data)
    ensures WordsKept(Write(k, from, text, noise), old(M.Live()), held, held, old(M.Cols()), M.Cols())
    ensures Reshaped(Write(k, from, text, noise), old(ShapeOf(M, held)), ShapeOf(M, held))
  {
    hide BinInv, TagInv, Agree, Used, Holds, Mstate.Sound, TagsGuarded, LinksGuarded, OnlyTouched, Untouched, View,
         Overwritten;
    NoneTouched(M.Live() - OneNamed(held, k), M.data);
    if k < |held| {
      HeldAt(M.Live(), held, k);
      var p := held[k] - 16;
      SizeIs(M, p);
      BlockSeen(M, held, k);
      if 16 + from + |text| <= M.head[p].size {
        ghost var data := M.data;
        PutBytes(M, p, held[k] + from, text, noise);
        ViewWritten(M.Live(), data, held, k, from, text);
      }
    }
  }

  lemma BlockSeen(M: Mstate, held: seq<Addr>, k: nat)
    requires Serving(M, held) && k < |held| && held[k] >= 16 && held[k] - 16 in M.Live()
    ensures var b := Seen(M, held)[k]; b.at == held[k] && |b.bytes| == M.Live()[held[k] - 16] - 16
    ensures M.Live()[held[k] - 16] >= 32
  {
    hide Mstate.Sound, Holds, Payload, Content;
    BlockInside(M, held[k]);
  }

  // A whole run, from an empty heap: the blocks change as each request says and
  // never overlap, memory is there exactly as long as they leave room, and after
  // every step all the checks pass and the chunks, top and its foot fill the
  // segment exactly.
  method Run(M: Mstate, script: seq<Request>)
    returns (held: seq<Addr>, ghost trace: seq<seq<Block>>, ghost run: seq<Shape>)
    requires M.Inv() && |M.data| == M.end && M.Live() == map[]
    requires forall i :: 0 <= i < |script| ==> Sensible(script[i])
    modifies M
    ensures Serving(M, held) && StateOk(M)
    ensures IsTrace(script, trace, AreaStart(M), AreaEnd(M)) && trace[|script|] == Seen(M, held)
    ensures IsRun(script, run) && run[0] == old(ShapeOf(M, [])) && run[|script|] == ShapeOf(M, held)
  {
    hide BinInv, TagInv, Agree, Used, Mstate.Sound, StateOk, Sensible, TagsGuarded, LinksGuarded, Follows, Disjoint,
         Unchanged, View, IsTrace, Untouched, WordsKept, Reshaped, IsRun;
    held := [];
    trace, run := [Seen(M, held)], [ShapeOf(M, held)];
    FirstSeen(M, script, held);
    for i := 0 to |script|
      invariant Serving(M, held) && |trace| == i + 1 && trace[i] == Seen(M, held)
      invariant IsTrace(script[..i], trace, AreaStart(M), AreaEnd(M))
      invariant IsRun(script[..i], run) && |run| == i + 1 && run[0] == old(ShapeOf(M, [])) && run[i] == ShapeOf(M, held)
    {
      held := Step(M, script[i], held);
      ViewDisjoint(M, held);
      TraceMore(script, i, trace, AreaStart(M), AreaEnd(M), Seen(M, held));
      RunMore(script, i, run, ShapeOf(M, held));
      trace, run := trace + [Seen(M, held)], run + [ShapeOf(M, held)];
      var total := CheckMallocState(M);
      assert total == M.end - M.base;
    }
    assert script[..|script|] == script;
    StatePasses(M);
  }

  lemma FirstSeen(M: Mstate, script: seq<Request>, held: seq<Addr>)
    requires M.Inv() && |M.data| == M.end && M.Live() == map[] && held == []
    ensures Serving(M, held) && IsTrace(script[..0], [Seen(M, held)], AreaStart(M), AreaEnd(M))
    ensures IsRun(script[..0], [ShapeOf(M, held)])
  {
    hide Mstate.Sound, BinInv, TagInv, Agree, Used;
  }
}
