// The heap as a machine: the pointers held, the chunks in use and the free room
// before a request determine all three after it.
module Shapes {
  import opened Sizes
  import opened Rings
  import opened Mstate
  import opened Malloc
  import opened Memalign
  import opened Realloc
  import opened Rooms
  import opened Align
  import opened BulkFree
  import opened Clients

  datatype Shape = Shape(held: seq<Addr>, live: map<Addr, nat>, room: Room)

  ghost function ShapeOf(M: Mstate, held: seq<Addr>): Shape
    reads M
  {
    Shape(held, M.Live(), RoomOf(M))
  }

  // The chunk p, chosen for a request of chunk size nb; none if p is 0.
  ghost function Grown(a: Shape, p: Addr, nb: nat): Shape {
    if p == 0 then a
    else Shape(a.held + [p + 16], a.live[p := SizeGot(a.room, p, nb)], After(a.room, p, nb))
  }

  ghost predicate NewShape(a: Shape, b: Shape, bytes: nat) {
    if bytes >= MAX_REQUEST then b == a
    else exists p: Addr :: Chosen(a.room, Request2Size(bytes), p) && b == Grown(a, p, Request2Size(bytes))
  }

  // The chunk p, of chunk size req, cut to an aligned block at q.
  ghost predicate CutShape(a: Shape, b: Shape, p: Addr, req: nat, nb: nat, alignment: nat, q: Addr) {
    var s := SizeGot(a.room, p, req);
    && FirstSpot(p, q, alignment) && p <= q <= p + s
    && b == Shape(a.held + [q + 16], a.live[q := SizePlaced(p, s, q, nb)],
                  AfterPlacing(After(a.room, p, req), p, s, q, nb))
  }

  ghost predicate AlignedShape(a: Shape, b: Shape, wanted: nat, bytes: nat) {
    var nb, alignment := Request2Size(bytes), Rounded(wanted);
    var req := nb + alignment + 16;
    if req >= MAX_REQUEST then b == a
    else exists p: Addr :: Chosen(a.room, Request2Size(req), p) && Placing(a, b, p, Request2Size(req), nb, alignment)
  }

  ghost predicate Placing(a: Shape, b: Shape, p: Addr, req: nat, nb: nat, alignment: nat) {
    if p == 0 then b == a else exists q: Addr :: CutShape(a, b, p, req, nb, alignment, q)
  }

  // Block k in place, or at p, or left as it is if p is 0.
  ghost function InPlace(a: Shape, k: nat, nb: nat): Shape
    requires k < |a.held|
  {
    var p, s := ChunkOf(a.held[k]), SizeHeld(a.live, ChunkOf(a.held[k]));
    a.(live := a.live[p := SizeIn(a.room, p, s, nb)], room := AfterResize(a.room, p, s, nb))
  }

  ghost function Elsewhere(a: Shape, k: nat, p': Addr, nb: nat): Shape
    requires k < |a.held|
  {
    var p, s := ChunkOf(a.held[k]), SizeHeld(a.live, ChunkOf(a.held[k]));
    if p' == 0 then a
    else Shape(a.held[k := p' + 16], (a.live - {p})[p' := SizeGot(a.room, p', nb)],
               AfterRelease(After(a.room, p', nb), p, s))
  }

  ghost predicate ResizedShape(a: Shape, b: Shape, k: nat, bytes: nat)
    requires k < |a.held|
  {
    var p, nb := ChunkOf(a.held[k]), Request2Size(bytes);
    if bytes >= MAX_REQUEST then b == a
    else if !Stuck(a.room, p, SizeHeld(a.live, p), nb) then b == InPlace(a, k, nb)
    else exists p': Addr :: Chosen(a.room, nb, p') && b == Elsewhere(a, k, p', nb)
  }

  ghost function Returned(a: Shape, k: nat): Shape
    requires k < |a.held|
  {
    var p := ChunkOf(a.held[k]);
    Shape(Without(a.held, k), a.live - {p}, AfterRelease(a.room, p, SizeHeld(a.live, p)))
  }

  // The shape b after a request, and a before it.
  ghost predicate Reshaped(r: Request, a: Shape, b: Shape) {
    match r
    case Allocate(bytes) => NewShape(a, b, bytes)
    case AllocateAligned(wanted, bytes) =>
      if wanted <= 16 then NewShape(a, b, bytes) else AlignedShape(a, b, wanted, bytes)
    case Resize(k, bytes) => if k < |a.held| then ResizedShape(a, b, k, bytes) else b == a
    case Release(k) => b == if k < |a.held| then Returned(a, k) else a
    case ReleaseAll => b == Shape([], a.live - Blocks(a.held), Trimmed(AfterBulk(a.room, a.live, a.held)))
    case Write(k, from, text, noise) => b == a
  }

  // There is one outcome and no other.
  lemma OneOutcome(r: Request, a: Shape, b: Shape, c: Shape)
    requires Reshaped(r, a, b) && Reshaped(r, a, c)
    ensures b == c
  {
    hide Chosen, After, AfterRelease, AfterResize, SizeGot, SizeIn, Stuck, Request2Size, AfterBulk, Rounded, Grown,
         Elsewhere, AlignedShape;
    match r
    case Allocate(bytes) => OneNew(a, b, c, bytes);
    case AllocateAligned(wanted, bytes) =>
      if wanted <= 16 {
        OneNew(a, b, c, bytes);
      } else {
        OneAligned(a, b, c, wanted, bytes);
      }
    case Resize(k, bytes) => if k < |a.held| { OneResized(a, b, c, k, bytes); }
    case Release(k) =>
    case ReleaseAll =>
    case Write(k, from, text, noise) =>
  }

  lemma OneNew(a: Shape, b: Shape, c: Shape, bytes: nat)
    requires NewShape(a, b, bytes) && NewShape(a, c, bytes)
    ensures b == c
  {
    hide Chosen, Grown, Request2Size;
    if bytes < MAX_REQUEST {
      var nb := Request2Size(bytes);
      var p: Addr :| Chosen(a.room, nb, p) && b == Grown(a, p, nb);
      var p': Addr :| Chosen(a.room, nb, p') && c == Grown(a, p', nb);
      ChosenOnce(a.room, nb, p, p');
    }
  }

  lemma OneResized(a: Shape, b: Shape, c: Shape, k: nat, bytes: nat)
    requires k < |a.held| && ResizedShape(a, b, k, bytes) && ResizedShape(a, c, k, bytes)
    ensures b == c
  {
    hide Chosen, Elsewhere, InPlace, Stuck, Request2Size;
    var p, nb := ChunkOf(a.held[k]), Request2Size(bytes);
    if bytes < MAX_REQUEST && Stuck(a.room, p, SizeHeld(a.live, p), nb) {
      var x: Addr :| Chosen(a.room, nb, x) && b == Elsewhere(a, k, x, nb);
      var y: Addr :| Chosen(a.room, nb, y) && c == Elsewhere(a, k, y, nb);
      ChosenOnce(a.room, nb, x, y);
    }
  }

  lemma OneAligned(a: Shape, b: Shape, c: Shape, wanted: nat, bytes: nat)
    requires AlignedShape(a, b, wanted, bytes) && AlignedShape(a, c, wanted, bytes)
    ensures b == c
  {
    hide Chosen, Placing, Request2Size, Rounded;
    var nb, alignment := Request2Size(bytes), Rounded(wanted);
    var req := nb + alignment + 16;
    if req < MAX_REQUEST {
      var big := Request2Size(req);
      var p: Addr :| Chosen(a.room, big, p) && Placing(a, b, p, big, nb, alignment);
      var p': Addr :| Chosen(a.room, big, p') && Placing(a, c, p', big, nb, alignment);
      ChosenOnce(a.room, big, p, p');
      OnePlace(a, b, c, p, big, nb, alignment);
    }
  }

  lemma OnePlace(a: Shape, b: Shape, c: Shape, p: Addr, req: nat, nb: nat, alignment: nat)
    requires Placing(a, b, p, req, nb, alignment) && Placing(a, c, p, req, nb, alignment)
    ensures b == c
  {
    hide AfterPlacing, SizePlaced, After, SizeGot, IsSpot;
    if p != 0 {
      var q: Addr :| CutShape(a, b, p, req, nb, alignment, q);
      var q': Addr :| CutShape(a, c, p, req, nb, alignment, q');
      assert IsSpot(p, q, alignment) && IsSpot(p, q', alignment);
    }
  }

  // ------------------------------------------------ what the calls make of it

  lemma MakesNew(a: Shape, b: Shape, mem: Addr, bytes: nat)
    requires b.held == if mem == 0 then a.held else a.held + [mem]
    requires mem == 0 ==> b == a && (bytes < MAX_REQUEST ==> Chosen(a.room, Request2Size(bytes), 0))
    requires mem != 0 ==>
      && mem > 16 && bytes < MAX_REQUEST
      && mem - 16 in b.live && b.live == a.live[mem - 16 := b.live[mem - 16]]
      && Supplied(a.room, b.room, b.live, Request2Size(bytes), mem - 16)
    ensures NewShape(a, b, bytes)
  {
    hide Chosen, After, SizeGot, Request2Size;
    if mem != 0 {
      var p, nb := mem - 16, Request2Size(bytes);
      assert Chosen(a.room, nb, p);
      assert b == Grown(a, p, nb);
    } else if bytes < MAX_REQUEST {
      assert b == Grown(a, 0, Request2Size(bytes));
    }
  }

  lemma MakesAligned(a: Shape, b: Shape, mem: Addr, wanted: nat, bytes: nat)
    requires b.held == if mem == 0 then a.held else a.held + [mem]
    requires mem == 0 ==> b == a && NoAligned(a.room, wanted, bytes)
    requires mem != 0 ==>
      && mem >= 16 && !NoAligned(a.room, wanted, bytes)
      && AlignedBlock(a.live, b.live, mem - 16, Request2Size(bytes), Rounded(wanted))
      && AlignedFrom(a.room, b.room, b.live, Request2Size(Request2Size(bytes) + Rounded(wanted) + 16),
           Request2Size(bytes), Rounded(wanted), mem - 16)
    ensures AlignedShape(a, b, wanted, bytes)
  {
    hide Chosen, After, SizeGot, Request2Size, Rounded, FirstSpot, AfterPlacing, SizePlaced, Divides, Exhausted;
    var nb, alignment := Request2Size(bytes), Rounded(wanted);
    var req := nb + alignment + 16;
    SizeFits(req);
    var big := Request2Size(req);
    if mem != 0 {
      var p: Addr :| p != 0 && Chosen(a.room, big, p) && PlacedIn(a.room, b.room, b.live, p, big, nb, alignment,
        mem - 16);
      assert CutShape(a, b, p, big, nb, alignment, mem - 16);
      assert Placing(a, b, p, big, nb, alignment);
    } else if req < MAX_REQUEST {
      NoneChosen(a.room, big);
      assert Placing(a, b, 0, big, nb, alignment);
    }
  }

  lemma MakesResized(a: Shape, b: Shape, k: nat, mem: Addr, bytes: nat)
    requires k < |a.held| && a.held[k] >= 16 && a.held[k] - 16 in a.live
    requires b.held == if mem == 0 then a.held else a.held[k := mem]
    requires mem == 0 ==>
      && b == a
      && (bytes < MAX_REQUEST ==> Exhausted(a.room.of, a.room.dvsize, a.room.topsize, Request2Size(bytes)))
    requires bytes >= MAX_REQUEST ==> mem == 0
    requires mem != 0 ==>
      && mem > 16 && Reallocated(a.live, b.live, a.held[k] - 16, mem - 16, Request2Size(bytes))
      && RoomFollows(a.room, b.room, a.live, b.live, a.held[k], mem, Request2Size(bytes))
    requires bytes < MAX_REQUEST ==>
      (mem == a.held[k] <==> !Stuck(a.room, a.held[k] - 16, a.live[a.held[k] - 16], Request2Size(bytes)))
    ensures ResizedShape(a, b, k, bytes)
  {
    hide Chosen, After, AfterRelease, AfterResize, SizeGot, SizeIn, Stuck, Request2Size, Exhausted;
    var nb := Request2Size(bytes);
    SizeFits(bytes);
    var p, p' := ChunkOf(a.held[k]), ChunkOf(mem);
    if bytes >= MAX_REQUEST {
    } else if mem == 0 {
      NoneChosen(a.room, nb);
      assert b == Elsewhere(a, k, 0, nb);
    } else if mem == a.held[k] {
      assert b.live == a.live[p := b.live[p]];
    } else {
      MovedElsewhere(a, b, k, mem, nb);
    }
  }

  lemma MovedElsewhere(a: Shape, b: Shape, k: nat, mem: Addr, nb: nat)
    requires k < |a.held| && a.held[k] >= 16 && a.held[k] - 16 in a.live && mem != a.held[k] && mem > 16
    requires b.held == a.held[k := mem] && Reallocated(a.live, b.live, a.held[k] - 16, mem - 16, nb)
    requires RoomFollows(a.room, b.room, a.live, b.live, a.held[k], mem, nb)
    ensures Chosen(a.room, nb, mem - 16) && b == Elsewhere(a, k, mem - 16, nb)
  {
    hide Chosen, After, AfterRelease, AfterResize, SizeGot, SizeIn, Stuck;
  }

  // A run of the machine.
  ghost predicate IsRun(script: seq<Request>, run: seq<Shape>) {
    |run| == |script| + 1 && forall i :: 0 <= i < |script| ==> Reshaped(script[i], run[i], run[i + 1])
  }

  lemma RunMore(script: seq<Request>, n: nat, run: seq<Shape>, b: Shape)
    requires n < |script| && IsRun(script[..n], run) && Reshaped(script[n], run[n], b)
    ensures IsRun(script[..n + 1], run + [b])
  {
    hide Reshaped;
  }

  // Two runs of one script that start alike are the same all along: where a block
  // comes to lie depends on nothing but the requests.
  lemma {:induction false} SameRuns(script: seq<Request>, run: seq<Shape>, run': seq<Shape>, i: nat)
    requires IsRun(script, run) && IsRun(script, run') && run[0] == run'[0] && i <= |script|
    ensures run[i] == run'[i]
  {
    hide Reshaped;
    if i > 0 {
      SameRuns(script, run, run', i - 1);
      OneOutcome(script[i - 1], run[i - 1], run[i], run'[i]);
    }
  }
}
