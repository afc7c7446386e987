// What the heap is to its clients: blocks of bytes, which change only as the
// requests say.
module Clients {
  import opened Word
  import opened Bins
  import opened Tags
  import opened Cuts
  import opened Rings
  import opened Sizes
  import opened Mstate
  import opened Guards
  import opened Malloc
  import opened Free
  import opened Payloads
  import opened Cells
  import opened Realloc
  import opened Align
  import opened Memalign
  import opened Gaps

  // What a client can ask for; it names a block by its place among those held.
  // A write puts text into a block, from the byte `from` on, and may leave
  // anything at all in the words that the allocator would read there.
  datatype Request =
    | Allocate(bytes: nat)
    | AllocateAligned(alignment: nat, bytes: nat)
    | Resize(k: nat, bytes: nat)
    | Release(k: nat)
    | ReleaseAll
    | Write(k: nat, from: nat, text: seq<bv8>, noise: Columns)

  ghost predicate Sensible(r: Request) {
    match r
    case Allocate(bytes) => bytes < TWO64
    case AllocateAligned(alignment, bytes) => alignment <= TWO63 && bytes < TWO64
    case Resize(k, bytes) => bytes < TWO64
    case _ => true
  }

  // A block in the hands of a client: where it is, and all the bytes in it.
  datatype Block = Block(at: Addr, bytes: seq<bv8>)

  // A block serves a request for that many bytes, and is hardly larger.
  predicate Fits(b: Block, bytes: nat) {
    bytes <= |b.bytes| <= bytes + 48
  }

  // There is one block more.
  predicate Added(a: seq<Block>, b: seq<Block>, bytes: nat, alignment: nat) {
    && |b| == |a| + 1 && b[..|a|] == a
    && Fits(b[|a|], bytes) && Divides(alignment, b[|a|].at)
  }

  // Block k has become larger or smaller, here or elsewhere, and begins with
  // the bytes it had.
  predicate Regrown(a: seq<Block>, b: seq<Block>, k: nat, bytes: nat)
    requires k < |a|
  {
    && |b| == |a| && b == a[k := b[k]]
    && Fits(b[k], bytes)
    && var n := Min(|a[k].bytes|, bytes);
       b[k].bytes[..n] == a[k].bytes[..n]
  }

  // Where the chunks of blocks lie.
  ghost function Extents(a: seq<Block>): set<Extent> {
    set j | 0 <= j < |a| :: ExtentOf(a[j])
  }

  ghost function ExtentOf(b: Block): Extent {
    Extent(ChunkOf(b.at), b.at + |b.bytes|)
  }

  // Between lo and hi, the blocks leave no room for one of that many bytes.
  ghost predicate NoMalloc(a: seq<Block>, lo: Addr, hi: Addr, bytes: nat) {
    bytes >= MAX_REQUEST || Full(Extents(a), lo, hi, Request2Size(bytes))
  }

  ghost predicate NoMemalign(a: seq<Block>, lo: Addr, hi: Addr, alignment: nat, bytes: nat) {
    if alignment <= 16 then NoMalloc(a, lo, hi, bytes)
    else NoMalloc(a, lo, hi, Request2Size(bytes) + Rounded(alignment) + 16)
  }

  // Neither for a block elsewhere nor for this one to grow.
  ghost predicate NoRealloc(a: seq<Block>, lo: Addr, hi: Addr, k: nat, bytes: nat)
    requires k < |a|
  {
    && NoMalloc(a, lo, hi, bytes)
    && (bytes < MAX_REQUEST ==> BoxedIn(a, lo, hi, k, bytes))
  }

  ghost predicate BoxedIn(a: seq<Block>, lo: Addr, hi: Addr, k: nat, bytes: nat)
    requires k < |a|
  {
    Boxed(Extents(a), lo, hi, ExtentOf(a[k]), Request2Size(bytes))
  }

  predicate Stays(a: seq<Block>, b: seq<Block>, k: nat) {
    k < |a| && k < |b| && b[k].at == a[k].at
  }

  // The blocks b after a request, and a before it. A request for memory fails,
  // without a change, exactly when the blocks leave no room between lo and hi, and
  // a block that is resized moves exactly when its neighbours box it in.
  ghost predicate Follows(r: Request, a: seq<Block>, b: seq<Block>, lo: Addr, hi: Addr) {
    match r
    case Allocate(bytes) => if NoMalloc(a, lo, hi, bytes) then b == a else Added(a, b, bytes, 16)
    case AllocateAligned(alignment, bytes) =>
      if NoMemalign(a, lo, hi, alignment, bytes) then b == a else Added(a, b, bytes, Alignment(alignment))
    case Resize(k, bytes) =>
      if k >= |a| || NoRealloc(a, lo, hi, k, bytes) then b == a
      else Regrown(a, b, k, bytes) && (Stays(a, b, k) <==> !BoxedIn(a, lo, hi, k, bytes))
    case Release(k) => b == if k < |a| then a[..k] + a[k + 1..] else a
    case ReleaseAll => b == []
    case Write(k, from, text, noise) =>
      b == if k < |a| && from + |text| <= |a[k].bytes|
           then a[k := Block(a[k].at, Overwritten(a[k].bytes, from, text))] else a
  }

  // Blocks are aligned, lie between lo and hi, and do not overlap.
  ghost predicate Disjoint(a: seq<Block>, lo: Addr, hi: Addr) {
    && (forall j :: 0 <= j < |a| ==> a[j].at % 16 == 0 && lo < a[j].at && a[j].at + |a[j].bytes| <= hi)
    && (forall j, k :: 0 <= j < k < |a| ==> Clear(a[j], a[k]))
  }

  predicate Clear(x: Block, y: Block) {
    x.at + |x.bytes| <= y.at || y.at + |y.bytes| <= x.at
  }

  // A run: what clients hold at first, which is nothing, and after each request.
  ghost predicate IsTrace(script: seq<Request>, trace: seq<seq<Block>>, lo: Addr, hi: Addr) {
    && |trace| == |script| + 1 && trace[0] == []
    && (forall i :: 0 <= i < |script| ==> Follows(script[i], trace[i], trace[i + 1], lo, hi))
    && (forall i :: 0 <= i < |trace| ==> Disjoint(trace[i], lo, hi))
  }

  lemma TraceMore(script: seq<Request>, n: nat, trace: seq<seq<Block>>, lo: Addr, hi: Addr, b: seq<Block>)
    requires n < |script| && IsTrace(script[..n], trace, lo, hi)
    requires Follows(script[n], trace[n], b, lo, hi) && Disjoint(b, lo, hi)
    ensures IsTrace(script[..n + 1], trace + [b], lo, hi)
  {
    hide Follows, Disjoint;
  }

  // The request is about this block.
  predicate Names(r: Request, k: nat) {
    match r
    case Resize(j, bytes) => j == k
    case Release(j) => j == k
    case ReleaseAll => true
    case Write(j, from, text, noise) => j == k
    case _ => false
  }

  ghost predicate Leaves(r: Request, a: seq<Block>, x: Block) {
    exists k :: 0 <= k < |a| && a[k] == x && !Names(r, k)
  }

  lemma LeftAlone(r: Request, a: seq<Block>, b: seq<Block>, lo: Addr, hi: Addr, x: Block)
    requires Follows(r, a, b, lo, hi) && Leaves(r, a, x)
    ensures x in b
  {
    hide NoMalloc, NoMemalign, NoRealloc, Fits;
    var k :| 0 <= k < |a| && a[k] == x && !Names(r, k);
    match r
    case Allocate(bytes) => LeftByAdding(a, b, bytes, 16, k);
    case AllocateAligned(alignment, bytes) => LeftByAdding(a, b, bytes, Alignment(alignment), k);
    case Resize(j, bytes) => if b != a { assert b[k] == x; }
    case Release(j) => if j < |a| { assert b[if k < j then k else k - 1] == x; }
    case Write(j, from, text, noise) => assert b[k] == x;
    case ReleaseAll =>
  }

  lemma LeftByAdding(a: seq<Block>, b: seq<Block>, bytes: nat, alignment: nat, k: nat)
    requires b == a || Added(a, b, bytes, alignment)
    requires k < |a|
    ensures a[k] in b
  {
    hide Divides, Fits;
    if b != a { assert b[..|a|][k] == b[k]; }
  }

  // A client reads back what it put into a block, however long the run between,
  // as long as no request is about that block.
  lemma {:induction false} ReadsBack(script: seq<Request>, trace: seq<seq<Block>>, lo: Addr, hi: Addr, i: nat, j: nat,
                                     x: Block)
    requires IsTrace(script, trace, lo, hi) && i <= j <= |script| && x in trace[i]
    requires forall n :: i <= n < j && x in trace[n] ==> Leaves(script[n], trace[n], x)
    ensures x in trace[j]
    decreases j - i
  {
    hide Follows, Leaves, Disjoint;
    if i < j {
      LeftAlone(script[i], trace[i], trace[i + 1], lo, hi, x);
      ReadsBack(script, trace, lo, hi, i + 1, j, x);
    }
  }

  // ------------------------------------------- what the clients see of a heap

  function Content(live: map<Addr, nat>, data: seq<bv8>, mem: Addr): seq<bv8> {
    if mem >= 16 && mem - 16 in live then Payload(data, mem - 16, live[mem - 16]) else []
  }

  function View(live: map<Addr, nat>, data: seq<bv8>, held: seq<Addr>): (a: seq<Block>)
    ensures |a| == |held|
  {
    seq(|held|, j requires 0 <= j < |held| => Block(held[j], Content(live, data, held[j])))
  }

  // The pointers held are distinct and are exactly those of the chunks in use.
  ghost predicate Holds(live: map<Addr, nat>, held: seq<Addr>) {
    && NoDup(held)
    && (forall j :: 0 <= j < |held| ==> Live(live, held[j]))
    && (forall p :: p in live ==> Held(held, p))
  }

  ghost predicate Live(live: map<Addr, nat>, mem: Addr) {
    mem >= 16 && mem - 16 in live
  }

  ghost predicate Held(held: seq<Addr>, p: Addr) {
    p + 16 in held
  }

  lemma HeldAt(live: map<Addr, nat>, held: seq<Addr>, k: nat)
    requires Holds(live, held) && k < |held|
    ensures held[k] >= 16 && held[k] - 16 in live
  {
    hide Held;
    assert Live(live, held[k]);
  }

  lemma HeldTwice(live: map<Addr, nat>, held: seq<Addr>, j: nat, k: nat)
    requires Holds(live, held) && j < |held| && k < |held| && j != k
    ensures held[j] >= 16 && held[j] - 16 in live && held[j] != held[k]
  {
    hide Held;
    HeldAt(live, held, j);
  }

  lemma Pushed(held: seq<Addr>, p: Addr)
    ensures Held(held + [p + 16], p)
    ensures forall q :: Held(held, q) ==> Held(held + [p + 16], q)
  {
    assert (held + [p + 16])[|held|] == p + 16;
  }

  lemma HoldsMore(live: map<Addr, nat>, live': map<Addr, nat>, held: seq<Addr>, p: Addr)
    requires Holds(live, held) && p !in live && p in live' && live' == live[p := live'[p]]
    ensures Holds(live', held + [p + 16])
  {
    hide Held;
    Pushed(held, p);
    forall j | 0 <= j < |held|
      ensures Live(live', held[j]) && held[j] != p + 16
    {
      assert Live(live, held[j]);
    }
  }

  lemma HoldsLess(live: map<Addr, nat>, held: seq<Addr>, k: nat)
    requires Holds(live, held) && k < |held|
    ensures held[k] >= 16 && Holds(live - {held[k] - 16}, Without(held, k))
  {
    hide Held, Live;
    HeldAt(live, held, k);
    var d := Without(held, k);
    var live' := live - {held[k] - 16};
    forall j | 0 <= j < |d|
      ensures Live(live', d[j])
    {
      LiveStill(live, held, k, if j < k then j else j + 1);
    }
    forall q | q in live'
      ensures Held(d, q)
    {
      HeldStill(held, k, q);
    }
    WithoutNoDup(held, k);
  }

  lemma WithoutNoDup(held: seq<Addr>, k: nat)
    requires NoDup(held) && k < |held|
    ensures NoDup(Without(held, k))
  {
  }

  lemma LiveStill(live: map<Addr, nat>, held: seq<Addr>, k: nat, j: nat)
    requires Holds(live, held) && k < |held| && j < |held| && j != k && held[k] >= 16
    ensures Live(live - {held[k] - 16}, held[j])
  {
    hide Held;
    assert Live(live, held[j]);
  }

  lemma HeldStill(held: seq<Addr>, k: nat, q: Addr)
    requires k < |held| && Held(held, q) && held[k] != q + 16
    ensures Held(Without(held, k), q)
  {
    WithoutHas(held, k, q + 16);
  }

  // The block at place k has moved, or stayed, and changed its size.
  lemma HoldsOther(live: map<Addr, nat>, live': map<Addr, nat>, held: seq<Addr>, k: nat, p: Addr, nb: nat)
    requires Holds(live, held) && k < |held| && held[k] >= 16 && Reallocated(live, live', held[k] - 16, p, nb)
    ensures Holds(live', held[k := p + 16])
  {
    hide Held, Live, NoDup;
    var d := held[k := p + 16];
    NoDupOther(live, held, k, p);
    forall j | 0 <= j < |d|
      ensures Live(live', d[j])
    {
      LiveOther(live, live', held, k, p, nb, j);
    }
    forall q | q in live'
      ensures Held(d, q)
    {
      HeldOther(held, k, p, q);
    }
  }

  lemma NoDupOther(live: map<Addr, nat>, held: seq<Addr>, k: nat, p: Addr)
    requires Holds(live, held) && k < |held| && (p !in live || p + 16 == held[k])
    ensures NoDup(held[k := p + 16])
  {
    hide Held;
    forall j | 0 <= j < |held| && j != k
      ensures held[j] != p + 16
    {
      assert Live(live, held[j]);
    }
  }

  lemma LiveOther(live: map<Addr, nat>, live': map<Addr, nat>, held: seq<Addr>, k: nat, p: Addr, nb: nat, j: nat)
    requires Holds(live, held) && k < |held| && held[k] >= 16 && Reallocated(live, live', held[k] - 16, p, nb)
      && j < |held|
    ensures Live(live', held[k := p + 16][j])
  {
    hide Held;
    if j != k { LiveStill(live, held, k, j); }
  }

  lemma HeldOther(held: seq<Addr>, k: nat, p: Addr, q: Addr)
    requires k < |held| && (q == p || (Held(held, q) && held[k] != q + 16))
    ensures Held(held[k := p + 16], q)
  {
    if q == p {
      assert held[k := p + 16][k] == q + 16;
    } else {
      var j :| 0 <= j < |held| && held[j] == q + 16;
      assert held[k := p + 16][j] == q + 16;
    }
  }

  // A chunk that keeps its size and its bytes.
  lemma SameContent(live: map<Addr, nat>, data: seq<bv8>, live': map<Addr, nat>, data': seq<bv8>, mem: Addr)
    requires mem >= 16 && mem - 16 in live && mem - 16 in live' && live'[mem - 16] == live[mem - 16]
    requires Payload(data', mem - 16, live[mem - 16]) == Payload(data, mem - 16, live[mem - 16])
    ensures Content(live', data', mem) == Content(live, data, mem)
  {
  }

  lemma ContentIs(live: map<Addr, nat>, data: seq<bv8>, p: Addr)
    requires p in live && CHUNK_OVERHEAD <= live[p] && p + live[p] <= |data|
    ensures Content(live, data, p + 16) == data[p + 16..p + live[p]]
  {
  }

  lemma SameView(live: map<Addr, nat>, data: seq<bv8>, data': seq<bv8>, held: seq<Addr>)
    requires Holds(live, held) && Untouched(live, data, data')
    ensures View(live, data', held) == View(live, data, held)
  {
    hide Holds, Payload, Content;
    forall j | 0 <= j < |held|
      ensures Content(live, data', held[j]) == Content(live, data, held[j])
    {
      HeldAt(live, held, j);
      SameContent(live, data, live, data', held[j]);
    }
  }

  lemma ViewAdded(live: map<Addr, nat>, live': map<Addr, nat>, data: seq<bv8>, held: seq<Addr>, p: Addr, bytes: nat,
                  alignment: nat)
    requires Holds(live, held) && p !in live && p in live' && live' == live[p := live'[p]]
    requires bytes + 16 <= live'[p] <= bytes + 64 && p + live'[p] <= |data| && Divides(alignment, p + 16)
    ensures Added(View(live, data, held), View(live', data, held + [p + 16]), bytes, alignment)
  {
    hide Payload, Divides, Holds, Content;
    var a, b := View(live, data, held), View(live', data, held + [p + 16]);
    forall j | 0 <= j < |held|
      ensures b[j] == a[j]
    {
      HeldAt(live, held, j);
      SameContent(live, data, live', data, held[j]);
    }
    ContentIs(live', data, p);
  }

  lemma ViewRegrown(live: map<Addr, nat>, live': map<Addr, nat>, data: seq<bv8>, data': seq<bv8>, held: seq<Addr>,
                    k: nat, p: Addr, bytes: nat)
    requires Holds(live, held) && k < |held| && held[k] >= 16
    requires Reallocated(live, live', held[k] - 16, p, Request2Size(bytes))
      && Preserved(live, data, data', held[k] - 16, p, bytes)
    requires p + live'[p] <= |data'|
    ensures Regrown(View(live, data, held), View(live', data', held[k := p + 16]), k, bytes)
  {
    hide Payload, Holds, Content, Request2Size, Reallocated;
    var a, b := View(live, data, held), View(live', data', held[k := p + 16]);
    SizeFits(bytes);
    RegrownFits(live, live', data', held[k] - 16, p, bytes);
    ContentIs(live, data, held[k] - 16);
    forall j | 0 <= j < |held| && j != k
      ensures b[j] == a[j]
    {
      HeldTwice(live, held, j, k);
      NotResized(live, live', held[k] - 16, p, Request2Size(bytes), held[j] - 16);
      SameContent(live, data, live', data', held[j]);
    }
    SamePrefix(live, data, data', held[k] - 16, p, bytes, live'[p]);
  }

  lemma NotResized(live: map<Addr, nat>, live': map<Addr, nat>, p: Addr, p': Addr, nb: nat, q: Addr)
    requires Reallocated(live, live', p, p', nb) && q in live && q != p
    ensures q in live' && live'[q] == live[q]
  {
  }

  lemma RegrownFits(live: map<Addr, nat>, live': map<Addr, nat>, data': seq<bv8>, p: Addr, p': Addr, bytes: nat)
    requires Reallocated(live, live', p, p', Request2Size(bytes)) && p' + live'[p'] <= |data'|
    ensures p' in live' && bytes + 16 <= live'[p'] <= bytes + 64
    ensures Content(live', data', p' + 16) == data'[p' + 16..p' + live'[p']]
  {
    SizeFits(bytes);
  }

  lemma SamePrefix(live: map<Addr, nat>, data: seq<bv8>, data': seq<bv8>, p: Addr, p': Addr, bytes: nat, s: nat)
    requires Preserved(live, data, data', p, p', bytes) && bytes + 16 <= s && p' + s <= |data'|
    ensures CHUNK_OVERHEAD <= live[p] && p + live[p] <= |data| == |data'|
    ensures var n := Min(live[p] - 16, bytes); data'[p' + 16..p' + s][..n] == data[p + 16..p + live[p]][..n]
  {
    hide Payload, OnlyWithin;
    var n := Min(live[p] - 16, bytes);
    assert data'[p' + 16..p' + s][..n] == data'[p' + 16..p' + 16 + n];
    assert data[p + 16..p + live[p]][..n] == data[p + 16..p + 16 + n];
  }

  lemma ViewLess(live: map<Addr, nat>, data: seq<bv8>, held: seq<Addr>, k: nat)
    requires Holds(live, held) && k < |held| && held[k] >= 16
    ensures var a := View(live, data, held);
      View(live - {held[k] - 16}, data, Without(held, k)) == a[..k] + a[k + 1..]
  {
    hide Payload, Holds, Content;
    var a, b := View(live, data, held), View(live - {held[k] - 16}, data, Without(held, k));
    forall j | 0 <= j < |held| && j != k
      ensures Content(live - {held[k] - 16}, data, held[j]) == Content(live, data, held[j])
    {
      HeldTwice(live, held, j, k);
      SameContent(live, data, live - {held[k] - 16}, data, held[j]);
    }
    assert b == a[..k] + a[k + 1..];
  }

  lemma ViewWritten(live: map<Addr, nat>, data: seq<bv8>, held: seq<Addr>, k: nat, from: nat, text: seq<bv8>)
    requires Holds(live, held) && k < |held| && held[k] >= 16 && held[k] - 16 in live
    requires var p := held[k] - 16;
      && CHUNK_OVERHEAD <= live[p] && p + live[p] <= |data| && 16 + from + |text| <= live[p]
      && Untouched(live - {p}, data, Overwritten(data, held[k] + from, text))
    ensures var a, data' := View(live, data, held), Overwritten(data, held[k] + from, text);
      && from + |text| <= |a[k].bytes|
      && View(live, data', held) == a[k := Block(a[k].at, Overwritten(a[k].bytes, from, text))]
  {
    hide Payload, Holds, Content;
    var p, data' := held[k] - 16, Overwritten(data, held[k] + from, text);
    var a, b := View(live, data, held), View(live, data', held);
    ContentIs(live, data, p);
    ContentIs(live, data', p);
    forall j | 0 <= j < |held| && j != k
      ensures b[j] == a[j]
    {
      HeldTwice(live, held, j, k);
      assert held[j] - 16 in live - {p};
      SameContent(live, data, live, data', held[j]);
    }
    WithinBlock(data, p + 16, p + live[p], from, text);
  }

  // The blocks of a sound heap do not overlap.
  lemma ViewDisjoint(M: Mstate, held: seq<Addr>)
    requires M.Inv() && |M.data| == M.end && Holds(M.Live(), held)
    ensures Disjoint(View(M.Live(), M.data, held), AreaStart(M), AreaEnd(M))
  {
    hide Mstate.Sound, Payload, Holds, Content, Clear;
    var a := View(M.Live(), M.data, held);
    forall j | 0 <= j < |a|
      ensures a[j].at % 16 == 0 && AreaStart(M) < a[j].at && a[j].at + |a[j].bytes| <= AreaEnd(M)
    {
      HeldAt(M.Live(), held, j);
      assert a[j] == Block(held[j], Content(M.Live(), M.data, held[j]));
      BlockInside(M, held[j]);
    }
    forall j, k | 0 <= j < k < |a|
      ensures Clear(a[j], a[k])
    {
      HeldTwice(M.Live(), held, j, k);
      HeldTwice(M.Live(), held, k, j);
      BlocksClear(M, held[j], held[k]);
    }
  }

  lemma BlockInside(M: Mstate, mem: Addr)
    requires M.Inv() && |M.data| == M.end && mem >= 16 && mem - 16 in M.Live()
    ensures Content(M.Live(), M.data, mem) == M.data[mem..mem - 16 + M.Live()[mem - 16]]
    ensures mem % 16 == 0 && AreaStart(M) < mem && mem - 16 + M.Live()[mem - 16] <= AreaEnd(M)
      && M.Live()[mem - 16] >= 32
    ensures mem + |Content(M.Live(), M.data, mem)| == mem - 16 + M.Live()[mem - 16]
  {
    hide BinInv, TagInv, Mstate.Sound, Agree, Used, TagsGuarded, LinksGuarded, Payload, Content;
    SizeIs(M, mem - 16);
    Above(M, mem - 16);
    ContentIs(M.Live(), M.data, mem - 16);
  }

  lemma Above(M: Mstate, p: Addr)
    requires M.Inv() && p in M.Live()
    ensures p % 16 == 0 && AreaStart(M) <= p && p + M.Live()[p] <= AreaEnd(M)
  {
    hide BinInv, TagInv, ChunkOk, Used, Agree, Mstate.Sound, TagsGuarded, LinksGuarded;
    AreaIs(M);
    AlignedAt(M, p);
    UsedIs(M.G(), p);
    ExtentFrom(M.G(), p);
    ExtentIs(M.G(), Extent(p, M.G().Next(p)));
    BehindLow(M.G(), p);
  }

  lemma BehindLow(g: Tags, p: Addr)
    requires TagInv(g) && p in Used(g)
    ensures Start(g) <= p
  {
    hide TagInv, Used;
    TagBounds(g);
    UsedIs(g, p);
    LowFirst(g, p);
    TwoApart(g, g.lo, p);
  }

  // The chunks of the blocks held are the chunks in use.
  lemma ExtentsAre(M: Mstate, held: seq<Addr>)
    requires M.Inv() && |M.data| == M.end && Holds(M.Live(), held)
    ensures Extents(View(M.Live(), M.data, held)) == ExtentsOf(M.Live())
  {
    hide BinInv, TagInv, Used, Mstate.Sound, Payload, Content, Agree, TagsGuarded, LinksGuarded, Held;
    var a := View(M.Live(), M.data, held);
    forall j | 0 <= j < |a|
      ensures HasExtent(M.Live(), a[j], held[j])
    {
      HeldAt(M.Live(), held, j);
      BlockInside(M, held[j]);
    }
    SameExtents(M.Live(), a, held);
  }

  ghost predicate HasExtent(live: map<Addr, nat>, b: Block, mem: Addr) {
    mem >= 16 && mem - 16 in live && ExtentOf(b) == Extent(mem - 16, mem - 16 + live[mem - 16])
  }

  lemma SameExtents(live: map<Addr, nat>, a: seq<Block>, held: seq<Addr>)
    requires |a| == |held| && forall j :: 0 <= j < |a| ==> HasExtent(live, a[j], held[j])
    requires forall p :: p in live ==> Held(held, p)
    ensures Extents(a) == ExtentsOf(live)
  {
    hide HasExtent, ExtentOf, Held;
    forall e | e in Extents(a)
      ensures e in ExtentsOf(live)
    {
      var j :| 0 <= j < |a| && e == ExtentOf(a[j]);
      OneExtent(live, a[j], held[j]);
    }
    forall e | e in ExtentsOf(live)
      ensures e in Extents(a)
    {
      var p :| p in live && e == Extent(p, p + live[p]);
      var j := PlaceOf(held, p);
      OneExtent(live, a[j], held[j]);
    }
  }

  lemma OneExtent(live: map<Addr, nat>, b: Block, mem: Addr)
    requires HasExtent(live, b, mem)
    ensures mem >= 16 && mem - 16 in live && ExtentOf(b) == Extent(mem - 16, mem - 16 + live[mem - 16])
  {
  }

  lemma PlaceOf(held: seq<Addr>, p: Addr) returns (j: nat)
    requires Held(held, p)
    ensures j < |held| && held[j] == p + 16
  {
    j :| 0 <= j < |held| && held[j] == p + 16;
  }

  lemma BlocksClear(M: Mstate, m: Addr, n: Addr)
    requires M.Inv() && |M.data| == M.end && m >= 16 && n >= 16 && m != n
    requires m - 16 in M.Live() && n - 16 in M.Live()
    ensures Clear(Block(m, Content(M.Live(), M.data, m)), Block(n, Content(M.Live(), M.data, n)))
  {
    hide BinInv, TagInv, Mstate.Sound, Agree, Used, TagsGuarded, LinksGuarded, Payload, Content;
    LiveApart(M, m - 16, n - 16);
    BlockInside(M, m);
    BlockInside(M, n);
  }
}
