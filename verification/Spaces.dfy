// Whole runs of a memory space: what its clients see of mem_alloc, mem_free and
// mem_realloc.
module Spaces {
  import opened Word
  import opened Bins
  import opened Rings
  import opened Tags
  import opened Cuts
  import opened Sizes
  import opened Mstate
  import opened Guards
  import opened Malloc
  import opened Rooms
  import opened Free
  import opened Payloads
  import opened Cells
  import opened Realloc
  import opened Watch
  import opened Align
  import opened Gaps
  import opened Clients
  import opened Memspace

  // What a client can ask for; it names a block by its place among those held.
  datatype Call =
    | Alloc(size: nat)
    | Change(k: nat, size: nat)
    | Release(k: nat)
    | Fill(k: nat, from: nat, text: seq<bv8>, noise: Columns)

  // Sizes are 64-bit numbers.
  ghost predicate InRange(r: Call) {
    match r
    case Alloc(size) => size < TWO64
    case Change(k, size) => size < TWO64
    case _ => true
  }

  // What there is of a space at some moment: the blocks in the hands of clients,
  // the sizes of the chunks they lie in, and the counter.
  datatype Space = Space(blocks: seq<Block>, spans: seq<nat>, free: nat)

  // Where these chunks lie.
  ghost function Places(blocks: seq<Block>, spans: seq<nat>): set<Extent> {
    set j | 0 <= j < |blocks| && j < |spans| :: ChunkPlace(blocks[j].at, spans[j])
  }

  function ChunkPlace(mem: Addr, span: nat): Extent {
    var p := if mem >= HEADER + 16 then mem - HEADER - 16 else 0;
    Extent(p, p + span)
  }

  // Neither the counter nor what the blocks leave between lo and hi has room for a
  // block of that size and its header, whose size is computed in 64 bits.
  ghost predicate NoSpace(a: Space, lo: Addr, hi: Addr, size: nat) {
    var xsz := (size + HEADER) % TWO64;
    a.free < xsz || xsz >= MAX_REQUEST || Full(Places(a.blocks, a.spans), lo, hi, Request2Size(xsz))
  }

  // There is memory, but for a size that has wrapped around.
  ghost predicate Short(r: Call, a: Space, lo: Addr, hi: Addr) {
    match r
    case Alloc(size) => size + HEADER >= TWO64 && !NoSpace(a, lo, hi, size)
    case Change(k, size) => k < |a.blocks| && size != 0 && size + HEADER >= TWO64 && !NoSpace(a, lo, hi, size)
    case _ => false
  }

  function Cost(b: Block): nat {
    |b.bytes| + HEADER
  }

  // A new block, cleared.
  ghost predicate Blank(b: Block, size: nat) {
    |b.bytes| == size && b.at % 16 == 0 && forall i :: 0 <= i < size ==> b.bytes[i] == 0
  }

  // The block x after a change to size bytes, and a before it: the bytes that fit
  // are kept, and the new block ends in zeros. In between lie as many bytes as a
  // header takes.
  ghost predicate Changed(a: Block, x: Block, size: nat) {
    && |x.bytes| == size && x.at % 16 == 0
    && var n := KeptBytes(Cost(a), size);
       && n <= |a.bytes| && n <= size && x.bytes[..n] == a.bytes[..n]
       && forall i :: Min(Cost(a) % TWO32, size) <= i < size ==> x.bytes[i] == 0
  }

  // The chunk for a block of that size.
  predicate Spans(span: nat, size: nat) {
    var nb := Request2Size(size + HEADER);
    nb <= span < nb + 32
  }

  ghost predicate Dropped(a: Space, b: Space, k: nat) {
    && k < |a.blocks| == |a.spans|
    && b.blocks == a.blocks[..k] + a.blocks[k + 1..] && b.spans == a.spans[..k] + a.spans[k + 1..]
    && b.free == a.free + Cost(a.blocks[k]) % TWO32
  }

  ghost predicate Handed(a: Space, b: Space, size: nat) {
    && |b.blocks| == |a.blocks| + 1 && b.blocks[..|a.blocks|] == a.blocks
    && |b.spans| == |b.blocks| && b.spans[..|a.blocks|] == a.spans
    && Blank(b.blocks[|a.blocks|], size) && Spans(b.spans[|a.blocks|], size)
    && b.free + size + HEADER == a.free
  }

  ghost predicate Swapped(a: Space, b: Space, k: nat, size: nat) {
    && k < |a.blocks| == |b.blocks| && b.blocks == a.blocks[k := b.blocks[k]]
    && |a.spans| == |b.spans| == |a.blocks| && b.spans == a.spans[k := b.spans[k]]
    && Changed(a.blocks[k], b.blocks[k], size) && Spans(b.spans[k], size) && b.blocks[k].at != a.blocks[k].at
    && b.free + size + HEADER == a.free + Cost(a.blocks[k]) % TWO32
  }

  // The space b after a call, and a before it.
  ghost predicate Obeys(r: Call, a: Space, b: Space, lo: Addr, hi: Addr) {
    match r
    case Alloc(size) =>
      if NoSpace(a, lo, hi, size) then b == a else size + HEADER < TWO64 && Handed(a, b, size)
    case Change(k, size) =>
      if k >= |a.blocks| then b == a
      else if size == 0 then Dropped(a, b, k)
      else if NoSpace(a, lo, hi, size) then b == a
      else size + HEADER < TWO64 && Swapped(a, b, k, size)
    case Release(k) => if k >= |a.blocks| then b == a else Dropped(a, b, k)
    case Fill(k, from, text, noise) =>
      b == a.(blocks := if k < |a.blocks| && from + |text| <= |a.blocks[k].bytes|
                        then a.blocks[k := Block(a.blocks[k].at, Overwritten(a.blocks[k].bytes, from, text))]
                        else a.blocks)
  }

  // No block overlaps another one or its header.
  ghost predicate WellApart(a: seq<Block>) {
    forall j, k :: 0 <= j < k < |a| ==> Spaced(a[j], a[k])
  }

  predicate Spaced(x: Block, y: Block) {
    x.at + |x.bytes| + HEADER <= y.at || y.at + |y.bytes| + HEADER <= x.at
  }

  ghost predicate IsRun(script: seq<Call>, trace: seq<Space>, rsz: nat, lo: Addr, hi: Addr) {
    && |trace| == |script| + 1 && trace[0].blocks == [] && trace[0].free == rsz
    && (forall i :: 0 <= i < |script| ==> Obeys(script[i], trace[i], trace[i + 1], lo, hi))
    && (forall i :: 0 <= i < |trace| ==> WellApart(trace[i].blocks))
  }

  lemma RunMore(script: seq<Call>, n: nat, trace: seq<Space>, rsz: nat, lo: Addr, hi: Addr, b: Space)
    requires n < |script| && IsRun(script[..n], trace, rsz, lo, hi) && Obeys(script[n], trace[n], b, lo, hi)
      && WellApart(b.blocks)
    ensures IsRun(script[..n + 1], trace + [b], rsz, lo, hi)
  {
    hide Obeys, WellApart;
  }

  // -------------------------------------------------------- the counter adds up

  function Total(blocks: seq<Block>): nat {
    if blocks == [] then 0 else Total(blocks[..|blocks| - 1]) + Cost(blocks[|blocks| - 1])
  }

  lemma TotalPush(a: seq<Block>, x: Block)
    ensures Total(a + [x]) == Total(a) + Cost(x)
  {
    assert (a + [x])[..|a|] == a;
  }

  lemma {:induction false} TotalTake(a: seq<Block>, k: nat)
    requires k < |a|
    ensures Total(a[..k] + a[k + 1..]) == Total(a) - Cost(a[k])
  {
    var o, l := a[..|a| - 1], a[|a| - 1];
    if k == |a| - 1 {
      assert a[..k] + a[k + 1..] == o;
    } else {
      TotalTake(o, k);
      assert a[..k] + a[k + 1..] == (o[..k] + o[k + 1..]) + [l];
      TotalPush(o[..k] + o[k + 1..], l);
    }
  }

  lemma {:induction false} TotalSet(a: seq<Block>, k: nat, x: Block)
    requires k < |a|
    ensures Total(a[k := x]) == Total(a) - Cost(a[k]) + Cost(x)
  {
    var o, l := a[..|a| - 1], a[|a| - 1];
    if k == |a| - 1 {
      assert a[k := x] == o + [x];
      TotalPush(o, x);
    } else {
      TotalSet(o, k, x);
      assert a[k := x] == o[k := x] + [l];
      TotalPush(o[k := x], l);
    }
  }

  lemma {:induction false} CostWithin(a: seq<Block>, k: nat)
    requires k < |a|
    ensures Cost(a[k]) <= Total(a)
  {
    if k < |a| - 1 { CostWithin(a[..|a| - 1], k); }
  }

  lemma StepAddsUp(r: Call, a: Space, b: Space, lo: Addr, hi: Addr, rsz: nat)
    requires Obeys(r, a, b, lo, hi) && a.free + Total(a.blocks) == rsz < TWO32
    ensures b.free + Total(b.blocks) == rsz
  {
    hide NoSpace, Handed, Swapped, Dropped, Total, Cost;
    match r
    case Alloc(size) =>
      if b != a { PushAddsUp(a, b, size); }
    case Change(k, size) =>
      if k < |a.blocks| && size == 0 {
        DropAddsUp(a, b, k, rsz);
      } else if k < |a.blocks| && b != a {
        SetAddsUp(a, b, k, size, rsz);
      }
    case Release(k) =>
      if k < |a.blocks| { DropAddsUp(a, b, k, rsz); }
    case Fill(k, from, text, noise) =>
      if k < |a.blocks| { FillAddsUp(a, b, lo, hi, k, from, text); }
  }

  lemma PushAddsUp(a: Space, b: Space, size: nat)
    requires Handed(a, b, size)
    ensures b.free + Total(b.blocks) == a.free + Total(a.blocks)
  {
    hide Total;
    assert b.blocks == a.blocks + [b.blocks[|a.blocks|]];
    TotalPush(a.blocks, b.blocks[|a.blocks|]);
  }

  lemma DropAddsUp(a: Space, b: Space, k: nat, rsz: nat)
    requires Dropped(a, b, k) && a.free + Total(a.blocks) == rsz < TWO32
    ensures b.free + Total(b.blocks) == rsz
  {
    hide Cost, Total;
    CostWithin(a.blocks, k);
    TotalTake(a.blocks, k);
    Uncut(Cost(a.blocks[k]));
  }

  lemma SetAddsUp(a: Space, b: Space, k: nat, size: nat, rsz: nat)
    requires Swapped(a, b, k, size) && a.free + Total(a.blocks) == rsz < TWO32
    ensures b.free + Total(b.blocks) == rsz
  {
    hide Cost, Total, Changed;
    ChangedCost(a.blocks[k], b.blocks[k], size);
    CostWithin(a.blocks, k);
    TotalSet(a.blocks, k, b.blocks[k]);
    Uncut(Cost(a.blocks[k]));
  }

  lemma FillAddsUp(a: Space, b: Space, lo: Addr, hi: Addr, k: nat, from: nat, text: seq<bv8>)
    requires k < |a.blocks| && Obeys(Fill(k, from, text, Columns([], [], [], [], [], [], [], [])), a, b, lo, hi)
    ensures b.free + Total(b.blocks) == a.free + Total(a.blocks)
  {
    TotalSet(a.blocks, k, b.blocks[k]);
    assert a.blocks[k := a.blocks[k]] == a.blocks;
  }

  lemma Uncut(x: nat)
    requires x < TWO32
    ensures x % TWO32 == x
  {
  }

  lemma ChangedCost(a: Block, x: Block, size: nat)
    requires Changed(a, x, size)
    ensures Cost(x) == size + HEADER
  {
  }

  // In a space of less than 2^32 bytes the counter and the blocks held make up the
  // whole space, at every moment of every run.
  lemma {:induction false} AddsUp(script: seq<Call>, trace: seq<Space>, rsz: nat, lo: Addr, hi: Addr, i: nat)
    requires IsRun(script, trace, rsz, lo, hi) && rsz < TWO32 && i <= |script|
    ensures trace[i].free + Total(trace[i].blocks) == rsz
  {
    hide Obeys;
    if i > 0 {
      AddsUp(script, trace, rsz, lo, hi, i - 1);
      StepAddsUp(script[i - 1], trace[i - 1], trace[i], lo, hi, rsz);
    }
  }

  // --------------------------------------------- what the clients see of a space

  // The blocks as chunks that begin 48 bytes behind the headers: what is behind
  // the first 16 bytes of them is in the hands of clients.
  ghost function Lent(order: seq<Addr>, charged: map<Addr, nat>): map<Addr, nat> {
    map p | p in Starts(order) :: LentAt(charged, p)
  }

  ghost function Starts(order: seq<Addr>): set<Addr> {
    set h | h in order :: h + 48
  }

  ghost function LentAt(charged: map<Addr, nat>, p: Addr): nat {
    if p >= 48 && Charge(charged, p - 48) >= HEADER then Charge(charged, p - 48) - 48 else 16
  }

  lemma LentIs(order: seq<Addr>, charged: map<Addr, nat>, h: Addr)
    ensures h in order <==> h + 48 in Lent(order, charged)
    ensures h in order && Charge(charged, h) >= HEADER ==> Lent(order, charged)[h + 48] == Charge(charged, h) - 48
  {
  }

  lemma LentOf(order: seq<Addr>, charged: map<Addr, nat>, p: Addr)
    requires p in Lent(order, charged)
    ensures p >= 48 && p - 48 in order && Lent(order, charged)[p] == LentAt(charged, p)
  {
  }

  // The block at h lies in the chunk before it.
  ghost predicate InChunk(a: Books, h: Addr) {
    && h >= 16 && h - 16 in a.live && (h - 16) % 16 == 0
    && HEADER <= Charge(a.charged, h) && Charge(a.charged, h) + 16 <= a.live[h - 16]
    && h - 16 + a.live[h - 16] <= |a.data|
  }

  ghost predicate InChunks(a: Books) {
    && NoDup(a.order)
    && (forall h :: h in a.order ==> InChunk(a, h))
    && (forall p :: p in a.live ==> Listed(a, p))
  }

  ghost predicate Listed(a: Books, p: Addr) {
    p + 16 in a.order
  }

  lemma SpaceInChunks(W: Memspace)
    requires W.Valid()
    ensures InChunks(W.View())
  {
    hide BinInv, TagInv, Agree, Used, ChunkOk, Chain, AllBlocks, Mstate.Sound, IndexOf, NoDup, TagsGuarded,
         LinksGuarded;
    forall h | h in W.order
      ensures InChunk(W.View(), h)
    {
      var k := BlockAt(W, h);
      SizeIs(W.spc, h - 16);
      Above(W.spc, h - 16);
    }
    NoneTwice(W);
  }

  lemma NoneTwice(W: Memspace)
    requires W.Valid()
    ensures NoDup(W.order) && forall p :: p in W.spc.Live() ==> Listed(W.View(), p)
  {
    hide BinInv, TagInv, Agree, Used, ChunkOk, Chain, Mstate.Sound, NoDup, TagsGuarded, LinksGuarded;
  }

  lemma BlocksUntouched(a: Books, live: map<Addr, nat>, data: seq<bv8>)
    requires InChunks(a) && |data| == |a.data| && Untouched(live, a.data, data)
    requires forall p :: p in live ==> p in a.live && live[p] == a.live[p]
    ensures forall h :: h in a.order && h - 16 in live ==>
      Payload(data, h + 48, LentAt(a.charged, h + 48)) == Payload(a.data, h + 48, LentAt(a.charged, h + 48))
  {
    hide Untouched;
    forall h | h in a.order && h - 16 in live
      ensures Payload(data, h + 48, LentAt(a.charged, h + 48)) == Payload(a.data, h + 48, LentAt(a.charged, h + 48))
    {
      assert InChunk(a, h);
      BytesKept(live, a.data, data, h - 16, h + HEADER, Charge(a.charged, h) - HEADER);
    }
  }

  lemma LentUntouched(a: Books, data: seq<bv8>)
    requires InChunks(a) && |data| == |a.data| && Untouched(a.live, a.data, data)
    ensures Untouched(Lent(a.order, a.charged), a.data, data)
  {
    hide InChunks, Payload, LentAt;
    BlocksUntouched(a, a.live, data);
    forall p | p in Lent(a.order, a.charged)
      ensures Payload(data, p, Lent(a.order, a.charged)[p]) == Payload(a.data, p, Lent(a.order, a.charged)[p])
    {
      LentOf(a.order, a.charged, p);
      ChunkThere(a, p - 48);
    }
  }

  lemma ChunkThere(a: Books, h: Addr)
    requires InChunks(a) && h in a.order
    ensures h >= 16 && h - 16 in a.live && InChunk(a, h)
  {
  }

  ghost predicate Holding(W: Memspace, held: seq<Addr>)
    reads W, W.spc
  {
    W.Valid() && Holds(Lent(W.order, W.charged), held)
  }

  ghost function SpaceOf(a: Books, held: seq<Addr>): Space {
    Space(View(Lent(a.order, a.charged), a.data, held), SpansOf(a.live, held), a.free)
  }

  ghost function SpansOf(live: map<Addr, nat>, held: seq<Addr>): (s: seq<nat>)
    ensures |s| == |held|
  {
    seq(|held|, j requires 0 <= j < |held| => SpanAt(live, held[j]))
  }

  ghost function SpanAt(live: map<Addr, nat>, mem: Addr): nat {
    if mem >= HEADER + 16 && mem - HEADER - 16 in live then live[mem - HEADER - 16] else 0
  }

  // The chunks of the blocks held are the chunks in use.
  lemma PlacesAre(a: Books, held: seq<Addr>)
    requires InChunks(a) && Holds(Lent(a.order, a.charged), held)
    ensures var x := SpaceOf(a, held); Places(x.blocks, x.spans) == ExtentsOf(a.live)
  {
    hide InChunks, Holds, View, Lent, Content, ChunkPlace;
    var x := SpaceOf(a, held);
    forall j | 0 <= j < |held|
      ensures OnePlace(a, held, j)
    {
      PlaceAt(a, held, j);
    }
    forall e | e in Places(x.blocks, x.spans)
      ensures e in ExtentsOf(a.live)
    {
      var j :| 0 <= j < |x.blocks| && j < |x.spans| && e == ChunkPlace(x.blocks[j].at, x.spans[j]);
      assert OnePlace(a, held, j);
    }
    forall e | e in ExtentsOf(a.live)
      ensures e in Places(x.blocks, x.spans)
    {
      var p :| p in a.live && e == Extent(p, p + a.live[p]);
      var j := PlaceHeld(a, held, p);
      assert OnePlace(a, held, j);
    }
  }

  ghost predicate OnePlace(a: Books, held: seq<Addr>, j: nat)
    requires j < |held|
  {
    && held[j] >= HEADER + 16 && held[j] - HEADER - 16 in a.live
    && var p := held[j] - HEADER - 16;
       ChunkPlace(SpaceOf(a, held).blocks[j].at, SpaceOf(a, held).spans[j]) == Extent(p, p + a.live[p])
  }

  lemma PlaceAt(a: Books, held: seq<Addr>, j: nat)
    requires InChunks(a) && Holds(Lent(a.order, a.charged), held) && j < |held|
    ensures OnePlace(a, held, j)
  {
    hide InChunks, Holds, Lent, Content;
    HeldBlock(a, held, j);
  }

  lemma PlaceHeld(a: Books, held: seq<Addr>, p: Addr) returns (j: nat)
    requires InChunks(a) && Holds(Lent(a.order, a.charged), held) && p in a.live
    ensures j < |held| && held[j] == p + HEADER + 16
  {
    hide Lent;
    assert Listed(a, p);
    LentIs(a.order, a.charged, p + 16);
    assert Held(held, p + 64);
    j :| 0 <= j < |held| && held[j] == p + 80;
  }

  // Whether a space has room, told by the blocks held.
  lemma SpaceIs(W: Memspace, held: seq<Addr>, size: nat)
    requires Holding(W, held)
    ensures NoBlock(W, (size + HEADER) % TWO64) <==>
      NoSpace(SpaceOf(W.View(), held), AreaStart(W.spc), AreaEnd(W.spc), size)
  {
    hide BinInv, TagInv, Agree, Used, Chain, AllBlocks, Mstate.Sound, TagsGuarded, LinksGuarded, View, Lent, Holds,
         InChunks, Places, Full, Exhausted, Request2Size;
    SpaceInChunks(W);
    PlacesAre(W.View(), held);
    SizeFits((size + HEADER) % TWO64);
    ExhaustedIsFull(W.spc, Request2Size((size + HEADER) % TWO64));
  }

  // The block at place k of those held.
  lemma HeldBlock(a: Books, held: seq<Addr>, k: nat)
    requires InChunks(a) && Holds(Lent(a.order, a.charged), held) && k < |held|
    ensures held[k] >= HEADER + 16 && held[k] - HEADER in a.order && InChunk(a, held[k] - HEADER)
    ensures held[k] - 16 in Lent(a.order, a.charged)
    ensures Lent(a.order, a.charged)[held[k] - 16] == Charge(a.charged, held[k] - HEADER) - 48
    ensures var x := SpaceOf(a, held).blocks[k];
      && x.at == held[k] && Cost(x) == Charge(a.charged, held[k] - HEADER)
      && x.bytes == a.data[held[k]..held[k] - HEADER + Charge(a.charged, held[k] - HEADER)]
  {
    hide Holds, InChunks;
    HeldAt(Lent(a.order, a.charged), held, k);
    LentOf(a.order, a.charged, held[k] - 16);
    ChunkThere(a, held[k] - HEADER);
    LentIs(a.order, a.charged, held[k] - HEADER);
    ContentIs(Lent(a.order, a.charged), a.data, held[k] - 16);
  }

  // -------------------------------------------------------------- each call

  lemma LentPush(order: seq<Addr>, charged: map<Addr, nat>, h: Addr, x: nat)
    requires h !in order && x >= HEADER
    ensures h + 48 !in Lent(order, charged)
    ensures Lent(order + [h], charged[h := x]) == Lent(order, charged)[h + 48 := x - 48]
  {
    var l, l' := Lent(order, charged), Lent(order + [h], charged[h := x]);
    forall g | g in order + [h] ensures g == h || g in order { }
    forall g | g in order ensures g in order + [h] { }
    assert h in order + [h];
    assert Starts(order + [h]) == Starts(order) + {h + 48};
    forall p | p in l'
      ensures l'[p] == if p == h + 48 then x - 48 else l[p]
    {
    }
  }

  lemma LentDrop(order: seq<Addr>, charged: map<Addr, nat>, k: nat)
    requires NoDup(order) && k < |order|
    ensures Lent(Without(order, k), charged - {order[k]}) == Lent(order, charged) - {order[k] + 48}
  {
    hide LentAt, Without, NoDup;
    var h, d := order[k], Without(order, k);
    var l, l' := Lent(order, charged), Lent(d, charged - {h});
    StartsDrop(order, k);
    forall p | p in l'
      ensures l'[p] == l[p]
    {
      LentOf(d, charged - {h}, p);
      SameCharge(charged, h, p);
    }
  }

  lemma SameCharge(charged: map<Addr, nat>, h: Addr, p: Addr)
    requires p != h + 48
    ensures LentAt(charged - {h}, p) == LentAt(charged, p)
  {
  }

  lemma StartsDrop(order: seq<Addr>, k: nat)
    requires NoDup(order) && k < |order|
    ensures Starts(Without(order, k)) == Starts(order) - {order[k] + 48}
  {
    var h, d := order[k], Without(order, k);
    forall g | g in order && g != h
      ensures g in d
    {
      WithoutHas(order, k, g);
    }
    forall g | g in d
      ensures g in order && g != h
    {
      var j :| 0 <= j < |d| && d[j] == g;
      assert g == order[if j < k then j else j + 1];
    }
  }

  lemma SpanIs(live: map<Addr, nat>, mem: Addr)
    requires mem >= HEADER + 16 && mem - HEADER - 16 in live
    ensures SpanAt(live, mem) == live[mem - HEADER - 16]
  {
  }

  // A block whose chunk keeps its size.
  lemma SameSpan(live: map<Addr, nat>, live': map<Addr, nat>, mem: Addr)
    requires mem >= HEADER + 16 && mem - HEADER - 16 in live && mem - HEADER - 16 in live'
    requires live'[mem - HEADER - 16] == live[mem - HEADER - 16]
    ensures SpanAt(live', mem) == SpanAt(live, mem)
  {
  }

  // A new block.
  lemma Allotted(a: Books, b: Books, held: seq<Addr>, p: Addr, size: nat)
    requires NewBlock(a, b, p, size) && InChunks(a) && InChunks(b) && Holds(Lent(a.order, a.charged), held)
    ensures Holds(Lent(b.order, b.charged), held + [p])
    ensures Handed(SpaceOf(a, held), SpaceOf(b, held + [p]), size)
  {
    hide InChunks, Holds, View, Untouched, After, Request2Size, Allocated, Unchanged, Lent, Content, Divides, Added,
         Fits,
         SpansOf, Blank, Spans;
    var l, l' := Lent(a.order, a.charged), Lent(b.order, b.charged);
    LentPush(a.order, a.charged, p - HEADER, size + HEADER);
    LentUntouched(a, b.data);
    SameView(l, a.data, b.data, held);
    HoldsMore(l, l', held, p - 16);
    assert p - HEADER in b.order;
    ChunkThere(b, p - HEADER);
    AtSixteen(p);
    ViewAdded(l, l', b.data, held, p - 16, size, 16);
    AddedIs(View(l, b.data, held), View(l', b.data, held + [p]), size);
    ViewLastIs(l', b.data, held, p);
    ContentIs(l', b.data, p - 16);
    BlankIs(b.data, p, size);
    SpansPush(a, b, held, p, size);
  }

  lemma SpansPush(a: Books, b: Books, held: seq<Addr>, p: Addr, size: nat)
    requires InChunks(a) && Holds(Lent(a.order, a.charged), held) && p >= HEADER + 16
    requires Allocated(a.live, b.live, p - HEADER - 16, Request2Size(size + HEADER))
    ensures var s, s' := SpansOf(a.live, held), SpansOf(b.live, held + [p]);
      s'[..|held|] == s && Spans(s'[|held|], size)
  {
    hide InChunks, Holds, Lent, Request2Size;
    SpanIs(b.live, p);
    forall j | 0 <= j < |held|
      ensures SpanAt(b.live, held[j]) == SpanAt(a.live, held[j])
    {
      HeldBlock(a, held, j);
      SameSpan(a.live, b.live, held[j]);
    }
  }

  lemma AddedIs(a: seq<Block>, b: seq<Block>, size: nat)
    requires Added(a, b, size, 16)
    ensures |b| == |a| + 1 && b[..|a|] == a
  {
  }

  lemma BlankIs(data: seq<bv8>, p: Addr, size: nat)
    requires ZeroFrom(data, p, p + size) && p % 16 == 0
    ensures Blank(Block(p, data[p..p + size]), size)
  {
  }

  lemma AtSixteen(p: Addr)
    requires p >= HEADER + 16 && (p - HEADER - 16) % 16 == 0
    ensures Divides(16, p) && p % 16 == 0
  {
  }

  lemma ViewLastIs(live: map<Addr, nat>, data: seq<bv8>, held: seq<Addr>, p: Addr)
    ensures View(live, data, held + [p])[|held|] == Block(p, Content(live, data, p))
  {
    hide Content;
  }

  // A block is gone.
  lemma Released(a: Books, b: Books, held: seq<Addr>, k: nat)
    requires InChunks(a) && Holds(Lent(a.order, a.charged), held) && k < |held|
    requires held[k] >= HEADER && Freed(a, b, held[k] - HEADER)
    ensures Holds(Lent(b.order, b.charged), Without(held, k))
    ensures Dropped(SpaceOf(a, held), SpaceOf(b, Without(held, k)), k)
  {
    hide InChunks, Holds, View, Unchanged, Without, IndexOf, Untouched, Lent, SpansOf;
    var h, l := held[k] - HEADER, Lent(a.order, a.charged);
    HeldBlock(a, held, k);
    Distinct(a);
    LentDrop(a.order, a.charged, IndexOf(a.order, h));
    HoldsLess(l, held, k);
    ViewLess(l, a.data, held, k);
    LentButOne(a, h, b.data);
    SameView(l - {h + 48}, a.data, b.data, Without(held, k));
    SpansLess(a, held, k);
  }

  lemma SpansLess(a: Books, held: seq<Addr>, k: nat)
    requires InChunks(a) && Holds(Lent(a.order, a.charged), held) && k < |held| && held[k] >= HEADER + 16
    ensures var s := SpansOf(a.live, held);
      SpansOf(a.live - {held[k] - HEADER - 16}, Without(held, k)) == s[..k] + s[k + 1..]
  {
    hide InChunks, Holds, Lent;
    var live' := a.live - {held[k] - HEADER - 16};
    forall j | 0 <= j < |held| && j != k
      ensures SpanAt(live', held[j]) == SpanAt(a.live, held[j])
    {
      HeldBlock(a, held, j);
      HeldTwice(Lent(a.order, a.charged), held, j, k);
      SameSpan(a.live, live', held[j]);
    }
    var s, s' := SpansOf(a.live, held), SpansOf(live', Without(held, k));
    assert s' == s[..k] + s[k + 1..];
  }

  lemma Distinct(a: Books)
    requires InChunks(a)
    ensures NoDup(a.order)
  {
  }

  lemma ViewReplaced(live: map<Addr, nat>, live': map<Addr, nat>, data: seq<bv8>, data': seq<bv8>, held: seq<Addr>,
                     k: nat, p: Addr, nb: nat)
    requires Holds(live, held) && k < |held| && held[k] >= 16 && Reallocated(live, live', held[k] - 16, p, nb)
    requires Untouched(live - {held[k] - 16}, data, data')
    ensures View(live', data', held[k := p + 16]) == View(live, data,
      held)[k := Block(p + 16, Content(live', data', p + 16))]
  {
    hide Holds, Payload, Content, Reallocated;
    forall j | 0 <= j < |held| && j != k
      ensures Content(live', data', held[j]) == Content(live, data, held[j])
    {
      HeldTwice(live, held, j, k);
      NotResized(live, live', held[k] - 16, p, nb, held[j] - 16);
      assert held[j] - 16 in live - {held[k] - 16};
      SameContent(live, data, live', data', held[j]);
    }
  }

  // A block has become another.
  lemma Replaced(a: Books, b: Books, held: seq<Addr>, k: nat, nmem: Addr, size: nat)
    requires InChunks(a) && InChunks(b) && Holds(Lent(a.order, a.charged), held) && k < |held| && held[k] >= HEADER
      && size > 0
    requires Moved(a, b, held[k], nmem, size, KeptBytes(Charge(a.charged, held[k] - HEADER), size))
    ensures Holds(Lent(b.order, b.charged), held[k := nmem])
    ensures Swapped(SpaceOf(a, held), SpaceOf(b, held[k := nmem]), k, size)
  {
    hide InChunks, Holds, View, Untouched, Request2Size, Reallocated, Unchanged, Without, IndexOf, Content, KeptBytes,
         ZeroFrom, Changed, Lent, SpansOf, Spans;
    var h, h' := held[k] - HEADER, nmem - HEADER;
    var l, l' := Lent(a.order, a.charged), Lent(b.order, b.charged);
    HeldBlock(a, held, k);
    LentMoved(a, b, h, h', size);
    LentButOne(a, h, b.data);
    HoldsOther(l, l', held, k, h' + 48, size + 16);
    ViewReplaced(l, l', a.data, b.data, held, k, h' + 48, size + 16);
    assert b.order[|b.order| - 1] == h';
    ChunkThere(b, h');
    AtSixteen(nmem);
    ContentIs(l', b.data, h' + 48);
    ChangedIs(SpaceOf(a, held).blocks[k], a.data, b.data, held[k], nmem, size);
    SpansSet(a, b, held, k, nmem, size);
  }

  lemma SpansSet(a: Books, b: Books, held: seq<Addr>, k: nat, nmem: Addr, size: nat)
    requires InChunks(a) && Holds(Lent(a.order, a.charged), held) && k < |held| && held[k] >= HEADER + 16
      && nmem >= HEADER + 16
    requires Reallocated(a.live, b.live, held[k] - HEADER - 16, nmem - HEADER - 16, Request2Size(size + HEADER))
    ensures var s, s' := SpansOf(a.live, held), SpansOf(b.live, held[k := nmem]);
      s' == s[k := s'[k]] && Spans(s'[k], size)
  {
    hide InChunks, Holds, Lent, Request2Size;
    SpanIs(b.live, nmem);
    forall j | 0 <= j < |held| && j != k
      ensures SpanAt(b.live, held[j]) == SpanAt(a.live, held[j])
    {
      HeldBlock(a, held, j);
      HeldTwice(Lent(a.order, a.charged), held, j, k);
      SameSpan(a.live, b.live, held[j]);
    }
  }

  lemma LentMoved(a: Books, b: Books, h: Addr, h': Addr, size: nat)
    requires InChunks(a) && h in a.order && h' !in a.order
    requires b.order == Without(a.order, IndexOf(a.order, h)) + [h']
      && b.charged == a.charged[h' := size + HEADER] - {h}
    ensures Reallocated(Lent(a.order, a.charged), Lent(b.order, b.charged), h + 48, h' + 48, size + 16)
    ensures h' + 48 in Lent(b.order, b.charged) && Lent(b.order, b.charged)[h' + 48] == size + 16
  {
    hide InChunks, IndexOf, LentAt, Lent, Without;
    Distinct(a);
    var k := IndexOf(a.order, h);
    var d := Without(a.order, k);
    assert h' !in d by { Elsewhere(a.order, k, h'); }
    LentDrop(a.order, a.charged, k);
    LentPush(d, a.charged - {h}, h', size + HEADER);
    assert b.charged == (a.charged - {h})[h' := size + HEADER];
    LentIs(a.order, a.charged, h);
    LentIs(a.order, a.charged, h');
  }

  lemma Elsewhere(c: seq<Addr>, k: nat, x: Addr)
    requires k < |c| && x !in c
    ensures x !in Without(c, k)
  {
  }

  lemma ChangedIs(x: Block, data: seq<bv8>, data': seq<bv8>, ptr: Addr, nmem: Addr, size: nat)
    requires ptr + |x.bytes| <= |data| && x.bytes == data[ptr..ptr + |x.bytes|] && nmem + size <= |data'|
      && nmem % 16 == 0
    requires var n := KeptBytes(Cost(x), size);
      ptr + n <= |data| && nmem + n <= |data'| && data'[nmem..nmem + n] == data[ptr..ptr + n]
    requires ZeroFrom(data', nmem + Min(Cost(x) % TWO32, size), nmem + size)
    ensures Changed(x, Block(nmem, data'[nmem..nmem + size]), size)
  {
    var n := KeptBytes(Cost(x), size);
    var y := data'[nmem..nmem + size];
    assert y[..n] == data'[nmem..nmem + n];
    assert x.bytes[..n] == data[ptr..ptr + n];
    forall i | Min(Cost(x) % TWO32, size) <= i < size
      ensures y[i] == 0
    {
      assert y[i] == data'[nmem + i];
    }
  }

  // ------------------------------------------------------------------ the run

  // The chunk of the block that a call names.
  ghost function NamedChunk(r: Call, held: seq<Addr>): set<Addr> {
    match r
    case Alloc(size) => {}
    case Change(k, size) => ChunkUnder(held, k)
    case Release(k) => ChunkUnder(held, k)
    case Fill(k, from, text, noise) => ChunkUnder(held, k)
  }

  ghost function ChunkUnder(held: seq<Addr>, k: nat): set<Addr> {
    if k < |held| && held[k] >= HEADER + 16 then {held[k] - HEADER - 16} else {}
  }

  // The sizes that clients asked for.
  predicate SizesAre(sizes: seq<nat>, blocks: seq<Block>) {
    |sizes| == |blocks| && forall j :: 0 <= j < |blocks| ==> sizes[j] == |blocks[j].bytes|
  }

  // What they are after a call, which has served them if memory was there.
  function SizesAfter(r: Call, sizes: seq<nat>, served: bool): seq<nat> {
    match r
    case Alloc(size) => if served then sizes + [size] else sizes
    case Change(k, size) =>
      if k >= |sizes| then sizes
      else if size == 0 then Without(sizes, k)
      else if served then sizes[k := size] else sizes
    case Release(k) => if k < |sizes| then Without(sizes, k) else sizes
    case Fill(k, from, text, noise) => sizes
  }

  lemma SizesStay(r: Call, a: Space, b: Space, lo: Addr, hi: Addr, sizes: seq<nat>, served: bool)
    requires Obeys(r, a, b, lo, hi) && SizesAre(sizes, a.blocks)
    requires match r
             case Alloc(size) => served <==> !NoSpace(a, lo, hi, size)
             case Change(k, size) => k < |a.blocks| && size != 0 ==> (served <==> !NoSpace(a, lo, hi, size))
             case _ => true
    ensures SizesAre(SizesAfter(r, sizes, served), b.blocks)
  {
    hide NoSpace, Handed, Swapped, Dropped, SizesAre, Overwritten;
    match r
    case Alloc(size) =>
      if served { SizesMore(a, b, sizes, size); }
    case Change(k, size) =>
      if k < |a.blocks| && size == 0 {
        SizesLess(a, b, sizes, k);
      } else if k < |a.blocks| && served {
        SizesSet(a, b, sizes, k, size);
      }
      SameNumber(sizes, a.blocks);
    case Release(k) =>
      SameNumber(sizes, a.blocks);
      if k < |a.blocks| { SizesLess(a, b, sizes, k); }
    case Fill(k, from, text, noise) =>
      SizesFilled(a.blocks, sizes, k, from, text);
  }

  lemma SameNumber(sizes: seq<nat>, a: seq<Block>)
    requires SizesAre(sizes, a)
    ensures |sizes| == |a|
  {
  }

  lemma SizesMore(a: Space, b: Space, sizes: seq<nat>, size: nat)
    requires SizesAre(sizes, a.blocks) && Handed(a, b, size)
    ensures SizesAre(sizes + [size], b.blocks)
  {
    assert forall j :: 0 <= j < |a.blocks| ==> b.blocks[j] == b.blocks[..|a.blocks|][j];
  }

  lemma SizesLess(a: Space, b: Space, sizes: seq<nat>, k: nat)
    requires SizesAre(sizes, a.blocks) && Dropped(a, b, k)
    ensures k < |sizes| && SizesAre(Without(sizes, k), b.blocks)
  {
  }

  lemma SizesSet(a: Space, b: Space, sizes: seq<nat>, k: nat, size: nat)
    requires SizesAre(sizes, a.blocks) && Swapped(a, b, k, size)
    ensures k < |sizes| && SizesAre(sizes[k := size], b.blocks)
  {
  }

  lemma SizesFilled(a: seq<Block>, sizes: seq<nat>, k: nat, from: nat, text: seq<bv8>)
    requires SizesAre(sizes, a)
    ensures SizesAre(sizes, if k < |a| && from + |text| <= |a[k].bytes|
                            then a[k := Block(a[k].at, Overwritten(a[k].bytes, from, text))] else a)
  {
  }

  // The space after a call, and before it, and where it lies.
  ghost predicate Served(r: Call, a: Space, b: Space, M: Mstate)
    reads M
  {
    Obeys(r, a, b, AreaStart(M), AreaEnd(M))
  }

  ghost predicate Lacks(W: Memspace, held: seq<Addr>, size: nat)
    reads W, W.spc
  {
    NoSpace(SpaceOf(W.View(), held), AreaStart(W.spc), AreaEnd(W.spc), size)
  }

  // One call: the space obeys, and the allocator writes no field over any block
  // that the call does not name, its header included. A size that wraps around is
  // as far as it goes.
  method Serve(W: Memspace, r: Call, held: seq<Addr>, sizes: seq<nat>)
    returns (held': seq<Addr>, served: bool, short: bool)
    requires Holding(W, held) && InRange(r) && SizesAre(sizes, SpaceOf(W.View(), held).blocks)
    modifies W, W.spc
    ensures short <==> Short(r, SpaceOf(old(W.View()), held), AreaStart(W.spc), AreaEnd(W.spc))
    ensures !short ==> Holding(W, held') && Served(r, SpaceOf(old(W.View()), held), SpaceOf(W.View(), held'), W.spc)
    ensures !short ==> SizesAre(SizesAfter(r, sizes, served), SpaceOf(W.View(), held').blocks)
    ensures !short ==> Unchanged(old(W.spc.Live()) - NamedChunk(r, held), old(W.spc.Cols()), W.spc.Cols())
  {
    hide BinInv, TagInv, Agree, Used, Holds, Mstate.Sound, TagsGuarded, LinksGuarded, Chain, AllBlocks, View, Lent,
         Obeys,
         Unchanged, NoSpace, Memspace.Valid, SizesAre, SizesAfter;
    ghost var a, live := SpaceOf(W.View(), held), W.spc.Live();
    assert live - {} == live;
    served, short := false, false;
    match r {
      case Alloc(size) => held', served, short := ServeAlloc(W, size, held);
      case Change(k, size) => held', served, short := ServeChange(W, k, size, held);
      case Release(k) => held' := ServeFree(W, k, held);
      case Fill(k, from, text, noise) =>
        held' := held;
        ServeFill(W, k, from, text, noise, held, sizes);
    }
    if !short {
      SizesStay(r, a, SpaceOf(W.View(), held'), AreaStart(W.spc), AreaEnd(W.spc), sizes, served);
    }
  }

  method ServeAlloc(W: Memspace, size: nat, held: seq<Addr>) returns (held': seq<Addr>, served: bool, short: bool)
    requires Holding(W, held) && size < TWO64
    modifies W, W.spc
    ensures short <==> Short(Alloc(size), SpaceOf(old(W.View()), held), AreaStart(W.spc), AreaEnd(W.spc))
    ensures !short ==> Holding(W, held')
    ensures !short ==> Served(Alloc(size), SpaceOf(old(W.View()), held), SpaceOf(W.View(), held'), W.spc)
    ensures !short ==> (served <==> !old(Lacks(W, held, size)))
    ensures !short ==> Unchanged(old(W.spc.Live()), old(W.spc.Cols()), W.spc.Cols())
  {
    hide BinInv, TagInv, Agree, Used, Holds, Mstate.Sound, TagsGuarded, LinksGuarded, Chain, AllBlocks, View, Lent,
         Unchanged,
         NewBlock, InChunks, Memspace.Valid, Handed, NoBlock, NoSpace;
    ghost var a := W.View();
    held' := held;
    SpaceInChunks(W);
    SpaceIs(W, held, size);
    NoneDiffer(a.live, a.cols);
    var p;
    p, short := MemAlloc(W, size);
    served := p != 0;
    if served && !short {
      SpaceInChunks(W);
      Allotted(a, W.View(), held, p, size);
      NewWatched(a, W.View(), p, size);
      held' := held + [p];
    }
  }

  lemma NewWatched(a: Books, b: Books, p: Addr, size: nat)
    requires NewBlock(a, b, p, size)
    ensures Unchanged(a.live, a.cols, b.cols)
  {
  }

  method ServeFree(W: Memspace, k: nat, held: seq<Addr>) returns (held': seq<Addr>)
    requires Holding(W, held)
    modifies W, W.spc
    ensures Holding(W, held')
    ensures Served(Call.Release(k), SpaceOf(old(W.View()), held), SpaceOf(W.View(), held'), W.spc)
    ensures Unchanged(old(W.spc.Live()) - ChunkUnder(held, k), old(W.spc.Cols()), W.spc.Cols())
  {
    hide BinInv, TagInv, Agree, Used, Holds, Mstate.Sound, TagsGuarded, LinksGuarded, Chain, AllBlocks, View, Lent,
         Unchanged,
         Freed, InChunks, Memspace.Valid, Dropped, Without;
    ghost var a := W.View();
    held' := held;
    SpaceInChunks(W);
    NoneDiffer(a.live - ChunkUnder(held, k), a.cols);
    if k < |held| {
      HeldBlock(a, held, k);
      HeaderAt(W, held[k] - HEADER);
      SizesOk(W);
      var refused := MemFree(W, held[k]);
      Released(a, W.View(), held, k);
      FreedWatched(a, W.View(), held[k] - HEADER);
      held' := Without(held, k);
    }
  }

  lemma SizesOk(W: Memspace)
    requires W.Valid()
    ensures |W.magic| == W.spc.end == |W.spc.data|
  {
    hide BinInv, TagInv, Agree, Used, Mstate.Sound, TagsGuarded, LinksGuarded, Chain, AllBlocks;
  }

  lemma FreedWatched(a: Books, b: Books, h: Addr)
    requires Freed(a, b, h)
    ensures h >= 16 && Unchanged(a.live - {h - 16}, a.cols, b.cols)
  {
  }

  method ServeChange(W: Memspace, k: nat, size: nat, held: seq<Addr>)
    returns (held': seq<Addr>, served: bool, short: bool)
    requires Holding(W, held) && size < TWO64
    modifies W, W.spc
    ensures short <==> Short(Change(k, size), SpaceOf(old(W.View()), held), AreaStart(W.spc), AreaEnd(W.spc))
    ensures !short ==> Holding(W, held')
    ensures !short ==> Served(Change(k, size), SpaceOf(old(W.View()), held), SpaceOf(W.View(), held'), W.spc)
    ensures !short && k < |held| && size != 0 ==> (served <==> !old(Lacks(W, held, size)))
    ensures !short ==> Unchanged(old(W.spc.Live()) - ChunkUnder(held, k), old(W.spc.Cols()), W.spc.Cols())
  {
    hide BinInv, TagInv, Agree, Used, Holds, Mstate.Sound, TagsGuarded, LinksGuarded, Chain, AllBlocks, View, Lent,
         Unchanged,
         NewBlock, Freed, Moved, InChunks, Memspace.Valid, Dropped, Swapped, Without, KeptBytes, NoBlock, NoSpace;
    ghost var a := W.View();
    held', served, short := held, false, false;
    SpaceInChunks(W);
    SpaceIs(W, held, size);
    NoneDiffer(a.live - ChunkUnder(held, k), a.cols);
    if k < |held| {
      HeldBlock(a, held, k);
      var nmem;
      nmem, short := MemRealloc(W, held[k], size);
      served := nmem != 0;
      if !short {
        SpaceInChunks(W);
        if served {
          Replaced(a, W.View(), held, k, nmem, size);
          MovedWatched(a, W.View(), held[k], nmem, size, KeptBytes(Charge(a.charged, held[k] - HEADER), size));
          held' := held[k := nmem];
        } else if size == 0 {
          Released(a, W.View(), held, k);
          FreedWatched(a, W.View(), held[k] - HEADER);
          held' := Without(held, k);
        }
      }
    }
  }

  lemma MovedWatched(a: Books, b: Books, ptr: Addr, nmem: Addr, size: nat, n: nat)
    requires Moved(a, b, ptr, nmem, size, n)
    ensures ptr >= HEADER + 16 && Unchanged(a.live - {ptr - HEADER - 16}, a.cols, b.cols)
  {
  }

  // Bytes are written into the chunk p, while all others are watched.
  method PutWatched(M: Mstate, p: Addr, to: Addr, text: seq<bv8>, noise: Columns)
    requires M.Inv() && |M.data| == M.end && M.keep == map[] && p in M.Live()
    requires p + 16 <= to && to + |text| <= p + M.Live()[p]
    modifies M`keep, M`was, M`head, M`foot, M`fd, M`bk, M`child0, M`child1, M`parent, M`index, M`data
    ensures M.Inv() && |M.data| == M.end && M.keep == map[] && M.Live() == old(M.Live())
    ensures |M.data| == |old(M.data)| && to + |text| <= |M.data| && M.data == Overwritten(old(M.data), to, text)
    ensures Untouched(M.Live() - {p}, old(M.data), M.data)
    ensures Unchanged(M.Live() - {p}, old(M.Cols()), M.Cols())
  {
    hide BinInv, TagInv, Agree, Used, Mstate.Sound, Untouched, Unchanged, OnlyTouched, Overwritten, TagsGuarded,
         LinksGuarded;
    Begin(M, M.Live() - {p});
    PutBytes(M, p, to, text, noise);
    StillUnchanged(M);
    Begin(M, map[]);
  }

  method ServeFill(W: Memspace, k: nat, from: nat, text: seq<bv8>, noise: Columns, held: seq<Addr>, sizes: seq<nat>)
    requires Holding(W, held) && SizesAre(sizes, SpaceOf(W.View(), held).blocks)
    modifies W.spc
    ensures Holding(W, held)
    ensures Served(Fill(k, from, text, noise), SpaceOf(old(W.View()), held), SpaceOf(W.View(), held), W.spc)
    ensures Unchanged(old(W.spc.Live()) - ChunkUnder(held, k), old(W.spc.Cols()), W.spc.Cols())
  {
    hide BinInv, TagInv, Agree, Used, Holds, Mstate.Sound, TagsGuarded, LinksGuarded, Chain, AllBlocks, View, Lent,
         Unchanged, InChunks, Overwritten, Untouched, Charge;
    ghost var a := W.View();
    SpaceInChunks(W);
    NoneDiffer(a.live - ChunkUnder(held, k), a.cols);
    if k < |held| {
      HeldBlock(a, held, k);
      if from + |text| <= sizes[k] {
        PutWatched(W.spc, held[k] - HEADER - 16, held[k] + from, text, noise);
        LentButOne(a, held[k] - HEADER, W.spc.data);
        ViewWritten(Lent(a.order, a.charged), a.data, held, k, from, text);
      }
    }
  }

  lemma LentButOne(a: Books, h: Addr, data: seq<bv8>)
    requires InChunks(a) && h in a.order && h >= 16 && |data| == |a.data| && Untouched(a.live - {h - 16}, a.data, data)
    ensures Untouched(Lent(a.order, a.charged) - {h + 48}, a.data, data)
  {
    hide InChunks, Payload, LentAt;
    BlocksUntouched(a, a.live - {h - 16}, data);
    forall p | p in Lent(a.order, a.charged) && p != h + 48
      ensures Payload(data, p, Lent(a.order, a.charged)[p]) == Payload(a.data, p, Lent(a.order, a.charged)[p])
    {
      LentOf(a.order, a.charged, p);
      ChunkThere(a, p - 48);
    }
  }

  // A whole run over a space from which nothing has been handed out, up to the
  // first call whose size wraps around while there is memory.
  method Run(W: Memspace, script: seq<Call>) returns (held: seq<Addr>, n: nat, ghost trace: seq<Space>)
    requires W.Valid() && W.order == [] && W.free == W.rsz
    requires forall i :: 0 <= i < |script| ==> InRange(script[i])
    modifies W, W.spc
    ensures n <= |script| && IsRun(script[..n], trace, W.rsz, AreaStart(W.spc), AreaEnd(W.spc))
    ensures if n == |script| then Holding(W, held) && trace[n] == SpaceOf(W.View(), held)
            else Short(script[n], trace[n], AreaStart(W.spc), AreaEnd(W.spc))
    ensures W.rsz < TWO32 ==> forall i :: 0 <= i <= n ==> trace[i].free + Total(trace[i].blocks) == W.rsz
  {
    hide BinInv, TagInv, Agree, Used, Mstate.Sound, TagsGuarded, LinksGuarded, Chain, AllBlocks, View, Lent, Obeys,
         Unchanged,
         NoSpace, IsRun, InRange, Holds, WellApart, Short;
    held, n := [], 0;
    var sizes: seq<nat> := [];
    trace := [SpaceOf(W.View(), held)];
    NothingHeld(W, script);
    var stopped := false;
    while n < |script| && !stopped
      invariant n <= |script| && |trace| == n + 1 && IsRun(script[..n], trace, W.rsz, AreaStart(W.spc), AreaEnd(W.spc))
      invariant if stopped then n < |script| && Short(script[n], trace[n], AreaStart(W.spc), AreaEnd(W.spc))
                else Holding(W, held) && trace[n] == SpaceOf(W.View(), held) && SizesAre(sizes, trace[n].blocks)
      decreases |script| - n, !stopped
    {
      var served;
      held, served, stopped := Serve(W, script[n], held, sizes);
      if !stopped {
        sizes := SizesAfter(script[n], sizes, served);
        SpaceApart(W, held);
        RunMore(script, n, trace, W.rsz, AreaStart(W.spc), AreaEnd(W.spc), SpaceOf(W.View(), held));
        trace := trace + [SpaceOf(W.View(), held)];
        n := n + 1;
      }
    }
    assert n == |script| ==> script[..n] == script;
    if W.rsz < TWO32 {
      forall i | 0 <= i <= n
        ensures |trace| == n + 1 && trace[i].free + Total(trace[i].blocks) == W.rsz
      {
        AddsUp(script[..n], trace, W.rsz, AreaStart(W.spc), AreaEnd(W.spc), i);
      }
    }
  }

  lemma SpaceApart(W: Memspace, held: seq<Addr>)
    requires Holding(W, held)
    ensures WellApart(SpaceOf(W.View(), held).blocks)
  {
    hide BinInv, TagInv, Agree, Used, Mstate.Sound, TagsGuarded, LinksGuarded, Chain, AllBlocks, View, Lent, Holds,
         InChunks;
    var a := W.View();
    SpaceInChunks(W);
    var blocks := SpaceOf(a, held).blocks;
    forall j, k | 0 <= j < k < |blocks|
      ensures Spaced(blocks[j], blocks[k])
    {
      HeldBlock(a, held, j);
      HeldBlock(a, held, k);
      HeldTwice(Lent(a.order, a.charged), held, j, k);
      LiveApart(W.spc, held[j] - HEADER - 16, held[k] - HEADER - 16);
      LiveApart(W.spc, held[k] - HEADER - 16, held[j] - HEADER - 16);
    }
  }

  lemma NothingHeld(W: Memspace, script: seq<Call>)
    requires W.Valid() && W.order == [] && W.free == W.rsz
    ensures Holding(W, []) && IsRun(script[..0], [SpaceOf(W.View(), [])], W.rsz, AreaStart(W.spc), AreaEnd(W.spc))
  {
    hide BinInv, TagInv, Agree, Used, Mstate.Sound, TagsGuarded, LinksGuarded, Chain, AllBlocks;
  }
}
