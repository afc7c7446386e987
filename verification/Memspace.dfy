// The memory space of the daemon: mem_alloc, mem_free and mem_realloc, which
// count the bytes handed out and keep every live block on a list.
module Memspace {
  import opened Word
  import opened Bins
  import opened Rings
  import opened Tags
  import opened Cuts
  import opened Sizes
  import opened Mstate
  import opened Guards
  import opened Chunks
  import opened Malloc
  import opened Rooms
  import opened Free
  import opened Watch
  import opened Payloads
  import opened Cells
  import opened Realloc
  import opened Create

  const HEADER: nat := 64        // the size of a block header
  const LIST_OFFSET: nat := 48   // where the list node lies in it
  const MAGIC: nat := 0xabcdbeef

  function Node(h: Addr): Addr {
    h + LIST_OFFSET
  }

  // The bytes charged for the blocks in order.
  ghost function Sum(order: seq<Addr>, charged: map<Addr, nat>): nat {
    if order == [] then 0
    else Sum(order[..|order| - 1], charged) + Charge(charged, order[|order| - 1])
  }

  ghost function Charge(charged: map<Addr, nat>, h: Addr): nat {
    if h in charged then charged[h] else 0
  }

  // The list from first to last runs through the nodes of order.
  ghost predicate Chain(order: seq<Addr>, first: Addr, last: Addr, next: seq<Addr>, prev: seq<Addr>) {
    && first == (if order == [] then 0 else Node(order[0]))
    && last == (if order == [] then 0 else Node(order[|order| - 1]))
    && forall k :: 0 <= k < |order| ==> ChainAt(order, next, prev, k)
  }

  ghost predicate ChainAt(order: seq<Addr>, next: seq<Addr>, prev: seq<Addr>, k: nat)
    requires k < |order|
  {
    && Node(order[k]) < |next| && Node(order[k]) < |prev|
    && next[Node(order[k])] == (if k + 1 < |order| then Node(order[k + 1]) else 0)
    && prev[Node(order[k])] == (if k > 0 then Node(order[k - 1]) else 0)
  }

  // The block whose header is at h.
  ghost predicate BlockOk(live: map<Addr, nat>, charged: map<Addr, nat>, magic: seq<nat>, sz: seq<nat>, h: Addr) {
    && h >= 16 && h - 16 in live
    && h in charged && HEADER <= charged[h] && charged[h] + CHUNK_OVERHEAD <= live[h - 16]
    && h < |magic| && magic[h] == MAGIC
    && h < |sz| && sz[h] == charged[h] % TWO32
  }

  // Every chunk in use holds one block of order.
  ghost predicate AllBlocks(live: map<Addr, nat>, charged: map<Addr, nat>, magic: seq<nat>, sz: seq<nat>,
                            order: seq<Addr>) {
    && NoDup(order)
    && (forall h :: h in order ==> BlockOk(live, charged, magic, sz, h))
    && (forall p :: p in live ==> p + 16 in order)
  }

  // The books of a space, as a client may think of them: the blocks, the
  // counter, and the memory behind; cols are the words that the allocator reads.
  datatype Books = Books(order: seq<Addr>, charged: map<Addr, nat>, free: nat, lost: nat,
                         live: map<Addr, nat>, data: seq<bv8>, cols: Columns, room: Room)

  class Memspace {
    const spc: Mstate
    const rsz: nat
    var free: nat
    var first: Addr   // list.prev
    var last: Addr    // list.next

    // The fields of block headers, one column each.
    var magic: seq<nat>
    var sz: seq<nat>
    var next: seq<Addr>
    var prev: seq<Addr>

    // The live blocks in the order they were allocated, what each was charged,
    // and what the counter has lost to 32-bit sizes.
    ghost var order: seq<Addr>
    ghost var charged: map<Addr, nat>
    ghost var lost: nat

    constructor (spc: Mstate, rsz: nat, magic: seq<nat>, sz: seq<nat>, next: seq<Addr>, prev: seq<Addr>)
      requires spc.Inv() && |spc.data| == spc.end && spc.Live() == map[] && spc.keep == map[]
      requires |magic| == |sz| == |next| == |prev| == spc.end
      ensures Valid() && this.spc == spc && this.rsz == rsz && free == rsz && order == [] && lost == 0
    {
      hide Mstate.Sound, BinInv, TagInv, Agree, Used, TagsGuarded, LinksGuarded;
      this.spc, this.rsz, free := spc, rsz, rsz;
      first, last := 0, 0;
      this.magic, this.sz, this.next, this.prev := magic, sz, next, prev;
      order, charged, lost := [], map[], 0;
    }

    ghost function View(): Books
      reads this, spc
    {
      Books(order, charged, free, lost, spc.Live(), spc.data, spc.Cols(), RoomOf(spc))
    }

    ghost predicate Valid()
      reads this, spc
    {
      && spc.Inv() && |spc.data| == spc.end && spc.keep == map[]
      && |magic| == |sz| == |next| == |prev| == spc.end
      && AllBlocks(spc.Live(), charged, magic, sz, order)
      && Chain(order, first, last, next, prev)
      && free + Sum(order, charged) + lost == rsz
      && (rsz < TWO32 ==> lost == 0)
    }
  }

  // mem_init: a space over `size` bytes at base, with 1024 bytes more on the
  // counter; null when there is no room for a memory space.
  method MemInit(size: nat, base: Addr, msize: nat, page_size: nat, threshold: nat, cookie: nat, memory: Memory,
                 magic: seq<nat>, sz: seq<nat>, next: seq<Addr>, prev: seq<Addr>)
    returns (W: Memspace?, fate: Fate)
    requires msize % 16 == 0 && 896 <= msize
    requires base + size < TWO64 && memory.Reaches(base + size)
    requires msize + TOP_FOOT_SIZE + page_size < TWO64
    requires |magic| == |sz| == |next| == |prev| == base + size
    ensures fate == FateOf(base, size, msize, page_size) && (W != null <==> fate.Made?)
    ensures W != null ==>
      fresh(W) && fresh(W.spc) && W.Valid() && W.rsz == size + 1024 && W.free == W.rsz && W.order == [] && W.lost == 0
    ensures W != null ==> RoomOf(W.spc) == FirstRoom(base, size, msize, threshold)
  {
    hide BinInv, TagInv, Agree, Used, Mstate.Sound, TagsGuarded, LinksGuarded;
    var spc;
    spc, fate := CreateMspaceWithBase(base, size, msize, page_size, threshold, cookie, memory);
    if spc == null {
      W := null;
    } else {
      W := new Memspace(spc, size + 1024, magic, sz, next, prev);
    }
  }

  // ------------------------------------------------------------- the counter

  // What the size fields of the live blocks add up to.
  ghost function SumOfFields(order: seq<Addr>, sz: seq<nat>): nat {
    if order == [] then 0
    else SumOfFields(order[..|order| - 1], sz) + Field(sz, order[|order| - 1])
  }

  ghost function Field(sz: seq<nat>, h: Addr): nat {
    if h < |sz| then sz[h] else 0
  }

  // The size fields add up to the charges exactly when none was cut to 32 bits.
  lemma {:induction false} FieldsAddUp(order: seq<Addr>, charged: map<Addr, nat>, sz: seq<nat>)
    requires forall h :: h in order ==> h in charged && h < |sz| && sz[h] == charged[h] % TWO32
    ensures SumOfFields(order, sz) <= Sum(order, charged)
    ensures SumOfFields(order, sz) == Sum(order, charged) <==> forall h :: h in order ==> Charge(charged, h) < TWO32
  {
    if order != [] {
      var o, h := order[..|order| - 1], order[|order| - 1];
      assert order == o + [h];
      forall g | g in o ensures g in order { }
      FieldsAddUp(o, charged, sz);
    }
  }

  // The free counter and the sizes of the live blocks account for the whole
  // space.
  ghost predicate Conserving(W: Memspace)
    reads W
  {
    W.free + SumOfFields(W.order, W.sz) == W.rsz
  }

  ghost predicate AllSmall(order: seq<Addr>, charged: map<Addr, nat>) {
    forall h :: h in order ==> Charge(charged, h) < TWO32
  }

  ghost predicate NothingCut(a: Books) {
    a.lost == 0 && AllSmall(a.order, a.charged)
  }

  // They do in every space of less than 2^32 bytes, and in a larger one as long
  // as no size was cut to 32 bits.
  lemma Conserved(W: Memspace)
    requires W.Valid()
    ensures W.rsz < TWO32 ==> Conserving(W)
    ensures Conserving(W) <==> NothingCut(W.View())
  {
    hide Chain, Mstate.Sound, NoDup, TagsGuarded, LinksGuarded;
    FieldsAddUp(W.order, W.charged, W.sz);
    if W.rsz < TWO32 {
      forall h | h in W.order
        ensures Charge(W.charged, h) < TWO32
      {
        OneOfSum(W.order, W.charged, h);
      }
    }
  }

  lemma NewBlockCut(a: Books, b: Books, p: Addr, size: nat)
    requires NewBlock(a, b, p, size) && NothingCut(a)
    ensures NothingCut(b) <==> size + HEADER < TWO32
  {
    hide Allocated, Untouched;
    assert b.order[|a.order|] == p - HEADER;
    if size + HEADER < TWO32 {
      forall h | h in b.order
        ensures Charge(b.charged, h) < TWO32
      {
        if h != p - HEADER { assert h in a.order; }
      }
    } else {
      assert p - HEADER in b.order && Charge(b.charged, p - HEADER) >= TWO32;
    }
  }

  lemma FreedCut(a: Books, b: Books, h: Addr)
    requires Freed(a, b, h) && NothingCut(a)
    ensures NothingCut(b)
  {
    hide IndexOf;
    var k := IndexOf(a.order, h);
    forall g | g in b.order
      ensures Charge(b.charged, g) < TWO32
    {
      var j :| 0 <= j < |b.order| && b.order[j] == g;
      assert g == a.order[if j < k then j else j + 1];
      assert g in a.order;
    }
  }

  lemma MovedCut(a: Books, b: Books, ptr: Addr, nmem: Addr, size: nat, n: nat)
    requires Moved(a, b, ptr, nmem, size, n) && NothingCut(a)
    ensures NothingCut(b) <==> size + HEADER < TWO32
  {
    hide IndexOf, Reallocated, Untouched;
    var k, h, h' := IndexOf(a.order, ptr - HEADER), ptr - HEADER, nmem - HEADER;
    assert b.order[|b.order| - 1] == h';
    if size + HEADER < TWO32 {
      forall g | g in b.order
        ensures Charge(b.charged, g) < TWO32
      {
        var j :| 0 <= j < |b.order| && b.order[j] == g;
        if g != h' {
          assert g == a.order[if j < k then j else j + 1];
          assert g in a.order;
        }
      }
    } else {
      assert h' in b.order && Charge(b.charged, h') >= TWO32;
    }
  }

  lemma {:induction false} OneOfSum(order: seq<Addr>, charged: map<Addr, nat>, h: Addr)
    requires h in order
    ensures Charge(charged, h) <= Sum(order, charged)
  {
    var o, l := order[..|order| - 1], order[|order| - 1];
    assert order == o + [l];
    if h != l {
      OneOfSum(o, charged, h);
    }
  }

  lemma {:induction false} SumSame(order: seq<Addr>, c: map<Addr, nat>, d: map<Addr, nat>)
    requires forall h :: h in order ==> Charge(c, h) == Charge(d, h)
    ensures Sum(order, c) == Sum(order, d)
  {
    if order != [] {
      SumSame(order[..|order| - 1], c, d);
    }
  }

  lemma SumPush(order: seq<Addr>, c: map<Addr, nat>, h: Addr, x: nat)
    requires h !in order
    ensures Sum(order + [h], c[h := x]) == Sum(order, c) + x
  {
    assert (order + [h])[..|order|] == order;
    SumSame(order, c, c[h := x]);
  }

  lemma {:induction false} SumTake(order: seq<Addr>, c: map<Addr, nat>, k: nat)
    requires NoDup(order) && k < |order|
    ensures Sum(Without(order, k), c - {order[k]}) == Sum(order, c) - Charge(c, order[k])
    ensures Charge(c, order[k]) <= Sum(order, c)
  {
    var o, l := order[..|order| - 1], order[|order| - 1];
    var d := c - {order[k]};
    if k == |order| - 1 {
      assert Without(order, k) == o;
      SumSame(o, c, d);
    } else {
      SumTake(o, c, k);
      assert Without(order, k) == Without(o, k) + [l];
      assert Without(order, k)[..|order| - 2] == Without(o, k);
    }
  }

  // ---------------------------------------------------------------- the list

  lemma ChainPush(order: seq<Addr>, first: Addr, last: Addr, next: seq<Addr>, prev: seq<Addr>,
                  h: Addr, first': Addr, next': seq<Addr>, prev': seq<Addr>)
    requires Chain(order, first, last, next, prev) && NoDup(order) && h !in order
    requires |next| == |prev| && Node(h) < |next|
    requires if last == 0 then first' == Node(h) && next' == next[Node(h) := 0]
             else first' == first && last < |next| && next' == next[last := Node(h)][Node(h) := 0]
    requires prev' == prev[Node(h) := last]
    ensures Chain(order + [h], first', Node(h), next', prev')
  {
    forall k | 0 <= k < |order| + 1
      ensures ChainAt(order + [h], next', prev', k)
    {
      if k < |order| {
        assert ChainAt(order, next, prev, k);
        assert order[k] in order;
      }
    }
  }

  // The two neighbours of a node, or the ends of the list, point past it.
  ghost predicate Bypassed(order: seq<Addr>, k: nat, first: Addr, last: Addr, next: seq<Addr>, prev: seq<Addr>,
                           first': Addr, last': Addr, next': seq<Addr>, prev': seq<Addr>)
    requires k < |order|
  {
    var cur := Node(order[k]);
    && cur < |next| == |prev| == |next'| == |prev'|
    && first' == (if k == 0 then next[cur] else first)
    && last' == (if k + 1 == |order| then prev[cur] else last)
    && (forall x :: 0 <= x < |next| && x != cur ==>
          next'[x] == if k > 0 && x == Node(order[k - 1]) then next[cur] else next[x])
    && (forall x :: 0 <= x < |prev| && x != cur ==>
          prev'[x] == if k + 1 < |order| && x == Node(order[k + 1]) then prev[cur] else prev[x])
  }

  lemma ChainDrop(order: seq<Addr>, k: nat, first: Addr, last: Addr, next: seq<Addr>, prev: seq<Addr>,
                  first': Addr, last': Addr, next': seq<Addr>, prev': seq<Addr>)
    requires k < |order| && Chain(order, first, last, next, prev) && NoDup(order)
    requires Bypassed(order, k, first, last, next, prev, first', last', next', prev')
    ensures Chain(Without(order, k), first', last', next', prev')
  {
    hide Chain, Bypassed;
    var d := Without(order, k);
    Ends(order, k, first, last, next, prev, first', last', next', prev');
    forall j | 0 <= j < |d|
      ensures ChainAt(d, next', prev', j)
    {
      DropAt(order, k, first, last, next, prev, first', last', next', prev', j);
    }
    ChainIntro(d, first', last', next', prev');
  }

  lemma ChainIntro(order: seq<Addr>, first: Addr, last: Addr, next: seq<Addr>, prev: seq<Addr>)
    requires first == (if order == [] then 0 else Node(order[0]))
    requires last == (if order == [] then 0 else Node(order[|order| - 1]))
    requires forall k :: 0 <= k < |order| ==> ChainAt(order, next, prev, k)
    ensures Chain(order, first, last, next, prev)
  {
    hide ChainAt;
  }

  lemma ChainIs(order: seq<Addr>, first: Addr, last: Addr, next: seq<Addr>, prev: seq<Addr>, k: nat)
    requires Chain(order, first, last, next, prev) && k < |order|
    ensures ChainAt(order, next, prev, k)
    ensures first == Node(order[0]) && last == Node(order[|order| - 1])
  {
    hide ChainAt;
  }

  lemma Ends(order: seq<Addr>, k: nat, first: Addr, last: Addr, next: seq<Addr>, prev: seq<Addr>,
             first': Addr, last': Addr, next': seq<Addr>, prev': seq<Addr>)
    requires k < |order| && Chain(order, first, last, next, prev)
    requires Bypassed(order, k, first, last, next, prev, first', last', next', prev')
    ensures var d := Without(order, k);
      && first' == (if d == [] then 0 else Node(d[0]))
      && last' == (if d == [] then 0 else Node(d[|d| - 1]))
  {
    hide Chain;
    ChainIs(order, first, last, next, prev, k);
  }

  lemma DropAt(order: seq<Addr>, k: nat, first: Addr, last: Addr, next: seq<Addr>, prev: seq<Addr>,
               first': Addr, last': Addr, next': seq<Addr>, prev': seq<Addr>, j: nat)
    requires k < |order| && Chain(order, first, last, next, prev) && NoDup(order)
    requires Bypassed(order, k, first, last, next, prev, first', last', next', prev')
    requires j < |Without(order, k)|
    ensures ChainAt(Without(order, k), next', prev', j)
  {
    hide Chain;
    ChainIs(order, first, last, next, prev, k);
    var i := if j < k then j else j + 1;
    ChainIs(order, first, last, next, prev, i);
    assert Without(order, k)[j] == order[i];
  }

  // ------------------------------------------------------------- mem_alloc

  // memset(to, 0, n) in the chunk p
  method Memset(M: Mstate, p: Addr, to: Addr, n: nat)
    requires M.Inv() && |M.data| == M.end && p in M.Live() && p !in M.keep
    requires p + 16 <= to && to + n <= p + M.Live()[p]
    modifies M`head, M`foot, M`fd, M`bk, M`child0, M`child1, M`parent, M`index, M`data
    ensures M.Inv() && M.Live() == old(M.Live()) && IsZeroed(old(M.data), M.data, to, n)
    ensures Untouched(M.Live() - {p}, old(M.data), M.data)
    ensures OnlyTouched(old(M.Cols()), M.Cols(), to - 16, n + 16)
  {
    hide BinInv, TagInv, Agree, Used, Mstate.Sound, Untouched, OnlyTouched, TagsGuarded, LinksGuarded;
    var noise: Columns := *;
    ghost var data := M.data;
    PutBytes(M, p, to, seq(n, _ => 0), noise);
    Zeroed(data, M.data, to, n);
  }

  // Where n bytes have been cleared.
  ghost predicate IsZeroed(data: seq<bv8>, data': seq<bv8>, to: Addr, n: nat) {
    OnlyWithin(data, data', to, to + n) && ZeroFrom(data', to, to + n)
  }

  ghost predicate ZeroFrom(data: seq<bv8>, a: Addr, z: Addr) {
    z <= |data| && forall i :: a <= i < z ==> data[i] == 0
  }

  lemma Zeroed(data: seq<bv8>, data': seq<bv8>, to: Addr, n: nat)
    requires to + n <= |data| && data' == Overwritten(data, to, seq(n, _ => 0))
    ensures IsZeroed(data, data', to, n)
  {
  }

  // The new chunk p is cleared, and nothing else.
  method ClearBlock(M: Mstate, p: Addr, n: nat, ghost live: map<Addr, nat>)
    requires M.Inv() && |M.data| == M.end && p !in live && p in M.Live() && M.Live() == live[p := M.Live()[p]]
    requires n + CHUNK_OVERHEAD <= M.Live()[p] && p !in M.keep
    modifies M`head, M`foot, M`fd, M`bk, M`child0, M`child1, M`parent, M`index, M`data
    ensures M.Inv() && |M.data| == M.end && M.Live() == old(M.Live())
    ensures Untouched(live, old(M.data), M.data) && ZeroFrom(M.data, p + 16, p + 16 + n)
  {
    hide BinInv, TagInv, Agree, Used, ChunkOk, Payload, Mstate.Sound, OnlyTouched, TagsGuarded, LinksGuarded, Untouched;
    Memset(M, p, p + 16, n);
    assert M.Live() - {p} == live;
  }

  // The counter or the space has no room for a block of xsz bytes.
  ghost predicate NoBlock(W: Memspace, xsz: nat)
    reads W, W.spc
  {
    || W.free < xsz || xsz >= MAX_REQUEST
    || Exhausted(W.spc.b.of, W.spc.dvsize, W.spc.topsize, Request2Size(xsz))
  }

  // The block at p is new, charged with its header, last on the list, and
  // cleared; nothing else changed.
  ghost predicate NewBlock(a: Books, b: Books, p: Addr, size: nat) {
    && p > 16 + HEADER && p - HEADER !in a.order
    && b.order == a.order + [p - HEADER]
    && b.charged == a.charged[p - HEADER := size + HEADER]
    && b.free + size + HEADER == a.free && b.lost == a.lost
    && Allocated(a.live, b.live, p - HEADER - 16, Request2Size(size + HEADER))
    && Supplied(a.room, b.room, b.live, Request2Size(size + HEADER), p - HEADER - 16)
    && Untouched(a.live, a.data, b.data) && Unchanged(a.live, a.cols, b.cols)
    && |b.data| == |a.data| && ZeroFrom(b.data, p, p + size)
  }

  // The size with its header is computed in 64 bits. Where that wraps and there
  // is memory, the chunk is too short for the block, and the code goes on outside
  // of it; that is not modelled any further.
  method MemAlloc(W: Memspace, size: nat) returns (p: Addr, short: bool)
    requires W.Valid() && size < TWO64
    modifies W, W.spc
    ensures short <==> size + HEADER >= TWO64 && !old(NoBlock(W, (size + HEADER) % TWO64))
    ensures !short ==> W.Valid() && (p == 0 <==> old(NoBlock(W, (size + HEADER) % TWO64)))
    ensures !short && p == 0 ==> W.View() == old(W.View())
    ensures !short && p != 0 ==> NewBlock(old(W.View()), W.View(), p, size)
    ensures !short && old(Conserving(W)) ==> (Conserving(W) <==> p == 0 || size + HEADER < TWO32)
  {
    hide BinInv, TagInv, Agree, Used, Chain, AllBlocks, Mstate.Sound, TagsGuarded, LinksGuarded, NewBlock, NoBlock,
         Conserving;
    ghost var a := W.View();
    Conserved(W);
    p, short := TryAlloc(W, size);
    if !short {
      Conserved(W);
      if p != 0 && NothingCut(a) { NewBlockCut(a, W.View(), p, size); }
    }
  }

  method TryAlloc(W: Memspace, size: nat) returns (p: Addr, short: bool)
    requires W.Valid() && size < TWO64
    modifies W, W.spc
    ensures short <==> size + HEADER >= TWO64 && !old(NoBlock(W, (size + HEADER) % TWO64))
    ensures !short ==> W.Valid() && (p == 0 <==> old(NoBlock(W, (size + HEADER) % TWO64)))
    ensures !short && p == 0 ==> W.View() == old(W.View())
    ensures !short && p != 0 ==> NewBlock(old(W.View()), W.View(), p, size)
  {
    hide BinInv, TagInv, Agree, Used, ChunkOk, Untouched, Unchanged, Chain, AllBlocks, Mstate.Sound, Request2Size,
         Exhausted, Allocated, After, ZeroFrom, TagsGuarded, LinksGuarded, Supplied, Chosen, SizeGot;
    p, short := 0, false;
    var xsz := (size + HEADER) % TWO64;
    if W.free < xsz {
      return;
    }
    ghost var live := W.spc.Live();
    var nb := NewChunk(W.spc, xsz);
    if nb == 0 {
      return;
    }
    if size + HEADER >= TWO64 {
      short := true;
      return;
    }
    FitsRequest(live, W.spc.Live(), nb - 16, xsz);
    AddBlock(W, nb, xsz, live);
    LessZero(W.spc.data, nb, nb + HEADER, nb + xsz);
    p := nb + HEADER;
  }

  // A chunk for xsz bytes, cleared, while all others are watched.
  method NewChunk(M: Mstate, xsz: nat) returns (nb: Addr)
    requires M.Inv() && |M.data| == M.end && M.keep == map[] && xsz < TWO64
    modifies M
    ensures M.Inv() && |M.data| == M.end && M.keep == map[]
    ensures nb == 0 <==> xsz >= MAX_REQUEST || old(Exhausted(M.b.of, M.dvsize, M.topsize, Request2Size(xsz)))
    ensures nb == 0 ==>
      M.Live() == old(M.Live()) && M.data == old(M.data) && M.Cols() == old(M.Cols()) && RoomOf(M) == old(RoomOf(M))
    ensures nb != 0 ==> nb > 16 && Allocated(old(M.Live()), M.Live(), nb - 16, Request2Size(xsz))
    ensures nb != 0 ==> Supplied(old(RoomOf(M)), RoomOf(M), M.Live(), Request2Size(xsz), nb - 16)
    ensures nb != 0 ==>
      Untouched(old(M.Live()), old(M.data), M.data) && Unchanged(old(M.Live()), old(M.Cols()), M.Cols())
    ensures nb != 0 ==> ZeroFrom(M.data, nb, nb + xsz)
  {
    hide BinInv, TagInv, Agree, Used, ChunkOk, Untouched, Unchanged, Mstate.Sound, Request2Size, Exhausted, Chosen,
         After, ZeroFrom, TagsGuarded, LinksGuarded;
    ghost var live := M.Live();
    Begin(M, live);
    nb := MspaceMalloc(M, xsz);
    if nb != 0 {
      FitsRequest(live, M.Live(), nb - 16, xsz);
      ClearBlock(M, nb - 16, xsz, live);
      StillUnchanged(M);
    }
    Begin(M, map[]);
  }

  lemma LessZero(data: seq<bv8>, a: Addr, b: Addr, z: Addr)
    requires ZeroFrom(data, a, z) && a <= b
    ensures ZeroFrom(data, b, z)
  {
  }

  lemma FitsRequest(live: map<Addr, nat>, live': map<Addr, nat>, p: Addr, bytes: nat)
    requires Allocated(live, live', p, Request2Size(bytes))
    ensures p !in live && p in live' && live' == live[p := live'[p]] && bytes + CHUNK_OVERHEAD <= live'[p]
  {
    SizeFits(bytes);
  }

  // Fill in the header at nb, charge for the block, and append it to the list.
  method AddBlock(W: Memspace, nb: Addr, xsz: nat, ghost live: map<Addr, nat>)
    requires W.spc.Inv() && |W.spc.data| == W.spc.end && W.spc.keep == map[]
    requires |W.magic| == |W.sz| == |W.next| == |W.prev| == W.spc.end
    requires AllBlocks(live, W.charged, W.magic, W.sz, W.order) && Chain(W.order, W.first, W.last, W.next, W.prev)
    requires W.free + Sum(W.order, W.charged) + W.lost == W.rsz && HEADER <= xsz <= W.free
    requires W.rsz < TWO32 ==> W.lost == 0
    requires nb >= 16 && nb - 16 !in live && nb - 16 in W.spc.Live()
      && W.spc.Live() == live[nb - 16 := W.spc.Live()[nb - 16]]
    requires xsz + CHUNK_OVERHEAD <= W.spc.Live()[nb - 16]
    modifies W
    ensures W.Valid() && W.lost == old(W.lost) && nb !in old(W.order)
    ensures W.order == old(W.order) + [nb] && W.charged == old(W.charged)[nb := xsz] && W.free == old(W.free) - xsz
  {
    hide BinInv, TagInv, Agree, Used, ChunkOk, Chain, AllBlocks, Mstate.Sound, TagsGuarded, LinksGuarded, Sum, NoDup;
    SizeIs(W.spc, nb - 16);
    FreshBlock(live, W.charged, W.magic, W.sz, W.order, nb);
    W.magic := W.magic[nb := MAGIC];
    W.sz := W.sz[nb := xsz % TWO32];
    W.free := W.free - xsz;
    BlocksPush(live, W.spc.Live(), old(W.charged), old(W.magic), old(W.sz), W.order, W.magic, W.sz, nb, xsz);
    SumPush(W.order, W.charged, nb, xsz);
    W.charged := W.charged[nb := xsz];
    LinkLast(W, nb);
  }

  lemma FreshBlock(live: map<Addr, nat>, charged: map<Addr, nat>, magic: seq<nat>, sz: seq<nat>, order: seq<Addr>,
                   h: Addr)
    requires AllBlocks(live, charged, magic, sz, order) && h >= 16 && h - 16 !in live
    ensures h !in order && NoDup(order)
  {
    if h in order { BlockIs(live, charged, magic, sz, order, h); }
  }

  lemma BlockIs(live: map<Addr, nat>, charged: map<Addr, nat>, magic: seq<nat>, sz: seq<nat>, order: seq<Addr>, h: Addr)
    requires AllBlocks(live, charged, magic, sz, order) && h in order
    ensures BlockOk(live, charged, magic, sz, h) && NoDup(order)
  {
  }

  lemma BlocksPush(live: map<Addr, nat>, live': map<Addr, nat>, charged: map<Addr, nat>, magic: seq<nat>,
                   sz: seq<nat>, order: seq<Addr>,
                   magic': seq<nat>, sz': seq<nat>, h: Addr, xsz: nat)
    requires AllBlocks(live, charged, magic, sz, order) && h >= 16 && h - 16 !in live && h !in order
    requires h < |magic| && h < |sz| && magic' == magic[h := MAGIC] && sz' == sz[h := xsz % TWO32]
    requires h - 16 in live' && live' == live[h - 16 := live'[h - 16]] && HEADER <= xsz
      && xsz + CHUNK_OVERHEAD <= live'[h - 16]
    ensures AllBlocks(live', charged[h := xsz], magic', sz', order + [h])
  {
    forall g | g in order + [h]
      ensures BlockOk(live', charged[h := xsz], magic', sz', g)
    {
      if g != h {
        assert g in order;
        assert BlockOk(live, charged, magic, sz, g);
      }
    }
    forall p | p in live'
      ensures p + 16 in order + [h]
    {
      if p in live { assert p + 16 in order; }
    }
  }

  // The node of h goes to the end of the list.
  method LinkLast(W: Memspace, h: Addr)
    requires Chain(W.order, W.first, W.last, W.next, W.prev) && NoDup(W.order) && h !in W.order
    requires |W.next| == |W.prev| && Node(h) < |W.next|
    modifies W`first, W`last, W`next, W`prev, W`order
    ensures W.order == old(W.order) + [h] && Chain(W.order, W.first, W.last, W.next, W.prev)
    ensures |W.next| == |old(W.next)| && |W.prev| == |old(W.prev)|
  {
    hide Chain;
    LastIs(W.order, W.first, W.last, W.next, W.prev);
    var cur := Node(h);
    var t := W.last;
    if t != 0 {
      W.next := W.next[t := cur];
    } else {
      W.first := cur;
    }
    W.next := W.next[cur := 0];
    W.prev := W.prev[cur := t];
    W.last := cur;
    ChainPush(W.order, old(W.first), t, old(W.next), old(W.prev), h, W.first, W.next, W.prev);
    W.order := W.order + [h];
  }

  lemma LastIs(order: seq<Addr>, first: Addr, last: Addr, next: seq<Addr>, prev: seq<Addr>)
    requires Chain(order, first, last, next, prev)
    ensures last != 0 ==> last < |next| && last < |prev|
    ensures first != 0 ==> first < |next| && first < |prev|
    ensures last == 0 <==> order == []
  {
    if order != [] {
      assert ChainAt(order, next, prev, |order| - 1);
      assert ChainAt(order, next, prev, 0);
    }
  }

  // -------------------------------------------------------------- mem_free

  // The node at position k leaves the list.
  method UnlinkBlock(W: Memspace, cur: Addr, ghost k: nat)
    requires k < |W.order| && cur == Node(W.order[k]) && Chain(W.order, W.first, W.last, W.next, W.prev)
      && NoDup(W.order)
    requires |W.next| == |W.prev|
    modifies W`first, W`last, W`next, W`prev, W`order
    ensures W.order == Without(old(W.order), k) && Chain(W.order, W.first, W.last, W.next, W.prev)
    ensures |W.next| == |old(W.next)| && |W.prev| == |old(W.prev)|
  {
    hide Chain, Bypassed;
    AroundNode(W.order, W.first, W.last, W.next, W.prev, k);
    var t := W.prev[cur];
    if t == 0 {
      W.first := W.next[cur];
    } else {
      W.next := W.next[t := W.next[cur]];
    }
    t := W.next[cur];
    if t == 0 {
      W.last := W.prev[cur];
    } else {
      W.prev := W.prev[t := W.prev[cur]];
    }
    W.next := W.next[cur := 0];
    W.prev := W.prev[cur := 0];
    IsBypassed(W.order, k, old(W.first), old(W.last), old(W.next), old(W.prev), W.first, W.last, W.next, W.prev);
    ChainDrop(W.order, k, old(W.first), old(W.last), old(W.next), old(W.prev), W.first, W.last, W.next, W.prev);
    W.order := Without(W.order, k);
  }

  lemma AroundNode(order: seq<Addr>, first: Addr, last: Addr, next: seq<Addr>, prev: seq<Addr>, k: nat)
    requires Chain(order, first, last, next, prev) && k < |order| && NoDup(order)
    ensures var cur := Node(order[k]);
      && cur < |next| && cur < |prev| && next[cur] != cur && prev[cur] != cur
      && prev[cur] == (if k > 0 then Node(order[k - 1]) else 0) && (prev[cur] != 0 ==> prev[cur] < |next|)
      && next[cur] == (if k + 1 < |order| then Node(order[k + 1]) else 0) && (next[cur] != 0 ==> next[cur] < |prev|)
  {
    hide Chain;
    ChainIs(order, first, last, next, prev, k);
    if k > 0 { ChainIs(order, first, last, next, prev, k - 1); }
    if k + 1 < |order| { ChainIs(order, first, last, next, prev, k + 1); }
  }

  lemma IsBypassed(order: seq<Addr>, k: nat, first: Addr, last: Addr, next: seq<Addr>, prev: seq<Addr>,
                   first': Addr, last': Addr, next': seq<Addr>, prev': seq<Addr>)
    requires k < |order| && Chain(order, first, last, next, prev) && NoDup(order) && |next| == |prev|
    requires Node(order[k]) < |next|
    requires var cur := Node(order[k]); var before, after := prev[cur], next[cur];
      && (before != 0 ==> before < |next|) && (after != 0 ==> after < |prev|)
      && first' == (if before == 0 then after else first)
      && last' == (if after == 0 then before else last)
      && next' == (if before == 0 then next else next[before := after])[cur := 0]
      && prev' == (if after == 0 then prev else prev[after := before])[cur := 0]
    ensures Bypassed(order, k, first, last, next, prev, first', last', next', prev')
  {
    hide Chain;
    AroundNode(order, first, last, next, prev, k);
  }

  lemma BlocksDrop(live: map<Addr, nat>, charged: map<Addr, nat>, magic: seq<nat>, sz: seq<nat>, order: seq<Addr>,
                   k: nat)
    requires AllBlocks(live, charged, magic, sz, order) && k < |order|
    ensures order[k] >= 16
    ensures AllBlocks(live - {order[k] - 16}, charged - {order[k]}, magic, sz, Without(order, k))
  {
    var d := Without(order, k);
    assert BlockOk(live, charged, magic, sz, order[k]);
    forall i, j | 0 <= i < j < |d|
      ensures d[i] != d[j]
    {
      assert d[i] == order[if i < k then i else i + 1];
      assert d[j] == order[if j < k then j else j + 1];
    }
    forall h | h in d
      ensures BlockOk(live - {order[k] - 16}, charged - {order[k]}, magic, sz, h)
    {
      var j :| 0 <= j < |d| && d[j] == h;
      assert d[j] == order[if j < k then j else j + 1];
      assert BlockOk(live, charged, magic, sz, h);
    }
    forall p | p in live && p != order[k] - 16
      ensures p + 16 in d
    {
      WithoutHas(order, k, p + 16);
    }
  }

  // A block that is on the list.
  lemma BlockAt(W: Memspace, h: Addr) returns (k: nat)
    requires W.Valid() && h in W.order
    ensures k < |W.order| && W.order[k] == h && k == IndexOf(W.order, h)
    ensures BlockOk(W.spc.Live(), W.charged, W.magic, W.sz, h)
    ensures NoDup(W.order) && Node(h) < W.spc.end
  {
    hide Chain, Mstate.Sound, IndexOf;
    k := IndexOf(W.order, h);
    assert BlockOk(W.spc.Live(), W.charged, W.magic, W.sz, h);
    SizeIs(W.spc, h - 16);
  }

  // A block whose magic is gone is refused; any other is taken off the list
  // and its size given back to the counter.
  method MemFree(W: Memspace, mb: Addr) returns (r: int)
    requires W.Valid() && HEADER <= mb < |W.magic| + HEADER
    requires W.magic[mb - HEADER] == MAGIC ==> mb - HEADER in W.order
    modifies W, W.spc
    ensures W.Valid()
    ensures r == if old(W.magic[mb - HEADER]) == MAGIC then 0 else 1
    ensures r != 0 ==> W.View() == old(W.View())
    ensures r == 0 ==> Freed(old(W.View()), W.View(), mb - HEADER)
    ensures old(Conserving(W)) ==> Conserving(W)
  {
    hide BinInv, TagInv, Agree, Used, Chain, AllBlocks, Mstate.Sound, TagsGuarded, LinksGuarded, Freed, Conserving;
    ghost var a := W.View();
    Conserved(W);
    r := TryFree(W, mb);
    Conserved(W);
    if r == 0 && NothingCut(a) { FreedCut(a, W.View(), mb - HEADER); }
  }

  method TryFree(W: Memspace, mb: Addr) returns (r: int)
    requires W.Valid() && HEADER <= mb < |W.magic| + HEADER
    requires W.magic[mb - HEADER] == MAGIC ==> mb - HEADER in W.order
    modifies W, W.spc
    ensures W.Valid()
    ensures r == if old(W.magic[mb - HEADER]) == MAGIC then 0 else 1
    ensures r != 0 ==> W.View() == old(W.View())
    ensures r == 0 ==> Freed(old(W.View()), W.View(), mb - HEADER)
  {
    hide BinInv, TagInv, Agree, Used, ChunkOk, Chain, AllBlocks, Mstate.Sound, IndexOf, NoDup, Unchanged, TagsGuarded,
         LinksGuarded, AfterRelease;
    var mh := mb - HEADER;
    if W.magic[mh] != MAGIC {
      return 1;
    }
    ghost var k := BlockAt(W, mh);
    BlocksDrop(W.spc.Live(), W.charged, W.magic, W.sz, W.order, k);
    SumTake(W.order, W.charged, k);
    UnlinkBlock(W, Node(mh), k);
    var size := W.sz[mh];
    GiveBack(W.spc, mh);
    W.free := W.free + size;
    W.lost := W.lost + (Charge(W.charged, mh) - size);
    W.charged := W.charged - {mh};
    r := 0;
  }

  // A chunk is freed, while all others are watched.
  method GiveBack(M: Mstate, mh: Addr)
    requires M.Inv() && M.keep == map[] && mh >= 16 && mh - 16 in M.Live()
    modifies M
    ensures M.Inv() && M.keep == map[] && M.Live() == old(M.Live()) - {mh - 16}
    ensures Untouched(M.Live(), old(M.data), M.data) && |M.data| == |old(M.data)|
    ensures Unchanged(old(M.Live()) - {mh - 16}, old(M.Cols()), M.Cols())
    ensures RoomOf(M) == AfterRelease(old(RoomOf(M)), mh - 16, old(M.Live()[mh - 16]))
  {
    hide BinInv, TagInv, Agree, Used, ChunkOk, Unchanged, Mstate.Sound, TagsGuarded, LinksGuarded, AfterRelease;
    Begin(M, M.Live() - {mh - 16});
    MspaceFree(M, mh);
    StillUnchanged(M);
    Begin(M, map[]);
  }

  // The block at h is gone; the counter regains its charge, but for what a
  // 32-bit size cannot hold.
  ghost predicate Freed(a: Books, b: Books, h: Addr) {
    && h in a.order && b.order == Without(a.order, IndexOf(a.order, h))
    && h in a.charged && b.charged == a.charged - {h}
    && b.free == a.free + a.charged[h] % TWO32
    && b.lost == a.lost + (a.charged[h] - a.charged[h] % TWO32)
    && h >= 16 && b.live == a.live - {h - 16}
    && b.room == AfterRelease(a.room, h - 16, SizeHeld(a.live, h - 16))
    && Untouched(b.live, a.data, b.data) && |b.data| == |a.data| && Unchanged(a.live - {h - 16}, a.cols, b.cols)
  }

  // ------------------------------------------------------------ mem_realloc

  // Clear n bytes at to, in the chunk p, then write text there.
  method Refill(M: Mstate, p: Addr, to: Addr, n: nat, text: seq<bv8>)
    requires M.Inv() && |M.data| == M.end && p in M.Live() && p !in M.keep && |text| <= n
    requires p + 16 <= to && to + n <= p + M.Live()[p]
    modifies M`head, M`foot, M`fd, M`bk, M`child0, M`child1, M`parent, M`index, M`data
    ensures M.Inv() && M.Live() == old(M.Live()) && |M.data| == M.end
    ensures Untouched(M.Live() - {p}, old(M.data), M.data)
    ensures OnlyTouched(old(M.Cols()), M.Cols(), to - 16, n + 16)
    ensures HasText(M.data, to, text) && ZeroFrom(M.data, to + |text|, to + n)
  {
    hide BinInv, TagInv, Agree, Used, ChunkOk, Mstate.Sound, Untouched, OnlyTouched, Overwritten, TagsGuarded,
         LinksGuarded;
    ghost var cols, data := M.Cols(), M.data;
    Memset(M, p, to, n);
    ghost var cols1, data1 := M.Cols(), M.data;
    var noise: Columns := *;
    PutBytes(M, p, to, text, noise);
    TouchedMore(cols1, M.Cols(), to - 16, |text| + 16, n + 16);
    TouchedTwice(cols, cols1, M.Cols(), to - 16, n + 16);
    UntouchedTwice(M.Live() - {p}, data, data1, M.data);
    TextIn(data1, M.data, to, text, to + n);
  }

  ghost predicate HasText(data: seq<bv8>, to: Addr, text: seq<bv8>) {
    to + |text| <= |data| && data[to..to + |text|] == text
  }

  lemma TextIn(data: seq<bv8>, data': seq<bv8>, to: Addr, text: seq<bv8>, z: Addr)
    requires to + |text| <= |data| && data' == Overwritten(data, to, text) && ZeroFrom(data, to, z)
    ensures HasText(data', to, text) && ZeroFrom(data', to + |text|, z)
  {
  }

  lemma TouchedMore(a: Columns, b: Columns, p: Addr, s: nat, t: nat)
    requires OnlyTouched(a, b, p, s) && s <= t
    ensures OnlyTouched(a, b, p, t)
  {
  }

  lemma TouchedTwice(a: Columns, b: Columns, c: Columns, p: Addr, s: nat)
    requires OnlyTouched(a, b, p, s) && OnlyTouched(b, c, p, s)
    ensures OnlyTouched(a, c, p, s)
  {
  }

  // How much of a block charged c survives a change to size bytes.
  ghost function KeptBytes(c: nat, size: nat): nat {
    Min(Min(c % TWO32, size), if HEADER <= c then c - HEADER else 0)
  }

  lemma BelowFoot(M: Mstate, p: Addr)
    requires M.Inv() && p in M.Live()
    ensures p + M.Live()[p] + TOP_FOOT_SIZE <= M.end
  {
    hide BinInv, TagInv, ChunkOk, TagsGuarded, LinksGuarded;
    InUse(M, M.Dv(), p);
    Parts(M, M.Dv());
    TagBounds(M.G());
    At(M.G(), p);
    BelowTop(M.G());
  }

  // The block of size bytes at nmem begins like the one at ptr, charged c, and
  // ends in zeros from there on.
  ghost predicate Refilled(data: seq<bv8>, data': seq<bv8>, ptr: Addr, nmem: Addr, c: nat, size: nat) {
    var n := KeptBytes(c, size);
    && |data'| == |data| && ptr + n <= |data| && nmem + n <= |data|
    && data'[nmem..nmem + n] == data[ptr..ptr + n]
    && ZeroFrom(data', nmem + Min(c % TWO32, size), nmem + size)
  }

  // Fill the new block at nmem from the old one at ptr. Sizes include headers,
  // so the copy runs past a block that does not shrink; what it picks up there is
  // left open.
  method CopyOver(W: Memspace, ptr: Addr, nmem: Addr, size: nat, ghost live: map<Addr, nat>)
    requires W.Valid() && HEADER <= ptr && ptr - HEADER in W.order && 16 + HEADER <= nmem && nmem - HEADER in W.order
    requires W.spc.Live() == live[nmem - HEADER - 16 := W.spc.Live()[nmem - HEADER - 16]]
    requires nmem - HEADER - 16 !in live && ptr >= HEADER + 16 && ptr - HEADER - 16 in live
    requires nmem - HEADER in W.charged && W.charged[nmem - HEADER] == size + HEADER
    modifies W.spc
    ensures W.Valid() && W.spc.Live() == old(W.spc.Live())
    ensures Untouched(live, old(W.spc.data), W.spc.data) && Unchanged(live, old(W.spc.Cols()), W.spc.Cols())
    ensures Refilled(old(W.spc.data), W.spc.data, ptr, nmem, Charge(W.charged, ptr - HEADER), size)
    ensures OnlyTouched(old(W.spc.Cols()), W.spc.Cols(), nmem - 16, size + 16)
    ensures RoomOf(W.spc) == old(RoomOf(W.spc))
  {
    hide BinInv, TagInv, Agree, Used, ChunkOk, Chain, AllBlocks, Mstate.Sound, IndexOf, NoDup, Untouched, Unchanged,
         OnlyTouched, Refilled, KeptBytes, ZeroFrom, OnlyWithin, TagsGuarded, LinksGuarded, HasText, StartsLike;
    var mh := ptr - HEADER;
    ghost var data := W.spc.data;
    CopyRoom(W, ptr, nmem, size);
    ChargeFits(W, mh);
    var text := FillOver(W.spc, mh - 16, nmem - HEADER - 16, ptr, nmem, size,
      if W.sz[mh] > size then size else W.sz[mh], live);
    RefilledIs(data, W.spc.data, ptr, nmem, Charge(W.charged, mh), size, text,
      Min(|text|, mh - 16 + W.spc.Live()[mh - 16] - ptr));
  }

  // Clear size bytes at nmem, in the chunk p', and write the c bytes at ptr there;
  // those that do not belong to the chunk p are left open.
  method FillOver(M: Mstate, p: Addr, p': Addr, ptr: Addr, nmem: Addr, size: nat, c: nat, ghost live: map<Addr, nat>)
    returns (text: seq<bv8>)
    requires M.Inv() && |M.data| == M.end && M.keep == map[] && p in M.Live() && p' in M.Live()
    requires p' !in live && M.Live() == live[p' := M.Live()[p']]
    requires p + 16 <= ptr <= p + M.Live()[p] && p' + 16 <= nmem && nmem + size <= p' + M.Live()[p'] && c <= size
    modifies M`keep, M`was, M`head, M`foot, M`fd, M`bk, M`child0, M`child1, M`parent, M`index, M`data
    ensures M.Inv() && |M.data| == M.end && M.keep == map[] && M.Live() == old(M.Live())
    ensures Untouched(live, old(M.data), M.data) && Unchanged(live, old(M.Cols()), M.Cols())
    ensures OnlyTouched(old(M.Cols()), M.Cols(), nmem - 16, size + 16)
    ensures |text| == c && StartsLike(text, old(M.data), ptr, Min(c, p + M.Live()[p] - ptr))
    ensures HasText(M.data, nmem, text) && ZeroFrom(M.data, nmem + c, nmem + size)
  {
    hide BinInv, TagInv, Agree, Used, ChunkOk, Mstate.Sound, Untouched, Unchanged, OnlyTouched, ZeroFrom, HasText,
         TagsGuarded, LinksGuarded;
    text := BytesAt(M, p, ptr, c);
    Begin(M, live);
    Refill(M, p', nmem, size, text);
    StillUnchanged(M);
    Begin(M, map[]);
    assert M.Live() - {p'} == live;
  }

  ghost predicate StartsLike(text: seq<bv8>, data: seq<bv8>, from: Addr, n: nat) {
    n <= |text| && from + n <= |data| && text[..n] == data[from..from + n]
  }

  // The c bytes at from, of which those that belong to the chunk p are known.
  method BytesAt(M: Mstate, p: Addr, from: Addr, c: nat) returns (text: seq<bv8>)
    requires M.Inv() && |M.data| == M.end && p in M.Live() && p + 16 <= from <= p + M.Live()[p]
    ensures |text| == c && StartsLike(text, M.data, from, Min(c, p + M.Live()[p] - from))
  {
    hide BinInv, TagInv, Agree, Used, ChunkOk, Mstate.Sound, TagsGuarded, LinksGuarded;
    SizeIs(M, p);
    var beyond: seq<bv8> := *;
    var n := Min(c, p + M.head[p].size - from);
    text := M.data[from..from + n] + seq(c - n, i requires 0 <= i => if i < |beyond| then beyond[i] else 0);
  }

  lemma ChargeFits(W: Memspace, h: Addr)
    requires W.Valid() && h in W.order
    ensures h >= 16 && h - 16 in W.spc.Live() && HEADER <= Charge(W.charged, h)
      && Charge(W.charged, h) + 16 <= W.spc.Live()[h - 16]
  {
    hide BinInv, TagInv, Agree, Used, ChunkOk, Chain, AllBlocks, Mstate.Sound, IndexOf, NoDup, TagsGuarded,
         LinksGuarded;
    var k := BlockAt(W, h);
  }

  lemma RefilledIs(data: seq<bv8>, data': seq<bv8>, ptr: Addr, nmem: Addr, c: nat, size: nat, text: seq<bv8>, m: nat)
    requires |text| == Min(c % TWO32, size) && |data'| == |data| && HEADER <= c
    requires StartsLike(text, data, ptr, m) && Min(|text|, c - HEADER) <= m
    requires HasText(data', nmem, text) && ZeroFrom(data', nmem + |text|, nmem + size)
    ensures Refilled(data, data', ptr, nmem, c, size)
  {
    hide ZeroFrom;
    var n := Min(|text|, c - HEADER);
    assert data'[nmem..nmem + n] == data'[nmem..nmem + |text|][..n];
    assert text[..n] == text[..m][..n];
    assert data[ptr..ptr + n] == data[ptr..ptr + m][..n];
  }

  // Even a copy that runs past the old block, by the size of its header, stays
  // clear of the new one.
  lemma CopyRoom(W: Memspace, ptr: Addr, nmem: Addr, size: nat)
    requires W.Valid() && HEADER + 16 <= ptr && ptr - HEADER in W.order && 16 + HEADER <= nmem
      && nmem - HEADER in W.order
    requires nmem != ptr && nmem - HEADER in W.charged && W.charged[nmem - HEADER] == size + HEADER
    ensures ptr - HEADER < |W.sz| && ptr - HEADER in W.charged && W.sz[ptr - HEADER] == W.charged[ptr - HEADER] % TWO32
    ensures var c := Min(W.sz[ptr - HEADER], size);
      && nmem + size <= |W.spc.data| && ptr + c <= |W.spc.data|
      && (nmem + size <= ptr || ptr + c <= nmem)
    ensures nmem - HEADER - 16 in W.spc.Live() && nmem + size <= nmem - HEADER - 16 + W.spc.Live()[nmem - HEADER - 16]
    ensures |W.spc.data| == W.spc.end && W.spc.Inv()
  {
    hide BinInv, TagInv, Agree, Used, ChunkOk, Chain, AllBlocks, Mstate.Sound, IndexOf, NoDup, TagsGuarded,
         LinksGuarded;
    var p, p' := ptr - HEADER - 16, nmem - HEADER - 16;
    var k := BlockAt(W, ptr - HEADER);
    var k' := BlockAt(W, nmem - HEADER);
    LiveApart(W.spc, p, p');
    BelowFoot(W.spc, p);
    BelowFoot(W.spc, p');
  }

  // The block at ptr is freed, and the block at nmem is new and begins with
  // the same n bytes; it ends in zeros from the charged size of the old one on. As
  // freeing leaves nothing of a block, they have been copied before.
  ghost predicate Moved(a: Books, b: Books, ptr: Addr, nmem: Addr, size: nat, n: nat) {
    && HEADER <= ptr && 16 + HEADER < nmem
    && var h, h' := ptr - HEADER, nmem - HEADER;
       && h in a.order && h' !in a.order && b.order == Without(a.order, IndexOf(a.order, h)) + [h']
       && h in a.charged && b.charged == a.charged[h' := size + HEADER] - {h}
       && b.free + size + HEADER == a.free + a.charged[h] % TWO32
       && b.lost == a.lost + (a.charged[h] - a.charged[h] % TWO32)
       && h >= 16 && Reallocated(a.live, b.live, h - 16, h' - 16, Request2Size(size + HEADER))
       && MovedTo(a.room, b.room, a.live, b.live, h - 16, h' - 16, Request2Size(size + HEADER))
       && |b.data| == |a.data| && ptr + n <= |a.data| && nmem + n <= |a.data|
       && b.data[nmem..nmem + n] == a.data[ptr..ptr + n]
       && ZeroFrom(b.data, nmem + Min(a.charged[h] % TWO32, size), nmem + size)
       && Untouched(a.live - {h - 16}, a.data, b.data) && Unchanged(a.live - {h - 16}, a.cols, b.cols)
  }

  // Allocating, copying and freeing make a move.
  lemma MakesMove(a: Books, b: Books, d: Books, c: Books, ptr: Addr, nmem: Addr, size: nat)
    requires NewBlock(a, b, nmem, size) && HEADER + 16 <= ptr && ptr - HEADER in a.order && ptr - HEADER - 16 in a.live
    requires d == b.(data := d.data, cols := d.cols) && Freed(d, c, ptr - HEADER) && ptr - HEADER in a.charged
    requires Refilled(b.data, d.data, ptr, nmem, a.charged[ptr - HEADER], size)
    requires var n := KeptBytes(a.charged[ptr - HEADER], size);
      ptr + n <= |b.data| && b.data[ptr..ptr + n] == a.data[ptr..ptr + n]
    requires Untouched(a.live, b.data, d.data) && Unchanged(a.live, b.cols, d.cols)
    requires InItsChunk(b.live, nmem, size, |a.data|)
    ensures Moved(a, c, ptr, nmem, size, KeptBytes(Charge(a.charged, ptr - HEADER), size))
  {
    hide IndexOf, Payload, Request2Size, Without, KeptBytes, ZeroFrom, Unchanged, Untouched, Refilled, AfterRelease,
         After, Chosen, SizeGot;
    WithoutPush(a.order, ptr - HEADER, nmem - HEADER);
    assert c.charged == a.charged[nmem - HEADER := size + HEADER] - {ptr - HEADER};
    assert c.live == (a.live - {ptr - HEADER - 16})[nmem - HEADER - 16 := c.live[nmem - HEADER - 16]];
    OthersWatched(a.live, b.live, ptr - HEADER - 16, a.cols, b.cols, d.cols, c.cols);
    RefilledTells(b.data, d.data, ptr, nmem, a.charged[ptr - HEADER], size);
    StillRefilled(c.live, b.data, d.data, c.data, ptr, nmem, a.charged[ptr - HEADER], size);
    OthersKeepAll(a, b, d, c, ptr - HEADER - 16);
    RefilledTells(b.data, c.data, ptr, nmem, a.charged[ptr - HEADER], size);
  }

  lemma RefilledTells(data: seq<bv8>, data': seq<bv8>, ptr: Addr, nmem: Addr, c: nat, size: nat)
    requires Refilled(data, data', ptr, nmem, c, size)
    ensures var n := KeptBytes(c, size);
      && |data'| == |data| && ptr + n <= |data| && nmem + n <= |data|
      && data'[nmem..nmem + n] == data[ptr..ptr + n]
    ensures ZeroFrom(data', nmem + Min(c % TWO32, size), nmem + size)
  {
  }

  // The new block is as it was filled when the old one has been freed.
  lemma StillRefilled(live: map<Addr, nat>, b: seq<bv8>, d: seq<bv8>, c: seq<bv8>, ptr: Addr, nmem: Addr, charge: nat,
                      size: nat)
    requires Refilled(b, d, ptr, nmem, charge, size) && Untouched(live, d, c) && |c| == |d| && HEADER + 16 <= nmem
    requires InItsChunk(live, nmem, size, |d|)
    ensures Refilled(b, c, ptr, nmem, charge, size)
  {
    var n := KeptBytes(charge, size);
    BytesKept(live, d, c, nmem - HEADER - 16, nmem, size);
    assert c[nmem..nmem + n] == c[nmem..nmem + size][..n] && d[nmem..nmem + n] == d[nmem..nmem + size][..n];
    forall i | nmem + Min(charge % TWO32, size) <= i < nmem + size
      ensures c[i] == 0
    {
      assert c[i] == c[nmem..nmem + size][i - nmem] && d[i] == d[nmem..nmem + size][i - nmem];
    }
  }

  lemma OthersKeepAll(a: Books, b: Books, d: Books, c: Books, p: Addr)
    requires Untouched(a.live, a.data, b.data) && Untouched(a.live, b.data, d.data) && Untouched(c.live, d.data, c.data)
    requires forall q :: q in a.live && q != p ==> q in c.live && c.live[q] == a.live[q]
    ensures Untouched(a.live - {p}, a.data, c.data)
  {
    hide Payload;
    UntouchedTwice(a.live, a.data, b.data, d.data);
    UntouchedLess(a.live, a.live - {p}, a.data, d.data);
    UntouchedLess(c.live, a.live - {p}, d.data, c.data);
    UntouchedTwice(a.live - {p}, a.data, d.data, c.data);
  }

  lemma OthersWatched(live: map<Addr, nat>, live': map<Addr, nat>, p: Addr, a: Columns, b: Columns, d: Columns,
                      c: Columns)
    requires Unchanged(live, a, b) && Unchanged(live, b, d) && Unchanged(live' - {p}, d, c)
    requires forall q :: q in live ==> q in live' && live'[q] == live[q]
    ensures Unchanged(live - {p}, a, c)
  {
    hide Unchanged;
    UnchangedOn(live, live - {p}, a, b);
    UnchangedOn(live, live - {p}, b, d);
    UnchangedOn(live' - {p}, live - {p}, d, c);
    UnchangedTrans(live - {p}, a, b, d);
    UnchangedTrans(live - {p}, a, d, c);
  }

  // A block keeps its bytes when its chunk does.
  lemma BytesKept(live: map<Addr, nat>, data: seq<bv8>, data': seq<bv8>, p: Addr, from: Addr, n: nat)
    requires Untouched(live, data, data') && p in live && p + 16 <= from && from + n <= p + live[p] <= |data| == |data'|
    ensures data'[from..from + n] == data[from..from + n]
  {
    var a, z := p + 16, p + live[p];
    assert Payload(data, p, live[p]) == data[a..z] && Payload(data', p, live[p]) == data'[a..z];
    forall i | from <= i < from + n
      ensures data'[i] == data[i]
    {
      assert data'[i] == data'[a..z][i - a] && data[i] == data[a..z][i - a];
    }
  }

  lemma WithoutPush(order: seq<Addr>, h: Addr, x: Addr)
    requires h in order
    ensures h in order + [x]
    ensures Without(order + [x], IndexOf(order + [x], h)) == Without(order, IndexOf(order, h)) + [x]
  {
    hide IndexOf;
    var k := IndexOf(order, h);
    SameIndex(order, h, x);
    assert Without(order + [x], k) == Without(order, k) + [x];
  }

  lemma {:induction false} SameIndex(order: seq<Addr>, h: Addr, x: Addr)
    requires h in order
    ensures h in order + [x] && IndexOf(order + [x], h) == IndexOf(order, h)
  {
    assert (order + [x])[0] == order[0];
    if order[0] != h {
      SameIndex(order[1..], h, x);
      assert (order + [x])[1..] == order[1..] + [x];
    }
  }

  method MemRealloc(W: Memspace, ptr: Addr, size: nat) returns (nmem: Addr, short: bool)
    requires W.Valid() && size < TWO64
    requires ptr != 0 ==> ptr >= HEADER && ptr - HEADER in W.order
    modifies W, W.spc
    ensures short <==> size + HEADER >= TWO64 && !old(NoBlock(W, (size + HEADER) % TWO64))
    ensures !short ==> W.Valid() && (nmem == 0 <==> size == 0 || old(NoBlock(W, (size + HEADER) % TWO64)))
    ensures !short && nmem == 0 && (ptr == 0 || size != 0) ==> W.View() == old(W.View())
    ensures nmem == 0 && ptr != 0 && size == 0 ==> Freed(old(W.View()), W.View(), ptr - HEADER)
    ensures !short && nmem != 0 && ptr == 0 ==> NewBlock(old(W.View()), W.View(), nmem, size)
    ensures !short && nmem != 0 && ptr != 0 ==>
      Moved(old(W.View()), W.View(), ptr, nmem, size, KeptBytes(Charge(old(W.charged), ptr - HEADER), size))
    ensures !short && old(Conserving(W)) ==> (Conserving(W) <==> nmem == 0 || size + HEADER < TWO32)
  {
    hide BinInv, TagInv, Agree, Used, Chain, AllBlocks, Mstate.Sound, TagsGuarded, LinksGuarded, Freed, NewBlock,
         Moved, NoBlock, KeptBytes, Conserving;
    ghost var a := W.View();
    Conserved(W);
    nmem, short := TryRealloc(W, ptr, size);
    if !short {
      Conserved(W);
      if NothingCut(a) {
        ReallocCut(a, W.View(), ptr, nmem, size,
          if ptr != 0 then KeptBytes(Charge(a.charged, ptr - HEADER), size) else 0);
      }
    }
  }

  lemma ReallocCut(a: Books, b: Books, ptr: Addr, nmem: Addr, size: nat, n: nat)
    requires NothingCut(a)
    requires nmem == 0 && (ptr == 0 || size != 0) ==> b == a
    requires nmem == 0 && ptr != 0 && size == 0 ==> ptr >= HEADER && Freed(a, b, ptr - HEADER)
    requires nmem != 0 && ptr == 0 ==> NewBlock(a, b, nmem, size)
    requires nmem != 0 && ptr != 0 ==> Moved(a, b, ptr, nmem, size, n)
    ensures NothingCut(b) <==> nmem == 0 || size + HEADER < TWO32
  {
    hide NothingCut, Freed, NewBlock, Moved;
    if nmem == 0 {
      if ptr != 0 && size == 0 { FreedCut(a, b, ptr - HEADER); }
    } else if ptr == 0 {
      NewBlockCut(a, b, nmem, size);
    } else {
      MovedCut(a, b, ptr, nmem, size, n);
    }
  }

  method TryRealloc(W: Memspace, ptr: Addr, size: nat) returns (nmem: Addr, short: bool)
    requires W.Valid() && size < TWO64
    requires ptr != 0 ==> ptr >= HEADER && ptr - HEADER in W.order
    modifies W, W.spc
    ensures short <==> size + HEADER >= TWO64 && !old(NoBlock(W, (size + HEADER) % TWO64))
    ensures !short ==> W.Valid() && (nmem == 0 <==> size == 0 || old(NoBlock(W, (size + HEADER) % TWO64)))
    ensures !short && nmem == 0 && (ptr == 0 || size != 0) ==> W.View() == old(W.View())
    ensures nmem == 0 && ptr != 0 && size == 0 ==> Freed(old(W.View()), W.View(), ptr - HEADER)
    ensures !short && nmem != 0 && ptr == 0 ==> NewBlock(old(W.View()), W.View(), nmem, size)
    ensures !short && nmem != 0 && ptr != 0 ==>
      Moved(old(W.View()), W.View(), ptr, nmem, size, KeptBytes(Charge(old(W.charged), ptr - HEADER), size))
  {
    hide BinInv, TagInv, Agree, Used, ChunkOk, Chain, AllBlocks, Mstate.Sound, IndexOf, NoDup, NoBlock, Moved,
         KeptBytes, NewBlock, Freed, TagsGuarded, LinksGuarded;
    nmem, short := 0, false;
    if ptr == 0 && size == 0 {
      return;
    }
    if ptr == 0 {
      nmem, short := MemAlloc(W, size);
      return;
    }
    HeaderAt(W, ptr - HEADER);
    if size == 0 {
      var r := MemFree(W, ptr);
      return;
    }
    nmem, short := MemAlloc(W, size);
    if nmem != 0 && !short {
      MoveOver(W, ptr, nmem, size, old(W.View()));
    }
  }

  // The chunk size that mem_alloc asks for, computed in 64 bits, holds the block
  // and its header exactly when adding the header does not wrap.
  lemma RequestHolds(size: nat)
    requires size < TWO64
    ensures size + HEADER + CHUNK_OVERHEAD <= Request2Size((size + HEADER) % TWO64) <==> size + HEADER < TWO64
  {
    hide Request2Size;
    SizeFits((size + HEADER) % TWO64);
  }

  // That fails at 2^64 - 64, where the chunk is for nothing at all.
  lemma RequestFails()
    ensures (TWO64 - HEADER + HEADER) % TWO64 == 0 && Request2Size(0) < TWO64 - HEADER
  {
  }

  // The new block at nmem takes the place of the one at ptr.
  method MoveOver(W: Memspace, ptr: Addr, nmem: Addr, size: nat, ghost a: Books)
    requires W.Valid() && NewBlock(a, W.View(), nmem, size) && ptr >= HEADER && ptr - HEADER in a.order
    requires ptr - HEADER in a.charged && ptr >= HEADER + 16 && ptr - HEADER - 16 in a.live
    modifies W, W.spc
    ensures W.Valid() && Moved(a, W.View(), ptr, nmem, size, KeptBytes(Charge(a.charged, ptr - HEADER), size))
  {
    hide BinInv, TagInv, Agree, Used, ChunkOk, Chain, AllBlocks, Mstate.Sound, IndexOf, NoDup, Moved, KeptBytes,
         Freed, NewBlock, Refilled, Untouched, Unchanged, OnlyTouched, TagsGuarded, LinksGuarded;
    NewBlockIs(a, W.View(), nmem, size);
    ghost var b, n := W.View(), KeptBytes(Charge(a.charged, ptr - HEADER), size);
    BlockFits(W, nmem, size);
    CopyOver(W, ptr, nmem, size, a.live);
    ghost var d := W.View();
    OldBytes(W, a, b, ptr, nmem, n, size);
    HeaderAt(W, ptr - HEADER);
    var r := MemFree(W, ptr);
    MakesMove(a, b, d, W.View(), ptr, nmem, size);
  }

  // The block of size bytes at p lies in its chunk.
  ghost predicate InItsChunk(live: map<Addr, nat>, p: Addr, size: nat, n: nat) {
    p >= HEADER + 16 && p - HEADER - 16 in live && p + size <= p - HEADER - 16 + live[p - HEADER - 16] <= n
  }

  lemma BlockFits(W: Memspace, p: Addr, size: nat)
    requires W.Valid() && p >= HEADER + 16 && p - HEADER in W.order && Charge(W.charged, p - HEADER) == size + HEADER
    ensures InItsChunk(W.spc.Live(), p, size, |W.spc.data|)
  {
    hide BinInv, TagInv, Agree, Used, ChunkOk, Chain, AllBlocks, Mstate.Sound, IndexOf, NoDup, TagsGuarded,
         LinksGuarded;
    ChargeFits(W, p - HEADER);
    SizeIs(W.spc, p - HEADER - 16);
  }

  lemma NewBlockIs(a: Books, b: Books, p: Addr, size: nat)
    requires NewBlock(a, b, p, size)
    ensures p > 16 + HEADER && p - HEADER in b.order && p - HEADER in b.charged
      && b.charged[p - HEADER] == size + HEADER
    ensures p - HEADER - 16 !in a.live && p - HEADER - 16 in b.live
    ensures b.live == a.live[p - HEADER - 16 := b.live[p - HEADER - 16]]
    ensures |b.data| == |a.data| && Untouched(a.live, a.data, b.data)
    ensures forall h :: h in a.order ==> h in b.order
    ensures forall h :: h in a.charged && h != p - HEADER ==> Charge(b.charged, h) == Charge(a.charged, h)
    ensures p - HEADER !in a.order
  {
  }

  lemma OldBytes(W: Memspace, a: Books, b: Books, ptr: Addr, nmem: Addr, n: nat, size: nat)
    requires W.Valid() && NewBlock(a, b, nmem, size) && W.View() == b.(data := W.spc.data, cols := W.spc.Cols())
      && |b.data| == |W.spc.data|
    requires ptr >= HEADER + 16 && ptr - HEADER in a.order && ptr - HEADER in a.charged && ptr - HEADER - 16 in a.live
    requires n == KeptBytes(Charge(a.charged, ptr - HEADER), size)
    ensures ptr + n <= |b.data| && b.data[ptr..ptr + n] == a.data[ptr..ptr + n]
    ensures Charge(b.charged, ptr - HEADER) == Charge(a.charged, ptr - HEADER)
  {
    hide BinInv, TagInv, Agree, Used, ChunkOk, Chain, AllBlocks, Mstate.Sound, IndexOf, NoDup, Untouched, TagsGuarded,
         LinksGuarded;
    var p := ptr - HEADER - 16;
    var k := BlockAt(W, ptr - HEADER);
    SizeIs(W.spc, p);
    BytesKept(a.live, a.data, b.data, p, ptr, n);
  }

  // The header of a live block.
  lemma HeaderAt(W: Memspace, h: Addr)
    requires W.Valid() && h in W.order
    ensures 16 <= h < |W.magic| && W.magic[h] == MAGIC && h - 16 in W.spc.Live() && h in W.charged
  {
    hide BinInv, TagInv, Agree, Used, ChunkOk, Chain, AllBlocks, Mstate.Sound, IndexOf, NoDup, TagsGuarded,
         LinksGuarded;
    var k := BlockAt(W, h);
  }

  // A fresh space of more than 2^32 bytes, and a block that with its header takes
  // exactly 2^32: the counter does not add up any more.
  method CounterFails(size: nat, base: Addr, msize: nat, page_size: nat, memory: Memory,
                      magic: seq<nat>, sz: seq<nat>, next: seq<Addr>, prev: seq<Addr>)
    returns (W: Memspace, p: Addr)
    requires msize % 16 == 0 && 896 <= msize && (base + size) % 4 == 0 && base + size < TWO64
      && memory.Reaches(base + size)
    requires TWO32 + msize + TOP_FOOT_SIZE + 48 <= size < TWO64 - (msize + TOP_FOOT_SIZE + page_size)
    requires |magic| == |sz| == |next| == |prev| == base + size
    ensures p != 0 && W.Valid() && W.rsz == size + 1024 && !Conserving(W)
  {
    hide BinInv, TagInv, Agree, Used, Mstate.Sound, TagsGuarded, LinksGuarded, Chain, AllBlocks, NewBlock;
    var space, fate := MemInit(size, base, msize, page_size, 0, 0, memory, magic, sz, next, prev);
    W := space;
    NothingHandedOut(W);
    SizeFits(TWO32);
    var short;
    p, short := MemAlloc(W, TWO32 - HEADER);
  }

  lemma NothingHandedOut(W: Memspace)
    requires W.order == [] && W.free == W.rsz
    ensures Conserving(W)
  {
  }
}
