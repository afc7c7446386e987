// The free room of a heap: which chunk serves a request, and where what becomes
// free goes.
module Rooms {
  import opened TreeIndex
  import opened Bins
  import opened Tags
  import opened Sizes
  import opened Mstate
  import opened Align

  // The binned chunks, with their sizes and in their queues, the designated
  // victim, top, and how large top may become before a trim is due.
  datatype Room = Room(q: map<nat, seq<Addr>>, of: map<Addr, nat>, dv: Addr, dvsize: nat, top: Addr, topsize: nat,
                       trim: nat)
  {
    // A chunk leaves its queue.
    ghost function Out(p: Addr): Room {
      this.(q := if p in of && of[p] in q && p in q[of[p]] then Taken(q, p, of[p]) else q, of := of - {p})
    }

    // A chunk becomes the newest of its queue.
    ghost function In(p: Addr, s: nat): Room {
      this.(q := Put(q, p, s), of := of[p := s])
    }

    // A chunk becomes dv, and the dv there was is binned.
    ghost function Victim(p: Addr, s: nat): Room {
      (if dvsize == 0 then this else In(dv, dvsize)).(dv := p, dvsize := s)
    }

    ghost function NoVictim(): Room {
      this.(dv := 0, dvsize := 0)
    }

    predicate IsDv(p: Addr) {
      dvsize != 0 && p == dv
    }
  }

  ghost function RoomOf(M: Mstate): Room
    reads M
  {
    Room(M.b.q, M.b.of, M.dv, M.dvsize, M.top, M.topsize, M.trim_check)
  }

  // --------------------------------------------------------- taking from it

  // No binned chunk is large enough.
  ghost predicate NoFit(of: map<Addr, nat>, nb: nat) {
    forall q :: q in of ==> of[q] < nb
  }

  // Which chunk of a size leaves its bin first: the last one that came to a
  // small bin, but the first one that came to a tree bin.
  ghost function NextOut(q: map<nat, seq<Addr>>, s: nat): Addr {
    if s in q && |q[s]| > 0 then (if s < MIN_LARGE_SIZE then q[s][|q[s]| - 1] else q[s][0]) else 0
  }

  // p is a smallest binned chunk that is large enough, and its turn has come.
  ghost predicate SmallestFit(a: Room, p: Addr, nb: nat) {
    && p in a.of && nb <= a.of[p]
    && (forall q :: q in a.of && nb <= a.of[q] ==> a.of[p] <= a.of[q])
    && p == NextOut(a.q, a.of[p])
  }

  // The binned chunk p serves a request of chunk size nb: it fits best, and dv,
  // should that be large enough, does not fit better. A small request takes a
  // binned chunk rather than dv only if that fits exactly.
  ghost predicate BinServes(a: Room, nb: nat, p: Addr) {
    && p != 0 && SmallestFit(a, p, nb)
    && (a.dvsize < nb || (if nb < MIN_LARGE_SIZE then a.of[p] == nb else a.of[p] < a.dvsize))
  }

  // No binned chunk does.
  ghost predicate BinsPass(a: Room, nb: nat) {
    forall q :: q in a.of && nb <= a.of[q] ==>
      nb <= a.dvsize && if nb < MIN_LARGE_SIZE then a.of[q] != nb else a.dvsize <= a.of[q]
  }

  // Which chunk p serves a request of chunk size nb; 0 when nothing does.
  ghost predicate Chosen(a: Room, nb: nat, p: Addr) {
    || BinServes(a, nb, p)
    || (BinsPass(a, nb) && p == if nb <= a.dvsize then a.dv else if nb < a.topsize then a.top else 0)
  }

  // It is one chunk and no other.
  lemma ChosenOnce(a: Room, nb: nat, p: Addr, p': Addr)
    requires Chosen(a, nb, p) && Chosen(a, nb, p')
    ensures p == p'
  {
  }

  // No free chunk can serve a request of chunk size nb.
  ghost predicate Exhausted(of: map<Addr, nat>, dvsize: nat, topsize: nat, nb: nat) {
    NoFit(of, nb) && dvsize < nb && topsize <= nb
  }

  lemma NoneChosen(a: Room, nb: nat)
    requires nb > 0 && Exhausted(a.of, a.dvsize, a.topsize, nb)
    ensures Chosen(a, nb, 0)
  {
  }

  // What becomes of it when nb bytes of p are put to use. The rest of a binned
  // chunk becomes dv for a small request, and is binned for a large one; the rest
  // of dv or top stays dv or top. A rest too small for a chunk goes with p.
  ghost function After(a: Room, p: Addr, nb: nat): Room {
    if p == 0 then a
    else if p in a.of then
      if a.of[p] < nb + MIN_CHUNK_SIZE then a.Out(p)
      else if nb >= MIN_LARGE_SIZE then a.Out(p).In(p + nb, a.of[p] - nb)
      else a.Out(p).Victim(p + nb, a.of[p] - nb)
    else if p == a.dv then
      if nb + MIN_CHUNK_SIZE <= a.dvsize then a.(dv := p + nb, dvsize := a.dvsize - nb) else a.NoVictim()
    else if nb <= a.topsize then a.(top := p + nb, topsize := a.topsize - nb)
    else a
  }

  ghost function SizeHeld(live: map<Addr, nat>, p: Addr): nat {
    if p in live then live[p] else 0
  }

  // The size of the chunk that p then is.
  ghost function SizeGot(a: Room, p: Addr, nb: nat): nat {
    var s := if p in a.of then a.of[p] else if p == a.dv then a.dvsize else nb;
    if s < nb + MIN_CHUNK_SIZE then s else nb
  }

  // The chunk p has been chosen for a request and cut to size.
  ghost predicate Supplied(a: Room, b: Room, live': map<Addr, nat>, nb: nat, p: Addr) {
    Chosen(a, nb, p) && b == After(a, p, nb) && SizeHeld(live', p) == SizeGot(a, p, nb)
  }

  // ---------------------------------------------------------- giving back

  // Where the free chunk that ends at p starts; p itself when none does.
  ghost function FreeStart(a: Room, p: Addr): Addr {
    if a.dvsize != 0 && a.dv + a.dvsize == p then a.dv
    else if exists x: Addr :: FreeTo(a.of, x, p) then var x: Addr :| FreeTo(a.of, x, p); x
    else p
  }

  ghost predicate FreeTo(of: map<Addr, nat>, x: Addr, p: Addr) {
    x in of && x + of[x] == p
  }

  // A stretch that ends where a chunk in use starts: it is dv if dv was part of
  // it, and else the newest of the bin of its size.
  ghost function Resting(a: Room, x: Addr, y: Addr): Room
    requires x <= y
  {
    if a.IsDv(x) then a.(dvsize := y - x) else a.In(x, y - x)
  }

  // A stretch from x to z joins what follows it: top, dv or a binned chunk.
  ghost function Forward(a: Room, x: Addr, z: Addr): Room
    requires x <= z
  {
    if z == a.top then (if a.IsDv(x) then a.NoVictim() else a).(top := x, topsize := a.topsize + (z - x))
    else if a.IsDv(z) then a.(dv := x, dvsize := z - x + a.dvsize)
    else if z in a.of then Resting(a.Out(z), x, z + a.of[z])
    else Resting(a, x, z)
  }

  // What becomes of it when the chunk p, of s bytes, is free again.
  ghost function AfterReturn(a: Room, p: Addr, s: nat): Room {
    var x := FreeStart(a, p);
    if x <= p + s then Forward(if x in a.of then a.Out(x) else a, x, p + s) else a
  }

  // A trim that fails is not tried again.
  ghost function Trimmed(a: Room): Room {
    if a.topsize > a.trim then a.(trim := MAX_SIZE_T) else a
  }

  // When a client gives p back: where top has grown, it may be time for a trim.
  ghost function AfterRelease(a: Room, p: Addr, s: nat): Room {
    var b := AfterReturn(a, p, s);
    if b.top != a.top then Trimmed(b) else b
  }

  // ------------------------------------------------------------- resizing

  // The chunk p, of s bytes, can neither keep its place nor grow into what follows
  // it: top, dv, a binned chunk, or one in use.
  ghost predicate Stuck(a: Room, p: Addr, s: nat, nb: nat) {
    && s < nb
    && var z := p + s;
       if z == a.top then s + a.topsize <= nb
       else if a.IsDv(z) then s + a.dvsize < nb
       else z in a.of ==> s + a.of[z] < nb
  }

  // What is left of y bytes at p after nb of them, if it makes a chunk, is free.
  ghost function AfterRest(a: Room, p: Addr, y: nat, nb: nat): Room {
    if nb + MIN_CHUNK_SIZE <= y then AfterReturn(a, p + nb, y - nb) else a
  }

  // What becomes of it when p, of s bytes, gets nb bytes in place.
  ghost function AfterResize(a: Room, p: Addr, s: nat, nb: nat): Room {
    var z := p + s;
    if nb <= s then AfterRest(a, p, s, nb)
    else if z == a.top then
      if nb <= s + a.topsize then a.(top := p + nb, topsize := s + a.topsize - nb) else a
    else if a.IsDv(z) then
      if nb + MIN_CHUNK_SIZE <= s + a.dvsize then a.(dv := p + nb, dvsize := s + a.dvsize - nb) else a.NoVictim()
    else if z in a.of then AfterRest(a.Out(z), p, s + a.of[z], nb)
    else a
  }

  // The size that p then has.
  ghost function SizeIn(a: Room, p: Addr, s: nat, nb: nat): nat {
    var z := p + s;
    var y := if nb <= s then s else if z == a.top then nb else if a.IsDv(z) then s + a.dvsize
             else if z in a.of then s + a.of[z] else s;
    if nb + MIN_CHUNK_SIZE <= y then nb else y
  }

  // ------------------------------------------------------------- aligning

  // Of p and the addresses that leave room for a chunk behind p, q is the first
  // where a block is aligned.
  ghost predicate FirstSpot(p: Addr, q: Addr, alignment: nat) {
    && IsSpot(p, q, alignment) && forall r :: IsSpot(p, r, alignment) ==> q <= r
  }

  predicate IsSpot(p: Addr, q: Addr, alignment: nat) {
    (q == p || p + MIN_CHUNK_SIZE <= q) && Divides(alignment, q + 16)
  }

  // The chunk p, of s bytes, becomes the chunk q: what lies before it is free, and
  // so is what lies after nb bytes of it, if that is more than a smallest chunk.
  ghost function AfterPlacing(a: Room, p: Addr, s: nat, q: Addr, nb: nat): Room
    requires p <= q <= p + s
  {
    var b := if q == p then a else AfterReturn(a, p, q - p);
    if nb + MIN_CHUNK_SIZE < p + s - q then AfterReturn(b, q + nb, p + s - q - nb) else b
  }

  ghost function SizePlaced(p: Addr, s: nat, q: Addr, nb: nat): nat
    requires p <= q <= p + s
  {
    if nb + MIN_CHUNK_SIZE < p + s - q then nb else p + s - q
  }

  // A chunk large enough for nb bytes at any place is taken, of size req, and q is
  // the first aligned place in it.
  ghost predicate AlignedFrom(a: Room, b: Room, live': map<Addr, nat>, req: nat, nb: nat, alignment: nat, q: Addr) {
    exists p: Addr :: p != 0 && Chosen(a, req, p) && PlacedIn(a, b, live', p, req, nb, alignment, q)
  }

  ghost predicate PlacedIn(a: Room, b: Room, live': map<Addr, nat>, p: Addr, req: nat, nb: nat, alignment: nat,
                           q: Addr) {
    var s := SizeGot(a, p, req);
    && FirstSpot(p, q, alignment) && p <= q <= p + s
    && b == AfterPlacing(After(a, p, req), p, s, q, nb)
    && SizeHeld(live', q) == SizePlaced(p, s, q, nb)
  }
}
