// The state record of a memory space, together with the memory it manages.
module Mstate {
  import opened TreeIndex
  import opened Bins
  import opened Tries
  import opened Tags
  import opened Cuts
  import opened Guards

  type Addr = nat

  // Memory as it is before a space is made in it.
  datatype Memory = Memory(head: seq<Head>, foot: seq<nat>, fd: seq<Addr>, bk: seq<Addr>,
                           child0: seq<Addr>, child1: seq<Addr>, parent: seq<Addr>, index: seq<nat>,
                           data: seq<bv8>)
  {
    predicate Reaches(end: Addr) {
      && |head| == |foot| == |fd| == |bk| == end
      && |child0| == |child1| == |parent| == |index| == |data| == end
    }
  }

  class Mstate {
    const least: Addr           // the base of the only segment
    const offset: nat           // how far its first aligned chunk lies from there
    const base: Addr := least + offset
    const end: Addr             // one past the segment
    const cookie: nat           // what get_mstate_for decodes to this record
    const m: Addr := base + 16  // where this record lies inside the segment
    const msize: nat            // the size of the chunk it lies in

    var smallmap: bv32
    var treemap: bv32
    var dvsize: nat
    var topsize: nat
    var dv: Addr
    var top: Addr
    var trim_check: nat
    var treebins: seq<Addr>

    // The words of memory, one column for each field of a chunk; 0 is NULL.
    var head: seq<Head>
    var foot: seq<nat>
    var fd: seq<Addr>
    var bk: seq<Addr>
    var child0: seq<Addr>
    var child1: seq<Addr>
    var parent: seq<Addr>
    var index: seq<nat>
    var data: seq<bv8>        // what clients keep in their chunks, byte by byte

    // Where the chunks below top start, and which of them are binned.
    ghost var live: set<Addr>
    ghost var b: Bins

    // Chunks that are being watched, how many of their bytes, and what memory
    // was like when the watch began.
    ghost var keep: map<Addr, nat>
    ghost var was: Columns

    // A record cleared to zeros, over memory that is left alone.
    constructor (least: Addr, offset: nat, end: Addr, msize: nat, cookie: nat, memory: Memory)
      ensures this.least == least && this.offset == offset && this.end == end && this.msize == msize
        && this.cookie == cookie
      ensures smallmap == 0 && treemap == 0 && dvsize == topsize == dv == top == trim_check == 0
      ensures treebins == seq(NTREEBINS, _ => 0)
      ensures Memory(head, foot, fd, bk, child0, child1, parent, index, data) == memory
      ensures keep == map[] && was == Columns(head, foot, fd, bk, child0, child1, parent, index)
      ensures live == {} && b == Bins(map[], map[], Trie(seq(NTREEBINS, _ => 0), map[]))
    {
      this.least, this.offset, this.end, this.msize, this.cookie := least, offset, end, msize, cookie;
      smallmap, treemap := 0, 0;
      dvsize, topsize, dv, top, trim_check := 0, 0, 0, 0, 0;
      treebins := seq(NTREEBINS, _ => 0);
      head, foot, fd, bk := memory.head, memory.foot, memory.fd, memory.bk;
      child0, child1, parent, index := memory.child0, memory.child1, memory.parent, memory.index;
      data := memory.data;
      keep, was := map[], Columns(memory.head, memory.foot, memory.fd, memory.bk,
                                  memory.child0, memory.child1, memory.parent, memory.index);
      live, b := {}, Bins(map[], map[], Trie(seq(NTREEBINS, _ => 0), map[]));
    }

    predicate OkAddress(a: Addr)
    {
      a >= least
    }

    ghost function L(): Links
      reads this
    {
      Links(fd, bk, child0, child1, parent, index, treebins, smallmap, treemap)
    }

    ghost function G(): Tags
      reads this
    {
      Tags(live, head, foot, top, base, end, cookie)
    }

    ghost predicate Binned()
      reads this
    {
      BinInv(b, m, end, L())
    }

    // The designated victim, if there is one, is a free chunk.
    ghost predicate DvOk()
      reads this
    {
      if dvsize == 0 then dv == 0
      else dv in live && dv < |head| && !head[dv].cinuse && head[dv].size == dvsize
    }

    ghost function Dv(): set<Addr>
      reads this
    {
      if dvsize == 0 then {} else {dv}
    }

    ghost function Cols(): Columns
      reads this
    {
      Columns(head, foot, fd, bk, child0, child1, parent, index)
    }

    // The watched bytes are as they were.
    ghost predicate Guarded()
      reads this
    {
      TagsGuarded(keep, was, G()) && LinksGuarded(keep, was, L())
    }

    // The heap is sound, and every free chunk outside `out` is binned.
    ghost predicate Sound(out: set<Addr>)
      reads this
    {
      && Binned()
      && TagInv(G())
      && topsize == head[top].size
      && base < |head| && 896 <= msize == head[base].size
      && DvOk()
      && Agree(b.of, G(), out)
      && Guarded()
    }

    ghost predicate Inv()
      reads this
    {
      Sound(Dv())
    }

    // What a client sees: the chunks in use and their sizes.
    ghost function Live(): map<Addr, nat>
      reads this
    {
      Used(G())
    }
  }
}
