// Watching memory: that no operation writes where clients keep their bytes.
module Guards {
  import opened Bins
  import opened Tags
  import opened Cuts

  // The words of memory, one column for each field of a chunk.
  datatype Columns = Columns(head: seq<Head>, foot: seq<nat>, fd: seq<nat>, bk: seq<nat>,
                             child0: seq<nat>, child1: seq<nat>, parent: seq<nat>, index: seq<nat>)

  // How far a field lies from the start of its chunk.
  const HEAD: nat := 8
  const FOOT: nat := 0
  const FD: nat := 16
  const BK: nat := 24
  const CHILD0: nat := 32
  const CHILD1: nat := 40
  const PARENT: nat := 48
  const INDEX: nat := 56

  // The word at w touches a watched chunk: one that is in keep, of which
  // keep tells how many bytes are watched.
  ghost predicate Hit(keep: map<nat, nat>, w: nat) {
    exists p :: p in keep && Touches(w, p, keep[p])
  }

  // A column is as it was wherever it touches a watched chunk.
  ghost predicate Same<T>(was: seq<T>, now: seq<T>, offset: nat, keep: map<nat, nat>) {
    |now| == |was| && forall a :: 0 <= a < |was| && Hit(keep, a + offset) ==> now[a] == was[a]
  }

  // No byte of these chunks differs, whichever field it may be read as.
  ghost predicate Unchanged(keep: map<nat, nat>, was: Columns, now: Columns) {
    && Same(was.head, now.head, HEAD, keep) && Same(was.foot, now.foot, FOOT, keep)
    && Same(was.fd, now.fd, FD, keep) && Same(was.bk, now.bk, BK, keep)
    && Same(was.child0, now.child0, CHILD0, keep) && Same(was.child1, now.child1, CHILD1, keep)
    && Same(was.parent, now.parent, PARENT, keep) && Same(was.index, now.index, INDEX, keep)
  }

  // Watched chunks are in use, and no larger than they are.
  ghost predicate KeepOk(keep: map<nat, nat>, g: Tags) {
    forall p :: p in keep ==>
      p in g.live && p != g.lo && p < |g.head| && g.head[p].cinuse && keep[p] <= g.head[p].size
  }

  ghost predicate TagsGuarded(keep: map<nat, nat>, was: Columns, g: Tags) {
    KeepOk(keep, g) && Same(was.head, g.head, HEAD, keep) && Same(was.foot, g.foot, FOOT, keep)
  }

  ghost predicate LinksGuarded(keep: map<nat, nat>, was: Columns, l: Links) {
    && Same(was.fd, l.fd, FD, keep) && Same(was.bk, l.bk, BK, keep)
    && Same(was.child0, l.child0, CHILD0, keep) && Same(was.child1, l.child1, CHILD1, keep)
    && Same(was.parent, l.parent, PARENT, keep) && Same(was.index, l.index, INDEX, keep)
  }

  ghost predicate Unkept(keep: map<nat, nat>, gone: set<nat>) {
    forall p :: p in gone ==> p !in keep
  }

  // The watched chunks among gone are still there.
  ghost predicate Safe(keep: map<nat, nat>, g: Tags, g': Tags, gone: set<nat>) {
    forall p :: p in keep && p in gone ==>
      && p in g'.live && p < |g'.head| && g'.head[p].cinuse && keep[p] <= g'.head[p].size
      && Sparing(g, g', p, keep[p])
  }

  // Cutting goes on watching.
  lemma CutGuarded(keep: map<nat, nat>, was: Columns, g: Tags, g': Tags, gone: set<nat>, pieces: set<nat>)
    requires TagsGuarded(keep, was, g) && Kept(g, g', gone, pieces)
    requires Unkept(keep, gone) || Safe(keep, g, g', gone)
    requires |g'.foot| == |g.foot|
    ensures TagsGuarded(keep, was, g')
  {
    hide Sparing, Same;
    forall p | p in keep
      ensures p in g'.live && p != g'.lo && p < |g'.head| && g'.head[p].cinuse && keep[p] <= g'.head[p].size
      ensures Sparing(g, g', p, keep[p])
    {
      if p !in gone {
        assert SameChunk(g, g', p);
        LessSpared(g, g', p, g.head[p].size, keep[p]);
      }
    }
    SparedColumns(keep, was, g, g');
  }

  lemma LessSpared(g: Tags, g': Tags, p: nat, s: nat, s': nat)
    requires Sparing(g, g', p, s) && s' <= s
    ensures Sparing(g, g', p, s')
  {
  }

  lemma SparedColumns(keep: map<nat, nat>, was: Columns, g: Tags, g': Tags)
    requires Same(was.head, g.head, HEAD, keep) && Same(was.foot, g.foot, FOOT, keep)
    requires forall p :: p in keep ==> Sparing(g, g', p, keep[p])
    requires |g'.head| == |g.head| && |g'.foot| == |g.foot|
    ensures Same(was.head, g'.head, HEAD, keep) && Same(was.foot, g'.foot, FOOT, keep)
  {
    hide Touches;
    forall a | 0 <= a < |was.head| && Hit(keep, a + HEAD)
      ensures g'.head[a] == was.head[a]
    {
      var p :| p in keep && Touches(a + HEAD, p, keep[p]);
      assert Sparing(g, g', p, keep[p]);
    }
    forall a | 0 <= a < |was.foot| && Hit(keep, a + FOOT)
      ensures g'.foot[a] == was.foot[a]
    {
      var p :| p in keep && Touches(a + FOOT, p, keep[p]);
      assert Sparing(g, g', p, keep[p]);
    }
  }

  // ---------------------------------------------------------- binned chunks

  ghost predicate ListClear(keep: map<nat, nat>, h: nat) {
    !Hit(keep, h + FD) && !Hit(keep, h + BK)
  }

  ghost predicate TreeClear(keep: map<nat, nat>, h: nat) {
    !Hit(keep, h + CHILD0) && !Hit(keep, h + CHILD1) && !Hit(keep, h + PARENT) && !Hit(keep, h + INDEX)
  }

  // The links that operations on the bins may write touch no watched chunk.
  ghost predicate BinsClear(keep: map<nat, nat>, of: map<nat, nat>, m: nat) {
    && (forall h: nat :: h in of || h < m + 600 ==> ListClear(keep, h))
    && (forall h: nat :: InTree(of, h) || h == 0 ==> TreeClear(keep, h))
  }

  // Linking goes on watching.
  lemma LinkGuarded(keep: map<nat, nat>, was: Columns, of: map<nat, nat>, m: nat, n: nat, l: Links, l': Links)
    requires LinksGuarded(keep, was, l) && BinsClear(keep, of, m)
    requires ListsSame(of, m, n, l, l') && TreesSame(of, n, l, l')
    ensures LinksGuarded(keep, was, l')
  {
    hide Hit;
    forall a | 0 <= a < n
      ensures Hit(keep, a + FD) ==> l'.fd[a] == l.fd[a]
      ensures Hit(keep, a + BK) ==> l'.bk[a] == l.bk[a]
      ensures Hit(keep, a + CHILD0) ==> l'.child0[a] == l.child0[a]
      ensures Hit(keep, a + CHILD1) ==> l'.child1[a] == l.child1[a]
      ensures Hit(keep, a + PARENT) ==> l'.parent[a] == l.parent[a]
      ensures Hit(keep, a + INDEX) ==> l'.index[a] == l.index[a]
    {
      OneLink(keep, of, m, n, l, l', a);
    }
  }

  lemma OneLink(keep: map<nat, nat>, of: map<nat, nat>, m: nat, n: nat, l: Links, l': Links, a: nat)
    requires BinsClear(keep, of, m) && ListsSame(of, m, n, l, l') && TreesSame(of, n, l, l') && a < n
    ensures Hit(keep, a + FD) ==> l'.fd[a] == l.fd[a]
    ensures Hit(keep, a + BK) ==> l'.bk[a] == l.bk[a]
    ensures Hit(keep, a + CHILD0) ==> l'.child0[a] == l.child0[a]
    ensures Hit(keep, a + CHILD1) ==> l'.child1[a] == l.child1[a]
    ensures Hit(keep, a + PARENT) ==> l'.parent[a] == l.parent[a]
    ensures Hit(keep, a + INDEX) ==> l'.index[a] == l.index[a]
  {
    hide Hit, ListClear, TreeClear;
    if a in of || a < m + 600 { NoListHit(keep, of, m, a); }
    if InTree(of, a) || a == 0 { NoTreeHit(keep, of, m, a); }
  }

  lemma NoListHit(keep: map<nat, nat>, of: map<nat, nat>, m: nat, h: nat)
    requires BinsClear(keep, of, m) && (h in of || h < m + 600)
    ensures !Hit(keep, h + FD) && !Hit(keep, h + BK)
  {
    hide Hit;
    assert ListClear(keep, h);
  }

  lemma NoTreeHit(keep: map<nat, nat>, of: map<nat, nat>, m: nat, h: nat)
    requires BinsClear(keep, of, m) && (InTree(of, h) || h == 0)
    ensures !Hit(keep, h + CHILD0) && !Hit(keep, h + CHILD1) && !Hit(keep, h + PARENT) && !Hit(keep, h + INDEX)
  {
    hide Hit;
    assert TreeClear(keep, h);
  }

  // These are free chunks, with their sizes.
  ghost predicate FreeIn(of: map<nat, nat>, g: Tags) {
    forall h :: h in of ==> h in g.live && h < |g.head| && !g.head[h].cinuse && of[h] == g.head[h].size
  }

  // Free chunks and headers lie clear of the chunks in use.
  lemma FreeIsClear(keep: map<nat, nat>, of: map<nat, nat>, m: nat, g: Tags)
    requires TagInv(g) && KeepOk(keep, g) && m == g.lo + 16
    requires g.lo < |g.head| && 896 <= g.head[g.lo].size
    requires FreeIn(of, g)
    ensures BinsClear(keep, of, m)
  {
    hide TagInv, KeepOk;
    TagBounds(g);
    forall h: nat | h in of || h < m + 600
      ensures ListClear(keep, h)
    {
      forall p | p in keep
        ensures !Touches(h + FD, p, keep[p]) && !Touches(h + BK, p, keep[p])
      {
        AwayFromFree(keep, g, m, p, h);
      }
    }
    forall h: nat | InTree(of, h) || h == 0
      ensures TreeClear(keep, h)
    {
      forall p | p in keep
        ensures !Touches(h + CHILD0, p, keep[p]) && !Touches(h + CHILD1, p, keep[p])
        ensures !Touches(h + PARENT, p, keep[p]) && !Touches(h + INDEX, p, keep[p])
      {
        AwayFromFree(keep, g, m, p, h);
      }
    }
  }

  lemma AwayFromFree(keep: map<nat, nat>, g: Tags, m: nat, p: nat, h: nat)
    requires TagInv(g) && KeepOk(keep, g) && p in keep && m == g.lo + 16
    requires g.lo < |g.head| && 896 <= g.head[g.lo].size
    ensures h < m + 600 ==> h + 64 <= p
    ensures h in g.live && h < |g.head| && !g.head[h].cinuse ==>
      32 <= g.head[h].size && (h + g.head[h].size <= p || p + keep[p] <= h)
  {
    hide TagInv;
    TagBounds(g);
    At(g, p);
    TwoApart(g, g.lo, p);
    if h in g.live && h < |g.head| && !g.head[h].cinuse {
      At(g, h);
      TwoApart(g, h, p);
      TwoApart(g, p, h);
    }
  }
}
