// Putting chunks under watch.
module Watch {
  import opened Bins
  import opened Tags
  import opened Cuts
  import opened Guards
  import opened Mstate

  // A watch begins: from now on a sound heap means, too, that no byte of the
  // chunks in keep, as far as keep says, has changed in any column.
  method Begin(M: Mstate, ghost keep: map<Addr, nat>)
    requires M.Inv() && forall p :: p in keep ==> p in M.Live() && keep[p] <= M.Live()[p]
    modifies M`keep, M`was
    ensures M.Inv() && M.keep == keep && M.was == M.Cols()
  {
    hide BinInv, TagInv, Agree, TagsGuarded, LinksGuarded;
    M.keep := keep;
    M.was := M.Cols();
    NothingChanged(M.keep, M.was, M.G(), M.L());
  }

  lemma NothingChanged(keep: map<Addr, nat>, was: Columns, g: Tags, l: Links)
    requires forall p :: p in keep ==> p in Used(g) && keep[p] <= Used(g)[p]
    requires was == Columns(g.head, g.foot, l.fd, l.bk, l.child0, l.child1, l.parent, l.index)
    ensures TagsGuarded(keep, was, g) && LinksGuarded(keep, was, l)
  {
  }

  // The chunk p is watched as well.
  method WatchAlso(M: Mstate, ghost p: Addr, ghost s: nat)
    requires M.Inv() && p in M.Live() && s <= M.Live()[p]
    modifies M`keep, M`was
    ensures M.Inv() && M.keep == old(M.keep)[p := s] && M.was == M.Cols() == old(M.Cols())
    ensures Unchanged(old(M.keep), old(M.was), M.Cols())
    ensures forall q :: q in old(M.keep) ==> q in M.Live()
  {
    hide BinInv, TagInv, Agree, TagsGuarded, LinksGuarded, Unchanged, Mstate.Sound;
    StillUnchanged(M);
    Watching(M, M.Dv());
    Begin(M, M.keep[p := s]);
  }

  // One chunk is watched no longer.
  method Leave(M: Mstate, ghost p: Addr)
    requires M.Inv()
    modifies M`keep
    ensures M.Inv() && M.keep == old(M.keep) - {p}
  {
    hide BinInv, TagInv, Agree, TagsGuarded, LinksGuarded;
    Fewer(M.keep, M.keep - {p}, M.was, M.G(), M.L());
    M.keep := M.keep - {p};
  }

  lemma Fewer(keep: map<Addr, nat>, less: map<Addr, nat>, was: Columns, g: Tags, l: Links)
    requires TagsGuarded(keep, was, g) && LinksGuarded(keep, was, l)
    requires forall p :: p in less ==> p in keep && less[p] == keep[p]
    ensures TagsGuarded(less, was, g) && LinksGuarded(less, was, l)
  {
    hide Touches;
    assert forall w :: Hit(less, w) ==> Hit(keep, w);
  }

  // Only chunks in use are watched.
  lemma Watching(M: Mstate, out: set<Addr>)
    requires M.Sound(out)
    ensures forall p :: p in M.keep ==> p in M.Live() && M.keep[p] <= M.Live()[p]
  {
    hide BinInv, TagInv, Agree, Same, LinksGuarded;
  }

  lemma StillUnchanged(M: Mstate)
    requires M.Inv()
    ensures Unchanged(M.keep, M.was, M.Cols())
  {
    hide BinInv, TagInv, Agree, Same;
  }

  lemma NoneDiffer(keep: map<Addr, nat>, c: Columns)
    ensures Unchanged(keep, c, c)
  {
  }

  lemma UnchangedOn(keep: map<Addr, nat>, less: map<Addr, nat>, a: Columns, b: Columns)
    requires Unchanged(keep, a, b) && Covered(less, keep)
    ensures Unchanged(less, a, b)
  {
    hide Touches;
    forall w | Hit(less, w) ensures Hit(keep, w) { HitMore(less, keep, w); }
  }

  // What less watches, keep watches as well.
  ghost predicate Covered(less: map<Addr, nat>, keep: map<Addr, nat>) {
    forall p :: p in less ==> p in keep && less[p] <= keep[p]
  }

  lemma HitMore(less: map<Addr, nat>, keep: map<Addr, nat>, w: nat)
    requires Hit(less, w) && Covered(less, keep)
    ensures Hit(keep, w)
  {
    var p :| p in less && Touches(w, p, less[p]);
    assert Touches(w, p, keep[p]);
  }

  lemma UnchangedTrans(keep: map<Addr, nat>, a: Columns, b: Columns, c: Columns)
    requires Unchanged(keep, a, b) && Unchanged(keep, b, c)
    ensures Unchanged(keep, a, c)
  {
    hide Hit;
  }

  // The watch goes back to what it was before a wider one began.
  method Resume(M: Mstate, ghost keep: map<Addr, nat>, ghost was: Columns)
    requires M.Inv() && Covered(keep, M.keep) && Unchanged(keep, was, M.was)
    modifies M`keep, M`was
    ensures M.Inv() && M.keep == keep && M.was == was
  {
    hide BinInv, TagInv, Agree, TagsGuarded, LinksGuarded, Unchanged, Covered;
    StillUnchanged(M);
    UnchangedOn(M.keep, keep, M.was, M.Cols());
    UnchangedTrans(keep, was, M.was, M.Cols());
    Resumed(keep, M.keep, was, M.was, M.G(), M.L());
    M.keep := keep;
    M.was := was;
  }

  lemma Resumed(keep: map<Addr, nat>, more: map<Addr, nat>, was: Columns, then_: Columns, g: Tags, l: Links)
    requires TagsGuarded(more, then_, g) && Covered(keep, more)
    requires Unchanged(keep, was, Columns(g.head, g.foot, l.fd, l.bk, l.child0, l.child1, l.parent, l.index))
    ensures TagsGuarded(keep, was, g) && LinksGuarded(keep, was, l)
  {
    hide Same;
  }
}
