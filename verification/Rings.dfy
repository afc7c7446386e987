// Circular doubly linked lists, written as the sequence met by following bk.
module Rings {
  ghost predicate Linked(fd: seq<nat>, bk: seq<nat>, x: nat, y: nat) {
    x < |bk| && y < |fd| && bk[x] == y && fd[y] == x
  }

  ghost predicate Ring(fd: seq<nat>, bk: seq<nat>, c: seq<nat>) {
    && |c| > 0
    && (forall j :: 0 <= j < |c| - 1 ==> Linked(fd, bk, c[j], c[j + 1]))
    && Linked(fd, bk, c[|c| - 1], c[0])
  }

  ghost predicate NoDup(c: seq<nat>) {
    forall i, j :: 0 <= i < j < |c| ==> c[i] != c[j]
  }

  function Without(c: seq<nat>, j: nat): seq<nat>
    requires j < |c|
  {
    c[..j] + c[j + 1..]
  }

  // Fields outside the ring do not matter.
  lemma RingFrame(fd: seq<nat>, bk: seq<nat>, fd': seq<nat>, bk': seq<nat>, c: seq<nat>)
    requires Ring(fd, bk, c) && |fd'| == |fd| && |bk'| == |bk|
    requires forall x :: x in c && x < |fd| ==> fd'[x] == fd[x]
    requires forall x :: x in c && x < |bk| ==> bk'[x] == bk[x]
    ensures Ring(fd', bk', c)
  {
    forall j | 0 <= j < |c| - 1
      ensures Linked(fd', bk', c[j], c[j + 1])
    {
      assert Linked(fd, bk, c[j], c[j + 1]);
      assert c[j] in c && c[j + 1] in c;
    }
    assert c[0] in c && c[|c| - 1] in c;
  }

  // A node of a ring, and its two neighbours in it.
  lemma RingAt(fd: seq<nat>, bk: seq<nat>, c: seq<nat>, j: nat)
    requires Ring(fd, bk, c) && j < |c|
    ensures c[j] < |fd| && c[j] < |bk|
    ensures bk[c[j]] == if j + 1 < |c| then c[j + 1] else c[0]
    ensures fd[c[j]] == if j > 0 then c[j - 1] else c[|c| - 1]
  {
    if j > 0 { assert Linked(fd, bk, c[j - 1], c[(j - 1) + 1]); }
    if j + 1 < |c| { assert Linked(fd, bk, c[j], c[j + 1]); }
  }

  // Linking p in between the last node of a ring and its first.
  lemma Append(fd: seq<nat>, bk: seq<nat>, c: seq<nat>, p: nat, fd': seq<nat>, bk': seq<nat>)
    requires |c| == 1 || Ring(fd, bk, c)
    requires |c| > 0 && NoDup(c) && p !in c && |fd| == |bk| && p < |fd| && c[0] < |fd| && c[|c| - 1] < |fd|
    requires fd' == fd[c[0] := p][p := c[|c| - 1]]
    requires bk' == bk[c[|c| - 1] := p][p := c[0]]
    ensures Ring(fd', bk', c + [p])
  {
    var d := c + [p];
    forall j | 0 <= j < |d| - 1
      ensures Linked(fd', bk', d[j], d[j + 1])
    {
      if j < |c| - 1 {
        assert Linked(fd, bk, c[j], c[j + 1]);
        assert c[j] != p && c[j + 1] != p && c[j] != c[|c| - 1] && c[j + 1] != c[0];
      }
    }
  }

  // Unlinking a node joins its two neighbours.
  lemma Unlink(fd: seq<nat>, bk: seq<nat>, c: seq<nat>, k: nat, fd': seq<nat>, bk': seq<nat>)
    requires Ring(fd, bk, c) && NoDup(c) && k < |c| && |c| > 1 && |fd| == |bk|
    requires c[k] < |fd| && bk[c[k]] < |fd| && fd[c[k]] < |fd|
    requires fd' == fd[bk[c[k]] := fd[c[k]]]
    requires bk' == bk[fd[c[k]] := bk[c[k]]]
    ensures Ring(fd', bk', Without(c, k))
  {
    RingAt(fd, bk, c, k);
    var d := Without(c, k);
    forall j | 0 <= j < |d| - 1
      ensures Linked(fd', bk', d[j], d[j + 1])
    {
      UnlinkStep(fd, bk, c, k, fd', bk', j);
    }
    UnlinkEnds(fd, bk, c, k, fd', bk');
  }

  lemma UnlinkStep(fd: seq<nat>, bk: seq<nat>, c: seq<nat>, k: nat, fd': seq<nat>, bk': seq<nat>, j: nat)
    requires Ring(fd, bk, c) && NoDup(c) && k < |c| && |fd| == |bk| && j + 2 < |c|
    requires c[k] < |fd| && bk[c[k]] < |fd| && fd[c[k]] < |fd|
    requires fd' == fd[bk[c[k]] := fd[c[k]]]
    requires bk' == bk[fd[c[k]] := bk[c[k]]]
    ensures Linked(fd', bk', Without(c, k)[j], Without(c, k)[j + 1])
  {
    RingAt(fd, bk, c, k);
    RingAt(fd, bk, c, j);
    RingAt(fd, bk, c, j + 1);
    RingAt(fd, bk, c, j + 2);
  }

  lemma UnlinkEnds(fd: seq<nat>, bk: seq<nat>, c: seq<nat>, k: nat, fd': seq<nat>, bk': seq<nat>)
    requires Ring(fd, bk, c) && NoDup(c) && k < |c| && |fd| == |bk| && |c| > 1
    requires c[k] < |fd| && bk[c[k]] < |fd| && fd[c[k]] < |fd|
    requires fd' == fd[bk[c[k]] := fd[c[k]]]
    requires bk' == bk[fd[c[k]] := bk[c[k]]]
    ensures var d := Without(c, k); Linked(fd', bk', d[|d| - 1], d[0])
  {
    RingAt(fd, bk, c, k);
    RingAt(fd, bk, c, 0);
    RingAt(fd, bk, c, |c| - 1);
    RingAt(fd, bk, c, 1);
    RingAt(fd, bk, c, |c| - 2);
  }
}
