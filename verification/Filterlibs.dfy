// The walk over package dependencies in scripts/filterlibs.py.
module Filterlibs {
  type Package = string

  const VALGRIND: Package := "valgrind"

  // What pkg-config knows: the packages it has, and what each of them requires,
  // publicly and privately; names stands for every name that occurs.
  datatype Graph = Graph(names: set<Package>, known: set<Package>,
                         requires_: map<Package, seq<Package>>, private_: map<Package, seq<Package>>)
  {
    function Public(p: Package): seq<Package> {
      if p in requires_ then requires_[p] else []
    }

    function Private(p: Package): seq<Package> {
      if p in private_ then private_[p] else []
    }

    // The public requirements, then the private ones.
    function Requires(p: Package): seq<Package> {
      Public(p) + Private(p)
    }

    predicate DependsOn(p: Package, d: Package) {
      p in known && (d in Public(p) || d in Private(p))
    }

    ghost predicate Closed() {
      forall p, d :: DependsOn(p, d) ==> d in names
    }
  }

  // b can be reached from a in n steps, past no package in avoid.
  ghost predicate ReachIn(g: Graph, avoid: set<Package>, a: Package, b: Package, n: nat)
    decreases n
  {
    && n > 0 && b !in avoid
    && if n == 1 then g.DependsOn(a, b)
       else exists c :: ReachIn(g, avoid, a, c, n - 1) && g.DependsOn(c, b)
  }

  ghost predicate Reaches(g: Graph, avoid: set<Package>, a: Package, b: Package) {
    exists n: nat :: ReachIn(g, avoid, a, b, n)
  }

  lemma OneStep(g: Graph, avoid: set<Package>, a: Package, b: Package)
    requires g.DependsOn(a, b) && b !in avoid
    ensures Reaches(g, avoid, a, b)
  {
    assert ReachIn(g, avoid, a, b, 1);
  }

  lemma {:induction false} Onwards(g: Graph, avoid: set<Package>, a: Package, b: Package, c: Package, n: nat)
    requires Reaches(g, avoid, a, b) && ReachIn(g, avoid, b, c, n)
    ensures Reaches(g, avoid, a, c)
    decreases n
  {
    if n == 1 {
      var m: nat :| ReachIn(g, avoid, a, b, m);
      assert ReachIn(g, avoid, a, c, m + 1);
    } else {
      var d :| ReachIn(g, avoid, b, d, n - 1) && g.DependsOn(d, c);
      Onwards(g, avoid, a, b, d, n - 1);
      var m: nat :| ReachIn(g, avoid, a, d, m);
      assert ReachIn(g, avoid, a, c, m + 1);
    }
  }

  lemma Transitive(g: Graph, avoid: set<Package>, a: Package, b: Package, c: Package)
    requires Reaches(g, avoid, a, b) && Reaches(g, avoid, b, c)
    ensures Reaches(g, avoid, a, c)
  {
    var n: nat :| ReachIn(g, avoid, b, c, n);
    Onwards(g, avoid, a, b, c, n);
  }

  // Every package in S that exists has all it depends on in visited.
  ghost predicate Followed(g: Graph, S: set<Package>, visited: set<Package>) {
    forall p, d :: p in S && g.DependsOn(p, d) ==> d in visited
  }

  ghost predicate AllReached(g: Graph, avoid: set<Package>, from: Package, S: set<Package>) {
    forall q :: q in S ==> Reaches(g, avoid, from, q)
  }

  // The packages of S that exist, once each.
  ghost function Once(g: Graph, S: set<Package>): multiset<Package> {
    multiset(S * g.known)
  }

  lemma OnceOfUnion(g: Graph, S: set<Package>, T: set<Package>)
    requires S !! T
    ensures Once(g, S + T) == Once(g, S) + Once(g, T)
  {
    assert (S + T) * g.known == S * g.known + T * g.known;
  }

  // Every package that was visited and is not being traced has been printed.
  ghost predicate Accounted(g: Graph, avoid: set<Package>, stack: set<Package>, visited: set<Package>,
                            printed: seq<Package>) {
    forall q :: q in visited && q in g.known && q !in avoid && q !in stack ==> q in printed
  }

  // Each package comes after all it depends on, save for what leads back to it.
  ghost predicate Sorted(g: Graph, avoid: set<Package>, printed: seq<Package>) {
    forall i, d :: 0 <= i < |printed| && Needs(g, avoid, printed[i], d) && !Reaches(g, avoid, d, printed[i]) ==>
      d in printed[..i]
  }

  predicate Needs(g: Graph, avoid: set<Package>, p: Package, d: Package) {
    g.DependsOn(p, d) && d in g.known && d !in avoid
  }

  // No cycle can be reached from the root.
  ghost predicate Acyclic(g: Graph, avoid: set<Package>, root: Package) {
    forall p :: p == root || Reaches(g, avoid, root, p) ==> !Reaches(g, avoid, p, p)
  }

  // Each package comes after all it depends on.
  ghost predicate InOrder(g: Graph, avoid: set<Package>, printed: seq<Package>) {
    forall i, d :: 0 <= i < |printed| && Needs(g, avoid, printed[i], d) ==> d in printed[..i]
  }

  // Every package being traced leads to from.
  ghost predicate LeadsTo(g: Graph, avoid: set<Package>, stack: set<Package>, from: Package) {
    from in stack && forall o :: o in stack ==> o == from || Reaches(g, avoid, o, from)
  }

  lemma SortedPush(g: Graph, avoid: set<Package>, stack: set<Package>, visited: set<Package>, printed: seq<Package>,
                   p: Package)
    requires Sorted(g, avoid, printed) && Accounted(g, avoid, stack, visited, printed)
    requires LeadsTo(g, avoid, stack, p) && Followed(g, {p}, visited)
    ensures Sorted(g, avoid, printed + [p])
  {
    hide Reaches;
    var all := printed + [p];
    forall i, d | 0 <= i < |all| && Needs(g, avoid, all[i], d) && !Reaches(g, avoid, d, all[i])
      ensures d in all[..i]
    {
      if i < |printed| {
        assert all[..i] == printed[..i];
      } else {
        assert all[..i] == printed;
        if d == p { OneStep(g, avoid, p, d); }
      }
    }
  }

  // Where the root reaches no cycle, that is all a package depends on.
  lemma SortedAll(g: Graph, avoid: set<Package>, root: Package, printed: seq<Package>, i: nat, d: Package)
    requires Sorted(g, avoid, printed) && Acyclic(g, avoid, root)
    requires i < |printed| && (printed[i] == root || Reaches(g, avoid, root, printed[i]))
      && Needs(g, avoid, printed[i], d)
    ensures d in printed[..i]
  {
    hide Reaches;
    if Reaches(g, avoid, d, printed[i]) {
      OneStep(g, avoid, printed[i], d);
      Transitive(g, avoid, printed[i], d, printed[i]);
    }
  }

  lemma StackPush(g: Graph, avoid: set<Package>, stack: set<Package>, from: Package, p: Package)
    requires LeadsTo(g, avoid, stack, from) && g.DependsOn(from, p) && p !in avoid
    ensures LeadsTo(g, avoid, stack + {p}, p)
  {
    OneStep(g, avoid, from, p);
    forall o | o in stack + {p}
      ensures o == p || Reaches(g, avoid, o, p)
    {
      if o in stack && o != from { Transitive(g, avoid, o, from, p); }
    }
  }

  // q is one of ds or can be reached from one of them.
  ghost predicate Under(g: Graph, avoid: set<Package>, ds: seq<Package>, q: Package) {
    exists d :: d in ds && (q == d || Reaches(g, avoid, d, q))
  }

  // x has been printed at some point, and y not yet.
  ghost predicate Before(printed: seq<Package>, x: Package, y: Package) {
    exists k :: 0 <= k <= |printed| && x in printed[..k] && y !in printed[..k]
  }

  // The first n of ds are printed in the order in which they stand there: each
  // before everything that neither was visited already nor is reached by then.
  ghost predicate InTurn(g: Graph, avoid: set<Package>, ds: seq<Package>, n: nat, was: set<Package>,
                         printed: seq<Package>)
    requires n <= |ds|
  {
    forall i, y :: 0 <= i < n && ds[i] in g.known - was && y !in was && !Under(g, avoid, ds[..i + 1], y) ==>
      Before(printed, ds[i], y)
  }

  // So of two of them the one that stands first is printed first.
  lemma PairInTurn(g: Graph, avoid: set<Package>, ds: seq<Package>, was: set<Package>, printed: seq<Package>,
                   i: nat, j: nat)
    requires InTurn(g, avoid, ds, |ds|, was, printed)
    requires i < j < |ds| && ds[i] in g.known - was && ds[j] !in was && !Under(g, avoid, ds[..i + 1], ds[j])
    requires ds[i] in printed && ds[j] in printed
    ensures FirstAt(printed, ds[i]) < FirstAt(printed, ds[j])
  {
    hide Reaches, Under;
    assert Before(printed, ds[i], ds[j]);
    var cut :| 0 <= cut <= |printed| && ds[i] in printed[..cut] && ds[j] !in printed[..cut];
    FirstIn(printed, cut, ds[i]);
    FirstIn(printed, cut, ds[j]);
  }

  lemma FirstIn(printed: seq<Package>, cut: nat, q: Package)
    requires cut <= |printed| && q in printed
    ensures q in printed[..cut] <==> FirstAt(printed, q) < cut
  {
    var l := FirstAt(printed, q);
    if l < cut {
      assert printed[..cut][l] == q;
    } else {
      assert printed[..cut] == printed[..l][..cut];
    }
  }

  // Where q is printed first.
  ghost function FirstAt(printed: seq<Package>, q: Package): (l: nat)
    requires q in printed
    ensures l < |printed| && printed[l] == q && q !in printed[..l]
  {
    if printed[0] == q then 0 else
      assert printed == [printed[0]] + printed[1..];
      FirstAt(printed[1..], q) + 1
  }

  lemma UnderMore(g: Graph, avoid: set<Package>, ds: seq<Package>, n: nat, q: Package)
    requires n < |ds| && Under(g, avoid, ds[..n], q)
    ensures Under(g, avoid, ds[..n + 1], q)
  {
    hide Reaches;
    var d :| d in ds[..n] && (q == d || Reaches(g, avoid, d, q));
    assert d in ds[..n + 1];
  }

  lemma UnderEither(g: Graph, avoid: set<Package>, ds: seq<Package>, es: seq<Package>, q: Package)
    requires Under(g, avoid, ds, q) || Under(g, avoid, es, q)
    ensures Under(g, avoid, ds + es, q)
  {
    hide Reaches;
    var d :| (d in ds || d in es) && (q == d || Reaches(g, avoid, d, q));
    assert d in ds + es;
  }

  lemma UnderLast(g: Graph, avoid: set<Package>, ds: seq<Package>, n: nat, q: Package)
    requires n < |ds| && (q == ds[n] || Reaches(g, avoid, ds[n], q))
    ensures Under(g, avoid, ds[..n + 1], q)
  {
    hide Reaches;
    var d := ds[n];
    assert ds[..n + 1][n] == d;
    assert d in ds[..n + 1] && (q == d || Reaches(g, avoid, d, q));
  }

  lemma BeforeMore(printed: seq<Package>, more: seq<Package>, x: Package, y: Package)
    requires Before(printed, x, y) && printed <= more
    ensures Before(more, x, y)
  {
    var k :| 0 <= k <= |printed| && x in printed[..k] && y !in printed[..k];
    assert more[..k] == printed[..k];
  }

  lemma BeforeNow(printed: seq<Package>, x: Package, y: Package)
    requires x in printed && y !in printed
    ensures Before(printed, x, y)
  {
    assert printed[..|printed|] == printed;
  }

  lemma InTurnMore(g: Graph, avoid: set<Package>, ds: seq<Package>, n: nat, was: set<Package>, printed: seq<Package>,
                   more: seq<Package>)
    requires n <= |ds| && InTurn(g, avoid, ds, n, was, printed) && printed <= more
    ensures InTurn(g, avoid, ds, n, was, more)
  {
    hide Reaches, Before, Under;
    forall i, y | 0 <= i < n && ds[i] in g.known - was && y !in was && !Under(g, avoid, ds[..i + 1], y)
      ensures Before(more, ds[i], y)
    {
      BeforeMore(printed, more, ds[i], y);
    }
  }

  // The package at n has had its turn.
  lemma TurnTaken(g: Graph, avoid: set<Package>, ds: seq<Package>, n: nat, was: set<Package>, visited: set<Package>,
                  printed: seq<Package>)
    requires n < |ds| && InTurn(g, avoid, ds, n, was, printed)
    requires ds[n] in g.known - was ==> ds[n] in printed
    requires Marked(visited, printed) && AllUnder(g, avoid, ds[..n + 1], visited - was)
    ensures InTurn(g, avoid, ds, n + 1, was, printed)
  {
    hide Reaches, Before, Under;
    forall i, y | 0 <= i < n + 1 && ds[i] in g.known - was && y !in was && !Under(g, avoid, ds[..i + 1], y)
      ensures Before(printed, ds[i], y)
    {
      if i == n { BeforeNow(printed, ds[i], y); }
    }
  }

  ghost predicate Marked(visited: set<Package>, printed: seq<Package>) {
    forall q :: q in printed ==> q in visited
  }

  ghost predicate AllUnder(g: Graph, avoid: set<Package>, ds: seq<Package>, S: set<Package>) {
    forall q :: q in S ==> Under(g, avoid, ds, q)
  }

  // What the package at n brings along is under it.
  lemma AllUnderMore(g: Graph, avoid: set<Package>, ds: seq<Package>, n: nat, was: set<Package>, mid: set<Package>,
                     now: set<Package>)
    requires n < |ds| && AllUnder(g, avoid, ds[..n], mid - was)
    requires forall q :: q in now - mid ==> q == ds[n] || Reaches(g, avoid, ds[n], q)
    ensures AllUnder(g, avoid, ds[..n + 1], now - was)
  {
    hide Reaches, Under;
    forall q | q in now - was
      ensures Under(g, avoid, ds[..n + 1], q)
    {
      if q in mid { UnderMore(g, avoid, ds, n, q); } else { UnderLast(g, avoid, ds, n, q); }
    }
  }

  // Two lists, one after the other, have had their turns.
  lemma BothInTurn(g: Graph, avoid: set<Package>, ds: seq<Package>, es: seq<Package>, was: set<Package>,
                   half: set<Package>, mid: seq<Package>, end: seq<Package>)
    requires InTurn(g, avoid, ds, |ds|, was, mid) && InTurn(g, avoid, es, |es|, half, end)
    requires was <= half && mid <= end && Marked(half, mid) && AllUnder(g, avoid, ds, half - was)
    requires forall q :: q in half - was && q in g.known ==> q in mid
    ensures InTurn(g, avoid, ds + es, |ds + es|, was, end)
  {
    hide Reaches, Before, Under;
    var all := ds + es;
    forall i, y | 0 <= i < |all| && all[i] in g.known - was && y !in was && !Under(g, avoid, all[..i + 1], y)
      ensures Before(end, all[i], y)
    {
      if i < |ds| {
        assert all[..i + 1] == ds[..i + 1];
        BeforeMore(mid, end, ds[i], y);
      } else {
        SecondInTurn(g, avoid, ds, es, was, half, mid, end, i - |ds|, y);
      }
    }
  }

  lemma SecondInTurn(g: Graph, avoid: set<Package>, ds: seq<Package>, es: seq<Package>, was: set<Package>,
                     half: set<Package>, mid: seq<Package>, end: seq<Package>, k: nat, y: Package)
    requires k < |es| && InTurn(g, avoid, es, |es|, half, end)
    requires was <= half && mid <= end && Marked(half, mid) && AllUnder(g, avoid, ds, half - was)
    requires forall q :: q in half - was && q in g.known ==> q in mid
    requires es[k] in g.known - was && y !in was && !Under(g, avoid, (ds + es)[..|ds| + k + 1], y)
    ensures Before(end, es[k], y)
  {
    hide Reaches, Before, Under;
    assert (ds + es)[..|ds| + k + 1] == ds + es[..k + 1];
    if y in half || Under(g, avoid, es[..k + 1], y) {
      UnderEither(g, avoid, ds, es[..k + 1], y);
    }
    if es[k] in half {
      BeforeNow(mid, es[k], y);
      BeforeMore(mid, end, es[k], y);
    }
  }

  lemma NewPrinted(g: Graph, S: set<Package>, before: seq<Package>, printed: seq<Package>)
    requires multiset(printed) == multiset(before) + Once(g, S)
    ensures forall q :: q in S && q in g.known ==> q in printed
  {
    forall q | q in S && q in g.known
      ensures q in printed
    {
      assert q in Once(g, S);
      assert q in multiset(printed);
    }
  }

  class Walk {
    const g: Graph
    var visited: set<Package>
    var printed: seq<Package>

    constructor (g: Graph)
      ensures this.g == g && visited == {VALGRIND} && printed == []
    {
      this.g := g;
      visited := {VALGRIND};
      printed := [];
    }

    // What holds before and after each step of the walk, while the packages of
    // stack are being traced.
    ghost predicate Valid(avoid: set<Package>, stack: set<Package>)
      reads this
    {
      && g.Closed() && avoid <= visited
      && Accounted(g, avoid, stack, visited, printed)
      && Sorted(g, avoid, printed)
    }

    // package_traverse, for what `from` depends on
    method Traverse(pkgs: seq<Package>, ghost from: Package, ghost avoid: set<Package>, ghost stack: set<Package>)
      requires Valid(avoid, stack) && LeadsTo(g, avoid, stack, from) && Marked(visited, printed)
      requires forall d :: d in pkgs ==> g.DependsOn(from, d)
      modifies this
      ensures Valid(avoid, stack) && Marked(visited, printed) && old(printed) <= printed
      ensures InTurn(g, avoid, pkgs, |pkgs|, old(visited), printed)
      ensures AllUnder(g, avoid, pkgs, visited - old(visited))
      ensures old(visited) <= visited && (forall d :: d in pkgs ==> d in visited)
      ensures Followed(g, visited - old(visited), visited)
      ensures AllReached(g, avoid, from, visited - old(visited))
      ensures multiset(printed) == multiset(old(printed)) + Once(g, visited - old(visited))
      decreases |g.names - visited|, 0, |pkgs|
    {
      hide Reaches, Sorted, Accounted, LeadsTo, Once, Followed, AllReached, Marked, AllUnder, Under, InTurn;
      NoTurns(g, avoid, pkgs, visited, printed);
      NothingNew(g, avoid, from, visited);
      for i := 0 to |pkgs|
        invariant Valid(avoid, stack) && Marked(visited, printed) && old(printed) <= printed
        invariant InTurn(g, avoid, pkgs, i, old(visited), printed)
        invariant AllUnder(g, avoid, pkgs[..i], visited - old(visited))
        invariant old(visited) <= visited && (forall j :: 0 <= j < i ==> pkgs[j] in visited)
        invariant Followed(g, visited - old(visited), visited)
        invariant AllReached(g, avoid, from, visited - old(visited))
        invariant multiset(printed) == multiset(old(printed)) + Once(g, visited - old(visited))
      {
        ghost var mid, so_far := visited, printed;
        if pkgs[i] !in visited {
          Fewer(g.names, old(visited), visited);
          VisitNew(pkgs[i], from, avoid, stack, old(visited), old(printed));
          InTurnMore(g, avoid, pkgs, i, old(visited), so_far, printed);
        } else {
          NewPrinted(g, visited - old(visited), old(printed), printed);
        }
        AllUnderMore(g, avoid, pkgs, i, old(visited), mid, visited);
        TurnTaken(g, avoid, pkgs, i, old(visited), visited, printed);
      }
      assert pkgs[..|pkgs|] == pkgs;
    }

    // A package that was not visited before is marked and traced.
    method VisitNew(pkg: Package, ghost from: Package, ghost avoid: set<Package>, ghost stack: set<Package>,
                    ghost start: set<Package>, ghost before: seq<Package>)
      requires Valid(avoid, stack) && LeadsTo(g, avoid, stack, from) && Marked(visited, printed)
      requires pkg !in visited && g.DependsOn(from, pkg) && start <= visited
      requires Followed(g, visited - start, visited) && AllReached(g, avoid, from, visited - start)
      requires multiset(printed) == multiset(before) + Once(g, visited - start)
      modifies this
      ensures Valid(avoid, stack) && old(visited) + {pkg} <= visited
      ensures Marked(visited, printed) && old(printed) <= printed && (pkg in g.known ==> pkg in printed)
      ensures forall q :: q in visited - old(visited) ==> q == pkg || Reaches(g, avoid, pkg, q)
      ensures Followed(g, visited - start, visited) && AllReached(g, avoid, from, visited - start)
      ensures multiset(printed) == multiset(before) + Once(g, visited - start)
      decreases |g.names - visited|, 0, 0
    {
      hide Reaches, Sorted, Accounted, Once, Followed, InTurn, Marked;
      ghost var was := visited;
      Entered(g, avoid, stack, visited, printed, pkg);
      Shrinks(g.names, visited, pkg);
      visited := visited + {pkg};
      StackPush(g, avoid, stack, from, pkg);
      OneStep(g, avoid, from, pkg);
      Trace(pkg, avoid, stack + {pkg});
      Left(g, avoid, stack, visited, printed, pkg);
      Gathered(g, avoid, from, pkg, start, was, visited);
    }

    // package_trace: a package is printed after everything it requires has
    // been traversed.
    method Trace(pkg: Package, ghost avoid: set<Package>, ghost stack: set<Package>)
      requires Valid(avoid, stack) && LeadsTo(g, avoid, stack, pkg) && Marked(visited, printed)
      modifies this
      ensures Valid(avoid, stack - {pkg}) && old(visited) <= visited
      ensures Marked(visited + {pkg}, printed) && old(printed) <= printed
      ensures pkg in g.known ==> pkg in printed
      ensures pkg in g.known ==> InTurn(g, avoid, g.Requires(pkg), |g.Requires(pkg)|, old(visited), printed)
      ensures Followed(g, visited - old(visited) + {pkg}, visited)
      ensures AllReached(g, avoid, pkg, visited - old(visited))
      ensures multiset(printed) ==
        multiset(old(printed)) + Once(g,
          visited - old(visited)) + (if pkg in g.known then multiset{pkg} else multiset{})
      decreases |g.names - visited|, 1, 0
    {
      hide Reaches, Sorted, AllReached, Once, Followed, Accounted, LeadsTo, Marked, AllUnder, Under, InTurn;
      Marks(visited, printed, pkg);
      if pkg in g.known {
        Traverse(g.Public(pkg), pkg, avoid, stack);
        ghost var half, mid := visited, printed;
        NewPrinted(g, half - old(visited), old(printed), mid);
        Fewer(g.names, old(visited), half);
        Traverse(g.Private(pkg), pkg, avoid, stack);
        TwoHalves(g, avoid, pkg, old(visited), half, visited);
        Printed(g, avoid, stack, old(visited), visited, printed, pkg);
        BothInTurn(g, avoid, g.Public(pkg), g.Private(pkg), old(visited), half, mid, printed);
        InTurnMore(g, avoid, g.Requires(pkg), |g.Requires(pkg)|, old(visited), printed, printed + [pkg]);
        Marks(visited, printed, pkg);
        printed := printed + [pkg];
      } else {
        NothingToDo(g, avoid, stack, visited, printed, pkg);
      }
    }
  }

  // A package is printed when all it depends on has been visited.
  lemma Printed(g: Graph, avoid: set<Package>, stack: set<Package>, start: set<Package>, visited: set<Package>,
                printed: seq<Package>, p: Package)
    requires Accounted(g, avoid, stack, visited, printed) && Followed(g, visited - start, visited) && p in g.known
    requires forall d :: d in g.Public(p) || d in g.Private(p) ==> d in visited
    requires LeadsTo(g, avoid, stack, p) && Sorted(g, avoid, printed)
    ensures Accounted(g, avoid, stack - {p}, visited, printed + [p])
    ensures Followed(g, visited - start + {p}, visited)
    ensures Sorted(g, avoid, printed + [p])
  {
    hide Reaches, Sorted, LeadsTo;
    SortedPush(g, avoid, stack, visited, printed, p);
    assert (printed + [p])[|printed|] == p;
  }

  lemma Marks(visited: set<Package>, printed: seq<Package>, p: Package)
    requires Marked(visited, printed)
    ensures Marked(visited + {p}, printed) && Marked(visited + {p}, printed + [p])
    ensures p in visited ==> visited + {p} == visited
  {
  }

  lemma Entered(g: Graph, avoid: set<Package>, stack: set<Package>, visited: set<Package>, printed: seq<Package>,
                p: Package)
    requires Accounted(g, avoid, stack, visited, printed) && Marked(visited, printed)
    ensures Accounted(g, avoid, stack + {p}, visited + {p}, printed) && Marked(visited + {p}, printed)
  {
  }

  lemma Left(g: Graph, avoid: set<Package>, stack: set<Package>, visited: set<Package>, printed: seq<Package>,
             p: Package)
    requires Accounted(g, avoid, stack + {p} - {p}, visited, printed) && Marked(visited + {p}, printed)
    requires p in visited
    ensures Accounted(g, avoid, stack, visited, printed) && Marked(visited, printed)
  {
  }

  lemma NoTurns(g: Graph, avoid: set<Package>, ds: seq<Package>, visited: set<Package>, printed: seq<Package>)
    ensures InTurn(g, avoid, ds, 0, visited, printed) && AllUnder(g, avoid, ds[..0], visited - visited)
  {
  }

  lemma NothingNew(g: Graph, avoid: set<Package>, from: Package, visited: set<Package>)
    ensures Followed(g, visited - visited, visited) && AllReached(g, avoid, from, visited - visited)
    ensures Once(g, visited - visited) == multiset{}
  {
  }

  lemma NothingToDo(g: Graph, avoid: set<Package>, stack: set<Package>, visited: set<Package>, printed: seq<Package>,
                    p: Package)
    requires Accounted(g, avoid, stack, visited, printed) && p !in g.known
    ensures Accounted(g, avoid, stack - {p}, visited, printed) && Followed(g, visited - visited + {p}, visited)
    ensures AllReached(g, avoid, p, visited - visited) && Once(g, visited - visited) == multiset{}
  {
  }

  lemma TwoHalves(g: Graph, avoid: set<Package>, from: Package, start: set<Package>, half: set<Package>,
                  now: set<Package>)
    requires start <= half <= now
    requires Followed(g, half - start, half) && Followed(g, now - half, now)
    requires AllReached(g, avoid, from, half - start) && AllReached(g, avoid, from, now - half)
    ensures Followed(g, now - start, now) && AllReached(g, avoid, from, now - start)
    ensures Once(g, now - start) == Once(g, half - start) + Once(g, now - half)
  {
    hide Reaches;
    OnceOfUnion(g, half - start, now - half);
    assert now - start == (half - start) + (now - half);
  }

  lemma Fewer(names: set<Package>, v: set<Package>, w: set<Package>)
    requires v <= w
    ensures |names - w| <= |names - v|
  {
    assert names - v == (names - w) + (names * w - v);
  }

  lemma Shrinks(names: set<Package>, visited: set<Package>, p: Package)
    requires p in names && p !in visited
    ensures |names - (visited + {p})| < |names - visited|
  {
    assert names - visited == names - (visited + {p}) + {p};
  }

  lemma Gathered(g: Graph, avoid: set<Package>, from: Package, p: Package, start: set<Package>, was: set<Package>,
                 now: set<Package>)
    requires start <= was && p !in was && was + {p} <= now && Reaches(g, avoid, from, p)
    requires Followed(g, was - start, was) && Followed(g, now - (was + {p}) + {p}, now)
    requires AllReached(g, avoid, from, was - start) && AllReached(g, avoid, p, now - (was + {p}))
    ensures Followed(g, now - start, now) && AllReached(g, avoid, from, now - start)
    ensures Once(g, now - start) ==
      Once(g, was - start) + Once(g, now - (was + {p})) + (if p in g.known then multiset{p} else multiset{})
  {
    hide Reaches;
    forall q | q in now - start
      ensures Reaches(g, avoid, from, q)
    {
      if q !in was && q != p { Transitive(g, avoid, from, p, q); }
    }
    OnceOfUnion(g, was - start, {p});
    OnceOfUnion(g, was - start + {p}, now - (was + {p}));
    assert was - start + {p} + (now - (was + {p})) == now - start;
    assert {p} * g.known == if p in g.known then {p} else {};
  }

  // The whole walk: what it visits is what the root reaches, and what it prints
  // is each of those packages that exists once, and the root itself once more.
  method WalkFrom(g: Graph, root: Package) returns (w: Walk)
    requires g.Closed()
    ensures w.g == g
    ensures forall q :: q in w.visited <==> q == VALGRIND || Reaches(g, {VALGRIND}, root, q)
    ensures multiset(w.printed) ==
      Once(g, w.visited - {VALGRIND}) + (if root in g.known then multiset{root} else multiset{})
    ensures Sorted(g, {VALGRIND}, w.printed)
    ensures Acyclic(g, {VALGRIND}, root) ==> InOrder(g, {VALGRIND}, w.printed)
    ensures root in g.known ==> InTurn(g, {VALGRIND}, g.Requires(root), |g.Requires(root)|, {VALGRIND}, w.printed)
  {
    hide Reaches, Sorted, Acyclic, InOrder, InTurn;
    w := new Walk(g);
    ghost var avoid := {VALGRIND};
    Empty(g, avoid);
    w.Trace(root, avoid, {root});
    forall q | Reaches(g, avoid, root, q)
      ensures q in w.visited
    {
      Inside(g, avoid, root, q, w.visited);
    }
    if Acyclic(g, avoid, root) {
      AllInOrder(g, avoid, root, w.visited, w.printed);
    }
  }

  lemma AllInOrder(g: Graph, avoid: set<Package>, root: Package, visited: set<Package>, printed: seq<Package>)
    requires Sorted(g, avoid, printed) && Acyclic(g, avoid, root)
    requires forall q :: q in visited - avoid ==> Reaches(g, avoid, root, q)
    requires multiset(printed) == Once(g, visited - avoid) + (if root in g.known then multiset{root} else multiset{})
    ensures InOrder(g, avoid, printed)
  {
    hide Reaches, Sorted, Acyclic, Needs;
    forall i, d | 0 <= i < |printed| && Needs(g, avoid, printed[i], d)
      ensures d in printed[..i]
    {
      assert printed[i] in multiset(printed);
      SortedAll(g, avoid, root, printed, i, d);
    }
  }

  lemma Empty(g: Graph, avoid: set<Package>)
    ensures Sorted(g, avoid, [])
  {
  }

  // What the root reaches stays inside a set that follows all dependencies.
  lemma Inside(g: Graph, avoid: set<Package>, root: Package, q: Package, visited: set<Package>)
    requires Followed(g, visited - avoid + {root}, visited) && Reaches(g, avoid, root, q)
    ensures q in visited
  {
    var n: nat :| ReachIn(g, avoid, root, q, n);
    InsideIn(g, avoid, root, q, visited, n);
  }

  lemma {:induction false} InsideIn(g: Graph, avoid: set<Package>, root: Package, q: Package, visited: set<Package>,
                                    n: nat)
    requires Followed(g, visited - avoid + {root}, visited) && ReachIn(g, avoid, root, q, n)
    ensures q in visited
    decreases n
  {
    if n > 1 {
      var c :| ReachIn(g, avoid, root, c, n - 1) && g.DependsOn(c, q);
      InsideIn(g, avoid, root, c, visited, n - 1);
    }
  }

  // How often a package is printed: once if the root reaches it, and the root
  // once more, so twice exactly when the root lies on a cycle.
  lemma TimesPrinted(g: Graph, root: Package, visited: set<Package>, printed: seq<Package>, q: Package)
    requires forall p :: p in visited <==> p == VALGRIND || Reaches(g, {VALGRIND}, root, p)
    requires multiset(printed) ==
      Once(g, visited - {VALGRIND}) + (if root in g.known then multiset{root} else multiset{})
    requires q in g.known && q != VALGRIND
    ensures multiset(printed)[q] ==
      (if Reaches(g, {VALGRIND}, root, q) then 1 else 0) + (if q == root then 1 else 0)
  {
    hide Reaches;
    var S := (visited - {VALGRIND}) * g.known;
    assert q in S <==> Reaches(g, {VALGRIND}, root, q) by { NeverAvoided(g, root, VALGRIND); }
  }

  lemma NeverAvoided(g: Graph, root: Package, v: Package)
    ensures !Reaches(g, {v}, root, v)
  {
  }

  // Two packages that require each other.
  function Pair(): Graph {
    Graph({"a", "b"}, {"a", "b"}, map["a" := ["b"], "b" := ["a"]], map[])
  }

  lemma PairCycles()
    ensures Pair().Closed() && "a" != VALGRIND && "b" != VALGRIND
    ensures Reaches(Pair(), {VALGRIND}, "a", "b") && Reaches(Pair(), {VALGRIND}, "a", "a")
  {
    var g := Pair();
    assert |"a"| == |"b"| == 1;
    assert "b" in g.Public("a") && "a" in g.Public("b");
    OneStep(g, {VALGRIND}, "a", "b");
    OneStep(g, {VALGRIND}, "b", "a");
    Transitive(g, {VALGRIND}, "a", "b", "a");
    forall p, d | g.DependsOn(p, d)
      ensures d in g.names
    {
      assert d in g.Public(p);
    }
  }

  // Walking from one of them prints it twice, and the other once.
  method CyclePrintsTwice() returns (w: Walk)
    ensures multiset(w.printed)["a"] == 2 && multiset(w.printed)["b"] == 1
  {
    hide Reaches;
    PairCycles();
    w := WalkFrom(Pair(), "a");
    TimesPrinted(w.g, "a", w.visited, w.printed, "a");
    TimesPrinted(w.g, "a", w.visited, w.printed, "b");
  }
}
