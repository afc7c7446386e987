// Tuple lists: attribute, type and value, kept in a growing array.
module Plist {
  import opened Texts

  const INCUNIT: nat := 4
  const DELIM: char := ':'
  const EOL: char := '\n'

  datatype Item = Item(attrib: string, type_: string, value: string)

  // print_fmt
  function Printed(x: Item): string {
    x.attrib + [DELIM] + x.type_ + [DELIM] + x.value + [EOL]
  }

  function PrintAll(s: seq<Item>): string {
    if s == [] then "" else Printed(s[0]) + PrintAll(s[1..])
  }

  // print_fmt_len
  function PrintLen(x: Item): nat {
    |x.attrib| + |x.type_| + |x.value| + 2 + 1
  }

  function TotalLen(s: seq<Item>): nat {
    if s == [] then 0 else TotalLen(s[..|s| - 1]) + PrintLen(s[|s| - 1])
  }

  lemma {:induction false} PrintAllAppend(s: seq<Item>, t: seq<Item>)
    ensures PrintAll(s + t) == PrintAll(s) + PrintAll(t)
  {
    if s == [] {
      assert s + t == t;
    } else {
      assert (s + t)[0] == s[0] && (s + t)[1..] == s[1..] + t;
      PrintAllAppend(s[1..], t);
    }
  }

  lemma PrintMore(s: seq<Item>, i: nat)
    requires i < |s|
    ensures PrintAll(s[..i + 1]) == PrintAll(s[..i]) + Printed(s[i])
  {
    assert s[..i + 1] == s[..i] + [s[i]];
    PrintAllAppend(s[..i], [s[i]]);
    assert PrintAll([s[i]]) == Printed(s[i]) + PrintAll([]);
  }

  // The byte length that a list keeps is the length of what is printed.
  lemma {:induction false} TotalLenIsPrinted(s: seq<Item>)
    ensures TotalLen(s) == |PrintAll(s)|
  {
    if s != [] {
      TotalLenIsPrinted(s[..|s| - 1]);
      PrintMore(s, |s| - 1);
      assert s[..|s| - 1 + 1] == s;
    }
  }

  lemma {:induction false} TotalLenUpdate(s: seq<Item>, i: nat, x: Item)
    requires i < |s|
    ensures TotalLen(s[i := x]) + PrintLen(s[i]) == TotalLen(s) + PrintLen(x)
  {
    var n := |s| - 1;
    if i == n {
      assert s[i := x][..n] == s[..n];
    } else {
      assert s[i := x][..n] == s[..n][i := x];
      TotalLenUpdate(s[..n], i, x);
    }
  }

  class Ppsl {
    var bytelen: nat
    var occupancy: nat
    var item: array<Item>

    ghost predicate Valid()
      reads this
    {
      occupancy < item.Length
    }

    ghost function Contents(): seq<Item>
      reads this, item
      requires Valid()
    {
      item[..occupancy]
    }

    ghost predicate Counted()
      reads this, item
      requires Valid()
    {
      bytelen == TotalLen(Contents())
    }

    // lpps_ppsl_create, of an empty list
    constructor ()
      ensures Valid() && Contents() == [] && Counted() && fresh(item)
    {
      bytelen, occupancy := 0, 0;
      item := new Item[INCUNIT](_ => Item("", "", ""));
    }

    // lpps_ppsl_create, of a list that has to grow
    method Grow()
      requires Valid()
      modifies this`item
      ensures Valid() && fresh(item) && item.Length == old(item.Length) + INCUNIT
      ensures item[..occupancy] == old(item[..occupancy])
    {
      var was, n := item, occupancy;
      var larger := new Item[was.Length + INCUNIT](i requires 0 <= i reads was =>
        if i < was.Length then was[i] else Item("", "", ""));
      assert larger[..n] == was[..n];
      item := larger;
    }

    // lpps_ppsl_add
    method Add(x: Item)
      requires Valid() && Counted()
      modifies this, item
      ensures Valid() && Counted() && Contents() == old(Contents()) + [x]
      ensures item == old(item) || fresh(item)
    {
      if occupancy + 1 >= item.Length {
        Grow();
      }
      assert Contents() == old(Contents());
      item[occupancy] := x;
      bytelen := bytelen + PrintLen(x);
      occupancy := occupancy + 1;
      assert Contents() == old(Contents()) + [x];
      assert Contents()[..|Contents()| - 1] == old(Contents());
    }

    // lpps_ppsl_find
    method Find(b: Item) returns (j: int)
      requires Valid()
      ensures j == FirstMatch(Contents(), b.attrib, b.type_)
    {
      var i := 0;
      while i < occupancy
        invariant 0 <= i <= occupancy
        invariant forall k :: 0 <= k < i ==> !Matches(Contents()[k], b.attrib, b.type_)
      {
        if item[i].attrib == b.attrib && item[i].type_ == b.type_ {
          FirstIs(Contents(), b.attrib, b.type_, i);
          return i;
        }
        i := i + 1;
      }
      NoMatch(Contents(), b.attrib, b.type_);
      return -1;
    }
  }

  predicate Matches(x: Item, attrib: string, type_: string) {
    x.attrib == attrib && x.type_ == type_
  }

  function FirstMatch(s: seq<Item>, attrib: string, type_: string): (j: int)
    ensures -1 <= j < |s|
  {
    if s == [] then -1
    else if Matches(s[0], attrib, type_) then 0
    else
      var j := FirstMatch(s[1..], attrib, type_);
      if j < 0 then -1 else j + 1
  }

  lemma {:induction false} FirstIs(s: seq<Item>, a: string, t: string, i: nat)
    requires i < |s| && Matches(s[i], a, t)
    requires forall k :: 0 <= k < i ==> !Matches(s[k], a, t)
    ensures FirstMatch(s, a, t) == i
  {
    if i > 0 {
      assert !Matches(s[0], a, t);
      FirstIs(s[1..], a, t, i - 1);
    }
  }

  lemma {:induction false} NoMatch(s: seq<Item>, a: string, t: string)
    requires forall k :: 0 <= k < |s| ==> !Matches(s[k], a, t)
    ensures FirstMatch(s, a, t) == -1
  {
    if s != [] {
      assert !Matches(s[0], a, t);
      NoMatch(s[1..], a, t);
    }
  }

  // --------------------------------------------------------------- merging

  datatype Value = Missing | Found(value: string)

  // What a list says about an attribute and type: its first match.
  function Lookup(s: seq<Item>, a: string, t: string): Value {
    if s == [] then Missing
    else if Matches(s[0], a, t) then Found(s[0].value)
    else Lookup(s[1..], a, t)
  }

  // The last match.
  function Latest(s: seq<Item>, a: string, t: string): Value {
    if s == [] then Missing
    else if Matches(s[|s| - 1], a, t) then Found(s[|s| - 1].value)
    else Latest(s[..|s| - 1], a, t)
  }

  // One item merged: its value replaces the first match, or it is added.
  function MergeOne(root: seq<Item>, x: Item): seq<Item> {
    var j := FirstMatch(root, x.attrib, x.type_);
    if j < 0 then root + [x] else root[j := root[j].(value := x.value)]
  }

  function Merged(root: seq<Item>, node: seq<Item>): seq<Item> {
    if node == [] then root else MergeOne(Merged(root, node[..|node| - 1]), node[|node| - 1])
  }

  // The value at the first match decides; other keys are not touched.
  lemma {:induction false} LookupReplaced(s: seq<Item>, x: Item, a: string, t: string)
    ensures Lookup(MergeOne(s, x), a, t) == if Matches(x, a, t) then Found(x.value) else Lookup(s, a, t)
  {
    if s == [] {
      assert MergeOne(s, x) == [x];
    } else if Matches(s[0], x.attrib, x.type_) {
      assert MergeOne(s, x)[1..] == s[1..];
    } else {
      LookupReplaced(s[1..], x, a, t);
      var j := FirstMatch(s[1..], x.attrib, x.type_);
      assert MergeOne(s, x) == [s[0]] + MergeOne(s[1..], x);
    }
  }

  // Merging overrides: the last word of the new list counts, and where it says
  // nothing, what the old list said first.
  lemma {:induction false} MergeOverrides(root: seq<Item>, node: seq<Item>, a: string, t: string)
    ensures Lookup(Merged(root, node), a, t) ==
      if Latest(node, a, t) == Missing then Lookup(root, a, t) else Latest(node, a, t)
  {
    if node != [] {
      var n := |node| - 1;
      MergeOverrides(root, node[..n], a, t);
      LookupReplaced(Merged(root, node[..n]), node[n], a, t);
    }
  }

  // No key is lost, moved or doubled: the old keys stay in place, and only new
  // ones are added behind them.
  lemma {:induction false} MergeKeepsPlaces(root: seq<Item>, node: seq<Item>)
    ensures |root| <= |Merged(root, node)|
    ensures forall i :: 0 <= i < |root| ==> Matches(Merged(root, node)[i], root[i].attrib, root[i].type_)
    ensures forall i :: |root| <= i < |Merged(root, node)| ==>
      FirstMatch(Merged(root, node), Merged(root, node)[i].attrib, Merged(root, node)[i].type_) == i
  {
    if node != [] {
      var n := |node| - 1;
      MergeKeepsPlaces(root, node[..n]);
      OneKeepsPlaces(root, Merged(root, node[..n]), node[n]);
    }
  }

  lemma OneKeepsPlaces(root: seq<Item>, s: seq<Item>, x: Item)
    requires |root| <= |s|
    requires forall i :: 0 <= i < |root| ==> Matches(s[i], root[i].attrib, root[i].type_)
    requires forall i :: |root| <= i < |s| ==> FirstMatch(s, s[i].attrib, s[i].type_) == i
    ensures |root| <= |MergeOne(s, x)|
    ensures forall i :: 0 <= i < |root| ==> Matches(MergeOne(s, x)[i], root[i].attrib, root[i].type_)
    ensures forall i :: |root| <= i < |MergeOne(s, x)| ==>
      FirstMatch(MergeOne(s, x), MergeOne(s, x)[i].attrib, MergeOne(s, x)[i].type_) == i
  {
    var d := MergeOne(s, x);
    forall i | |root| <= i < |d|
      ensures FirstMatch(d, d[i].attrib, d[i].type_) == i
    {
      MatchIn(s, x.attrib, x.type_);
      if i < |s| {
        MatchIn(s, s[i].attrib, s[i].type_);
        FirstIs(d, d[i].attrib, d[i].type_, i);
      } else {
        FirstIs(d, d[i].attrib, d[i].type_, i);
      }
    }
  }

  lemma {:induction false} MatchIn(s: seq<Item>, a: string, t: string)
    ensures var j := FirstMatch(s, a, t);
      && (j >= 0 ==> Matches(s[j], a, t))
      && (forall k :: 0 <= k < (if j < 0 then |s| else j) ==> !Matches(s[k], a, t))
  {
    if s != [] && !Matches(s[0], a, t) {
      MatchIn(s[1..], a, t);
      forall k | 0 < k < |s|
        ensures s[k] == s[1..][k - 1]
      {
      }
    }
  }

  // lpps_ppsl_merge
  method Merge(root: Ppsl, node: Ppsl, delta: Ppsl)
    requires root.Valid() && node.Valid() && delta.Valid() && root.Counted() && delta.Counted()
    requires root != node && node != delta && delta != root
    requires root.item != node.item && node.item != delta.item && delta.item != root.item
    requires delta.Contents() == []
    modifies root, root.item, delta, delta.item
    ensures root.Valid() && root.Counted() && root.Contents() == Merged(old(root.Contents()), node.Contents())
    ensures delta.Valid() && delta.Counted() && delta.Contents() == node.Contents() == old(node.Contents())
  {
    hide TotalLen, PrintLen, Merged, MergeOne;
    var i := 0;
    MergedStart(root.Contents(), node.Contents());
    while i < node.occupancy
      invariant node.Valid() && 0 <= i <= node.occupancy && node.Contents() == old(node.Contents())
      invariant root.Valid() && root.Counted() && root.Contents() == Merged(old(root.Contents()), node.Contents()[..i])
      invariant delta.Valid() && delta.Counted() && delta.Contents() == node.Contents()[..i]
      invariant root.item == old(root.item) || fresh(root.item)
      invariant delta.item == old(delta.item) || fresh(delta.item)
      invariant root.item != delta.item && node.item == old(node.item)
    {
      var x := node.item[i];
      MergedMore(old(root.Contents()), node.Contents(), i);
      MergeInto(root, x);
      delta.Add(x);
      i := i + 1;
    }
    assert node.Contents()[..i] == node.Contents();
  }

  lemma MergedStart(root: seq<Item>, node: seq<Item>)
    ensures node[..0] == [] && Merged(root, node[..0]) == root
  {
  }

  lemma MergedMore(root: seq<Item>, node: seq<Item>, i: nat)
    requires i < |node|
    ensures Merged(root, node[..i + 1]) == MergeOne(Merged(root, node[..i]), node[i])
    ensures node[..i + 1] == node[..i] + [node[i]]
  {
    assert node[..i + 1][..i] == node[..i];
  }

  method MergeInto(root: Ppsl, x: Item)
    requires root.Valid() && root.Counted()
    modifies root, root.item
    ensures root.Valid() && root.Counted() && root.Contents() == MergeOne(old(root.Contents()), x)
    ensures root.item == old(root.item) || fresh(root.item)
  {
    var j := root.Find(x);
    if j < 0 {
      root.Add(x);
    } else {
      ghost var s := root.Contents();
      var olen := |root.item[j].value|;
      root.item[j] := root.item[j].(value := x.value);
      var nlen := |root.item[j].value|;
      assert root.Contents() == s[j := s[j].(value := x.value)];
      TotalLenUpdate(s, j, s[j].(value := x.value));
      root.bytelen := root.bytelen - olen + nlen;
    }
  }

  // --------------------------------------------------------------- sorting

  // strcmp(a, b) <= 0
  predicate Le(a: string, b: string) {
    a == [] || (b != [] && (a[0] < b[0] || (a[0] == b[0] && Le(a[1..], b[1..]))))
  }

  // The first position where two strings differ decides, and a string comes
  // after what it starts with.
  lemma {:induction false} LeIs(a: string, b: string)
    ensures Le(a, b) <==> a <= b || exists k :: FirstDiffers(a, b, k) && a[k] < b[k]
  {
    if a != [] && b != [] && a[0] == b[0] {
      LeIs(a[1..], b[1..]);
      if k :| FirstDiffers(a[1..], b[1..], k) && a[1..][k] < b[1..][k] {
        DiffersMore(a, b, k + 1);
        assert FirstDiffers(a, b, k + 1) && a[k + 1] < b[k + 1];
      }
      if k :| FirstDiffers(a, b, k) && a[k] < b[k] {
        DiffersMore(a, b, k);
        assert FirstDiffers(a[1..], b[1..], k - 1) && a[1..][k - 1] < b[1..][k - 1];
      }
      assert a == [a[0]] + a[1..] && b == [b[0]] + b[1..];
    } else if a != [] && b != [] && a[0] < b[0] {
      assert FirstDiffers(a, b, 0) && a[0] < b[0];
    }
  }

  ghost predicate FirstDiffers(a: string, b: string, k: int) {
    0 <= k < |a| && k < |b| && a[..k] == b[..k] && a[k] != b[k]
  }

  lemma DiffersMore(a: string, b: string, k: nat)
    requires a != [] && b != [] && a[0] == b[0]
    ensures FirstDiffers(a, b, k) <==> k > 0 && FirstDiffers(a[1..], b[1..], k - 1)
  {
    if 0 < k < |a| && k < |b| {
      var c, d := a[1..][..k - 1], b[1..][..k - 1];
      assert a[..k] == [a[0]] + c && b[..k] == [b[0]] + d;
      assert c == a[..k][1..] && d == b[..k][1..];
      assert a[1..][k - 1] == a[k] && b[1..][k - 1] == b[k];
    }
  }

  lemma {:induction false} LeTotal(a: string, b: string)
    ensures Le(a, b) || Le(b, a)
  {
    if a != [] && b != [] && a[0] == b[0] {
      LeTotal(a[1..], b[1..]);
    }
  }

  lemma {:induction false} LeTransitive(a: string, b: string, c: string)
    requires Le(a, b) && Le(b, c)
    ensures Le(a, c)
  {
    if a != [] && a[0] == b[0] && b[0] == c[0] {
      LeTransitive(a[1..], b[1..], c[1..]);
    }
  }

  ghost predicate InOrder(x: Item, y: Item) {
    Le(x.attrib, y.attrib)
  }

  // Up to position i the list is in order, and what follows comes after.
  ghost predicate SortedTo(s: seq<Item>, start: nat, i: nat, end: nat)
    requires end < |s|
  {
    forall p, q :: start <= p < i && p < q <= end ==> InOrder(s[p], s[q])
  }

  // Position i comes before all of those up to j.
  ghost predicate FirstTo(s: seq<Item>, i: nat, j: nat)
    requires i < |s| && j < |s|
  {
    forall q :: i < q <= j ==> InOrder(s[i], s[q])
  }

  function Swapped(s: seq<Item>, i: nat, j: nat): seq<Item>
    requires i < |s| && j < |s|
  {
    s[i := s[j]][j := s[i]]
  }

  lemma SwapSame(s: seq<Item>, i: nat, j: nat)
    requires i < |s| && j < |s|
    ensures multiset(Swapped(s, i, j)) == multiset(s) && TotalLen(Swapped(s, i, j)) == TotalLen(s)
  {
    TotalLenUpdate(s, i, s[j]);
    TotalLenUpdate(s[i := s[j]], j, s[i]);
  }

  lemma SwapSorted(s: seq<Item>, start: nat, i: nat, j: nat, end: nat)
    requires start <= i < j <= end < |s| && SortedTo(s, start, i, end) && FirstTo(s, i, j - 1)
    requires !InOrder(s[i], s[j])
    ensures SortedTo(Swapped(s, i, j), start, i, end) && FirstTo(Swapped(s, i, j), i, j)
  {
    hide Le;
    var d := Swapped(s, i, j);
    forall q | i < q <= j
      ensures InOrder(d[i], d[q])
    {
      LeTotal(s[i].attrib, s[j].attrib);
      if q < j {
        LeTransitive(s[j].attrib, s[i].attrib, s[q].attrib);
      }
    }
  }

  // Only positions from start to end differ.
  ghost predicate SameOutside(s: seq<Item>, t: seq<Item>, start: nat, end: nat) {
    |s| == |t| && forall q :: 0 <= q < |s| && !(start <= q <= end) ==> s[q] == t[q]
  }

  // lpps_ppsl_sort
  method Sort(node: Ppsl, start: nat, end: nat)
    requires node.Valid() && node.Counted() && end < node.occupancy
    modifies node.item
    ensures node.Valid() && node.Counted() && multiset(node.Contents()) == multiset(old(node.Contents()))
    ensures SortedTo(node.Contents(), start, end, end)
    ensures SameOutside(old(node.Contents()), node.Contents(), start, end)
    ensures SortedTo(old(node.Contents()), start, end, end) ==> node.Contents() == old(node.Contents())
  {
    hide InOrder, Le;
    var i := start;
    while i < end
      invariant start <= i && (i <= end || i == start)
      invariant node.Counted() && multiset(node.Contents()) == multiset(old(node.Contents()))
      invariant SortedTo(node.Contents(), start, i, end)
      invariant SameOutside(old(node.Contents()), node.Contents(), start, end)
      invariant SortedTo(old(node.Contents()), start, end, end) ==> node.Contents() == old(node.Contents())
    {
      var j := i + 1;
      while j <= end
        invariant i + 1 <= j <= end + 1
        invariant node.Counted() && multiset(node.Contents()) == multiset(old(node.Contents()))
        invariant SortedTo(node.Contents(), start, i, end) && FirstTo(node.Contents(), i, j - 1)
        invariant SameOutside(old(node.Contents()), node.Contents(), start, end)
        invariant SortedTo(old(node.Contents()), start, end, end) ==> node.Contents() == old(node.Contents())
      {
        Exchange(node, start, i, j, end);
        j := j + 1;
      }
      i := i + 1;
    }
  }

  // Swap the two items if they are out of order.
  method Exchange(node: Ppsl, start: nat, i: nat, j: nat, end: nat)
    requires node.Valid() && node.Counted() && start <= i < j <= end < node.occupancy
    requires SortedTo(node.Contents(), start, i, end) && FirstTo(node.Contents(), i, j - 1)
    modifies node.item
    ensures node.Counted() && multiset(node.Contents()) == multiset(old(node.Contents()))
    ensures SortedTo(node.Contents(), start, i, end) && FirstTo(node.Contents(), i, j)
    ensures SameOutside(old(node.Contents()), node.Contents(), start, end)
    ensures old(InOrder(node.Contents()[i], node.Contents()[j])) ==> node.Contents() == old(node.Contents())
  {
    hide Le, TotalLen, InOrder, SortedTo, FirstTo, SameOutside, Swapped;
    ghost var s := node.Contents();
    if !Le(node.item[i].attrib, node.item[j].attrib) {
      OutOfOrder(s, i, j);
      SwapSame(s, i, j);
      SwapSorted(s, start, i, j, end);
      SwapOutside(s, i, j, start, end);
      SortSwap(node, i, j);
    } else {
      FirstMore(s, i, j, start, end);
    }
  }

  // lpps_ppsl_sort_swap
  method SortSwap(node: Ppsl, i: nat, j: nat)
    requires node.Valid() && i < j < node.occupancy
    modifies node.item
    ensures node.Contents() == Swapped(old(node.Contents()), i, j)
  {
    node.item[i], node.item[j] := node.item[j], node.item[i];
  }

  lemma OutOfOrder(s: seq<Item>, i: nat, j: nat)
    requires i < |s| && j < |s| && !Le(s[i].attrib, s[j].attrib)
    ensures !InOrder(s[i], s[j])
  {
  }

  lemma FirstMore(s: seq<Item>, i: nat, j: nat, start: nat, end: nat)
    requires i < j < |s| && FirstTo(s, i, j - 1) && Le(s[i].attrib, s[j].attrib)
    ensures FirstTo(s, i, j) && SameOutside(s, s, start, end)
  {
    hide Le;
    assert InOrder(s[i], s[j]);
  }

  lemma SwapOutside(s: seq<Item>, i: nat, j: nat, start: nat, end: nat)
    requires start <= i < j <= end < |s|
    ensures SameOutside(s, Swapped(s, i, j), start, end)
  {
  }

  // --------------------------------------------------------------- dumping

  // The characters snprintf leaves in a buffer of n characters.
  function Cut(text: string, n: nat): string {
    if n == 0 then "" else if |text| < n then text else text[..n - 1]
  }

  // snprintf(&buff[at], n, text): cut to n characters with the terminator;
  // returns the full length.
  method Snprintf(buff: array<char>, at: nat, n: nat, text: string) returns (len: nat)
    requires at + n <= buff.Length
    modifies buff
    ensures len == |text| && buff[..at] == old(buff[..at])
    ensures n > 0 ==> buff[at..at + |Cut(text, n)|] == Cut(text, n) && buff[at + |Cut(text, n)|] == NUL
    ensures forall k :: at + n <= k < buff.Length ==> buff[k] == old(buff[k])
  {
    len := |text|;
    var t := Cut(text, n);
    forall k | 0 <= k < |t| {
      buff[at + k] := t[k];
    }
    if n > 0 {
      buff[at + |t|] := NUL;
    }
    assert buff[at..at + |t|] == t;
  }

  // The string that starts at a buffer and ends before the first NUL.
  function CString(s: seq<char>): string {
    if s == [] || s[0] == NUL then "" else [s[0]] + CString(s[1..])
  }

  lemma {:induction false} CStringIs(s: seq<char>, t: string)
    requires |t| < |s| && s[..|t|] == t && s[|t|] == NUL && NUL !in t
    ensures CString(s) == t
  {
    if t != "" {
      assert s[0] == t[0];
      assert s[1..][..|t| - 1] == t[1..];
      CStringIs(s[1..], t[1..]);
    }
  }

  class Priv {
    var rptr: nat
    const linebuf: array<char>

    constructor (buflen: nat)
      ensures rptr == 0 && linebuf.Length == buflen && fresh(linebuf)
    {
      rptr := 0;
      linebuf := new char[buflen];
    }
  }

  // No NUL inside the fields of an item, and its value fits the line buffer.
  predicate Fits(x: Item, buflen: nat) {
    NUL !in x.value && |x.value| + 3 <= buflen
  }

  // One item formatted by way of the line buffer.
  method Format(x: Item, priv: Priv) returns (text: string)
    requires Fits(x, priv.linebuf.Length)
    modifies priv.linebuf
    ensures text == Printed(x)
  {
    var plen := Snprintf(priv.linebuf, 0, priv.linebuf.Length - 2, x.value);
    priv.linebuf[plen] := NUL;
    CStringIs(priv.linebuf[..], x.value);
    text := x.attrib + [DELIM] + x.type_ + [DELIM] + CString(priv.linebuf[..]) + [EOL];
  }

  // As many items from rptr on as fit in size characters are written.
  ghost predicate Filled(s: seq<Item>, rptr: nat, rptr': nat, size: nat, out: string) {
    && rptr < rptr' <= |s| && out == PrintAll(s[rptr..rptr']) && |out| <= size
    && (rptr' < |s| ==> size < |out| + PrintLen(s[rptr']))
  }

  // The next item is there, and fits size characters.
  ghost predicate CanDump(s: seq<Item>, rptr: nat, size: nat) {
    rptr < |s| && PrintLen(s[rptr]) <= size
  }

  // lpps_ppsl_dump, without JSON. Where there are items but the next one is not
  // there or does not fit, the code looks at the character before the buffer and
  // makes it an end of line; `before` says so.
  method Dump(node: Ppsl?, buff: array<char>, size: nat, priv: Priv?) returns (curamt: nat, before: bool)
    requires node != null ==> node.Valid()
    requires node != null && priv != null && node.occupancy != 0 ==>
      size < buff.Length && buff != priv.linebuf
      && forall j :: priv.rptr <= j < node.occupancy ==> Fits(node.Contents()[j], priv.linebuf.Length)
    modifies buff, priv, if priv == null then {} else {priv.linebuf}
    ensures node != null ==> node.Valid() && node.Contents() == old(node.Contents())
    ensures before <==>
      node != null && priv != null && node.occupancy != 0 && !CanDump(node.Contents(), old(priv.rptr), size)
    ensures if node == null || priv == null || node.occupancy == 0
            then curamt == 0 && buff[..] == old(buff[..]) && (priv != null ==> priv.rptr == old(priv.rptr))
            else curamt <= size < buff.Length && buff[curamt] == NUL
                 && if before then curamt == 0 && priv.rptr == old(priv.rptr)
                    else Filled(node.Contents(), old(priv.rptr), priv.rptr, size, buff[..curamt])
  {
    hide PrintAll, Fits, Written, PrintLen;
    before := false;
    if node == null || priv == null {
      return 0, false;
    }
    if node.occupancy == 0 {
      return 0, false;
    }
    ghost var s, r0 := node.Contents(), priv.rptr;
    curamt := Fill(node, buff, size, priv);
    before := curamt == 0;
    if !before {
      EndsLine(s, r0, priv.rptr);
      CutOff(PrintAll(s[r0..priv.rptr]), buff[..curamt], size);
      if buff[curamt - 1] != EOL {
        buff[curamt - 1] := EOL;
      }
    }
    buff[curamt] := NUL;
    if !before { assert buff[..curamt] == PrintAll(s[r0..priv.rptr]); }
  }

  // One item, and a buffer that is too small for it.
  method DumpTouchesBefore() returns (before: bool)
    ensures before
  {
    var list := new Ppsl();
    var x := Item("a", "s", "v");
    list.Add(x);
    assert list.Contents()[0] == x;
    var priv := new Priv(8);
    var buff := new char[4];
    var n;
    n, before := Dump(list, buff, 3, priv);
  }

  // What a cut text lacks is its last character.
  lemma CutOff(text: string, out: string, size: nat)
    requires Written(text, out, size) && |text| > 0
    ensures |out| == |text| && out[..|out| - 1] == text[..|out| - 1]
    ensures out[|out| - 1] == text[|out| - 1] ==> out == text
  {
    if out[|out| - 1] == text[|out| - 1] {
      assert out == out[..|out| - 1] + [out[|out| - 1]];
      assert text == text[..|out| - 1] + [text[|out| - 1]];
    }
  }

  // Write items one after the other until one does not fit.
  method Fill(node: Ppsl, buff: array<char>, size: nat, priv: Priv) returns (curamt: nat)
    requires node.Valid() && size < buff.Length && buff != priv.linebuf
    requires forall j :: priv.rptr <= j < node.occupancy ==> Fits(node.Contents()[j], priv.linebuf.Length)
    modifies buff, priv`rptr, priv.linebuf
    ensures curamt <= size
    ensures curamt == 0 <==> !CanDump(node.Contents(), old(priv.rptr), size)
    ensures curamt == 0 ==> priv.rptr == old(priv.rptr)
    ensures curamt > 0 ==>
      && old(priv.rptr) < priv.rptr <= node.occupancy
      && Written(PrintAll(node.Contents()[old(priv.rptr)..priv.rptr]), buff[..curamt], size)
      && (priv.rptr < node.occupancy ==> size < curamt + PrintLen(node.Contents()[priv.rptr]))
  {
    hide PrintAll, Fits, Written, PutAt, PrintLen;
    curamt := 0;
    ghost var s, r0 := node.Contents(), priv.rptr;
    if r0 < node.occupancy { NothingPrinted(s, r0, buff[..0], size); }
    while priv.rptr < node.occupancy
      invariant r0 <= priv.rptr && (priv.rptr == r0 || priv.rptr <= node.occupancy) && curamt <= size
      invariant r0 < node.occupancy ==> Written(PrintAll(s[r0..priv.rptr]), buff[..curamt], size)
      invariant curamt == 0 <==> priv.rptr == r0
      invariant priv.rptr > r0 ==> CanDump(s, r0, size)
      decreases node.occupancy - priv.rptr
    {
      assert node.item[priv.rptr] == s[priv.rptr];
      ghost var before := buff[..curamt];
      var pamount := PutOne(node.item[priv.rptr], buff, curamt, size, priv);
      if size - curamt < pamount {
        break;
      }
      OneMore(s, r0, priv.rptr, size, before, buff[..curamt + pamount]);
      curamt := curamt + pamount;
      priv.rptr := priv.rptr + 1;
    }
  }

  // Write one item at curamt, as far as it fits.
  method PutOne(x: Item, buff: array<char>, curamt: nat, size: nat, priv: Priv) returns (pamount: nat)
    requires curamt <= size < buff.Length && Fits(x, priv.linebuf.Length) && buff != priv.linebuf
    modifies buff, priv.linebuf
    ensures pamount == PrintLen(x) > 0 && buff[..curamt] == old(buff[..curamt])
    ensures curamt + pamount <= size ==>
      PutAt(buff[..curamt + pamount], old(buff[..curamt]), x, size)
  {
    var text := Format(x, priv);
    pamount := Snprintf(buff, curamt, size - curamt, text);
    if curamt + pamount <= size {
      assert buff[..curamt + pamount][..curamt] == buff[..curamt];
      ghost var t := Cut(text, size - curamt);
      assert buff[..curamt + pamount][curamt..curamt + |t|] == buff[curamt..curamt + |t|];
    }
  }

  ghost predicate PutAt(after: string, before: string, x: Item, size: nat) {
    && |before| + PrintLen(x) <= size && |after| == |before| + PrintLen(x)
    && after[..|before|] == before
    && var t := Cut(Printed(x), size - |before|); |before| + |t| <= |after| && after[|before|..|before| + |t|] == t
  }

  // What has been written of a text: all of it, but for its last character
  // when it fills the buffer.
  ghost predicate Written(text: string, out: string, size: nat) {
    && |out| == |text|
    && (|out| < size ==> out == text)
    && (|out| > 0 ==> out[..|out| - 1] == text[..|out| - 1])
  }

  lemma NothingPrinted(s: seq<Item>, r: nat, out: string, size: nat)
    requires r <= |s| && out == ""
    ensures Written(PrintAll(s[r..r]), out, size)
  {
  }

  lemma OneMore(s: seq<Item>, r0: nat, r: nat, size: nat, before: string, after: string)
    requires r0 <= r < |s| && Written(PrintAll(s[r0..r]), before, size) && PutAt(after, before, s[r], size)
    ensures Written(PrintAll(s[r0..r + 1]), after, size)
  {
    assert s[r0..][..r - r0] == s[r0..r] && s[r0..][..r - r0 + 1] == s[r0..r + 1];
    PrintMore(s[r0..], r - r0);
    PrintedLen(s[r]);
    hide PrintAll, Printed, PrintLen;
    WrittenMore(PrintAll(s[r0..r]), Printed(s[r]), size, before, after, s[r]);
  }

  lemma WrittenMore(text: string, more: string, size: nat, before: string, after: string, x: Item)
    requires Written(text, before, size) && PutAt(after, before, x, size)
    requires more == Printed(x) && |more| == PrintLen(x) > 0
    ensures Written(text + more, after, size)
  {
    hide Printed, PrintLen;
    var t := Cut(more, size - |before|);
    assert before == text;
    assert after[..|before| + |t|] == before + t;
  }

  lemma EndsLine(s: seq<Item>, r0: nat, r: nat)
    requires r0 < r <= |s|
    ensures var text := PrintAll(s[r0..r]); |text| > 0 && text[|text| - 1] == EOL
  {
    assert s[r0..][..r - 1 - r0 + 1] == s[r0..r];
    PrintMore(s[r0..], r - 1 - r0);
  }

  // Read a list to its end, one buffer after the other: what comes out is the
  // whole printed list, as long as the list said it would be.
  method ReadAll(node: Ppsl, buff: array<char>, size: nat, priv: Priv) returns (out: string)
    requires node.Valid() && node.Counted() && size < buff.Length && priv.rptr == 0
    requires forall x :: x in node.Contents() ==> Fits(x, priv.linebuf.Length) && PrintLen(x) <= size
    requires buff != priv.linebuf
    modifies buff, priv, priv.linebuf
    ensures out == PrintAll(node.Contents()) && |out| == node.bytelen
    ensures priv.rptr == node.occupancy
  {
    hide PrintAll, Fits;
    out := "";
    ghost var s := node.Contents();
    NothingPrinted(s, 0, out, size);
    assert s[0..0] == s[..0];
    while priv.rptr < node.occupancy
      invariant priv.rptr <= node.occupancy && out == PrintAll(s[..priv.rptr])
      decreases node.occupancy - priv.rptr
    {
      ghost var r := priv.rptr;
      var n, before := Dump(node, buff, size, priv);
      PrintAllAppend(s[..r], s[r..priv.rptr]);
      assert s[..r] + s[r..priv.rptr] == s[..priv.rptr];
      out := out + buff[..n];
    }
    assert s[..priv.rptr] == s;
    TotalLenIsPrinted(s);
  }

  // --------------------------------------------------------------- parsing

  // Where a field that starts at i ends: at the next c, or at a NUL.
  function Stop(buf: string, i: nat, c: char): (j: nat)
    ensures i <= j && (j <= |buf| || j == i)
    decreases |buf| - i
  {
    if At(buf, i) == c || At(buf, i) == NUL then i else Stop(buf, i + 1, c)
  }

  // Where the type of a record ends; an empty type is written as "s".
  function TypeEnd(buf: string, t: nat): nat {
    if At(buf, t) == DELIM then t else Stop(buf, t, DELIM)
  }

  function TypeAt(buf: string, t: nat): string {
    if At(buf, t) == DELIM then "s" else Sub(buf, t, Stop(buf, t, DELIM))
  }

  function RecordAt(buf: string, i: nat): Item {
    var a := Stop(buf, i, DELIM);
    var t := TypeEnd(buf, a + 1);
    Item(Sub(buf, i, a), TypeAt(buf, a + 1), Sub(buf, t + 1, Stop(buf, t + 1, EOL)))
  }

  // Where the record after the one at i starts.
  function NextRecord(buf: string, i: nat): (j: nat)
    ensures i < j
  {
    var a := Stop(buf, i, DELIM);
    var t := TypeEnd(buf, a + 1);
    Stop(buf, t + 1, EOL) + 1
  }

  // What comes of parsing: a wrong syntax, a read past the end of the text, or
  // the items found.
  datatype Result = Wrong | Past | Items(items: seq<Item>)

  function Before(x: Item, r: Result): Result {
    if r.Items? then Items([x] + r.items) else r
  }

  // The text ends inside the attribute or the type of the record at i.
  predicate Lacking(buf: string, i: nat) {
    var a := Stop(buf, i, DELIM);
    a == |buf| || TypeEnd(buf, a + 1) >= |buf|
  }

  function ParseFrom(buf: string, i: nat): Result
    decreases |buf| - i
  {
    if i >= |buf| then Items([])
    else if buf[i] == NUL || buf[i] == DELIM then Wrong
    else if Lacking(buf, i) then Past
    else Before(RecordAt(buf, i), ParseFrom(buf, NextRecord(buf, i)))
  }

  // The whole text: what is read is where an '@' makes it skip the first line,
  // past the end where that line has none.
  function ParseAll(buf: string): Result {
    if '@' in buf && EOL !in buf then Past else ParseFrom(buf, StartOf(buf))
  }

  // A first line is skipped when there is an '@' anywhere.
  function StartOf(buf: string): nat {
    if '@' in buf then Stop(buf, 0, EOL) + 1 else 0
  }

  // Copy a field up to c.
  method ScanField(buf: string, index: nat, c: char) returns (tok: string, next: nat)
    ensures next == Stop(buf, index, c) && tok == Sub(buf, index, next)
  {
    tok := "";
    next := index;
    while At(buf, next) != c && At(buf, next) != NUL
      invariant index <= next && (next <= |buf| || next == index)
      invariant Stop(buf, index, c) == Stop(buf, next, c) && tok == Sub(buf, index, next)
      decreases |buf| - next
    {
      tok := tok + [At(buf, next)];
      next := next + 1;
    }
  }

  // lpps_ppsl_parse, of a text without NULs; null for a wrong syntax. Where it
  // looks for an end of line or a delimiter that is not there, the code reads
  // past its buffer; `past` says so.
  method Parse(list: Ppsl?, buf: string) returns (node: Ppsl?, past: bool)
    requires NUL !in buf
    requires list != null ==> list.Valid() && list.Counted()
    modifies list, if list == null then {} else {list.item}
    ensures past <==> ParseAll(buf).Past?
    ensures node != null <==> ParseAll(buf).Items?
    ensures node != null ==> node.Valid() && node.Counted()
    ensures node != null ==>
      node.Contents() == (if list == null then [] else old(list.Contents())) + ParseAll(buf).items
  {
    hide Stop, TotalLen, Lacking, RecordAt, NextRecord, StartOf;
    var n: Ppsl;
    if list == null {
      n := new Ppsl();
    } else {
      n := list;
      n.Grow();
    }
    ghost var s := n.Contents();
    past := '@' in buf && EOL !in buf;
    if past {
      return null, true;
    }
    var index := SkipHeader(buf);
    ghost var r := ParseFrom(buf, index);
    assert n.Contents() == s + [];
    while index < |buf|
      invariant n.Valid() && n.Counted() && (n == list || fresh(n))
      invariant fresh(n.item) || (list != null && n.item == old(list.item))
      invariant |s| <= n.occupancy && n.Contents()[..|s|] == s
      invariant Rest(r, n.Contents()[|s|..], ParseFrom(buf, index)) && !past
      decreases |buf| - index
    {
      if At(buf, index) == NUL || At(buf, index) == DELIM {
        return null, false;
      }
      index, past := ParseRecord(n, buf, index, s, r);
      if past {
        return null, true;
      }
    }
    assert n.Contents() == n.Contents()[..|s|] + n.Contents()[|s|..];
    node := n;
  }

  // A line that holds an '@' and has no end; a record without its delimiters.
  method ParseRunsPast() returns (first: bool, second: bool)
    ensures first && second
  {
    var text := "mail:s:a@b";
    assert text[8] == '@';
    var node;
    node, first := Parse(null, text);
    CutShort("", [], "mail:s");
    assert "" + PrintAll([]) + "mail:s" == "mail:s";
    node, second := Parse(null, "mail:s");
  }

  // What is parsed so far, and what is still to come, make up r.
  ghost predicate Rest(r: Result, done: seq<Item>, rest: Result) {
    r == if rest.Items? then Items(done + rest.items) else rest
  }

  lemma RestMore(r: Result, done: seq<Item>, x: Item, rest: Result)
    requires Rest(r, done, Before(x, rest))
    ensures Rest(r, done + [x], rest)
  {
    if rest.Items? {
      assert done + ([x] + rest.items) == done + [x] + rest.items;
    }
  }

  method ParseRecord(n: Ppsl, buf: string, index: nat, ghost s: seq<Item>, ghost r: Result)
    returns (next: nat, past: bool)
    requires NUL !in buf
    requires n.Valid() && n.Counted() && index < |buf| && buf[index] != NUL && buf[index] != DELIM
    requires |s| <= n.occupancy && n.Contents()[..|s|] == s && Rest(r, n.Contents()[|s|..], ParseFrom(buf, index))
    modifies n, n.item
    ensures n.Valid() && n.Counted() && (n.item == old(n.item) || fresh(n.item))
    ensures past ==> r == Past
    ensures !past ==> next == NextRecord(buf, index)
    ensures |s| <= n.occupancy && n.Contents()[..|s|] == s
    ensures !past ==> Rest(r, n.Contents()[|s|..], ParseFrom(buf, next))
  {
    hide Stop, TotalLen, Sub;
    var attrib, type_, value;
    attrib, next := ScanField(buf, index, DELIM);
    if next == |buf| {
      return next, true;
    }
    next := next + 1;
    if At(buf, next) == DELIM {
      type_ := "s";
    } else {
      type_, next := ScanField(buf, next, DELIM);
    }
    if next >= |buf| {
      return next, true;
    }
    next := next + 1;
    value, next := ScanField(buf, next, EOL);
    next := next + 1;
    past := false;
    ghost var done := n.Contents()[|s|..];
    RestMore(r, done, RecordAt(buf, index), ParseFrom(buf, next));
    n.Add(Item(attrib, type_, value));
    assert n.Contents()[|s|..] == done + [RecordAt(buf, index)];
  }

  method SkipHeader(buf: string) returns (index: nat)
    requires NUL !in buf && ('@' in buf ==> EOL in buf)
    ensures index == StartOf(buf)
  {
    index := 0;
    if '@' in buf {
      while At(buf, index) != EOL
        invariant index < |buf| && EOL in buf[index..]
        invariant Stop(buf, 0, EOL) == Stop(buf, index, EOL)
        decreases |buf| - index
      {
        assert buf[index..][1..] == buf[index + 1..];
        index := index + 1;
      }
      index := index + 1;
    }
  }

  // ------------------------------------------------------------ round trip

  // No field holds what ends it, and there is an attribute.
  predicate Legible(x: Item) {
    && x.attrib != "" && DELIM !in x.attrib && NUL !in x.attrib
    && DELIM !in x.type_ && NUL !in x.type_ && EOL !in x.value && NUL !in x.value
  }

  // Nor does an end of line stand in the other two.
  predicate Clean(x: Item) {
    Legible(x) && EOL !in x.attrib && EOL !in x.type_
  }

  // An item as it comes back: one without a type is a string.
  function Typed(x: Item): Item {
    if x.type_ == "" then x.(type_ := "s") else x
  }

  function AllTyped(s: seq<Item>): (t: seq<Item>)
    ensures |t| == |s|
  {
    seq(|s|, i requires 0 <= i < |s| => Typed(s[i]))
  }

  // A field between two pieces of text is found.
  lemma {:induction false} StopAt(buf: string, i: nat, f: string, c: char)
    requires i + |f| < |buf| && buf[i..i + |f|] == f && buf[i + |f|] == c && c !in f && NUL !in f
    ensures Stop(buf, i, c) == i + |f|
    decreases |f|
  {
    if f != "" {
      assert buf[i] == f[0];
      assert buf[i + 1..i + 1 + |f| - 1] == f[1..];
      StopAt(buf, i + 1, f[1..], c);
    }
  }

  // The text at i is the printed form of x.
  ghost predicate Holds(buf: string, i: nat, x: Item) {
    var a := i + |x.attrib|;
    var t := a + 1 + |x.type_|;
    var v := t + 1 + |x.value|;
    && v < |buf|
    && buf[i..a] == x.attrib && buf[a] == DELIM
    && buf[a + 1..t] == x.type_ && buf[t] == DELIM
    && buf[t + 1..v] == x.value && buf[v] == EOL
  }

  lemma FieldIs(buf: string, i: nat, f: string, c: char)
    requires i + |f| < |buf| && buf[i..i + |f|] == f && buf[i + |f|] == c && c !in f && NUL !in f
    ensures Stop(buf, i, c) == i + |f| && Sub(buf, i, Stop(buf, i, c)) == f
  {
    hide Stop;
    StopAt(buf, i, f, c);
  }

  lemma TypeIs(buf: string, t: nat, f: string)
    requires t + |f| < |buf| && buf[t..t + |f|] == f && buf[t + |f|] == DELIM
    requires DELIM !in f && NUL !in f
    ensures TypeEnd(buf, t) == t + |f| && TypeAt(buf, t) == if f == "" then "s" else f
  {
    hide Stop, Sub;
    FieldIs(buf, t, f, DELIM);
    if f != "" { assert buf[t] == f[0]; }
  }

  lemma RecordIs(buf: string, i: nat, x: Item)
    requires Holds(buf, i, x) && Legible(x)
    ensures i < |buf| && RecordAt(buf, i) == Typed(x) && NextRecord(buf, i) == i + PrintLen(x) && !Lacking(buf, i)
    ensures buf[i] != NUL && buf[i] != DELIM
  {
    hide Stop, Sub, TypeEnd, TypeAt;
    var a := i + |x.attrib|;
    var t := a + 1 + |x.type_|;
    FieldIs(buf, i, x.attrib, DELIM);
    TypeIs(buf, a + 1, x.type_);
    FieldIs(buf, t + 1, x.value, EOL);
    assert buf[i] == x.attrib[0];
  }

  // A piece of text and the character behind it.
  lemma Piece(buf: string, pre: string, f: string, c: char, post: string)
    requires buf == pre + (f + ([c] + post))
    ensures |pre| + |f| < |buf| && buf[|pre|..|pre| + |f|] == f && buf[|pre| + |f|] == c
    ensures buf == (pre + f + [c]) + post
  {
  }

  lemma PrintedHolds(pre: string, x: Item, post: string)
    ensures Holds(pre + Printed(x) + post, |pre|, x)
  {
    var r2 := x.value + ([EOL] + post);
    var r1 := x.type_ + ([DELIM] + r2);
    var buf := pre + (x.attrib + ([DELIM] + r1));
    PrintedIs(x, post);
    Assoc(pre, Printed(x), post);
    Piece(buf, pre, x.attrib, DELIM, r1);
    var pre1 := pre + x.attrib + [DELIM];
    Piece(buf, pre1, x.type_, DELIM, r2);
    Piece(buf, pre1 + x.type_ + [DELIM], x.value, EOL, post);
  }

  lemma PrintedIs(x: Item, post: string)
    ensures Printed(x) + post == x.attrib + ([DELIM] + (x.type_ + ([DELIM] + (x.value + ([EOL] + post)))))
  {
  }

  ghost predicate AllLegible(s: seq<Item>) {
    forall x :: x in s ==> Legible(x)
  }

  // What comes of items and of what follows them.
  function Behind(s: seq<Item>, r: Result): Result {
    if r.Items? then Items(AllTyped(s) + r.items) else r
  }

  // Printed items are parsed, from where the printing starts, and then what
  // follows them.
  lemma {:induction false} ParseThrough(pre: string, s: seq<Item>, tail: string)
    requires AllLegible(s)
    ensures var buf := pre + PrintAll(s) + tail;
      ParseFrom(buf, |pre|) == Behind(s, ParseFrom(buf, |pre + PrintAll(s)|))
    decreases |s|
  {
    hide Legible, Printed, ParseFrom, Typed;
    if s == [] {
      assert pre + PrintAll(s) == pre;
      BehindNone(ParseFrom(pre + tail, |pre|));
    } else {
      var post := PrintAll(s[1..]) + tail;
      OneParsed(pre, s[0], post);
      Regrouped(pre, s);
      Assoc(pre + Printed(s[0]), PrintAll(s[1..]), tail);
      TailLegible(s);
      ParseThrough(pre + Printed(s[0]), s[1..], tail);
      HeadAndTail(s, ParseFrom(pre + PrintAll(s) + tail, |pre + PrintAll(s)|));
    }
  }

  lemma BehindNone(r: Result)
    ensures Behind([], r) == r
  {
    if r.Items? { assert AllTyped([]) + r.items == r.items; }
  }

  lemma BehindEnd(s: seq<Item>)
    ensures Behind(s, Items([])) == Items(AllTyped(s))
  {
    assert AllTyped(s) + [] == AllTyped(s);
  }

  // Parsing what was printed, from where the printing starts.
  lemma ParsePrinted(pre: string, s: seq<Item>)
    requires AllLegible(s)
    ensures ParseFrom(pre + PrintAll(s), |pre|) == Items(AllTyped(s))
  {
    hide Legible, PrintAll, AllTyped;
    var buf := pre + PrintAll(s);
    ParseThrough(pre, s, "");
    assert buf + "" == buf;
    assert ParseFrom(buf, |buf|) == Items([]);
    BehindEnd(s);
  }

  // -------------------------------------------- every text there can be

  // A text that ends inside an attribute or a type: one delimiter at the most.
  ghost predicate Short(tail: string) {
    && tail != "" && tail[0] != DELIM && NUL !in tail
    && forall i, j :: 0 <= i < j < |tail| && tail[i] == DELIM ==> tail[j] != DELIM
  }

  // A record without its end of line.
  ghost predicate Unended(tail: string, x: Item) {
    Legible(x) && tail + [EOL] == Printed(x)
  }

  // Such a text is read past its end.
  lemma CutShort(pre: string, s: seq<Item>, tail: string)
    requires AllLegible(s) && Short(tail)
    ensures ParseFrom(pre + PrintAll(s) + tail, |pre|) == Past
  {
    hide AllLegible, PrintAll;
    ParseThrough(pre, s, tail);
    ShortIs(pre + PrintAll(s), tail);
  }

  lemma ShortIs(pre: string, tail: string)
    requires Short(tail)
    ensures ParseFrom(pre + tail, |pre|) == Past
  {
    hide Stop;
    var buf := pre + tail;
    assert buf[|pre|..] == tail && buf[|pre|] == tail[0];
    var a := StopFinds(buf, |pre|, DELIM);
    if a < |buf| {
      assert tail[a - |pre|] == DELIM;
      ShortRest(buf, |pre|, tail, a);
    }
  }

  lemma ShortRest(buf: string, p: nat, tail: string, a: nat)
    requires p <= a < |buf| && buf[p..] == tail && Short(tail) && buf[a] == DELIM
    ensures TypeEnd(buf, a + 1) >= |buf|
  {
    hide Stop;
    assert forall k :: a < k < |buf| ==> buf[k] == tail[k - p] != DELIM by {
      assert tail[a - p] == DELIM;
    }
    assert buf[a + 1..] == tail[a + 1 - p..];
    var t := StopFinds(buf, a + 1, DELIM);
  }

  // A field ends at the first character of that kind, or with the text.
  lemma StopFinds(buf: string, i: nat, c: char) returns (j: nat)
    requires i <= |buf| && NUL !in buf[i..]
    ensures j == Stop(buf, i, c) && i <= j <= |buf| && c !in buf[i..j]
    ensures j < |buf| ==> buf[j] == c
    decreases |buf| - i
  {
    if i == |buf| || buf[i] == c {
      j := i;
    } else {
      assert buf[i] == buf[i..][0] && buf[i + 1..] == buf[i..][1..];
      j := StopFinds(buf, i + 1, c);
      assert buf[i..j] == [buf[i]] + buf[i + 1..j];
    }
  }

  // The end of line of the last record may be missing.
  lemma LastUnended(pre: string, s: seq<Item>, tail: string, x: Item)
    requires AllLegible(s) && Unended(tail, x)
    ensures ParseFrom(pre + PrintAll(s) + tail, |pre|) == Items(AllTyped(s + [x]))
  {
    hide AllLegible, PrintAll, Unended, AllTyped, ParseFrom;
    ParseThrough(pre, s, tail);
    UnendedIs(pre + PrintAll(s), tail, x);
    TypedMore(s, x);
  }

  lemma TypedMore(s: seq<Item>, x: Item)
    ensures AllTyped(s + [x]) == AllTyped(s) + [Typed(x)]
  {
  }

  lemma UnendedIs(pre: string, tail: string, x: Item)
    requires Unended(tail, x)
    ensures ParseFrom(pre + tail, |pre|) == Items([Typed(x)])
  {
    var buf := pre + tail;
    var a := |pre| + |x.attrib|;
    var t := a + 1 + |x.type_|;
    UnendedHolds(pre, tail, x);
    hide Stop, Sub, TypeEnd, TypeAt, Unended, Printed;
    LastIs(buf, |pre|, x);
    assert ParseFrom(buf, NextRecord(buf, |pre|)) == Items([]);
    assert [Typed(x)] + [] == [Typed(x)];
  }

  // The text at i is the printed form of x less its end of line, and ends there.
  ghost predicate HoldsLast(buf: string, i: nat, x: Item) {
    var a := i + |x.attrib|;
    var t := a + 1 + |x.type_|;
    && t < |buf| && buf[i..a] == x.attrib && buf[a] == DELIM
    && buf[a + 1..t] == x.type_ && buf[t] == DELIM && buf[t + 1..] == x.value
  }

  lemma LastIs(buf: string, i: nat, x: Item)
    requires HoldsLast(buf, i, x) && Legible(x)
    ensures i < |buf| && RecordAt(buf, i) == Typed(x) && NextRecord(buf, i) == |buf| + 1 && !Lacking(buf, i)
    ensures buf[i] != NUL && buf[i] != DELIM
  {
    hide Stop, Sub, TypeEnd, TypeAt;
    var a := i + |x.attrib|;
    var t := a + 1 + |x.type_|;
    FieldIs(buf, i, x.attrib, DELIM);
    TypeIs(buf, a + 1, x.type_);
    LastField(buf, t + 1, x.value, EOL);
    assert buf[i] == x.attrib[0];
  }

  lemma UnendedHolds(pre: string, tail: string, x: Item)
    requires Unended(tail, x)
    ensures HoldsLast(pre + tail, |pre|, x) && Legible(x)
  {
    hide Legible, Printed, HoldsLast, Holds, PrintLen;
    PrintedHolds(pre, x, "");
    PrintedLen(x);
    var full := pre + Printed(x) + "";
    assert full == (pre + tail) + [EOL];
    assert |pre + tail| + 1 == |pre| + |Printed(x)|;
    LessLast(pre + tail, |pre|, x);
  }

  lemma LessLast(buf: string, i: nat, x: Item)
    requires Holds(buf + [EOL], i, x) && |buf| + 1 == i + PrintLen(x)
    ensures HoldsLast(buf, i, x)
  {
    var a := i + |x.attrib|;
    var t := a + 1 + |x.type_|;
    LessSame(buf, i, a);
    LessSame(buf, a + 1, t);
    LessSame(buf, t + 1, |buf|);
    assert buf[t + 1..|buf|] == buf[t + 1..];
  }

  lemma LessSame(buf: string, i: nat, j: nat)
    requires i <= j <= |buf|
    ensures (buf + [EOL])[i..j] == buf[i..j]
  {
  }

  lemma {:induction false} LastField(buf: string, i: nat, f: string, c: char)
    requires i <= |buf| && buf[i..] == f && c !in f && NUL !in f
    ensures Stop(buf, i, c) == |buf| && Sub(buf, i, |buf|) == f
    decreases |f|
  {
    if f != "" {
      assert buf[i] == f[0] && buf[i + 1..] == f[1..];
      LastField(buf, i + 1, f[1..], c);
    }
  }

  // Nothing, a delimiter, a record cut short, or one without its end of line.
  ghost predicate Remains(tail: string) {
    tail == "" || tail[0] == DELIM || Short(tail) || exists x :: Unended(tail, x)
  }

  lemma UnendedRemains(tail: string, x: Item)
    requires Unended(tail, x)
    ensures Remains(tail)
  {
  }

  lemma NoNul(text: string, i: nat)
    requires NUL !in text && i <= |text|
    ensures NUL !in text[i..]
  {
  }

  // Any text at all is legible records and one of four kinds of rest.
  lemma {:induction false} Split(text: string) returns (s: seq<Item>, tail: string)
    requires NUL !in text
    ensures AllLegible(s) && text == PrintAll(s) + tail
    ensures Remains(tail)
    decreases |text|
  {
    s, tail := [], text;
    if text != "" && text[0] != DELIM {
      var a := StopFinds(text, 0, DELIM);
      if a < |text| {
        var t := StopFinds(text, a + 1, DELIM);
        if t < |text| {
          s, tail := SplitRecord(text, a, t);
        } else {
          OneDelim(text, a);
        }
      }
    }
  }

  lemma OneDelim(text: string, a: nat)
    requires text != "" && text[0] != DELIM && NUL !in text
    requires a < |text| && DELIM !in text[0..a] && text[a] == DELIM && DELIM !in text[a + 1..]
    ensures Short(text)
  {
    forall k | 0 <= k < |text| && k != a
      ensures text[k] != DELIM
    {
      if k < a {
        assert text[k] == text[0..a][k];
      } else {
        assert text[k] == text[a + 1..][k - a - 1];
      }
    }
  }

  lemma SplitRecord(text: string, a: nat, t: nat) returns (s: seq<Item>, tail: string)
    requires NUL !in text && 0 < a < t < |text| && DELIM !in text[0..a] && text[a] == DELIM
    requires DELIM !in text[a + 1..t] && text[t] == DELIM
    ensures AllLegible(s) && text == PrintAll(s) + tail
    ensures Remains(tail)
    decreases |text|, 0
  {
    hide PrintAll, Short, Stop, Legible, Printed, AllLegible, Remains;
    NoNul(text, t + 1);
    var v := StopFinds(text, t + 1, EOL);
    var x := Item(text[0..a], text[a + 1..t], text[t + 1..v]);
    LegibleCut(text, a, t, v);
    if v < |text| {
      PrintedCut(text, a, t, v);
      NoNul(text, v + 1);
      s, tail := Split(text[v + 1..]);
      s := SplitMore(x, s, tail);
    } else {
      s, tail := [], text;
      UnendedCut(text, a, t);
      UnendedRemains(tail, x);
      NothingPrintedYet(text);
    }
  }

  lemma LegibleCut(text: string, a: nat, t: nat, v: nat)
    requires NUL !in text && 0 < a < t < v <= |text| && DELIM !in text[0..a] && DELIM !in text[a + 1..t]
    requires EOL !in text[t + 1..v]
    ensures Legible(Item(text[0..a], text[a + 1..t], text[t + 1..v]))
  {
  }

  lemma PrintedCut(text: string, a: nat, t: nat, v: nat)
    requires 0 < a < t < v < |text| && text[a] == DELIM && text[t] == DELIM && text[v] == EOL
    ensures text == Printed(Item(text[0..a], text[a + 1..t], text[t + 1..v])) + text[v + 1..]
  {
  }

  lemma UnendedCut(text: string, a: nat, t: nat)
    requires 0 < a < t < |text| && text[a] == DELIM && text[t] == DELIM
    ensures text + [EOL] == Printed(Item(text[0..a], text[a + 1..t], text[t + 1..|text|]))
  {
  }

  lemma NothingPrintedYet(text: string)
    ensures PrintAll([]) + text == text && AllLegible([])
  {
  }

  lemma SplitMore(x: Item, rest: seq<Item>, tail: string) returns (s: seq<Item>)
    requires Legible(x) && AllLegible(rest)
    ensures AllLegible(s) && PrintAll(s) + tail == Printed(x) + (PrintAll(rest) + tail)
  {
    hide Legible, Printed;
    s := [x] + rest;
    assert s[0] == x && s[1..] == rest;
    Assoc(Printed(x), PrintAll(rest), tail);
  }

  // Exactly these texts have a wrong syntax: a record starts with a delimiter.
  lemma WrongExactly(pre: string, text: string)
    requires NUL !in text
    ensures ParseFrom(pre + text, |pre|) == Wrong
      <==> exists s :: AllLegible(s) && PrintAll(s) + [DELIM] <= text
  {
    hide AllLegible, PrintAll, Short, Unended, ParseFrom;
    var s, tail := Split(text);
    OutcomeOf(pre, s, tail);
    if tail != "" && tail[0] == DELIM {
      assert PrintAll(s) + [DELIM] <= text;
    }
    if s' :| AllLegible(s') && PrintAll(s') + [DELIM] <= text {
      var n := |PrintAll(s')|;
      assert text == PrintAll(s') + text[n..] && text[n..][0] == DELIM;
      OutcomeOf(pre, s', text[n..]);
    }
  }

  // Exactly these are read past their end: one ends inside an attribute or a type.
  lemma PastExactly(pre: string, text: string)
    requires NUL !in text
    ensures ParseFrom(pre + text, |pre|) == Past
      <==> exists s :: AllLegible(s) && PrintAll(s) <= text && Short(text[|PrintAll(s)|..])
  {
    hide AllLegible, PrintAll, Short, Unended, ParseFrom;
    var s, tail := Split(text);
    OutcomeOf(pre, s, tail);
    if Short(tail) {
      assert text[|PrintAll(s)|..] == tail;
    }
    if s' :| AllLegible(s') && PrintAll(s') <= text && Short(text[|PrintAll(s')|..]) {
      var n := |PrintAll(s')|;
      assert text == PrintAll(s') + text[n..];
      OutcomeOf(pre, s', text[n..]);
    }
  }

  // Exactly the printed lists are parsed, with or without the last end of line,
  // and give back their items, typed.
  lemma ItemsExactly(pre: string, text: string, t: seq<Item>)
    requires NUL !in text
    ensures ParseFrom(pre + text, |pre|) == Items(t)
      <==> exists s :: AllLegible(s) && AllTyped(s) == t && (text == PrintAll(s) || text + [EOL] == PrintAll(s))
  {
    hide AllLegible, PrintAll, Short, Unended, ParseFrom, AllTyped;
    var s, tail := Split(text);
    OutcomeOf(pre, s, tail);
    if tail == "" {
      assert text == PrintAll(s);
    } else if x :| Unended(tail, x) {
      Extended(s, tail, x);
    }
    if s' :| AllLegible(s') && AllTyped(s') == t && (text == PrintAll(s') || text + [EOL] == PrintAll(s')) {
      PrintedOutcome(pre, s', text);
    }
  }

  lemma Extended(s: seq<Item>, tail: string, x: Item)
    requires AllLegible(s) && Unended(tail, x)
    ensures AllLegible(s + [x]) && PrintAll(s) + tail + [EOL] == PrintAll(s + [x])
  {
    hide Printed;
    PrintAllAppend(s, [x]);
    assert PrintAll([x]) == Printed(x) + PrintAll([]);
    Assoc(PrintAll(s), tail, [EOL]);
  }

  lemma PrintedOutcome(pre: string, s: seq<Item>, text: string)
    requires AllLegible(s) && (text == PrintAll(s) || text + [EOL] == PrintAll(s))
    ensures ParseFrom(pre + text, |pre|) == Items(AllTyped(s))
  {
    hide AllTyped, ParseFrom, Legible;
    if text == PrintAll(s) {
      ParsePrinted(pre, s);
    } else {
      var n := |s| - 1;
      assert s == s[..n] + [s[n]];
      var tail := LessEol(s, n, text);
      Assoc(pre, PrintAll(s[..n]), tail);
      LastUnended(pre, s[..n], tail, s[n]);
    }
  }

  lemma LessEol(s: seq<Item>, n: nat, text: string) returns (tail: string)
    requires |s| == n + 1 && text + [EOL] == PrintAll(s)
    ensures text == PrintAll(s[..n]) + tail && tail + [EOL] == Printed(s[n])
  {
    PrintMore(s, n);
    assert s[..n + 1] == s;
    var q, p := PrintAll(s[..n]), Printed(s[n]);
    tail := p[..|p| - 1];
    assert p == tail + [EOL];
    Assoc(q, tail, [EOL]);
    assert text == (text + [EOL])[..|text|] == (q + tail + [EOL])[..|q + tail|] == q + tail;
  }

  // Which of the three it is, by the kind of the rest.
  lemma OutcomeOf(pre: string, s: seq<Item>, tail: string)
    requires AllLegible(s)
    ensures var r := ParseFrom(pre + (PrintAll(s) + tail), |pre|);
      && (tail == "" ==> r == Items(AllTyped(s)))
      && (tail != "" && tail[0] == DELIM ==> r == Wrong)
      && (Short(tail) ==> r == Past)
      && (forall x :: Unended(tail, x) ==> r == Items(AllTyped(s + [x])))
  {
    hide AllLegible, PrintAll, Short, Unended, AllTyped;
    Assoc(pre, PrintAll(s), tail);
    var buf := pre + PrintAll(s) + tail;
    if tail == "" {
      assert buf == pre + PrintAll(s);
      ParsePrinted(pre, s);
    } else if tail[0] == DELIM {
      ParseThrough(pre, s, tail);
      assert buf[|pre + PrintAll(s)|] == DELIM;
    }
    if Short(tail) { CutShort(pre, s, tail); }
    forall x | Unended(tail, x)
      ensures ParseFrom(buf, |pre|) == Items(AllTyped(s + [x]))
    {
      LastUnended(pre, s, tail, x);
    }
  }

  // The first printed item is parsed, and parsing goes on behind it.
  lemma OneParsed(pre: string, x: Item, post: string)
    requires Legible(x)
    ensures var buf := (pre + Printed(x)) + post;
      ParseFrom(buf, |pre|) == Before(Typed(x), ParseFrom(buf, |pre + Printed(x)|))
  {
    hide Holds, Printed, Legible, ParseFrom, RecordAt, NextRecord, PrintLen, Typed, Lacking;
    var buf := (pre + Printed(x)) + post;
    PrintedHolds(pre, x, post);
    RecordIs(buf, |pre|, x);
    ParseStep(buf, |pre|);
    PrintedLen(x);
  }

  lemma Regrouped(pre: string, s: seq<Item>)
    requires s != []
    ensures pre + PrintAll(s) == (pre + Printed(s[0])) + PrintAll(s[1..])
  {
    hide Printed;
    Assoc(pre, Printed(s[0]), PrintAll(s[1..]));
  }

  lemma TailLegible(s: seq<Item>)
    requires s != [] && AllLegible(s)
    ensures Legible(s[0]) && AllLegible(s[1..])
  {
    hide Legible;
  }

  lemma HeadAndTail(s: seq<Item>, r: Result)
    requires s != []
    ensures Before(Typed(s[0]), Behind(s[1..], r)) == Behind(s, r)
  {
    if r.Items? {
      assert [Typed(s[0])] + AllTyped(s[1..]) == AllTyped(s);
      Assoc2([Typed(s[0])], AllTyped(s[1..]), r.items);
    }
  }

  lemma Assoc2(a: seq<Item>, b: seq<Item>, c: seq<Item>)
    ensures (a + b) + c == a + (b + c)
  {
  }

  lemma Assoc(a: string, b: string, c: string)
    ensures (a + b) + c == a + (b + c)
  {
  }

  lemma ParseStep(buf: string, i: nat)
    requires i < |buf| && buf[i] != NUL && buf[i] != DELIM && !Lacking(buf, i)
    ensures ParseFrom(buf, i) == Before(RecordAt(buf, i), ParseFrom(buf, NextRecord(buf, i)))
  {
  }

  lemma PrintedLen(x: Item)
    ensures |Printed(x)| == PrintLen(x) > 0
  {
  }

  // An '@' anywhere makes parsing start behind the first line.
  lemma HeaderSkipped(line: string, text: string)
    requires EOL !in line && NUL !in line
    ensures var buf := (line + [EOL]) + text;
      ParseAll(buf) == ParseFrom(buf, if '@' in line || '@' in text then |line + [EOL]| else 0)
  {
    hide Stop, ParseFrom;
    var buf := (line + [EOL]) + text;
    assert buf[0..0 + |line|] == line && buf[|line|] == EOL;
    StopAt(buf, 0, line, EOL);
  }

  // With its header line, a printed list parses back to itself, but for types.
  lemma HeaderRoundTrip(name: string, s: seq<Item>)
    requires AllLegible(s) && EOL !in name && NUL !in name
    ensures ParseAll("@" + name + [EOL] + PrintAll(s)) == Items(AllTyped(s))
  {
    hide Stop, ParseFrom, PrintAll, AllLegible, AllTyped;
    var line := "@" + name;
    assert line[0] == '@';
    HeaderSkipped(line, PrintAll(s));
    ParsePrinted(line + [EOL], s);
  }

  // Without a header line, the first item is taken for one when an '@' stands in
  // any field. So a list parses back to itself exactly when there is no '@' and
  // every item has a type.
  lemma RoundTrip(s: seq<Item>)
    requires forall x :: x in s ==> Clean(x)
    ensures ParseAll(PrintAll(s)) == Items(AllTyped(if '@' in PrintAll(s) then s[1..] else s))
    ensures ParseAll(PrintAll(s)) == Items(s)
      <==> '@' !in PrintAll(s) && forall i :: 0 <= i < |s| ==> s[i].type_ != ""
  {
    var buf := PrintAll(s);
    TypesKept(s);
    if '@' in buf {
      SkipsFirst(s);
      assert |s[1..]| < |s|;
    } else {
      hide Stop, Clean, ParseFrom, PrintAll, AllTyped;
      CleanLegible(s);
      ParsePrinted("", s);
      assert "" + buf == buf;
    }
  }

  lemma TypesKept(s: seq<Item>)
    ensures AllTyped(s) == s <==> forall i :: 0 <= i < |s| ==> s[i].type_ != ""
  {
    if AllTyped(s) == s {
      forall i | 0 <= i < |s|
        ensures s[i].type_ != ""
      {
        assert AllTyped(s)[i] == Typed(s[i]);
      }
    }
  }

  // So a list of one item with an '@' comes back empty.
  lemma OneItemLost()
    ensures var x := Item("mail", "string", "a@b");
      Clean(x) && ParseAll(PrintAll([x])) == Items([])
  {
    var x := Item("mail", "string", "a@b");
    hide Stop, ParseAll;
    assert x.value[1] == '@';
    assert PrintAll([x]) == Printed(x) by { assert [x][1..] == []; }
    assert x.value[1] in Printed(x);
    RoundTrip([x]);
    assert [x][1..] == [];
  }

  lemma SkipsFirst(s: seq<Item>)
    requires (forall x :: x in s ==> Clean(x)) && '@' in PrintAll(s)
    ensures |s| > 0 && ParseAll(PrintAll(s)) == Items(AllTyped(s[1..]))
  {
    hide Stop, Clean, ParseFrom, Printed, AllTyped;
    assert s != [];
    assert Clean(s[0]);
    FirstLine(s);
    CleanLegible(s[1..]);
    ParsePrinted(Printed(s[0]), s[1..]);
  }

  lemma CleanLegible(s: seq<Item>)
    requires forall x :: x in s ==> Clean(x)
    ensures AllLegible(s)
  {
  }

  lemma FirstLine(s: seq<Item>)
    requires s != [] && Clean(s[0])
    ensures Stop(PrintAll(s), 0, EOL) + 1 == |Printed(s[0])| && EOL in PrintAll(s)
  {
    var x := s[0];
    var f := x.attrib + [DELIM] + x.type_ + [DELIM] + x.value;
    var buf := PrintAll(s);
    assert buf == f + ([EOL] + PrintAll(s[1..]));
    assert buf[0..0 + |f|] == f && buf[|f|] == EOL;
    hide Stop;
    StopAt(buf, 0, f, EOL);
  }
}
