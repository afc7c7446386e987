// The documents that the configuration parser of boards/rpi3 accepts.
module XmlDocs {
  // skippable_char
  predicate Skippable(c: char) {
    !('0' <= c <= '9') && !('a' <= c <= 'z') && !('A' <= c <= 'Z')
    && c != '>' && c != '<' && c != '?' && c != '/'
  }

  // An element with a value, one without, a comment, the short form of an
  // empty element, or an element with elements inside.
  datatype Node =
    | Leaf(name: string, value: string)
    | Empty(name: string)
    | Comment(text: string)
    | Short(name: string)
    | Block(name: string, kids: Kids)

  // The elements inside a block, each behind a gap, and the gap before its end.
  datatype Kids =
    | End(gap: string)
    | More(gap: string, node: Node, rest: Kids)

  function Open(name: string): string {
    "<" + name + ">"
  }

  function Close(name: string): string {
    "</" + name + ">"
  }

  function PrintLeaf(name: string, value: string): string {
    Open(name) + (value + Close(name))
  }

  function PrintNode(x: Node): string {
    match x
    case Leaf(name, value) => PrintLeaf(name, value)
    case Empty(name) => Open(name) + Close(name)
    case Comment(text) => "<!" + (text + "-->")
    case Short(name) => "<" + (name + "/>")
    case Block(name, kids) => Open(name) + (PrintKids(kids) + Close(name))
  }

  function PrintKids(k: Kids): string {
    match k
    case End(gap) => gap
    case More(gap, node, rest) => gap + (PrintNode(node) + PrintKids(rest))
  }

  predicate GoodName(name: string) {
    name != "" && '>' !in name && '/' !in name && name[0] != '!'
  }

  predicate GoodValue(value: string) {
    value != "" && !Skippable(value[0]) && '<' !in value
  }

  predicate GoodGap(gap: string) {
    forall c :: c in gap ==> Skippable(c)
  }

  // The first "-->" is the one that ends the comment.
  predicate GoodComment(text: string) {
    text == "" || (!("-->" <= text + "-->") && GoodComment(text[1..]))
  }

  predicate GoodNode(x: Node) {
    match x
    case Leaf(name, value) => GoodName(name) && GoodValue(value)
    case Empty(name) => GoodName(name)
    case Comment(text) => GoodComment(text)
    case Short(name) => GoodName(name)
    case Block(name, kids) => GoodName(name) && GoodKids(kids) && kids.gap != ""
  }

  // A tag in short form must not touch the tag behind it.
  predicate GoodKids(k: Kids) {
    match k
    case End(gap) => GoodGap(gap)
    case More(gap, node, rest) =>
      GoodGap(gap) && GoodNode(node) && GoodKids(rest) && (node.Short? ==> rest.gap != "")
  }

  // --------------------------------------------------------------- entries

  const PREFIX_LEN: nat := 8   // of "/config/"

  // A node of the list of values: its path below /config/, its value, and
  // where its element starts in the text.
  datatype Entry = Entry(path: string, value: string, loc: int, newval: NewVal)

  datatype NewVal = Unset | Set(text: string)

  // What follows the last '/'.
  function LastName(path: string): string {
    if path == "" || path[|path| - 1] == '/' then "" else LastName(path[..|path| - 1]) + [path[|path| - 1]]
  }

  function PathOf(sym: string): string {
    if PREFIX_LEN <= |sym| then sym[PREFIX_LEN..] else ""
  }

  function Below(tag: string, name: string): string {
    tag + ("/" + name)
  }

  // The entries of a node that starts at pos, where tag leads to its parent.
  function Entries(x: Node, tag: string, pos: int): seq<Entry> {
    match x
    case Leaf(name, value) => [Entry(PathOf(Below(tag, name)), value, pos, Unset)]
    case Empty(name) => [Entry(PathOf(Below(tag, name)), "", pos + |name| + 3, Unset)]
    case Comment(text) => []
    case Short(name) => [Entry(PathOf(Below(tag, name)), "", pos, Unset)]
    case Block(name, kids) => KidEntries(kids, Below(tag, name), pos + |Open(name)|)
  }

  function KidEntries(k: Kids, tag: string, pos: int): seq<Entry> {
    match k
    case End(gap) => []
    case More(gap, node, rest) =>
      Entries(node, tag, pos + |gap|) + KidEntries(rest, tag, pos + |gap| + |PrintNode(node)|)
  }

  // ------------------------------------------------------- changing a value

  function Count(x: Node): nat {
    match x
    case Comment(text) => 0
    case Block(name, kids) => CountKids(kids)
    case _ => 1
  }

  function CountKids(k: Kids): nat {
    match k
    case End(gap) => 0
    case More(gap, node, rest) => Count(node) + CountKids(rest)
  }

  // The node with the value of its i-th entry, if it has one, changed.
  function SetNth(x: Node, i: nat, v: string): Node {
    match x
    case Leaf(name, value) => Leaf(name, v)
    case Block(name, kids) => Block(name, SetKid(kids, i, v))
    case _ => x
  }

  function SetKid(k: Kids, i: nat, v: string): Kids {
    match k
    case End(gap) => k
    case More(gap, node, rest) =>
      if i < Count(node) then More(gap, SetNth(node, i, v), rest)
      else More(gap, node, SetKid(rest, i - Count(node), v))
  }

  lemma CountIs(x: Node, tag: string, pos: int)
    ensures |Entries(x, tag, pos)| == Count(x)
  {
    match x
    case Block(name, kids) => CountKidsIs(kids, Below(tag, name), pos + |Open(name)|);
    case _ =>
  }

  lemma CountKidsIs(k: Kids, tag: string, pos: int)
    ensures |KidEntries(k, tag, pos)| == CountKids(k)
  {
    match k
    case End(gap) =>
    case More(gap, node, rest) =>
      CountIs(node, tag, pos + |gap|);
      CountKidsIs(rest, tag, pos + |gap| + |PrintNode(node)|);
  }

  // before and after are the same but for the value of entry i, and the places
  // behind it, which move by d.
  ghost predicate OneChanged(before: seq<Entry>, after: seq<Entry>, i: nat, v: string, d: int) {
    && |after| == |before| && i < |before|
    && (forall j :: 0 <= j < i ==> after[j] == before[j])
    && after[i] == before[i].(value := v)
    && (forall j :: i < j < |before| ==> after[j] == before[j].(loc := before[j].loc + d))
  }

  // x' is x with the value of its i-th entry changed to v.
  ghost predicate NodeChanged(x: Node, x': Node, tag: string, pos: int, i: nat, v: string) {
    var e, e' := Entries(x, tag, pos), Entries(x', tag, pos);
    && i < |e|
    && OneChanged(e, e', i, v, |v| - |e[i].value|)
    && |PrintNode(x')| == |PrintNode(x)| + |v| - |e[i].value|
    && Count(x') == Count(x)
  }

  ghost predicate KidsChanged(k: Kids, k': Kids, tag: string, pos: int, i: nat, v: string) {
    var e, e' := KidEntries(k, tag, pos), KidEntries(k', tag, pos);
    && i < |e|
    && OneChanged(e, e', i, v, |v| - |e[i].value|)
    && |PrintKids(k')| == |PrintKids(k)| + |v| - |e[i].value|
    && CountKids(k') == CountKids(k)
  }

  ghost predicate Valued(e: seq<Entry>, i: nat) {
    i < |e| && e[i].value != ""
  }

  // An entry with a value is the entry of a leaf.
  lemma ChangeNode(x: Node, tag: string, pos: int, i: nat, v: string)
    requires Valued(Entries(x, tag, pos), i)
    ensures NodeChanged(x, SetNth(x, i, v), tag, pos, i, v)
  {
    hide GoodNode, GoodKids, KidEntries, PrintKids, CountKids, SetKid, PathOf;
    match x
    case Leaf(name, value) =>
    case Block(name, kids) =>
      ChangeKids(kids, Below(tag, name), pos + |Open(name)|, i, v);
    case _ =>
  }

  lemma ChangeKids(k: Kids, tag: string, pos: int, i: nat, v: string)
    requires Valued(KidEntries(k, tag, pos), i)
    ensures KidsChanged(k, SetKid(k, i, v), tag, pos, i, v)
  {
    hide NodeChanged, KidsChanged, OneChanged, Entries, PrintNode, PrintKids, SetNth, Count, Valued;
    match k
    case End(gap) => NoneValued(gap, tag, pos, i);
    case More(gap, node, rest) =>
      var p := pos + |gap|;
      ValuedPart(gap, node, rest, tag, pos, i);
      if i < Count(node) {
        ChangeNode(node, tag, p, i, v);
        ChangeFirst(gap, node, SetNth(node, i, v), rest, tag, pos, i, v);
      } else {
        var j := i - Count(node);
        ChangeKids(rest, tag, p + |PrintNode(node)|, j, v);
        ChangeRest(gap, node, rest, SetKid(rest, j, v), tag, pos, j, v);
      }
  }

  lemma NoneValued(gap: string, tag: string, pos: int, i: nat)
    ensures !Valued(KidEntries(End(gap), tag, pos), i)
  {
  }

  lemma ValuedPart(gap: string, node: Node, rest: Kids, tag: string, pos: int, i: nat)
    requires Valued(KidEntries(More(gap, node, rest), tag, pos), i)
    ensures i < Count(node) ==> Valued(Entries(node, tag, pos + |gap|), i)
    ensures i >= Count(node) ==> Valued(KidEntries(rest, tag, pos + |gap| + |PrintNode(node)|), i - Count(node))
  {
    hide Entries, PrintNode, Count;
    CountIs(node, tag, pos + |gap|);
  }

  lemma Unfold(gap: string, node: Node, rest: Kids, tag: string, pos: int)
    ensures var k, p := More(gap, node, rest), pos + |gap|;
      && KidEntries(k, tag, pos) == Entries(node, tag, p) + KidEntries(rest, tag, p + |PrintNode(node)|)
      && |PrintKids(k)| == |gap| + |PrintNode(node)| + |PrintKids(rest)|
      && CountKids(k) == Count(node) + CountKids(rest)
  {
  }

  lemma ChangeFirst(gap: string, x: Node, x': Node, rest: Kids, tag: string, pos: int, i: nat, v: string)
    requires NodeChanged(x, x', tag, pos + |gap|, i, v)
    ensures KidsChanged(More(gap, x, rest), More(gap, x', rest), tag, pos, i, v)
  {
    hide OneChanged, AllMoved, Entries, KidEntries, PrintNode, PrintKids, Count, CountKids;
    var p := pos + |gap|;
    Unfold(gap, x, rest, tag, pos);
    Unfold(gap, x', rest, tag, pos);
    MoveKids(rest, tag, p + |PrintNode(x)|, p + |PrintNode(x')|);
    var a := Entries(x, tag, p);
    ChangedLeft(a, Entries(x', tag, p), KidEntries(rest, tag, p + |PrintNode(x)|),
                KidEntries(rest, tag, p + |PrintNode(x')|), i, v, |v| - |a[i].value|);
  }

  lemma ChangeRest(gap: string, x: Node, rest: Kids, rest': Kids, tag: string, pos: int, j: nat, v: string)
    requires KidsChanged(rest, rest', tag, pos + |gap| + |PrintNode(x)|, j, v)
    ensures KidsChanged(More(gap, x, rest), More(gap, x, rest'), tag, pos, Count(x) + j, v)
  {
    hide OneChanged, AllMoved, Entries, KidEntries, PrintNode, PrintKids, Count, CountKids;
    var p := pos + |gap|;
    Unfold(gap, x, rest, tag, pos);
    Unfold(gap, x, rest', tag, pos);
    CountIs(x, tag, p);
    var b := KidEntries(rest, tag, p + |PrintNode(x)|);
    ChangedRight(Entries(x, tag, p), b, KidEntries(rest', tag, p + |PrintNode(x)|), j, v, |v| - |b[j].value|);
  }

  lemma ChangedLeft(a: seq<Entry>, a': seq<Entry>, b: seq<Entry>, b': seq<Entry>, i: nat, v: string, d: int)
    requires OneChanged(a, a', i, v, d) && AllMoved(b, b', d)
    ensures OneChanged(a + b, a' + b', i, v, d) && i < |a| && (a + b)[i] == a[i]
  {
  }

  lemma ChangedRight(a: seq<Entry>, b: seq<Entry>, b': seq<Entry>, i: nat, v: string, d: int)
    requires OneChanged(b, b', i, v, d)
    ensures OneChanged(a + b, a + b', |a| + i, v, d) && i < |b| && (a + b)[|a| + i] == b[i]
  {
  }

  // Entries move with the place where their text starts.
  ghost predicate AllMoved(before: seq<Entry>, after: seq<Entry>, d: int) {
    |after| == |before| && forall j :: 0 <= j < |before| ==> after[j] == before[j].(loc := before[j].loc + d)
  }

  lemma MoveNode(x: Node, tag: string, pos: int, pos': int)
    ensures AllMoved(Entries(x, tag, pos), Entries(x, tag, pos'), pos' - pos)
  {
    match x
    case Block(name, kids) => MoveKids(kids, Below(tag, name), pos + |Open(name)|, pos' + |Open(name)|);
    case _ =>
  }

  lemma MoveKids(k: Kids, tag: string, pos: int, pos': int)
    ensures AllMoved(KidEntries(k, tag, pos), KidEntries(k, tag, pos'), pos' - pos)
  {
    match k
    case End(gap) =>
    case More(gap, node, rest) =>
      MoveNode(node, tag, pos + |gap|, pos' + |gap|);
      MoveKids(rest, tag, pos + |gap| + |PrintNode(node)|, pos' + |gap| + |PrintNode(node)|);
  }

  // ------------------------------------------------- where the text changes

  lemma Assoc(a: string, b: string, c: string)
    ensures (a + b) + c == a + (b + c)
  {
  }

  lemma {:induction false} LastOf(pre: string, name: string)
    requires '/' !in name && (pre == "" || pre[|pre| - 1] == '/')
    ensures LastName(pre + name) == name
    decreases |name|
  {
    var path := pre + name;
    if name == "" {
      assert path == pre;
    } else {
      var most := name[..|name| - 1];
      assert path[..|path| - 1] == pre + most;
      LastOf(pre, most);
      assert most + [path[|path| - 1]] == name;
    }
  }

  // The path of an element ends in its name.
  lemma NameOf(tag: string, name: string)
    requires '/' !in name && |tag| + 1 >= PREFIX_LEN
    ensures LastName(PathOf(Below(tag, name))) == name
  {
    var sym := Below(tag, name);
    var pre := (tag + "/")[PREFIX_LEN..];
    assert sym == tag + "/" + name;
    assert sym[PREFIX_LEN..] == pre + name;
    LastOf(pre, name);
  }

  // The text of x is that of the leaf of entry e between a and b, and the text
  // of x' has another value there.
  ghost predicate Spliced(t: string, t': string, e: Entry, pos: int, v: string, a: string, name: string, b: string) {
    && t == a + (PrintLeaf(name, e.value) + b) && t' == a + (PrintLeaf(name, v) + b)
    && |a| == e.loc - pos && LastName(e.path) == name && GoodName(name) && GoodValue(e.value)
  }

  lemma SpliceNode(x: Node, tag: string, pos: int, i: nat, v: string) returns (a: string, name: string, b: string)
    requires GoodNode(x) && Valued(Entries(x, tag, pos), i) && |tag| + 1 >= PREFIX_LEN
    ensures Spliced(PrintNode(x), PrintNode(SetNth(x, i, v)), Entries(x, tag, pos)[i], pos, v, a, name, b)
    ensures GoodValue(v) ==> GoodNode(SetNth(x, i, v))
  {
    match x
    case Leaf(n, value) =>
      a, name, b := "", n, "";
      NameOf(tag, n);
    case Block(n, kids) =>
      var pos' := pos + |Open(n)|;
      a, name, b := SpliceKids(kids, Below(tag, n), pos', i, v);
      Wrap(Open(n), PrintKids(kids), PrintKids(SetKid(kids, i, v)), Close(n),
        KidEntries(kids, Below(tag, n), pos')[i], pos, v, a, name, b);
      a, b := Open(n) + a, b + Close(n);
    case _ =>
      a, name, b := "", "", "";
  }

  // A splice inside a longer text.
  lemma Wrap(pre: string, t: string, t': string, post: string, e: Entry, pos: int, v: string, a: string, name: string,
             b: string)
    requires Spliced(t, t', e, pos + |pre|, v, a, name, b)
    ensures Spliced(pre + (t + post), pre + (t' + post), e, pos, v, pre + a, name, b + post)
  {
    WrapOne(pre, t, post, a, PrintLeaf(name, e.value), b);
    WrapOne(pre, t', post, a, PrintLeaf(name, v), b);
  }

  lemma WrapOne(pre: string, t: string, post: string, a: string, m: string, b: string)
    requires t == a + (m + b)
    ensures pre + (t + post) == (pre + a) + (m + (b + post))
  {
  }

  lemma SpliceKids(k: Kids, tag: string, pos: int, i: nat, v: string) returns (a: string, name: string, b: string)
    requires GoodKids(k) && Valued(KidEntries(k, tag, pos), i) && |tag| + 1 >= PREFIX_LEN
    ensures Spliced(PrintKids(k), PrintKids(SetKid(k, i, v)), KidEntries(k, tag, pos)[i], pos, v, a, name, b)
    ensures GoodValue(v) ==> GoodKids(SetKid(k, i, v))
    ensures SetKid(k, i, v).gap == k.gap
  {
    hide Entries, Valued, Spliced, PrintNode, GoodNode, GoodValue, GoodGap, SetNth, Count;
    match k
    case End(gap) =>
      NoneValued(gap, tag, pos, i);
    case More(gap, x, rest) =>
      ValuedPart(gap, x, rest, tag, pos, i);
      CountIs(x, tag, pos + |gap|);
      if i < Count(x) {
        a, name, b := SpliceNode(x, tag, pos + |gap|, i, v);
        Wrap(gap, PrintNode(x), PrintNode(SetNth(x, i, v)), PrintKids(rest), Entries(x, tag, pos + |gap|)[i], pos, v,
          a, name, b);
        a, b := gap + a, b + PrintKids(rest);
        SameKind(x, i, v);
      } else {
        var p, j := pos + |gap| + |PrintNode(x)|, i - Count(x);
        a, name, b := SpliceKids(rest, tag, p, j, v);
        var pre := gap + PrintNode(x);
        ValuedIn(KidEntries(rest, tag, p), j);
        Wrap(pre, PrintKids(rest), PrintKids(SetKid(rest, j, v)), "", KidEntries(rest, tag, p)[j], pos, v, a, name, b);
        NoTail(gap, PrintNode(x), PrintKids(rest));
        NoTail(gap, PrintNode(x), PrintKids(SetKid(rest, j, v)));
        a, b := pre + a, b + "";
      }
  }

  lemma ValuedIn(e: seq<Entry>, i: nat)
    requires Valued(e, i)
    ensures i < |e| && e[i].value != ""
  {
  }

  lemma NoTail(a: string, b: string, c: string)
    ensures (a + b) + (c + "") == a + (b + c)
  {
  }

  lemma SameKind(x: Node, i: nat, v: string)
    ensures SetNth(x, i, v).Short? == x.Short?
  {
  }
}
