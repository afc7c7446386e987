// xml_header, xml_parse, xml_set and xml_write of boards/rpi3.
module Xconfig {
  import opened XmlDocs
  import opened Texts
  import opened XmlScan

  const ROOT: string := "config"

  // A header line and a root element named config.
  datatype Doc = Doc(lead: string, header: string, gap: string, kids: Kids)

  function PrintHeader(d: Doc): string {
    d.lead + ("<?" + (d.header + "?>"))
  }

  function PrintDoc(d: Doc): string {
    PrintHeader(d) + (d.gap + PrintNode(Block(ROOT, d.kids)))
  }

  predicate GoodDoc(d: Doc) {
    GoodGap(d.lead) && '?' !in d.header && GoodGap(d.gap) && GoodKids(d.kids) && d.kids.gap != ""
  }

  function RootAt(d: Doc): nat {
    |PrintHeader(d)| + |d.gap|
  }

  // The list that parsing makes.
  function DocEntries(d: Doc): seq<Entry> {
    Entries(Block(ROOT, d.kids), "", RootAt(d))
  }

  // -------------------------------------------------------- what a run does

  // Text that follows an element does not join it.
  ghost predicate Apart(t: string, x: Node, z: nat) {
    x.Short? ==> At(t, z) != '<'
  }

  lemma RunNode(t: string, s: State, j: nat, x: Node) returns (b: State, n: nat)
    requires GoodNode(x) && Holds(t, j, PrintNode(x)) && Skip(t, s.ploc) == j && Apart(t, x, j + |PrintNode(x)|)
    requires s.depth > 0 && |s.tag| + 1 >= PREFIX_LEN
    ensures Runs(t, s, b, n) && b == s.(ploc := b.ploc, xml := s.xml + Entries(x, s.tag, j))
    ensures Skip(t, b.ploc) == Skip(t, j + |PrintNode(x)|)
    decreases x, 0
  {
    hide Step, Skip;
    match x
    case Leaf(name, value) => b, n := RunLeaf(t, s, j, name, value);
    case Empty(name) =>
      EmptyStep(t, s, j, name);
      b, n := Step(t, s), 1;
      OneTurn(t, s);
    case Comment(text) =>
      CommentStep(t, s, j, text);
      b, n := Step(t, s), 1;
      OneTurn(t, s);
      assert s.xml + [] == s.xml;
    case Short(name) =>
      ShortStep(t, s, j, name);
      b, n := Step(t, s), 1;
      OneTurn(t, s);
      SkipTwice(t, j + |name| + 3);
    case Block(name, kids) => b, n := RunBlock(t, s, j, name, kids);
  }

  lemma OneTurn(t: string, s: State)
    ensures Runs(t, s, Step(t, s), 1)
  {
    hide Step;
    assert Runs(t, Step(t, s), Step(t, s), 0);
  }

  lemma RunLeaf(t: string, s: State, j: nat, name: string, value: string) returns (b: State, n: nat)
    requires GoodName(name) && GoodValue(value) && Holds(t, j, PrintLeaf(name, value)) && Skip(t, s.ploc) == j
    requires s.depth > 0 && |s.tag| + 1 >= PREFIX_LEN
    ensures Runs(t, s, b, n)
    ensures b == s.(ploc := j + |PrintLeaf(name, value)|,
      xml := s.xml + [Entry(PathOf(Below(s.tag, name)), value, j, Unset)])
  {
    hide Step, Skip;
    ValueStep(t, s, j, name, value);
    var m, e := Step(t, s), j + |Open(name)| + |value|;
    CloseTag(t, e, name);
    CloseStep(t, m, e, name, s.tag);
    b, n := Step(t, m), 2;
    OneTurn(t, s);
    OneTurn(t, m);
    RunsOn(t, s, m, b, 1, 1);
  }

  lemma RunBlock(t: string, s: State, j: nat, name: string, kids: Kids) returns (b: State, n: nat)
    requires GoodNode(Block(name, kids)) && Holds(t, j, PrintNode(Block(name, kids))) && Skip(t, s.ploc) == j
    requires s.depth > 0 && |s.tag| + 1 >= PREFIX_LEN
    ensures Runs(t, s, b, n)
    ensures b == s.(ploc := j + |PrintNode(Block(name, kids))|, xml := s.xml + Entries(Block(name, kids), s.tag, j))
    decreases kids, 1
  {
    hide Step, Skip, Runs, PrintKids, KidEntries, GoodKids, GoodName;
    var p, z := BlockParts(t, j, name, kids);
    FirstOfKids(t, p, kids);
    BlockStep(t, s, j, name);
    var m, k := Step(t, s), 0;
    OneTurn(t, s);
    SkipTwice(t, p);
    b, k := RunKids(t, m, p, kids);
    RunsOn(t, s, m, b, 1, k);
    CloseTag(t, z, name);
    CloseStep(t, b, z, name, s.tag);
    OneTurn(t, b);
    RunsOn(t, s, b, Step(t, b), 1 + k, 1);
    b, n := Step(t, b), 1 + k + 1;
  }

  // Where the content of a block starts and ends.
  lemma BlockParts(t: string, j: nat, name: string, kids: Kids) returns (p: nat, z: nat)
    requires Holds(t, j, PrintNode(Block(name, kids))) && GoodName(name)
    ensures p == j + |Open(name)| && z == p + |PrintKids(kids)|
    ensures Holds(t, j, Open(name)) && Holds(t, p, PrintKids(kids)) && Holds(t, z, Close(name)) && At(t, z) == '<'
  {
    hide PrintKids;
    HoldsParts(t, j, Open(name), PrintKids(kids) + Close(name));
    p := j + |Open(name)|;
    HoldsParts(t, p, PrintKids(kids), Close(name));
    z := p + |PrintKids(kids)|;
    CharAt(t, z, Close(name), 0);
  }

  // Behind the gap before them, the contents of a block start with a '<'.
  lemma FirstOfKids(t: string, i: nat, k: Kids)
    requires GoodKids(k) && Holds(t, i, PrintKids(k)) && At(t, i + |PrintKids(k)|) == '<'
    ensures Skip(t, i) == i + |k.gap| && At(t, i + |k.gap|) == '<'
    ensures k.gap != "" ==> At(t, i) != '<'
  {
    hide PrintNode, GoodNode;
    match k
    case End(gap) =>
      GapTo(t, i, gap);
    case More(gap, x, rest) =>
      HoldsParts(t, i, gap, PrintNode(x) + PrintKids(rest));
      HoldsParts(t, i + |gap|, PrintNode(x), PrintKids(rest));
      FirstOfNode(t, i + |gap|, x);
      GapTo(t, i, gap);
  }

  lemma GapTo(t: string, i: nat, gap: string)
    requires Holds(t, i, gap) && GoodGap(gap) && At(t, i + |gap|) == '<'
    ensures Skip(t, i) == i + |gap|
    ensures gap != "" ==> At(t, i) != '<'
  {
    SkipGap(t, i, gap);
    if gap != "" {
      CharAt(t, i, gap, 0);
      assert gap[0] in gap;
    }
  }

  lemma FirstOfNode(t: string, i: nat, x: Node)
    requires Holds(t, i, PrintNode(x))
    ensures At(t, i) == '<'
  {
    assert |PrintNode(x)| > 0 && PrintNode(x)[0] == '<';
    hide PrintNode;
    CharAt(t, i, PrintNode(x), 0);
  }

  lemma RunKids(t: string, s: State, i: nat, k: Kids) returns (b: State, n: nat)
    requires GoodKids(k) && Holds(t, i, PrintKids(k)) && At(t, i + |PrintKids(k)|) == '<'
      && Skip(t, s.ploc) == Skip(t, i)
    requires s.depth > 0 && |s.tag| + 1 >= PREFIX_LEN
    ensures Runs(t, s, b, n) && b == s.(ploc := b.ploc, xml := s.xml + KidEntries(k, s.tag, i))
    ensures Skip(t, b.ploc) == i + |PrintKids(k)|
    decreases k, 0
  {
    hide Step, Skip, PrintNode, GoodNode, Entries, GoodGap;
    FirstOfKids(t, i, k);
    match k
    case End(gap) =>
      b, n := s, 0;
      assert s.xml + [] == s.xml;
    case More(gap, x, rest) =>
      var j, p := KidParts(t, i, gap, x, rest);
      var k1, k2;
      b, k1 := RunNode(t, s, j, x);
      var m := b;
      b, k2 := RunKids(t, m, p, rest);
      RunsOn(t, s, m, b, k1, k2);
      n := k1 + k2;
      assert s.xml + (Entries(x, s.tag, j) + KidEntries(rest, s.tag, p)) == m.xml + KidEntries(rest, s.tag, p);
  }

  lemma KidParts(t: string, i: nat, gap: string, x: Node, rest: Kids) returns (j: nat, p: nat)
    requires Holds(t, i, PrintKids(More(gap, x, rest))) && GoodKids(More(gap, x, rest))
    requires At(t, i + |PrintKids(More(gap, x, rest))|) == '<'
    ensures j == i + |gap| && p == j + |PrintNode(x)|
    ensures Holds(t, j, PrintNode(x)) && Holds(t, p, PrintKids(rest)) && At(t, p + |PrintKids(rest)|) == '<'
    ensures Apart(t, x, p)
  {
    hide PrintNode, GoodNode;
    HoldsParts(t, i, gap, PrintNode(x) + PrintKids(rest));
    j := i + |gap|;
    HoldsParts(t, j, PrintNode(x), PrintKids(rest));
    p := j + |PrintNode(x)|;
    FirstOfKids(t, p, rest);
  }

  // The run over a whole document.
  lemma RunDoc(t: string, d: Doc) returns (n: nat)
    requires GoodDoc(d) && Holds(t, 0, PrintDoc(d))
    ensures n > 0
    ensures Runs(t, State(|PrintHeader(d)|, 0, "", []), State(|PrintDoc(d)|, 0, Append("", ROOT), DocEntries(d)), n)
  {
    hide Step, Skip, Runs, PrintNode, GoodKids, GoodGap, PrintHeader, Entries, Holds;
    var j := DocParts(t, d);
    RootName(ROOT);
    n := RunRoot(t, State(|PrintHeader(d)|, 0, "", []), j, ROOT, d.kids);
  }

  // Where the root element is.
  lemma DocParts(t: string, d: Doc) returns (j: nat)
    requires GoodDoc(d) && Holds(t, 0, PrintDoc(d))
    ensures j == RootAt(d) && Holds(t, j, PrintNode(Block(ROOT, d.kids))) && Skip(t, |PrintHeader(d)|) == j
    ensures |PrintDoc(d)| == j + |PrintNode(Block(ROOT, d.kids))|
    ensures Holds(t, 0, PrintHeader(d))
  {
    hide PrintNode, PrintHeader, Skip;
    j := RootAt(d);
    HoldsParts(t, 0, PrintHeader(d), d.gap + PrintNode(Block(ROOT, d.kids)));
    HoldsParts(t, |PrintHeader(d)|, d.gap, PrintNode(Block(ROOT, d.kids)));
    FirstOfNode(t, j, Block(ROOT, d.kids));
    GapTo(t, |PrintHeader(d)|, d.gap);
  }

  lemma RunRoot(t: string, s: State, j: nat, name: string, kids: Kids) returns (n: nat)
    requires GoodName(name) && |name| + 2 >= PREFIX_LEN && GoodKids(kids) && kids.gap != ""
      && Holds(t, j, PrintNode(Block(name, kids)))
    requires Skip(t, s.ploc) == j && s.depth == 0 && s.tag == "" && s.xml == []
    ensures n > 0
    ensures Runs(t, s,
      State(j + |PrintNode(Block(name, kids))|, 0, Append("", name), Entries(Block(name, kids), "", j)), n)
  {
    hide Step, Skip, Runs, PrintKids, KidEntries, GoodKids, GoodName;
    var p, z := BlockParts(t, j, name, kids);
    FirstOfKids(t, p, kids);
    BlockStep(t, s, j, name);
    var m := Step(t, s);
    OneTurn(t, s);
    SkipTwice(t, p);
    var b, k := RunKids(t, m, p, kids);
    RunsOn(t, s, m, b, 1, k);
    RootStep(t, b, z, name);
    OneTurn(t, b);
    RunsOn(t, s, b, Step(t, b), 1 + k, 1);
    n := 1 + k + 1;
    assert m.xml + KidEntries(kids, m.tag, p) == KidEntries(kids, m.tag, p);
  }

  lemma RootName(name: string)
    requires name == ROOT
    ensures GoodName(name) && |name| + 2 == PREFIX_LEN
  {
  }

  // The turn that reads the closing tag of the root: its name stays.
  lemma RootStep(t: string, s: State, j: nat, name: string)
    requires GoodName(name) && Holds(t, j, Close(name)) && Skip(t, s.ploc) == j && s.tag == Append("", name)
    ensures Step(t, s) == State(j + |Close(name)|, s.depth - 1, s.tag, s.xml)
  {
    hide Skip, Until;
    CloseTag(t, j, name);
    RootStays(name);
  }

  lemma {:induction false} RootStays(name: string)
    requires '/' !in name
    ensures LastSlash(Append("", name)) == 0
    decreases |name|
  {
    if name != "" {
      var s, most := Append("", name), name[..|name| - 1];
      assert s[..|s| - 1] == Append("", most);
      assert s[|s| - 1] == name[|name| - 1];
      RootStays(most);
    }
  }
}
