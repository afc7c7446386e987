// What one turn of the scanning loop of xml_parse does, and where whole runs
// of it lead on an accepted document.
module XmlScan {
  import opened Texts
  import opened XmlDocs

  // SKIP_WHITE
  function Skip(t: string, i: nat): (j: nat)
    ensures i <= j
    decreases |t| - i
  {
    if i < |t| && Skippable(t[i]) then Skip(t, i + 1) else i
  }

  // The next c from i on.
  function Until(t: string, i: nat, c: char): (j: nat)
    ensures i <= j
    decreases |t| - i
  {
    if i < |t| && t[i] != c then Until(t, i + 1, c) else i
  }

  // The next "-->" from i on.
  function CommentEnd(t: string, i: nat): (j: nat)
    ensures i <= j
    decreases |t| - i
  {
    if i < |t| && !(At(t, i) == '-' && At(t, i + 1) == '-' && At(t, i + 2) == '>') then CommentEnd(t, i + 1) else i
  }

  predicate ShortHere(t: string, i: nat) {
    At(t, i + 1) == '/' && At(t, i + 2) == '>'
  }

  // The end of a tag from i on, or the last character of a name in short form.
  function NameEnd(t: string, i: nat): (j: nat)
    ensures i <= j
    decreases |t| - i
  {
    if i < |t| && t[i] != '>' && !ShortHere(t, i) then NameEnd(t, i + 1) else i
  }

  // append_tag
  function Append(tag: string, name: string): string {
    Below(tag, name)
  }

  function LastSlash(s: string): nat {
    if |s| <= 1 || s[|s| - 1] == '/' then (if s == "" then 0 else |s| - 1) else LastSlash(s[..|s| - 1])
  }

  // shrink_tag
  function Shrink(tag: string): string {
    if LastSlash(tag) == 0 then tag else if LastSlash(tag) <= |tag| then tag[..LastSlash(tag)] else tag
  }

  // The node that add_to_xml makes.
  function NewEntry(loc: nat, sym: string, val: string): Entry {
    Entry(PathOf(sym), val, loc - (|LastName(PathOf(sym))| + |val| + 2), Unset)
  }

  datatype State = State(ploc: nat, depth: int, tag: string, xml: seq<Entry>)

  // A tag has been read up to its '>'; value, children or the closing tag come
  // next.
  function AfterTag(t: string, s: State, name: string, short: bool): State {
    var p := s.ploc;
    if At(t, p + 1) == '<' then
      var e := Until(t, p + 2, '>') + 1;
      s.(ploc := e, xml := s.xml + [NewEntry(e, Append(s.tag, name), "")], tag := Shrink(Append(s.tag, name)))
    else
      var q := Skip(t, p + 1);
      if short then s.(ploc := q)
      else if At(t, q) == '<' then s.(ploc := q, depth := s.depth + 1, tag := Append(s.tag, name))
      else
        var e := Until(t, q + 1, '<');
        var tag := Append(s.tag, name);
        State(e, s.depth + 1, tag, s.xml + [NewEntry(e, tag, Sub(t, q, e))])
  }

  // One turn of the loop.
  function Step(t: string, s: State): State {
    var i := Skip(t, s.ploc);
    if At(t, i) != '<' then s.(ploc := i)
    else if At(t, i + 1) == '!' then s.(ploc := CommentEnd(t, i + 1) + 3)
    else if At(t, i + 1) == '/' then
      s.(ploc := Until(t, i + 1, '>') + 1, depth := s.depth - 1, tag := Shrink(s.tag))
    else
      var k := NameEnd(t, i + 1);
      if At(t, k) != '>' then
        var name := Sub(t, i + 1, k + 1);
        var entry := NewEntry(k + 2, Append(s.tag, name), "");
        AfterTag(t, s.(ploc := k + 2, xml := s.xml + [entry], tag := Shrink(Append(s.tag, name))), name, true)
      else AfterTag(t, s.(ploc := k), Sub(t, i + 1, k), false)
  }

  lemma {:induction false} SkipTwice(t: string, i: nat)
    ensures Skip(t, Skip(t, i)) == Skip(t, i)
    decreases |t| - i
  {
    if i < |t| && Skippable(t[i]) {
      SkipTwice(t, i + 1);
    }
  }

  // The white space before a turn does not matter.
  lemma StepSkips(t: string, s: State)
    ensures var i := Skip(t, s.ploc);
      && Skip(t, i) == i
      && Step(t, s) == if At(t, i) != '<' then s.(ploc := i) else Step(t, s.(ploc := i))
  {
    hide Skip, Until, NameEnd, CommentEnd, Append, Shrink, NewEntry, AfterTag;
    SkipTwice(t, s.ploc);
  }

  // n turns lead from a to b, and the loop does not stop in between.
  ghost predicate Runs(t: string, a: State, b: State, n: nat)
    decreases n
  {
    if n == 0 then a == b
    else Runs(t, Step(t, a), b, n - 1) && (n > 1 ==> Step(t, a).depth != 0)
  }

  lemma {:induction false} RunsOn(t: string, a: State, b: State, c: State, n: nat, k: nat)
    requires Runs(t, a, b, n) && Runs(t, b, c, k) && b.depth != 0
    ensures Runs(t, a, c, n + k)
    decreases n
  {
    hide Step;
    if n > 0 {
      RunsOn(t, Step(t, a), b, c, n - 1, k);
    }
  }

  // --------------------------------------------------- pieces of a document

  ghost predicate Holds(t: string, i: nat, s: string) {
    i + |s| <= |t| && t[i..i + |s|] == s
  }

  lemma HoldsParts(t: string, i: nat, a: string, b: string)
    requires Holds(t, i, a + b)
    ensures Holds(t, i, a) && Holds(t, i + |a|, b)
  {
    assert t[i..i + |a|] == (a + b)[..|a|] == a;
    assert t[i + |a|..i + |a| + |b|] == (a + b)[|a|..] == b;
  }

  lemma CharAt(t: string, i: nat, s: string, k: nat)
    requires Holds(t, i, s) && k < |s|
    ensures At(t, i + k) == s[k] && i + k < |t|
  {
    assert t[i..i + |s|][k] == s[k];
  }

  lemma {:induction false} SkipGap(t: string, i: nat, gap: string)
    requires Holds(t, i, gap) && GoodGap(gap)
    ensures Skip(t, i) == Skip(t, i + |gap|)
    decreases |gap|
  {
    if gap != "" {
      CharAt(t, i, gap, 0);
      assert gap[0] in gap;
      HoldsParts(t, i, [gap[0]], gap[1..]) by { assert [gap[0]] + gap[1..] == gap; }
      SkipGap(t, i + 1, gap[1..]);
    }
  }

  lemma {:induction false} UntilIs(t: string, i: nat, s: string, c: char)
    requires Holds(t, i, s) && c !in s && At(t, i + |s|) == c && i + |s| < |t|
    ensures Until(t, i, c) == i + |s|
    decreases |s|
  {
    if s != "" {
      CharAt(t, i, s, 0);
      HoldsParts(t, i, [s[0]], s[1..]) by { assert [s[0]] + s[1..] == s; }
      UntilIs(t, i + 1, s[1..], c);
    }
  }

  // A name that a '>' follows, or a "/>".
  lemma {:induction false} NameEnds(t: string, i: nat, name: string)
    requires Holds(t, i, name) && '>' !in name && '/' !in name && At(t, i + |name|) == '>' && i + |name| < |t|
    ensures NameEnd(t, i) == i + |name|
    decreases |name|
  {
    if name != "" {
      CharAt(t, i, name, 0);
      if |name| > 1 { CharAt(t, i, name, 1); }
      HoldsParts(t, i, [name[0]], name[1..]) by { assert [name[0]] + name[1..] == name; }
      NameEnds(t, i + 1, name[1..]);
    }
  }

  lemma {:induction false} NameShort(t: string, i: nat, name: string)
    requires Holds(t, i, name) && '>' !in name && '/' !in name && name != "" && ShortHere(t, i + |name| - 1)
    ensures NameEnd(t, i) == i + |name| - 1
    decreases |name|
  {
    CharAt(t, i, name, 0);
    if |name| > 1 {
      CharAt(t, i, name, 1);
      HoldsParts(t, i, [name[0]], name[1..]) by { assert [name[0]] + name[1..] == name; }
      NameShort(t, i + 1, name[1..]);
    }
  }

  lemma {:induction false} CommentEnds(t: string, i: nat, text: string)
    requires Holds(t, i, text + "-->") && GoodComment(text)
    ensures CommentEnd(t, i) == i + |text|
    decreases |text|
  {
    var all := text + "-->";
    CharAt(t, i, all, 0);
    CharAt(t, i, all, 1);
    CharAt(t, i, all, 2);
    if text != "" {
      assert [text[0]] + (text[1..] + "-->") == all;
      HoldsParts(t, i, [text[0]], text[1..] + "-->");
      CommentEnds(t, i + 1, text[1..]);
    }
  }

  // A tag appended comes off again.
  lemma {:induction false} LastSlashIs(tag: string, name: string)
    requires tag != "" && '/' !in name
    ensures LastSlash(Below(tag, name)) == |tag|
    decreases |name|
  {
    var s := Below(tag, name);
    if name != "" {
      var most := name[..|name| - 1];
      assert s[..|s| - 1] == Below(tag, most);
      assert s[|s| - 1] == name[|name| - 1];
      LastSlashIs(tag, most);
    }
  }

  lemma ShrinkAppend(tag: string, name: string)
    requires tag != "" && '/' !in name
    ensures Shrink(Append(tag, name)) == tag
  {
    LastSlashIs(tag, name);
    assert Append(tag, name)[..|tag|] == tag;
  }

  lemma NewEntryIs(loc: nat, tag: string, name: string, val: string)
    requires '/' !in name && |tag| + 1 >= PREFIX_LEN
    ensures NewEntry(loc, Append(tag, name), val) == Entry(PathOf(Below(tag, name)), val, loc - (|name| + |val| + 2),
      Unset)
  {
    NameOf(tag, name);
  }

  // -------------------------------------------------- the parts of elements

  // "<name>" at j: where its '>' is, and that it is a plain opening tag.
  lemma OpenTag(t: string, j: nat, name: string)
    requires Holds(t, j, Open(name)) && GoodName(name)
    ensures At(t, j) == '<' && At(t, j + 1) != '!' && At(t, j + 1) != '/'
    ensures NameEnd(t, j + 1) == j + 1 + |name| && At(t, j + 1 + |name|) == '>'
    ensures Sub(t, j + 1, j + 1 + |name|) == name && j + 2 + |name| <= |t|
  {
    CharAt(t, j, Open(name), 0);
    CharAt(t, j, Open(name), 1);
    CharAt(t, j, Open(name), 1 + |name|);
    assert Open(name) == "<" + (name + ">");
    HoldsParts(t, j, "<", name + ">");
    HoldsParts(t, j + 1, name, ">");
    NameEnds(t, j + 1, name);
  }

  // "</name>" at j.
  lemma CloseTag(t: string, j: nat, name: string)
    requires Holds(t, j, Close(name)) && GoodName(name)
    ensures At(t, j) == '<' && At(t, j + 1) == '/' && Skip(t, j) == j
    ensures Until(t, j + 1, '>') == j + 2 + |name| && j + 3 + |name| <= |t|
  {
    CharAt(t, j, Close(name), 0);
    CharAt(t, j, Close(name), 1);
    CharAt(t, j, Close(name), 2 + |name|);
    assert Close(name) == "<" + (("/" + name) + ">");
    HoldsParts(t, j, "<", ("/" + name) + ">");
    HoldsParts(t, j + 1, "/" + name, ">");
    UntilIs(t, j + 1, "/" + name, '>');
  }

  // The turn that reads a closing tag.
  lemma CloseStep(t: string, s: State, j: nat, name: string, tag: string)
    requires Holds(t, j, Close(name)) && GoodName(name) && Skip(t, s.ploc) == j && tag != ""
      && s.tag == Append(tag, name)
    ensures Step(t, s) == State(j + |Close(name)|, s.depth - 1, tag, s.xml)
  {
    hide Skip, Until, Shrink, Append;
    CloseTag(t, j, name);
    ShrinkAppend(tag, name);
  }

  // A turn that begins with an opening tag.
  lemma TagStep(t: string, s: State, j: nat, name: string)
    requires Holds(t, j, Open(name)) && GoodName(name) && Skip(t, s.ploc) == j
    ensures Step(t, s) == AfterTag(t, s.(ploc := j + 1 + |name|), name, false)
  {
    hide Skip, Until, NameEnd, Append, NewEntry, AfterTag, Holds, GoodName;
    OpenTag(t, j, name);
  }

  // The turn that reads an opening tag and a value.
  lemma ValueStep(t: string, s: State, j: nat, name: string, value: string)
    requires Holds(t, j, PrintLeaf(name, value)) && GoodName(name) && GoodValue(value) && Skip(t, s.ploc) == j
    requires |s.tag| + 1 >= PREFIX_LEN
    ensures var e := j + |Open(name)| + |value|;
      && Step(t, s) == State(e, s.depth + 1, Append(s.tag, name),
        s.xml + [Entry(PathOf(Below(s.tag, name)), value, j, Unset)])
      && Holds(t, e, Close(name))
  {
    hide Skip, Until, NameEnd, Append, NewEntry, Step, Holds, GoodName, GoodValue, Below, PathOf, Sub;
    HoldsParts(t, j, Open(name), value + Close(name));
    var q := j + |Open(name)|;
    HoldsParts(t, q, value, Close(name));
    TagStep(t, s, j, name);
    CloseTag(t, q + |value|, name);
    ValueEnds(t, q, value);
    PlainName(name);
    NewEntryIs(q + |value|, s.tag, name, value);
  }

  lemma PlainName(name: string)
    requires GoodName(name)
    ensures '/' !in name
  {
  }

  lemma ValueEnds(t: string, q: nat, value: string)
    requires Holds(t, q, value) && GoodValue(value) && At(t, q + |value|) == '<'
    ensures At(t, q) != '<' && Skip(t, q) == q
    ensures Until(t, q + 1, '<') == q + |value| && Sub(t, q, q + |value|) == value
  {
    CharAt(t, q, value, 0);
    assert [value[0]] + value[1..] == value;
    HoldsParts(t, q, [value[0]], value[1..]);
    UntilIs(t, q + 1, value[1..], '<');
  }

  // The turn that reads an element without a value.
  lemma EmptyStep(t: string, s: State, j: nat, name: string)
    requires Holds(t, j, Open(name) + Close(name)) && GoodName(name) && Skip(t, s.ploc) == j
      && |s.tag| + 1 >= PREFIX_LEN
    ensures Step(t, s) ==
      s.(ploc := j + |Open(name) + Close(name)|,
        xml := s.xml + [Entry(PathOf(Below(s.tag, name)), "", j + |name| + 3, Unset)])
  {
    hide Skip, Until, NameEnd, Append, NewEntry, Shrink, Step, Holds, GoodName, Below, PathOf, Sub;
    HoldsParts(t, j, Open(name), Close(name));
    var q := j + |Open(name)|;
    TagStep(t, s, j, name);
    CloseTag(t, q, name);
    PlainName(name);
    NewEntryIs(q + |Close(name)|, s.tag, name, "");
    ShrinkAppend(s.tag, name);
  }

  // The turn that reads a comment.
  lemma CommentStep(t: string, s: State, j: nat, text: string)
    requires Holds(t, j, "<!" + (text + "-->")) && GoodComment(text) && Skip(t, s.ploc) == j
    ensures Step(t, s) == s.(ploc := j + 2 + |text| + 3)
  {
    hide Skip, Until, NameEnd, CommentEnd, Append, NewEntry, Shrink, AfterTag, GoodComment;
    var all := "<!" + (text + "-->");
    CharAt(t, j, all, 0);
    CharAt(t, j, all, 1);
    assert all == "<" + (("!" + text) + "-->");
    HoldsParts(t, j, "<", ("!" + text) + "-->");
    BangComment(text);
    CommentEnds(t, j + 1, "!" + text);
  }

  lemma BangComment(text: string)
    requires GoodComment(text)
    ensures GoodComment("!" + text)
  {
    assert ("!" + text)[1..] == text && ("!" + text + "-->")[0] == '!';
  }

  // The turn that reads a tag in short form.
  lemma ShortStep(t: string, s: State, j: nat, name: string)
    requires Holds(t, j, "<" + (name + "/>")) && GoodName(name) && Skip(t, s.ploc) == j && |s.tag| + 1 >= PREFIX_LEN
    requires At(t, j + |name| + 3) != '<'
    ensures Step(t, s) ==
      s.(ploc := Skip(t, j + |name| + 3), xml := s.xml + [Entry(PathOf(Below(s.tag, name)), "", j, Unset)])
  {
    hide Skip, Until, NameEnd, Append, NewEntry, Shrink;
    ShortTag(t, j, name);
    NewEntryIs(j + |name| + 2, s.tag, name, "");
    ShrinkAppend(s.tag, name);
  }

  lemma ShortTag(t: string, j: nat, name: string)
    requires Holds(t, j, "<" + (name + "/>")) && GoodName(name)
    ensures At(t, j) == '<' && At(t, j + 1) != '!' && At(t, j + 1) != '/'
    ensures NameEnd(t, j + 1) == j + |name| && At(t, j + |name|) != '>'
    ensures Sub(t, j + 1, j + 1 + |name|) == name
  {
    var all := "<" + (name + "/>");
    CharAt(t, j, all, 0);
    CharAt(t, j, all, 1);
    CharAt(t, j, all, |name|);
    CharAt(t, j, all, |name| + 1);
    CharAt(t, j, all, |name| + 2);
    HoldsParts(t, j, "<", name + "/>");
    HoldsParts(t, j + 1, name, "/>");
    NameShort(t, j + 1, name);
  }

  // The turn that reads the opening tag of a block.
  lemma BlockStep(t: string, s: State, j: nat, name: string)
    requires Holds(t, j, Open(name)) && GoodName(name) && Skip(t, s.ploc) == j
    requires var p := j + |Open(name)|; At(t, p) != '<' && At(t, Skip(t, p)) == '<'
    ensures Step(t, s) == State(Skip(t, j + |Open(name)|), s.depth + 1, Append(s.tag, name), s.xml)
  {
    hide Skip, Until, NameEnd, Append, NewEntry, Shrink, Step, Holds, GoodName;
    TagStep(t, s, j, name);
  }
}
