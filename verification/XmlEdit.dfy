// The parser and the editor of boards/rpi3 as they run, and what an edit does
// to a document.
module XmlEdit {
  import opened XmlDocs
  import opened Texts
  import opened XmlScan
  import opened Xconfig

  // Where xml_header leaves the cursor, and whether it accepts what it sees.
  function HeaderEnd(t: string): nat {
    var i := Skip(t, 0);
    if At(t, i) == '<' then Until(t, i + 2, '?') + 2 else i
  }

  predicate HeaderOk(t: string) {
    var i := Skip(t, 0);
    At(t, i) == '<' ==> At(t, i + 1) == '?' && At(t, Until(t, i + 2, '?') + 1) == '>'
  }

  // The first node of the list with this path.
  function FirstPath(xml: seq<Entry>, path: string): (j: int)
    ensures -1 <= j < |xml|
    ensures j >= 0 ==> xml[j].path == path
  {
    if xml == [] then -1
    else if xml[0].path == path then 0
    else
      var j := FirstPath(xml[1..], path);
      if j < 0 then -1 else j + 1
  }

  lemma {:induction false} FirstPathIs(xml: seq<Entry>, path: string, i: nat)
    requires i < |xml| && xml[i].path == path && forall k :: 0 <= k < i ==> xml[k].path != path
    ensures FirstPath(xml, path) == i
  {
    if i > 0 {
      FirstPathIs(xml[1..], path, i - 1);
    }
  }

  lemma {:induction false} NoPath(xml: seq<Entry>, path: string)
    requires forall k :: 0 <= k < |xml| ==> xml[k].path != path
    ensures FirstPath(xml, path) == -1
  {
    if xml != [] {
      NoPath(xml[1..], path);
    }
  }

  class Config {
    const text: string   // memory from xmlstart on
    var ploc: nat
    var hlen: nat
    var depth: int
    var rootTag: string
    var xml: seq<Entry>
    var xmlsize: nat

    constructor (text: string)
      ensures this.text == text
    {
      this.text := text;
      ploc, hlen, depth, rootTag, xml, xmlsize := 0, 0, 0, "", [], 0;
    }

    function View(): State
      reads this
    {
      State(ploc, depth, rootTag, xml)
    }

    method SkipWhite()
      modifies this`ploc
      ensures ploc == Skip(text, old(ploc))
    {
      while ploc < |text| && Skippable(text[ploc])
        invariant Skip(text, ploc) == Skip(text, old(ploc))
        decreases |text| - ploc
      {
        ploc := ploc + 1;
      }
    }

    method SeekTo(c: char)
      modifies this`ploc
      ensures ploc == Until(text, old(ploc), c)
    {
      while ploc < |text| && text[ploc] != c
        invariant Until(text, ploc, c) == Until(text, old(ploc), c)
        decreases |text| - ploc
      {
        ploc := ploc + 1;
      }
    }

    // xml_header
    method Header() returns (ok: bool)
      modifies this`ploc, this`hlen
      ensures ok == HeaderOk(text)
      ensures ok ==> ploc == hlen == HeaderEnd(text)
    {
      hide Skip, Until;
      ploc := 0;
      SkipWhite();
      if At(text, ploc) == '<' {
        ploc := ploc + 1;
        if At(text, ploc) != '?' {
          return false;
        }
        ploc := ploc + 1;
        SeekTo('?');
        ploc := ploc + 1;
        if At(text, ploc) != '>' {
          return false;
        }
        ploc := ploc + 1;
      }
      hlen := ploc;
      ok := true;
    }

    // add_to_xml
    method AddToXml(sym: string, val: string)
      modifies this`xml
      ensures xml == old(xml) + [NewEntry(ploc, sym, val)]
    {
      xml := xml + [NewEntry(ploc, sym, val)];
    }

    // One turn of the loop of xml_parse.
    method Turn()
      modifies this`ploc, this`depth, this`rootTag, this`xml
      ensures View() == Step(text, old(View()))
    {
      hide Skip, Step;
      StepSkips(text, View());
      SkipWhite();
      if At(text, ploc) == '<' {
        ReadMark();
      }
    }

    // A comment, a closing tag or an element.
    method ReadMark()
      requires ploc == Skip(text, ploc) && At(text, ploc) == '<'
      modifies this`ploc, this`depth, this`rootTag, this`xml
      ensures View() == Step(text, old(View()))
    {
      hide Skip, Until, NameEnd, CommentEnd, Append, Shrink, NewEntry, AfterTag;
      ploc := ploc + 1;
      if At(text, ploc) == '!' {
        SeekCommentEnd();
        ploc := ploc + 3;
      } else if At(text, ploc) == '/' {
        SeekTo('>');
        ploc := ploc + 1;
        depth := depth - 1;
        rootTag := Shrink(rootTag);
      } else {
        ReadTag();
      }
    }

    method SeekCommentEnd()
      modifies this`ploc
      ensures ploc == CommentEnd(text, old(ploc))
    {
      while ploc < |text| && !(At(text, ploc) == '-' && At(text, ploc + 1) == '-' && At(text, ploc + 2) == '>')
        invariant CommentEnd(text, ploc) == CommentEnd(text, old(ploc))
        decreases |text| - ploc
      {
        ploc := ploc + 1;
      }
    }

    // A name, up to its '>' or in short form, and what stands behind the tag.
    method ReadTag()
      requires ploc > 0 && ploc - 1 == Skip(text, ploc - 1) && At(text, ploc - 1) == '<'
      requires At(text, ploc) != '!' && At(text, ploc) != '/'
      modifies this`ploc, this`depth, this`rootTag, this`xml
      ensures View() == Step(text, old(State(ploc - 1, depth, rootTag, xml)))
    {
      hide Skip, Until, CommentEnd, Append, Shrink, NewEntry, AfterTag;
      var start := ploc;
      SeekNameEnd();
      if At(text, ploc) != '>' {
        var symbol := Sub(text, start, ploc + 1);
        ploc := ploc + 2;
        AddToXml(Append(rootTag, symbol), "");
        rootTag := Shrink(Append(rootTag, symbol));
        ReadContent(symbol, true);
      } else {
        var symbol := Sub(text, start, ploc);
        ReadContent(symbol, false);
      }
    }

    method SeekNameEnd()
      modifies this`ploc
      ensures ploc == NameEnd(text, old(ploc))
    {
      while ploc < |text| && text[ploc] != '>' && !ShortHere(text, ploc)
        invariant NameEnd(text, ploc) == NameEnd(text, old(ploc))
        decreases |text| - ploc
      {
        ploc := ploc + 1;
      }
    }

    // What follows the '>' of an opening tag.
    method ReadContent(symbol: string, short: bool)
      modifies this`ploc, this`depth, this`rootTag, this`xml
      ensures View() == AfterTag(text, old(View()), symbol, short)
    {
      hide Skip, Until, CommentEnd, Append, Shrink, NewEntry;
      ploc := ploc + 1;
      if At(text, ploc) == '<' {
        ploc := ploc + 1;
        SeekTo('>');
        ploc := ploc + 1;
        AddToXml(Append(rootTag, symbol), "");
        rootTag := Shrink(Append(rootTag, symbol));
      } else {
        SkipWhite();
        if !short {
          depth := depth + 1;
          if At(text, ploc) == '<' {
            rootTag := Append(rootTag, symbol);
          } else {
            var start := ploc;
            ploc := ploc + 1;
            SeekTo('<');
            rootTag := Append(rootTag, symbol);
            AddToXml(rootTag, Sub(text, start, ploc));
          }
        }
      }
    }

    // xml_header and xml_parse, on an accepted document.
    method Parse(ghost d: Doc)
      requires GoodDoc(d) && Holds(text, 0, PrintDoc(d))
      modifies this
      ensures xml == DocEntries(d) && xmlsize == |PrintDoc(d)| && depth == 0
    {
      hide Step, Runs, GoodDoc, PrintDoc, DocEntries, HeaderOk, HeaderEnd, Holds;
      HeaderIs(text, d);
      var ok := Header();
      rootTag, depth, xml := "", 0, [];
      ghost var n := RunDoc(text, d);
      ghost var fin := State(|PrintDoc(d)|, 0, Append("", ROOT), DocEntries(d));
      while true
        invariant n > 0 && Runs(text, View(), fin, n)
        decreases n
      {
        FirstTurn(text, View(), fin, n);
        Turn();
        n := n - 1;
        if depth == 0 {
          break;
        }
      }
      xmlsize := ploc;
    }

    // xml_set
    method Set(path: string, newval: string) returns (r: int)
      modifies this`xml
      ensures var j := FirstPath(old(xml), path);
        && (r == if j < 0 then -1 else 0)
        && xml == if j < 0 then old(xml) else old(xml)[j := old(xml)[j].(newval := NewVal.Set(newval))]
    {
      var p := 0;
      while p < |xml|
        invariant 0 <= p <= |xml| && xml == old(xml)
        invariant forall k :: 0 <= k < p ==> xml[k].path != path
      {
        if xml[p].path == path {
          FirstPathIs(xml, path, p);
          xml := xml[p := xml[p].(newval := NewVal.Set(newval))];
          return 0;
        }
        p := p + 1;
      }
      NoPath(xml, path);
      return -1;
    }

    // xml_write: the text with the first element that has a new value
    // rewritten; 0 when there is none.
    method Write(nmem: array<char>, ghost j: nat) returns (total: int)
      requires xmlsize <= |text| && j <= |xml| && forall k :: 0 <= k < j ==> xml[k].newval.Unset?
      requires j < |xml| ==> xml[j].newval.Set? && InText(xml[j], xmlsize) && Written(xml[j], xmlsize) <= nmem.Length
      modifies this`xml, nmem
      ensures xml == [] ==> total == -1
      ensures old(xml) != [] && j == |old(xml)| ==> total == 0
      ensures j < |old(xml)| ==>
        && 0 <= total <= nmem.Length && xml == old(xml)[j := old(xml)[j].(newval := Unset)]
        && nmem[..total] == Edited(text, xmlsize, old(xml)[j])
    {
      if xml == [] {
        return -1;
      }
      var p := 0;
      while p < |xml| && xml[p].newval.Unset?
        invariant 0 <= p <= j
      {
        p := p + 1;
      }
      if p == |xml| {
        return 0;
      }
      total := Splice(nmem, xml[p]);
      xml := xml[p := xml[p].(newval := Unset)];
    }

    // The three pieces of the new text.
    method Splice(nmem: array<char>, e: Entry) returns (total: nat)
      requires xmlsize <= |text| && e.newval.Set? && InText(e, xmlsize) && Written(e, xmlsize) <= nmem.Length
      modifies nmem
      ensures total <= nmem.Length && nmem[..total] == Edited(text, xmlsize, e)
    {
      var name := LastName(e.path);
      PutText(nmem, 0, text[..e.loc]);
      var buff := PrintLeaf(name, e.newval.text);
      PutText(nmem, e.loc, buff);
      var nmemp := e.loc + |buff|;
      ghost var front := nmem[..nmemp];
      assert front == text[..e.loc] + buff;
      var xlen := 2 * |name| + |e.value| + 5 + e.loc;
      PutText(nmem, nmemp, text[xlen..xmlsize]);
      total := nmemp + (xmlsize - xlen);
      assert nmem[..total] == front + text[xlen..xmlsize];
    }
  }

  method PutText(nmem: array<char>, at: nat, s: string)
    requires at + |s| <= nmem.Length
    modifies nmem
    ensures nmem[at..at + |s|] == s && nmem[..at] == old(nmem[..at])
  {
    forall k | 0 <= k < |s| {
      nmem[at + k] := s[k];
    }
  }

  // The element of e, with the value it was parsed with, lies inside the text.
  predicate InText(e: Entry, size: nat) {
    0 <= e.loc && e.loc + 2 * |LastName(e.path)| + |e.value| + 5 <= size
  }

  // How long the new text is.
  function Written(e: Entry, size: nat): int
    requires e.newval.Set?
  {
    size - |e.value| + |e.newval.text|
  }

  function Edited(t: string, size: nat, e: Entry): string
    requires e.newval.Set? && size <= |t| && InText(e, size)
  {
    var name := LastName(e.path);
    t[..e.loc] + (PrintLeaf(name, e.newval.text) + t[e.loc + 2 * |name| + |e.value| + 5..size])
  }

  lemma FirstTurn(t: string, s: State, fin: State, n: nat)
    requires n > 0 && Runs(t, s, fin, n) && fin.depth == 0
    ensures Runs(t, Step(t, s), fin, n - 1)
    ensures Step(t, s).depth == 0 ==> Step(t, s) == fin
    ensures Step(t, s).depth != 0 ==> n > 1
  {
    hide Step;
  }

  lemma HeaderIs(t: string, d: Doc)
    requires GoodDoc(d) && Holds(t, 0, PrintDoc(d))
    ensures HeaderOk(t) && HeaderEnd(t) == |PrintHeader(d)|
  {
    hide Skip, Until, PrintNode, GoodGap, GoodKids, Holds;
    var j := DocParts(t, d);
    HeaderAt(t, d.lead, d.header);
  }

  lemma HeaderAt(t: string, lead: string, header: string)
    requires Holds(t, 0, lead + ("<?" + (header + "?>"))) && GoodGap(lead) && '?' !in header
    ensures HeaderOk(t) && HeaderEnd(t) == |lead| + |header| + 4
  {
    hide Skip, Until, GoodGap, Holds;
    var i, q := |lead|, "<?" + (header + "?>");
    HoldsParts(t, 0, lead, q);
    CharAt(t, i, q, 0);
    CharAt(t, i, q, 1);
    GapTo(t, 0, lead);
    HoldsParts(t, i, "<?", header + "?>");
    HoldsParts(t, i + 2, header, "?>");
    CharAt(t, i + 2 + |header|, "?>", 0);
    CharAt(t, i + 2 + |header|, "?>", 1);
    UntilIs(t, i + 2, header, '?');
  }

  // Behind leading white space a header is "<?", text without a '?', and "?>".
  ghost predicate HeaderOf(rest: string, header: string) {
    '?' !in header && "<?" + (header + "?>") <= rest
  }

  // A text is accepted exactly when it starts with such a header, or with no
  // '<' at all.
  lemma HeaderExactly(lead: string, rest: string)
    requires GoodGap(lead) && (rest == "" || !Skippable(rest[0]))
    ensures HeaderOk(lead + rest) <==> rest == "" || rest[0] != '<' || exists header :: HeaderOf(rest, header)
    ensures rest == "" || rest[0] != '<' ==> HeaderEnd(lead + rest) == |lead|
    ensures forall header :: HeaderOf(rest, header) ==> HeaderEnd(lead + rest) == |lead| + |header| + 4
  {
    hide Skip, Until, GoodGap, HeaderOf, HeaderOk, HeaderEnd;
    var t := lead + rest;
    forall header | HeaderOf(rest, header)
      ensures HeaderOk(t) && HeaderEnd(t) == |lead| + |header| + 4
    {
      HeaderHeld(lead, rest, header);
    }
    SkipsLead(lead, rest);
    if rest == "" || rest[0] != '<' {
      NoHeader(lead, rest);
    } else if HeaderOk(t) {
      HeaderFound(lead, rest);
    }
  }

  lemma SkipsLead(lead: string, rest: string)
    requires GoodGap(lead) && (rest == "" || !Skippable(rest[0]))
    ensures Skip(lead + rest, 0) == |lead|
  {
    hide GoodGap;
    assert Holds(lead + rest, 0, lead);
    SkipGap(lead + rest, 0, lead);
  }

  lemma NoHeader(lead: string, rest: string)
    requires Skip(lead + rest, 0) == |lead| && (rest == "" || rest[0] != '<')
    ensures HeaderOk(lead + rest) && HeaderEnd(lead + rest) == |lead|
  {
    hide Skip, Until;
  }

  lemma HeaderHeld(lead: string, rest: string, header: string)
    requires GoodGap(lead) && HeaderOf(rest, header)
    ensures HeaderOk(lead + rest) && HeaderEnd(lead + rest) == |lead| + |header| + 4
  {
    hide GoodGap, HeaderOk, HeaderEnd;
    var q := "<?" + (header + "?>");
    assert lead + rest == (lead + q) + rest[|q|..];
    assert Holds(lead + rest, 0, lead + q);
    HeaderAt(lead + rest, lead, header);
  }

  lemma HeaderFound(lead: string, rest: string)
    requires Skip(lead + rest, 0) == |lead| && rest != "" && rest[0] == '<' && HeaderOk(lead + rest)
    ensures exists header :: HeaderOf(rest, header)
  {
    hide Skip, Until;
    var t, i := lead + rest, |lead|;
    var u := UntilFinds(t, i + 2, '?');
    assert rest[1] == t[i + 1] && rest[u - i] == t[u] && rest[u - i + 1] == t[u + 1];
    var header := rest[2..u - i];
    assert header == t[i + 2..u];
    assert rest == "<?" + (header + "?>") + rest[u - i + 2..];
    assert HeaderOf(rest, header);
  }

  lemma UntilFinds(t: string, i: nat, c: char) returns (j: nat)
    requires i <= |t|
    ensures j == Until(t, i, c) && i <= j <= |t| && c !in t[i..j] && (j < |t| ==> t[j] == c)
    decreases |t| - i
  {
    if i == |t| || t[i] == c {
      j := i;
    } else {
      j := UntilFinds(t, i + 1, c);
      assert t[i..j] == [t[i]] + t[i + 1..j];
    }
  }

  // ---------------------------------------------------------- what edits do

  // The document with the value of entry j changed.
  function SetDoc(d: Doc, j: nat, v: string): Doc {
    d.(kids := SetKid(d.kids, j, v))
  }

  // Rewriting the element of entry j gives the document with that one value
  // changed, and all the other entries are what they were.
  lemma EditChangesOne(t: string, d: Doc, j: nat, v: string)
    requires GoodDoc(d) && Holds(t, 0, PrintDoc(d)) && Valued(DocEntries(d), j) && GoodValue(v)
    ensures |PrintDoc(d)| <= |t| && j < |DocEntries(d)| && InText(DocEntries(d)[j], |PrintDoc(d)|)
    ensures Edited(t, |PrintDoc(d)|, DocEntries(d)[j].(newval := NewVal.Set(v))) == PrintDoc(SetDoc(d, j, v))
    ensures GoodDoc(SetDoc(d, j, v))
    ensures OneChanged(DocEntries(d), DocEntries(SetDoc(d, j, v)), j, v, |v| - |DocEntries(d)[j].value|)
  {
    hide Valued, Entries, PrintNode, PrintKids, GoodKids, PrintHeader, OneChanged, GoodValue, KidsChanged, GoodGap,
         Edited, InText;
    var e := DocEntries(d)[j] by { ValuedIn(DocEntries(d), j); }
    var a, name, b := SpliceDoc(d, j, v);
    var size := |PrintDoc(d)|;
    assert t[..size] == PrintDoc(d);
    EditedIs(t, size, e, v, a, name, b);
  }

  lemma EditedIs(t: string, size: nat, e: Entry, v: string, a: string, name: string, b: string)
    requires size <= |t| && t[..size] == a + (PrintLeaf(name, e.value) + b) && |a| == e.loc && LastName(e.path) == name
    ensures InText(e, size) && Edited(t, size, e.(newval := NewVal.Set(v))) == a + (PrintLeaf(name, v) + b)
  {
    var text := PrintLeaf(name, e.value);
    var z := |a| + |text|;
    assert |text| == 2 * |name| + |e.value| + 5;
    hide PrintLeaf;
    assert t[..|a|] == t[..size][..|a|] == a;
    assert t[z..size] == t[..size][z..] == b;
  }

  lemma SpliceDoc(d: Doc, j: nat, v: string) returns (a: string, name: string, b: string)
    requires GoodDoc(d) && Valued(DocEntries(d), j) && GoodValue(v)
    ensures j < |DocEntries(d)|
    ensures PrintDoc(d) == a + (PrintLeaf(name, DocEntries(d)[j].value) + b)
    ensures PrintDoc(SetDoc(d, j, v)) == a + (PrintLeaf(name, v) + b)
    ensures |a| == DocEntries(d)[j].loc && LastName(DocEntries(d)[j].path) == name
    ensures GoodDoc(SetDoc(d, j, v))
    ensures OneChanged(DocEntries(d), DocEntries(SetDoc(d, j, v)), j, v, |v| - |DocEntries(d)[j].value|)
  {
    hide PrintKids, GoodKids, PrintHeader, GoodValue, GoodGap, KidEntries, SetKid;
    RootName(ROOT);
    SameHeader(d, j, v);
    var tag, pos := Below("", ROOT), RootAt(d) + |Open(ROOT)|;
    ValuedIn(DocEntries(d), j);
    ChangeKids(d.kids, tag, pos, j, v);
    a, name, b := SpliceKids(d.kids, tag, pos, j, v);
    var pre := PrintHeader(d) + (d.gap + Open(ROOT));
    Framed(PrintHeader(d), d.gap, Open(ROOT), PrintKids(d.kids), Close(ROOT), a,
      PrintLeaf(name, DocEntries(d)[j].value), b);
    Framed(PrintHeader(d), d.gap, Open(ROOT), PrintKids(SetKid(d.kids, j, v)), Close(ROOT), a, PrintLeaf(name, v), b);
    a, b := pre + a, b + Close(ROOT);
  }

  lemma SameHeader(d: Doc, j: nat, v: string)
    ensures PrintHeader(SetDoc(d, j, v)) == PrintHeader(d)
  {
  }

  // What stands around the contents of the root.
  lemma Framed(header: string, gap: string, open: string, t: string, close: string, a: string, m: string, b: string)
    requires t == a + (m + b)
    ensures header + (gap + (open + (t + close))) == (header + (gap + open) + a) + (m + (b + close))
  {
  }

  // Parse, set and write: the text that comes out is the document with one
  // value changed, and it parses to the same list with that value changed.
  method Edit(text: string, ghost d: Doc, path: string, newval: string, nmem: array<char>, ghost j: nat)
    returns (total: int, again: Config)
    requires GoodDoc(d) && Holds(text, 0, PrintDoc(d))
    requires FirstPath(DocEntries(d), path) == j && Valued(DocEntries(d), j) && GoodValue(newval)
    requires |PrintDoc(SetDoc(d, j, newval))| <= nmem.Length
    modifies nmem
    ensures 0 <= total <= nmem.Length && nmem[..total] == PrintDoc(SetDoc(d, j, newval))
    ensures again.xml == DocEntries(SetDoc(d, j, newval))
    ensures OneChanged(DocEntries(d), again.xml, j, newval, |newval| - |DocEntries(d)[j].value|)
  {
    hide GoodDoc, PrintDoc, DocEntries, OneChanged, Valued, GoodValue, Edited, Holds, SetDoc, InText;
    EditChangesOne(text, d, j, newval);
    EditedLen(text, |PrintDoc(d)|, DocEntries(d)[j], newval);
    NothingSet(d);
    var cfg := new Config(text);
    cfg.Parse(d);
    var r := cfg.Set(path, newval);
    total := cfg.Write(nmem, j);
    again := new Config(nmem[..total]);
    WholeText(PrintDoc(SetDoc(d, j, newval)));
    again.Parse(SetDoc(d, j, newval));
  }

  lemma WholeText(t: string)
    ensures Holds(t, 0, t)
  {
  }

  lemma EditedLen(t: string, size: nat, e: Entry, v: string)
    requires size <= |t| && InText(e, size)
    ensures |Edited(t, size, e.(newval := NewVal.Set(v)))| == size - |e.value| + |v|
    ensures InText(e.(newval := NewVal.Set(v)), size)
  {
  }

  // A fresh list has no new values.
  lemma NothingSet(d: Doc)
    ensures forall k :: 0 <= k < |DocEntries(d)| ==> DocEntries(d)[k].newval.Unset?
  {
    hide Entries;
    NodeUnset(Block(ROOT, d.kids), "", RootAt(d));
  }

  lemma NodeUnset(x: Node, tag: string, pos: int)
    ensures forall k :: 0 <= k < |Entries(x, tag, pos)| ==> Entries(x, tag, pos)[k].newval.Unset?
  {
    match x
    case Block(name, kids) => KidsUnset(kids, Below(tag, name), pos + |Open(name)|);
    case _ =>
  }

  lemma KidsUnset(k: Kids, tag: string, pos: int)
    ensures forall i :: 0 <= i < |KidEntries(k, tag, pos)| ==> KidEntries(k, tag, pos)[i].newval.Unset?
  {
    match k
    case End(gap) =>
    case More(gap, x, rest) =>
      NodeUnset(x, tag, pos + |gap|);
      KidsUnset(rest, tag, pos + |gap| + |PrintNode(x)|);
  }
}
