/** Issue bodies as lists of `## ` sections: parsing, printing, and inserting or replacing a section. */
module SectionedMarkdown {
  import opened Outcomes
  import opened Text

  /** The text before the first heading is the section without a heading. */
  datatype Section = Section(heading: Option<string>, content: string)

  predicate IsHeading(line: string)
  {
    "## " <= line
  }

  // ---------- parsing and printing, as functions ----------

  /** The sections of the remaining lines, when `heading` and `current` are what is being collected. */
  function Gather(lines: seq<string>, heading: Option<string>, current: seq<string>): (r: seq<Section>)
    ensures r != []
  {
    if lines == [] then [Section(heading, Join(current, "\n"))]
    else if IsHeading(lines[0]) then [Section(heading, Join(current, "\n"))] + Gather(lines[1..], Some(lines[0]), [])
    else Gather(lines[1..], heading, current + [lines[0]])
  }

  function DropEmptyLead(ss: seq<Section>): seq<Section>
  {
    if ss != [] && ss[0] == Section(None, "") then ss[1..] else ss
  }

  function Parse(body: string): seq<Section>
  {
    DropEmptyLead(Gather(Lines(body), None, []))
  }

  function Parts(ss: seq<Section>): seq<string>
  {
    if ss == [] then []
    else
      var stripped := Strip(ss[0].content);
      (if ss[0].heading.None? then (if stripped != "" then [stripped] else [])
       else [PrintedHead(ss[0].heading.value, stripped)]) + Parts(ss[1..])
  }

  function PrintedHead(heading: string, stripped: string): string
  {
    heading + if stripped != "" then "\n\n" + stripped else ""
  }

  function Render(ss: seq<Section>): string
  {
    Join(Parts(ss), "\n\n")
  }

  // ---------- what parsing yields ----------

  /** No line of s after the first one is a heading. */
  predicate NoInner(s: string)
  {
    forall i :: 0 <= i < |s| && s[i] == '\n' ==> !IsHeading(s[i + 1..])
  }

  predicate PlainLine(l: string)
  {
    OneLine(l) && !IsHeading(l)
  }

  predicate ShapedSection(s: Section)
  {
    && (s.heading.Some? ==> IsHeading(s.heading.value) && OneLine(s.heading.value))
    && NoInner(s.content) && !IsHeading(s.content)
  }

  /** What the parser guarantees of its sections: only the first one may lack a heading,
      headings are single lines, contents hold no heading line. */
  predicate Shaped(ss: seq<Section>)
  {
    forall i :: 0 <= i < |ss| ==> (ss[i].heading.None? ==> i == 0) && ShapedSection(ss[i])
  }

  lemma PlainPrepend(l: string, rest: string)
    requires PlainLine(l) && NoInner(rest) && !IsHeading(rest)
    ensures NoInner(l + "\n" + rest) && !IsHeading(l + "\n" + rest)
  {
    var s := l + "\n" + rest;
    assert forall j :: 0 <= j < |l| ==> s[j] == l[j] && l[j] in l;
    forall i | 0 <= i < |s| && s[i] == '\n'
      ensures !IsHeading(s[i + 1..])
    {
      assert s[i + 1..] == rest[i - |l|..];
      if i > |l| {
        assert rest[i - |l| - 1] == s[i];
      }
    }
    assert s[|l|] == '\n';
    if |l| >= 3 {
      assert s[..3] == l[..3];
    }
  }

  lemma {:induction false} JoinIsPlain(ls: seq<string>)
    requires forall l :: l in ls ==> PlainLine(l)
    ensures NoInner(Join(ls, "\n")) && !IsHeading(Join(ls, "\n"))
  {
    if |ls| == 1 {
      assert PlainLine(ls[0]);
      assert forall i :: 0 <= i < |ls[0]| ==> ls[0][i] in ls[0];
    } else if |ls| > 1 {
      JoinIsPlain(ls[1..]);
      PlainPrepend(ls[0], Join(ls[1..], "\n"));
    }
  }

  lemma {:induction false} GatherShape(lines: seq<string>, heading: Option<string>, current: seq<string>)
    requires forall l :: l in lines ==> OneLine(l)
    requires forall l :: l in current ==> PlainLine(l)
    requires heading.Some? ==> IsHeading(heading.value) && OneLine(heading.value)
    ensures Shaped(Gather(lines, heading, current))
    ensures Gather(lines, heading, current)[0].heading == heading
  {
    JoinIsPlain(current);
    if lines != [] {
      assert lines[0] in lines;
      if IsHeading(lines[0]) {
        GatherShape(lines[1..], Some(lines[0]), []);
      } else {
        GatherShape(lines[1..], heading, current + [lines[0]]);
      }
    }
  }

  lemma ParseShape(body: string)
    ensures Shaped(Parse(body))
  {
    LinesAreOneLine(body);
    GatherShape(Lines(body), None, []);
  }

  // ---------- parsing what was printed ----------

  /** Nothing but the headings and the stripped contents matters to the printer. */
  predicate Similar(a: seq<Section>, b: seq<Section>)
  {
    && |a| == |b|
    && forall i :: 0 <= i < |a| ==> a[i].heading == b[i].heading && Strip(a[i].content) == Strip(b[i].content)
  }

  lemma {:induction false} SimilarRender(a: seq<Section>, b: seq<Section>)
    requires Similar(a, b)
    ensures Parts(a) == Parts(b) && Render(a) == Render(b)
  {
    if a != [] {
      assert a[0].heading == b[0].heading && Strip(a[0].content) == Strip(b[0].content);
      assert Similar(a[1..], b[1..]);
      SimilarRender(a[1..], b[1..]);
    }
  }

  /** The text of a section does not begin, after white space, with a heading. */
  predicate NoHidden(ss: seq<Section>)
  {
    forall i :: 0 <= i < |ss| ==> !IsHeading(Strip(ss[i].content))
  }

  predicate NoBlankLead(ss: seq<Section>)
  {
    forall i :: 0 <= i < |ss| && ss[i].heading.None? ==> Strip(ss[i].content) != ""
  }

  lemma LinesGlued(a: string, b: string)
    ensures Lines(a + "\n\n" + b) == Lines(a) + [""] + Lines(b)
  {
    LinesAppend(a, "\n" + b);
    LinesAppend("", b);
    assert a + "\n\n" + b == a + "\n" + ("\n" + b);
    assert "" + "\n" + b == "\n" + b;
  }

  lemma {:induction false} FirstLineIsPrefix(s: string)
    ensures Lines(s)[0] <= s
  {
    if s != [] && s[0] != '\n' {
      FirstLineIsPrefix(s[1..]);
    }
  }

  lemma {:induction false} LaterLinesPlain(s: string)
    requires NoInner(s)
    ensures forall i :: 0 < i < |Lines(s)| ==> PlainLine(Lines(s)[i])
  {
    if s != [] {
      assert NoInner(s[1..]) by {
        assert forall i :: 0 <= i < |s[1..]| ==> s[1..][i] == s[i + 1] && s[1..][i + 1..] == s[i + 2..];
      }
      LaterLinesPlain(s[1..]);
      LinesAreOneLine(s[1..]);
      var rest := Lines(s[1..]);
      if s[0] == '\n' {
        assert s[0 + 1..] == s[1..];
        FirstLineIsPrefix(s[1..]);
        assert OneLine(rest[0]) && !IsHeading(rest[0]);
        assert Lines(s) == [""] + rest;
      } else {
        assert Lines(s)[1..] == rest[1..];
      }
    }
  }

  lemma AllLinesPlain(s: string)
    requires NoInner(s) && !IsHeading(s)
    ensures forall l :: l in Lines(s) ==> PlainLine(l)
  {
    LaterLinesPlain(s);
    FirstLineIsPrefix(s);
    LinesAreOneLine(s);
  }

  lemma StripNoInner(s: string)
    requires NoInner(s)
    ensures NoInner(Strip(s))
  {
    var a, b := StripIsStretch(s);
    var t := Strip(s);
    forall i | 0 <= i < |t| && t[i] == '\n'
      ensures !IsHeading(t[i + 1..])
    {
      assert s[a + i] == '\n';
      assert t[i + 1..] <= s[a + i + 1..];
    }
  }

  lemma {:induction false} GatherPlain(lines: seq<string>, rest: seq<string>, heading: Option<string>, current: seq<string>)
    requires forall l :: l in lines ==> PlainLine(l)
    ensures Gather(lines + rest, heading, current) == Gather(rest, heading, current + lines)
  {
    if lines == [] {
      assert lines + rest == rest && current + lines == current;
    } else {
      assert lines[0] in lines;
      GatherPlain(lines[1..], rest, heading, current + [lines[0]]);
      assert (lines + rest)[1..] == lines[1..] + rest;
      assert current + [lines[0]] + lines[1..] == current + lines;
    }
  }

  /** The lines printed under a heading, with the empty line that sets off the next section. */
  function Under(content: string, last: bool): seq<string>
  {
    (if Strip(content) != "" then [""] + Lines(Strip(content)) else []) + (if last then [] else [""])
  }

  lemma UnderText(content: string, last: bool)
    requires Strip(content) != ""
    ensures Join(Under(content, last), "\n") == "\n" + Strip(content) + if last then "" else "\n"
  {
    var t := Strip(content);
    var lines := [""] + Lines(t);
    JoinOfLines(t);
    JoinAppend([""], Lines(t), "\n");
    assert Join(lines, "\n") == "\n" + t;
    if last {
      assert Under(content, last) == lines;
    } else {
      JoinAppend(lines, [""], "\n");
      assert Under(content, last) == lines + [""];
    }
  }

  lemma UnderStrips(content: string, last: bool)
    ensures Strip(Join(Under(content, last), "\n")) == Strip(content)
  {
    StripTrims(content);
    if Strip(content) != "" {
      UnderText(content, last);
      StripPadded("\n", Strip(content), if last then "" else "\n");
    }
  }

  lemma UnderPlain(content: string, last: bool)
    requires NoInner(content) && !IsHeading(Strip(content))
    ensures forall l :: l in Under(content, last) ==> PlainLine(l)
  {
    StripNoInner(content);
    AllLinesPlain(Strip(content));
  }

  /** The sections found when the printed form of ss is parsed. */
  function Relaid(ss: seq<Section>): seq<Section>
  {
    if ss == [] then []
    else [Section(ss[0].heading, Join(Under(ss[0].content, |ss| == 1), "\n"))] + Relaid(ss[1..])
  }

  lemma {:induction false} RelaidSimilar(ss: seq<Section>)
    requires Shaped(ss) && NoHidden(ss)
    ensures Similar(Relaid(ss), ss)
  {
    if ss != [] {
      UnderStrips(ss[0].content, |ss| == 1);
      ShapedTail(ss);
      RelaidSimilar(ss[1..]);
    }
  }

  lemma ShapedTail(ss: seq<Section>)
    requires Shaped(ss) && NoHidden(ss) && ss != []
    ensures Shaped(ss[1..]) && NoHidden(ss[1..])
    ensures forall i :: 0 <= i < |ss[1..]| ==> ss[1..][i].heading.Some?
  {
    assert forall i :: 0 <= i < |ss[1..]| ==> ss[1..][i] == ss[i + 1];
  }

  predicate Headed(ss: seq<Section>)
  {
    forall i :: 0 <= i < |ss| ==> ss[i].heading.Some?
  }

  lemma {:induction false} PartsOfHeaded(ss: seq<Section>)
    requires Headed(ss)
    ensures |Parts(ss)| == |ss|
  {
    if ss != [] {
      PartsOfHeaded(ss[1..]);
    }
  }

  lemma PrintedHeadLines(h: string, content: string)
    requires OneLine(h)
    ensures Lines(PrintedHead(h, Strip(content))) == [h] + Under(content, true)
  {
    LinesOneLine(h);
    var t := Strip(content);
    if t != "" {
      LinesGlued(h, t);
      assert h + "\n\n" + t == PrintedHead(h, t);
    } else {
      assert PrintedHead(h, t) == h;
    }
  }

  lemma RenderSteps(ss: seq<Section>)
    requires ss != [] && Headed(ss)
    ensures Render(ss) == PrintedHead(ss[0].heading.value, Strip(ss[0].content)) + if |ss| == 1 then "" else "\n\n" + Render(ss[1..])
  {
    PartsOfHeaded(ss[1..]);
    var first := PrintedHead(ss[0].heading.value, Strip(ss[0].content));
    assert Parts(ss) == [first] + Parts(ss[1..]);
    assert Parts(ss)[1..] == Parts(ss[1..]);
  }

  lemma UnderNotLast(content: string)
    ensures Under(content, false) == Under(content, true) + [""]
  {
  }

  /** The printed lines: heading, what is under it, and then the next section's. */
  lemma RenderLines(ss: seq<Section>)
    requires ss != [] && Headed(ss) && OneLine(ss[0].heading.value)
    ensures Lines(Render(ss)) ==
            [ss[0].heading.value] + (Under(ss[0].content, |ss| == 1) + if |ss| == 1 then [] else Lines(Render(ss[1..])))
  {
    var content := ss[0].content;
    var first := PrintedHead(ss[0].heading.value, Strip(content));
    RenderSteps(ss);
    PrintedHeadLines(ss[0].heading.value, content);
    if |ss| > 1 {
      var rest := Render(ss[1..]);
      LinesGlued(first, rest);
      Assoc(first, "\n\n", rest);
      UnderNotLast(content);
      Assoc([ss[0].heading.value], Under(content, true), [""]);
      Assoc([ss[0].heading.value], Under(content, false), Lines(rest));
    } else {
      assert Render(ss) == first;
    }
  }

  lemma GatherUnder(h: string, under: seq<string>, rest: seq<string>, heading: Option<string>, current: seq<string>)
    requires IsHeading(h) && forall l :: l in under ==> PlainLine(l)
    ensures Gather([h] + (under + rest), heading, current) == [Section(heading, Join(current, "\n"))] + Gather(rest, Some(h), under)
  {
    GatherPlain(under, rest, Some(h), []);
    assert ([h] + (under + rest))[1..] == under + rest;
    assert [] + under == under;
  }

  lemma {:induction false} GatherRendered(ss: seq<Section>, heading: Option<string>, current: seq<string>)
    requires ss != [] && Headed(ss) && Shaped(ss) && NoHidden(ss)
    ensures Gather(Lines(Render(ss)), heading, current) == [Section(heading, Join(current, "\n"))] + Relaid(ss)
  {
    RenderLines(ss);
    var h, under := ss[0].heading.value, Under(ss[0].content, |ss| == 1);
    UnderPlain(ss[0].content, |ss| == 1);
    GatherUnder(h, under, if |ss| == 1 then [] else Lines(Render(ss[1..])), heading, current);
    if |ss| > 1 {
      ShapedTail(ss);
      GatherRendered(ss[1..], Some(h), under);
    }
  }

  lemma LoneTextParses(content: string)
    requires NoInner(content) && !IsHeading(Strip(content)) && Strip(content) != ""
    ensures Parse(Strip(content)) == [Section(None, Strip(content))]
  {
    var t := Strip(content);
    StripNoInner(content);
    AllLinesPlain(t);
    JoinOfLines(t);
    GatherPlain(Lines(t), [], None, []);
    assert Lines(t) + [] == Lines(t) && [] + Lines(t) == Lines(t);
  }

  lemma StripAgain(content: string)
    ensures Strip(Strip(content)) == Strip(content) && Strip(Strip(content) + "\n") == Strip(content)
  {
    var t := Strip(content);
    StripTrims(content);
    assert "" + t == t && t + "" == t;
    StripPadded("", t, "");
    StripPadded("", t, "\n");
  }

  lemma LeadTextParses(content: string, tail: seq<Section>)
    requires NoInner(content) && !IsHeading(Strip(content)) && Strip(content) != ""
    requires tail != [] && Headed(tail) && Shaped(tail) && NoHidden(tail)
    ensures Parse(Strip(content) + "\n\n" + Render(tail)) == [Section(None, Strip(content) + "\n")] + Relaid(tail)
  {
    var t := Strip(content);
    var lead := Lines(t) + [""];
    StripNoInner(content);
    AllLinesPlain(t);
    JoinOfLines(t);
    LinesGlued(t, Render(tail));
    GatherPlain(lead, Lines(Render(tail)), None, []);
    assert [] + lead == lead;
    GatherRendered(tail, None, lead);
    JoinAppend(Lines(t), [""], "\n");
    assert Join(lead, "\n") == t + "\n";
  }

  /** Parsing a printed list of sections gives the list back, up to white space around the contents. */
  lemma ParseOfRender(ss: seq<Section>)
    requires Shaped(ss) && NoHidden(ss) && NoBlankLead(ss)
    ensures Similar(Parse(Render(ss)), ss)
  {
    if ss == [] {
      assert Lines("") == [""];
    } else if ss[0].heading.Some? {
      assert Headed(ss);
      GatherRendered(ss, None, []);
      RelaidSimilar(ss);
    } else {
      ParseOfRenderWithLead(ss);
    }
  }

  lemma ParseOfRenderWithLead(ss: seq<Section>)
    requires Shaped(ss) && NoHidden(ss) && NoBlankLead(ss) && ss != [] && ss[0].heading.None?
    ensures Similar(Parse(Render(ss)), ss)
  {
    var content, tail := ss[0].content, ss[1..];
    var t := Strip(content);
    ShapedTail(ss);
    StripAgain(content);
    assert Parts(ss) == [t] + Parts(tail);
    if tail == [] {
      LoneTextParses(content);
    } else {
      PartsOfHeaded(tail);
      assert Parts(ss)[1..] == Parts(tail);
      LeadTextParses(content, tail);
      RelaidSimilar(tail);
      SimilarLead(None, t + "\n", Relaid(tail), ss);
    }
  }

  lemma SimilarLead(heading: Option<string>, content: string, rest: seq<Section>, ss: seq<Section>)
    requires ss != [] && Similar(rest, ss[1..])
    requires heading == ss[0].heading && Strip(content) == Strip(ss[0].content)
    ensures Similar([Section(heading, content)] + rest, ss)
  {
    var all := [Section(heading, content)] + rest;
    forall i | 0 <= i < |ss|
      ensures all[i].heading == ss[i].heading && Strip(all[i].content) == Strip(ss[i].content)
    {
      if i > 0 {
        assert ss[i] == ss[1..][i - 1] && all[i] == rest[i - 1];
      }
    }
  }

  // ---------- the normal form ----------

  /** The sections that the printer shows: a blank text before the first heading is not one of them. */
  function Visible(ss: seq<Section>): seq<Section>
  {
    if ss != [] && ss[0].heading.None? && Strip(ss[0].content) == "" then ss[1..] else ss
  }

  lemma RenderVisible(ss: seq<Section>)
    ensures Render(Visible(ss)) == Render(ss)
  {
    if ss != [] {
      assert [] + Parts(ss[1..]) == Parts(ss[1..]);
    }
  }

  lemma VisibleShape(ss: seq<Section>)
    requires Shaped(ss) && NoHidden(ss)
    ensures Shaped(Visible(ss)) && NoHidden(Visible(ss)) && NoBlankLead(Visible(ss))
  {
    if ss != [] {
      ShapedTail(ss);
    }
  }

  /** What one parse and print leaves, a second parse and print leaves alone. */
  lemma NormalForm(body: string)
    requires NoHidden(Parse(body))
    ensures Render(Parse(Render(Parse(body)))) == Render(Parse(body))
    ensures Similar(Parse(Render(Parse(body))), Visible(Parse(body)))
  {
    var ss := Parse(body);
    ParseShape(body);
    VisibleShape(ss);
    RenderVisible(ss);
    ParseOfRender(Visible(ss));
    SimilarRender(Parse(Render(ss)), Visible(ss));
  }

  // ---------- editing, as functions ----------

  datatype Anchor = Exact(text: string) | Substring(text: string)

  datatype OnMissing = Prepend | Append | Raise

  predicate Contains(s: string, t: string)
  {
    exists i :: 0 <= i <= |s| && t <= s[i..]
  }

  predicate Matches(anchor: Anchor, heading: Option<string>)
  {
    heading.Some? && match anchor case Exact(t) => heading.value == t case Substring(t) => Contains(heading.value, t)
  }

  /** The index of the first section whose heading matches, or -1. */
  function First(ss: seq<Section>, anchor: Anchor): (r: int)
    ensures -1 <= r < |ss|
    ensures r >= 0 ==> Matches(anchor, ss[r].heading)
    ensures forall i :: 0 <= i < (if r >= 0 then r else |ss|) ==> !Matches(anchor, ss[i].heading)
  {
    if ss == [] then -1
    else if Matches(anchor, ss[0].heading) then 0
    else
      var r := First(ss[1..], anchor);
      if r < 0 then -1 else r + 1
  }

  /** The first section with a heading, or -1: every heading contains the empty string. */
  function FirstHeading(ss: seq<Section>): int
  {
    First(ss, Substring(""))
  }

  /** Anchors are tried in order; a later one counts only when no section matches an earlier one. */
  function FindAnchor(ss: seq<Section>, anchors: seq<Anchor>): (r: int)
    ensures -1 <= r < |ss|
  {
    if anchors == [] then -1
    else
      var r := First(ss, anchors[0]);
      if r >= 0 then r else FindAnchor(ss, anchors[1..])
  }

  function Without(ss: seq<Section>, heading: string): seq<Section>
  {
    if ss == [] then []
    else if ss[0].heading == Some(heading) then Without(ss[1..], heading)
    else [ss[0]] + Without(ss[1..], heading)
  }

  function Insert(ss: seq<Section>, i: nat, s: Section): seq<Section>
    requires i <= |ss|
  {
    ss[..i] + [s] + ss[i..]
  }

  /** Where a section goes among the others, or nowhere. */
  function Place(ss: seq<Section>, anchors: seq<Anchor>, after: bool, onMissing: OnMissing): (r: Option<nat>)
    ensures r.Some? ==> r.value <= |ss|
    ensures r.None? ==> onMissing == Raise && FindAnchor(ss, anchors) == -1
  {
    var i := FindAnchor(ss, anchors);
    if i >= 0 then Some(if after then i + 1 else i)
    else match onMissing
      case Prepend => Some(if FirstHeading(ss) > 0 then FirstHeading(ss) else 0)
      case Append => Some(|ss|)
      case Raise => None
  }

  /** The sections after an upsert: the old section of that heading is gone even when no place was found. */
  function Upserted(ss: seq<Section>, s: Section, anchors: seq<Anchor>, after: bool, onMissing: OnMissing): seq<Section>
    requires s.heading.Some?
  {
    var others := Without(ss, s.heading.value);
    match Place(others, anchors, after, onMissing)
    case Some(i) => Insert(others, i, s)
    case None => others
  }

  // ---------- the body object ----------

  method SplitSections(body: string) returns (sections: seq<Section>)
    ensures sections == Parse(body)
  {
    sections := [];
    var heading: Option<string> := None;
    var current: seq<string> := [];
    var lines := Lines(body);
    var i := 0;
    while i < |lines|
      invariant 0 <= i <= |lines|
      invariant sections + Gather(lines[i..], heading, current) == Gather(lines, None, [])
    {
      if IsHeading(lines[i]) {
        sections := sections + [Section(heading, Join(current, "\n"))];
        heading, current := Some(lines[i]), [];
      } else {
        current := current + [lines[i]];
      }
      assert lines[i..][1..] == lines[i + 1..];
      i := i + 1;
    }
    sections := sections + [Section(heading, Join(current, "\n"))];
    if sections != [] && sections[0] == Section(None, "") {
      sections := sections[1..];
    }
  }

  lemma PartTaken(before: seq<string>, ss: seq<Section>, i: nat)
    requires i < |ss|
    ensures
      var stripped, rest := Strip(ss[i].content), Parts(ss[i + 1..]);
      before + Parts(ss[i..]) ==
      if ss[i].heading.Some? then before + [PrintedHead(ss[i].heading.value, stripped)] + rest
      else if stripped != "" then before + [stripped] + rest else before + rest
  {
    var stripped, rest := Strip(ss[i].content), Parts(ss[i + 1..]);
    assert ss[i..][0] == ss[i] && ss[i..][1..] == ss[i + 1..];
    if ss[i].heading.Some? {
      Assoc(before, [PrintedHead(ss[i].heading.value, stripped)], rest);
    } else if stripped != "" {
      Assoc(before, [stripped], rest);
    } else {
      assert [] + rest == rest;
    }
  }

  method PrintSections(sections: seq<Section>) returns (text: string)
    ensures text == Render(sections)
  {
    var parts: seq<string> := [];
    var i := 0;
    while i < |sections|
      invariant 0 <= i <= |sections|
      invariant parts + Parts(sections[i..]) == Parts(sections)
    {
      PartTaken(parts, sections, i);
      var stripped := Strip(sections[i].content);
      if sections[i].heading.Some? {
        parts := parts + [PrintedHead(sections[i].heading.value, stripped)];
      } else if stripped != "" {
        parts := parts + [stripped];
      }
      i := i + 1;
    }
    assert parts + [] == parts;
    text := Join(parts, "\n\n");
  }

  lemma {:induction false} WithoutAppend(a: seq<Section>, b: seq<Section>, heading: string)
    ensures Without(a + b, heading) == Without(a, heading) + Without(b, heading)
  {
    if a == [] {
      assert a + b == b;
    } else {
      WithoutAppend(a[1..], b, heading);
      assert (a + b)[1..] == a[1..] + b && (a + b)[0] == a[0];
      var x, y := Without(a[1..], heading), Without(b, heading);
      assert [a[0]] + (x + y) == [a[0]] + x + y;
    }
  }

  lemma WithoutOne(s: Section, heading: string)
    ensures Without([s], heading) == if s.heading == Some(heading) then [] else [s]
  {
    assert Without([s][1..], heading) == [];
  }

  class SectionedMarkdownBody {
    var sections: seq<Section>

    constructor (body: string)
      ensures sections == Parse(body)
    {
      new;
      sections := SplitSections(body);
    }

    method FindAnchorIndex(anchors: seq<Anchor>) returns (index: int)
      ensures index == FindAnchor(sections, anchors)
    {
      var a := 0;
      while a < |anchors|
        invariant 0 <= a <= |anchors|
        invariant FindAnchor(sections, anchors) == FindAnchor(sections, anchors[a..])
      {
        var i := 0;
        while i < |sections|
          invariant 0 <= i <= |sections|
          invariant forall j :: 0 <= j < i ==> !Matches(anchors[a], sections[j].heading)
        {
          if Matches(anchors[a], sections[i].heading) {
            return i;
          }
          i := i + 1;
        }
        assert anchors[a..][1..] == anchors[a + 1..];
        a := a + 1;
      }
      return -1;
    }

    method FirstHeadingIndex() returns (index: int)
      ensures index == FirstHeading(sections)
    {
      var i := 0;
      while i < |sections|
        invariant 0 <= i <= |sections|
        invariant forall j :: 0 <= j < i ==> sections[j].heading.None?
      {
        if sections[i].heading.Some? {
          assert "" <= sections[i].heading.value[0..];
          return i;
        }
        i := i + 1;
      }
      return -1;
    }

    method RemoveHeading(heading: string)
      modifies this
      ensures sections == Without(old(sections), heading)
    {
      var kept: seq<Section> := [];
      var i := 0;
      while i < |sections|
        invariant 0 <= i <= |sections| && sections == old(sections)
        invariant kept == Without(sections[..i], heading)
      {
        WithoutAppend(sections[..i], [sections[i]], heading);
        WithoutOne(sections[i], heading);
        assert sections[..i + 1] == sections[..i] + [sections[i]];
        if sections[i].heading != Some(heading) {
          kept := kept + [sections[i]];
        }
        i := i + 1;
      }
      assert sections[..i] == sections;
      sections := kept;
    }

    /** Not ok is the error for a missing anchor; the old section has been removed by then. */
    method UpsertBefore(heading: string, content: string, anchors: seq<Anchor>, onMissing: OnMissing) returns (ok: bool)
      modifies this
      ensures sections == Upserted(old(sections), Section(Some(heading), content), anchors, false, onMissing)
      ensures ok == Place(Without(old(sections), heading), anchors, false, onMissing).Some?
    {
      ok := Upsert(heading, content, anchors, false, onMissing);
    }

    method UpsertAfter(heading: string, content: string, anchors: seq<Anchor>, onMissing: OnMissing) returns (ok: bool)
      modifies this
      ensures sections == Upserted(old(sections), Section(Some(heading), content), anchors, true, onMissing)
      ensures ok == Place(Without(old(sections), heading), anchors, true, onMissing).Some?
    {
      ok := Upsert(heading, content, anchors, true, onMissing);
    }

    method Upsert(heading: string, content: string, anchors: seq<Anchor>, after: bool, onMissing: OnMissing) returns (ok: bool)
      modifies this
      ensures sections == Upserted(old(sections), Section(Some(heading), content), anchors, after, onMissing)
      ensures ok == Place(Without(old(sections), heading), anchors, after, onMissing).Some?
    {
      RemoveHeading(heading);
      var i := FindAnchorIndex(anchors);
      var section := Section(Some(heading), content);
      if i >= 0 {
        var at := if after then i + 1 else i;
        sections := sections[..at] + [section] + sections[at..];
      } else {
        match onMissing {
          case Prepend =>
            var first := FirstHeadingIndex();
            var at := if first > 0 then first else 0;
            sections := sections[..at] + [section] + sections[at..];
          case Append =>
            sections := sections + [section];
          case Raise =>
            return false;
        }
      }
      return true;
    }

    method Show() returns (text: string)
      ensures text == Render(sections)
    {
      text := PrintSections(sections);
    }
  }
}
