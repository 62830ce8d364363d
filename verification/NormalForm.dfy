/** When printing a parsed body is a normal form, for all bodies: also for those in which the text of a section begins,
    after white space, with a heading, so that the second parse finds a section more. */
module NormalForm {
  import opened Outcomes
  import opened Text
  import opened SectionedMarkdown
  import opened TicketBody

  /** A stripped text that begins with a heading is that line alone, or an empty line and then a line that begins at once follow. */
  predicate SetOff(t: string)
  {
    IsHeading(t) ==>
      var lines := Lines(t);
      |lines| == 1 || (|lines| > 2 && lines[1] == "" && lines[2] != "" && !IsSpace(lines[2][0]))
  }

  /** The text after the first line. */
  function Rest(t: string): string
  {
    Join(Lines(t)[1..], "\n")
  }

  /** What the second print makes of a stripped text. */
  function Again(t: string): string
  {
    if IsHeading(t) then PrintedHead(Lines(t)[0], Strip(Rest(t))) else t
  }

  // ---------- one text ----------

  lemma StripEnd(r: string)
    ensures Strip(r + "\n") == Strip(r)
  {
    var k := LStripSuffix(r);
    if LStrip(r) == [] {
      assert r[..k] == r && Blank(r + "\n");
      LStripBlank(r + "\n", []);
    } else {
      LStripMore(r[..k], r[k..] + "\n");
      assert r + "\n" == r[..k] + (r[k..] + "\n");
      assert (r[k..] + "\n")[..|r[k..]|] == r[k..];
    }
  }

  lemma FirstLineBegins(s: string)
    requires s != [] && s[0] != '\n'
    ensures Lines(s)[0] != "" && Lines(s)[0][0] == s[0]
  {
  }

  lemma BlankAt(s: string, k: nat)
    requires k <= |s| && Blank(s[..k])
    ensures forall j :: 0 <= j < k ==> IsSpace(s[j])
  {
    assert forall j :: 0 <= j < k ==> s[..k][j] == s[j] && s[..k][j] in s[..k];
  }

  lemma LastOf(head: string, r: string)
    ensures (head + "\n" + r)[|head| + |r|] == if r == [] then '\n' else r[|r| - 1]
  {
  }

  /** Where a trimmed text of several lines goes on: white space, then a text that begins at once. */
  lemma RestOf(t: string) returns (k: nat)
    requires Trimmed(t) && |Lines(t)| > 1
    ensures t == Lines(t)[0] + "\n" + Rest(t) && Lines(Rest(t)) == Lines(t)[1..]
    ensures k < |Rest(t)| && Blank(Rest(t)[..k]) && !IsSpace(Rest(t)[k]) && Strip(Rest(t)) == Rest(t)[k..]
  {
    JoinOfLines(t);
    LinesAreOneLine(t);
    LinesOfJoin(Lines(t)[1..]);
    LastOf(Lines(t)[0], Rest(t));
    k := StripsInFront(Rest(t));
  }

  lemma StripsInFront(r: string) returns (k: nat)
    requires r != [] && !IsSpace(r[|r| - 1])
    ensures k < |r| && Blank(r[..k]) && !IsSpace(r[k]) && Strip(r) == r[k..]
  {
    k := LStripSuffix(r);
    BlankAt(r, k);
  }

  lemma SetOffMeans(t: string, k: nat)
    requires IsHeading(t) && |Lines(t)| > 1 && Lines(Rest(t)) == Lines(t)[1..]
    requires k < |Rest(t)| && Blank(Rest(t)[..k]) && !IsSpace(Rest(t)[k])
    ensures SetOff(t) <==> k == 1 && Rest(t)[0] == '\n'
  {
    var r := Rest(t);
    BlankAt(r, k);
    if k == 1 && r[0] == '\n' {
      FirstLineBegins(r[1..]);
    }
    if SetOff(t) {
      assert Lines(r)[0] == "" && r[0] == '\n';
      assert Lines(r[1..])[0] == Lines(t)[2];
      assert r[1] == Lines(t)[2][0];
    }
  }

  /** A rest that is set off is put back as it was, and another one is not, whatever follows. */
  lemma RestPutBack(r: string, k: nat, x: string, y: string)
    requires k < |r| && Blank(r[..k]) && !IsSpace(r[k])
    ensures r + x == "\n" + r[k..] + y <==> k == 1 && r[0] == '\n' && x == y
  {
    var a, b := r + x, "\n" + r[k..] + y;
    if k == 1 && r[0] == '\n' {
      assert r == "\n" + r[1..];
      assert a[|r|..] == x && b[|r|..] == y;
    } else if k > 0 && r[0] == '\n' {
      BlankAt(r, k);
      assert a[1] == r[1] && b[1] == r[k];
    } else {
      assert a[0] == r[0] && b[0] == '\n';
    }
  }

  lemma Cancel(pre: string, a: string, b: string)
    ensures pre + a == pre + b <==> a == b
  {
    assert (pre + a)[|pre|..] == a && (pre + b)[|pre|..] == b;
  }

  /** A text and what follows it are as before exactly when the text is set off and what follows is as before. */
  lemma SameTogether(t: string, x: string, y: string)
    requires Trimmed(t)
    ensures t + x == Again(t) + y <==> SetOff(t) && x == y
  {
    JoinOfLines(t);
    if IsHeading(t) && |Lines(t)| > 1 {
      var k := RestOf(t);
      var r := Rest(t);
      SetOffMeans(t, k);
      RestPutBack(r, k, x, y);
      Cancel(Lines(t)[0] + "\n", r + x, "\n" + r[k..] + y);
      Regroup(Lines(t)[0], r, r[k..], x, y);
    } else {
      assert Again(t) == t && SetOff(t) by {
        if IsHeading(t) {
          assert Lines(t)[1..] == [] && t == Lines(t)[0];
        }
      }
      Cancel(t, x, y);
    }
  }

  lemma Regroup(head: string, r: string, u: string, x: string, y: string)
    ensures head + "\n" + r + x == head + "\n" + (r + x)
    ensures head + ("\n\n" + u) + y == head + "\n" + ("\n" + u + y)
  {
  }

  lemma HeadSame(h: string, t: string, x: string, y: string)
    requires Trimmed(t)
    ensures PrintedHead(h, t) + x == PrintedHead(h, Again(t)) + y <==> SetOff(t) && x == y
  {
    AgainNotEmpty(t);
    if t == "" {
      Cancel(h, x, y);
      assert h + "" == h;
    } else {
      SameTogether(t, x, y);
      Cancel(h + "\n\n", t + x, Again(t) + y);
      UnderHead(h, t, x);
      UnderHead(h, Again(t), y);
    }
  }

  lemma UnderHead(h: string, t: string, x: string)
    requires t != ""
    ensures PrintedHead(h, t) + x == h + "\n\n" + (t + x)
  {
  }

  // ---------- parsing what was printed ----------

  function More(t: string, last: bool): seq<string>
  {
    Lines(t)[1..] + if last then [] else [""]
  }

  lemma MoreStrips(t: string, last: bool)
    ensures Strip(Join(More(t, last), "\n")) == Strip(Rest(t))
  {
    var rest := Lines(t)[1..];
    if last {
      assert More(t, last) == rest;
    } else if rest == [] {
      assert More(t, last) == [""];
    } else {
      JoinAppend(rest, [""], "\n");
      StripEnd(Rest(t));
      assert Rest(t) + "\n" + "" == Rest(t) + "\n";
    }
  }

  lemma MorePlain(t: string, last: bool)
    requires NoInner(t)
    ensures forall l :: l in More(t, last) ==> PlainLine(l)
  {
    LaterLinesPlain(t);
    forall l | l in Lines(t)[1..]
      ensures PlainLine(l)
    {
      var i :| 0 <= i < |Lines(t)[1..]| && Lines(t)[1..][i] == l;
      assert l == Lines(t)[i + 1];
    }
  }

  /** The sections found under the headings of a printed list: a text that begins with a heading becomes one of its own. */
  function Told(ss: seq<Section>): seq<Section>
  {
    if ss == [] then []
    else
      var t, last := Strip(ss[0].content), |ss| == 1;
      (if IsHeading(t) then [Section(ss[0].heading, ""), Section(Some(Lines(t)[0]), Join(More(t, last), "\n"))]
       else [Section(ss[0].heading, Join(Under(ss[0].content, last), "\n"))])
      + Told(ss[1..])
  }

  lemma GatherHidden(h: string, t: string, last: bool, rest: seq<string>, heading: Option<string>, current: seq<string>)
    requires IsHeading(h) && IsHeading(t) && NoInner(t)
    ensures Gather([h] + ([""] + Lines(t) + (if last then [] else [""]) + rest), heading, current) ==
            [Section(heading, Join(current, "\n")), Section(Some(h), "")] + Gather(rest, Some(Lines(t)[0]), More(t, last))
  {
    var head, more := Lines(t)[0], More(t, last);
    LaterLinesPlain(t);
    MorePlain(t, last);
    HeadLine(t);
    assert [""] + Lines(t) + (if last then [] else [""]) + rest == [""] + ([head] + (more + rest));
    GatherUnder(h, [""], [head] + (more + rest), heading, current);
    GatherUnder(head, more, rest, Some(h), [""]);
  }

  lemma HeadLine(t: string)
    requires IsHeading(t)
    ensures IsHeading(Lines(t)[0])
  {
    assert t[0] == '#' && t[1] == '#' && t[2] == ' ';
    assert Lines(t)[0] == [t[0]] + Lines(t[1..])[0];
    assert t[1..][0] == '#' && Lines(t[1..])[0] == [t[1]] + Lines(t[1..][1..])[0];
    assert t[1..][1..][0] == ' ' && Lines(t[1..][1..])[0] == [' '] + Lines(t[1..][1..][1..])[0];
  }

  lemma GatherNext(ss: seq<Section>, rest: seq<string>, heading: Option<string>, current: seq<string>)
    requires ss != [] && ShapedSection(ss[0]) && ss[0].heading.Some?
    ensures
      var s, last := ss[0], |ss| == 1;
      var t := Strip(s.content);
      Gather([s.heading.value] + (Under(s.content, last) + rest), heading, current) ==
      [Section(heading, Join(current, "\n"))] +
      if IsHeading(t) then [Section(s.heading, "")] + Gather(rest, Some(Lines(t)[0]), More(t, last))
      else Gather(rest, s.heading, Under(s.content, last))
  {
    var s, last := ss[0], |ss| == 1;
    StripNoInner(s.content);
    if IsHeading(Strip(s.content)) {
      GatherHidden(s.heading.value, Strip(s.content), last, rest, heading, current);
    } else {
      UnderPlain(s.content, last);
      GatherUnder(s.heading.value, Under(s.content, last), rest, heading, current);
    }
  }

  lemma {:induction false} GatherTold(ss: seq<Section>, heading: Option<string>, current: seq<string>)
    requires ss != [] && Headed(ss) && Shaped(ss)
    ensures Gather(Lines(Render(ss)), heading, current) == [Section(heading, Join(current, "\n"))] + Told(ss)
  {
    var last, t := |ss| == 1, Strip(ss[0].content);
    RenderLines(ss);
    GatherNext(ss, if last then [] else Lines(Render(ss[1..])), heading, current);
    HeadedTail(ss);
    if IsHeading(t) {
      if !last {
        GatherTold(ss[1..], Some(Lines(t)[0]), More(t, last));
      }
      Consed(Section(heading, Join(current, "\n")), Section(ss[0].heading, ""),
             Section(Some(Lines(t)[0]), Join(More(t, last), "\n")), Told(ss[1..]));
    } else if !last {
      GatherTold(ss[1..], ss[0].heading, Under(ss[0].content, last));
    }
  }

  lemma Consed(a: Section, b: Section, c: Section, rest: seq<Section>)
    ensures [a] + ([b] + ([c] + rest)) == [a] + ([b, c] + rest)
  {
  }

  lemma HeadedTail(ss: seq<Section>)
    requires Shaped(ss) && ss != []
    ensures Headed(ss[1..]) && Shaped(ss[1..])
  {
    assert forall i :: 0 <= i < |ss[1..]| ==> ss[1..][i] == ss[i + 1];
  }

  // ---------- printing that ----------

  /** The printed list with every text replaced by what the second print makes of it. */
  function Reprinted(ss: seq<Section>): string
    requires ss != [] && Headed(ss)
  {
    PrintedHead(ss[0].heading.value, Again(Strip(ss[0].content))) + if |ss| == 1 then "" else "\n\n" + Reprinted(ss[1..])
  }

  lemma {:induction false} ToldHeaded(ss: seq<Section>)
    requires Headed(ss)
    ensures Headed(Told(ss)) && (ss != [] ==> Told(ss) != [])
  {
    if ss != [] {
      ToldHeaded(ss[1..]);
    }
  }

  lemma RenderCons(s: Section, rest: seq<Section>)
    requires s.heading.Some? && Headed(rest)
    ensures Render([s] + rest) == PrintedHead(s.heading.value, Strip(s.content)) + if rest == [] then "" else "\n\n" + Render(rest)
  {
    RenderSteps([s] + rest);
    assert ([s] + rest)[1..] == rest;
  }

  lemma AgainNotEmpty(t: string)
    ensures Again(t) == "" <==> t == ""
  {
    if IsHeading(t) {
      HeadLine(t);
    }
  }

  lemma HeadAlone(h: string, text: string)
    ensures PrintedHead(h, Strip("")) + ("\n\n" + text) == h + "\n\n" + text
  {
    assert Strip("") == "" && h + "" == h;
    Assoc(h, "\n\n", text);
  }

  /** The section in which a hidden heading was found, and the section it becomes, print as one. */
  lemma TwoAsOne(h: string, t: string, last: bool, rest: seq<Section>)
    requires IsHeading(t) && Headed(rest)
    ensures
      Render([Section(Some(h), ""), Section(Some(Lines(t)[0]), Join(More(t, last), "\n"))] + rest) ==
      PrintedHead(h, Again(t)) + if rest == [] then "" else "\n\n" + Render(rest)
  {
    var b := Section(Some(Lines(t)[0]), Join(More(t, last), "\n"));
    MoreStrips(t, last);
    AgainNotEmpty(t);
    RenderCons(b, rest);
    RenderCons(Section(Some(h), ""), [b] + rest);
    assert [Section(Some(h), ""), b] + rest == [Section(Some(h), "")] + ([b] + rest);
    HeadAlone(h, Render([b] + rest));
    UnderHead(h, Again(t), if rest == [] then "" else "\n\n" + Render(rest));
  }

  lemma {:induction false} RenderTold(ss: seq<Section>)
    requires ss != [] && Headed(ss)
    ensures Render(Told(ss)) == Reprinted(ss)
  {
    var s, last := ss[0], |ss| == 1;
    ToldHeaded(ss[1..]);
    if !last {
      RenderTold(ss[1..]);
    }
    if IsHeading(Strip(s.content)) {
      TwoAsOne(s.heading.value, Strip(s.content), last, Told(ss[1..]));
    } else {
      UnderStrips(s.content, last);
      RenderCons(Section(s.heading, Join(Under(s.content, last), "\n")), Told(ss[1..]));
    }
  }

  predicate AllSetOff(ss: seq<Section>)
  {
    forall s :: s in ss ==> SetOff(Strip(s.content))
  }

  function Tail(ss: seq<Section>): string
    requires Headed(ss)
  {
    if ss == [] then "" else "\n\n" + Render(ss)
  }

  function ReprintedTail(ss: seq<Section>): string
    requires Headed(ss)
  {
    if ss == [] then "" else "\n\n" + Reprinted(ss)
  }

  lemma HeadThenTail(ss: seq<Section>)
    requires ss != [] && Headed(ss)
    ensures Render(ss) == PrintedHead(ss[0].heading.value, Strip(ss[0].content)) + Tail(ss[1..])
    ensures Reprinted(ss) == PrintedHead(ss[0].heading.value, Again(Strip(ss[0].content))) + ReprintedTail(ss[1..])
  {
    RenderSteps(ss);
  }

  lemma {:induction false} TailSame(ss: seq<Section>)
    requires Headed(ss)
    ensures Tail(ss) == ReprintedTail(ss) <==> AllSetOff(ss)
  {
    if ss != [] {
      TailSame(ss[1..]);
      StripTrims(ss[0].content);
      HeadThenTail(ss);
      HeadSame(ss[0].heading.value, Strip(ss[0].content), Tail(ss[1..]), ReprintedTail(ss[1..]));
      Cancel("\n\n", Render(ss), Reprinted(ss));
      AllSetOffCons(ss);
    }
  }

  lemma AllSetOffCons(ss: seq<Section>)
    requires ss != []
    ensures AllSetOff(ss) <==> SetOff(Strip(ss[0].content)) && AllSetOff(ss[1..])
  {
    assert ss == [ss[0]] + ss[1..];
  }

  // ---------- text before the first heading ----------

  lemma RenderLead(s: Section, tail: seq<Section>)
    requires s.heading.None? && Strip(s.content) != "" && Headed(tail)
    ensures Render([s] + tail) == Strip(s.content) + Tail(tail)
  {
    PartsOfHeaded(tail);
    assert ([s] + tail)[1..] == tail;
    assert Parts([s] + tail) == [Strip(s.content)] + Parts(tail);
    assert Parts([s] + tail)[1..] == Parts(tail);
  }

  lemma LinesOfLead(t: string, tail: seq<Section>)
    requires Headed(tail)
    ensures Lines(t + Tail(tail)) ==
            Lines(t) + if tail == [] then [] else [""] + Lines(Render(tail))
  {
    if tail == [] {
      assert t + "" == t && Lines(t) + [] == Lines(t);
    } else {
      var text := Render(tail);
      LinesGlued(t, text);
      Assoc(t, "\n\n", text);
      Assoc(Lines(t), [""], Lines(text));
    }
  }

  /** A hidden heading in front of everything becomes the first section. */
  lemma HiddenLeadParses(t: string, tail: seq<Section>)
    requires IsHeading(t) && NoInner(t) && Headed(tail) && Shaped(tail)
    ensures Parse(t + Tail(tail)) == [Section(Some(Lines(t)[0]), Join(More(t, tail == []), "\n"))] + Told(tail)
  {
    var head, more := Lines(t)[0], More(t, tail == []);
    var rest := if tail == [] then [] else Lines(Render(tail));
    HeadLine(t);
    MorePlain(t, tail == []);
    LinesOfHiddenLead(t, tail);
    GatherUnder(head, more, rest, None, []);
    if tail != [] {
      GatherTold(tail, Some(head), more);
    }
  }

  lemma HeadAndMore(lines: seq<string>, blank: seq<string>, rest: seq<string>)
    requires lines != []
    ensures lines + (blank + rest) == [lines[0]] + (lines[1..] + blank + rest)
  {
    assert lines == [lines[0]] + lines[1..];
    Assoc([lines[0]], lines[1..], blank + rest);
    Assoc(lines[1..], blank, rest);
  }

  lemma LinesOfHiddenLead(t: string, tail: seq<Section>)
    requires Headed(tail)
    ensures Lines(t + Tail(tail)) == [Lines(t)[0]] + (More(t, tail == []) + if tail == [] then [] else Lines(Render(tail)))
  {
    LinesOfLead(t, tail);
    HeadAndMore(Lines(t), if tail == [] then [] else [""], if tail == [] then [] else Lines(Render(tail)));
  }

  lemma PlainLeadParses(content: string, tail: seq<Section>)
    requires NoInner(content) && !IsHeading(Strip(content)) && Strip(content) != "" && Headed(tail) && Shaped(tail)
    ensures
      var t := Strip(content);
      Parse(t + Tail(tail)) == [Section(None, if tail == [] then t else t + "\n")] + Told(tail)
  {
    var t := Strip(content);
    var lead := Lines(t) + if tail == [] then [] else [""];
    StripNoInner(content);
    AllLinesPlain(t);
    LinesOfPlainLead(t, tail);
    GatherPlain(lead, if tail == [] then [] else Lines(Render(tail)), None, []);
    assert [] + lead == lead;
    JoinOfLead(t, tail == []);
    if tail != [] {
      GatherTold(tail, None, lead);
    }
  }

  lemma JoinOfLead(t: string, last: bool)
    ensures Join(Lines(t) + (if last then [] else [""]), "\n") == if last then t else t + "\n"
  {
    JoinOfLines(t);
    if last {
      assert Lines(t) + [] == Lines(t);
    } else {
      JoinAppend(Lines(t), [""], "\n");
      assert t + "\n" + "" == t + "\n";
    }
  }

  lemma LinesOfPlainLead(t: string, tail: seq<Section>)
    requires Headed(tail)
    ensures Lines(t + Tail(tail)) ==
            Lines(t) + (if tail == [] then [] else [""]) + if tail == [] then [] else Lines(Render(tail))
  {
    LinesOfLead(t, tail);
    if tail != [] {
      Assoc(Lines(t), [""], Lines(Render(tail)));
    }
  }

  lemma LeadReprinted(s: Section, tail: seq<Section>)
    requires s.heading.None? && ShapedSection(s) && Strip(s.content) != "" && Headed(tail) && Shaped(tail)
    ensures Render(Parse(Render([s] + tail))) == Again(Strip(s.content)) + ReprintedTail(tail)
  {
    var t := Strip(s.content);
    StripNoInner(s.content);
    RenderLead(s, tail);
    ToldHeaded(tail);
    if tail != [] {
      RenderTold(tail);
    }
    if IsHeading(t) {
      HiddenLeadParses(t, tail);
      MoreStrips(t, tail == []);
      RenderCons(Section(Some(Lines(t)[0]), Join(More(t, tail == []), "\n")), Told(tail));
    } else {
      PlainLeadParses(s.content, tail);
      StripAgain(s.content);
      RenderLead(Section(None, if tail == [] then t else t + "\n"), Told(tail));
    }
  }

  lemma LeadSame(s: Section, tail: seq<Section>)
    requires s.heading.None? && ShapedSection(s) && Strip(s.content) != "" && Headed(tail) && Shaped(tail)
    ensures Render(Parse(Render([s] + tail))) == Render([s] + tail) <==> AllSetOff([s] + tail)
  {
    StripTrims(s.content);
    RenderLead(s, tail);
    LeadReprinted(s, tail);
    TailSame(tail);
    SameTogether(Strip(s.content), Tail(tail), ReprintedTail(tail));
  }

  lemma HeadedSame(ss: seq<Section>)
    requires ss != [] && Headed(ss) && Shaped(ss)
    ensures Render(Parse(Render(ss))) == Render(ss) <==> AllSetOff(ss)
  {
    GatherTold(ss, None, []);
    RenderTold(ss);
    TailSame(ss);
    Cancel("\n\n", Render(ss), Reprinted(ss));
  }

  lemma ListReprinted(ss: seq<Section>)
    requires Shaped(ss) && NoBlankLead(ss)
    ensures Render(Parse(Render(ss))) == Render(ss) <==> AllSetOff(ss)
  {
    if ss == [] {
      assert Lines("") == [""];
    } else {
      HeadedTail(ss);
      assert ss == [ss[0]] + ss[1..];
      if ss[0].heading.Some? {
        HeadedSame(ss);
      } else {
        LeadSame(ss[0], ss[1..]);
      }
    }
  }

  /** Printing a parsed body is a normal form if and only if every text that begins with a heading is set off. */
  lemma NormalFormExactly(body: string)
    ensures Render(Parse(Render(Parse(body)))) == Render(Parse(body)) <==> AllSetOff(Parse(body))
  {
    var ss := Parse(body);
    ParseShape(body);
    RenderVisible(ss);
    VisibleOnes(ss);
    ListReprinted(Visible(ss));
  }

  lemma VisibleOnes(ss: seq<Section>)
    requires Shaped(ss)
    ensures Shaped(Visible(ss)) && NoBlankLead(Visible(ss)) && (AllSetOff(Visible(ss)) <==> AllSetOff(ss))
  {
    if ss != [] {
      HeadedTail(ss);
      assert ss == [ss[0]] + ss[1..] && !IsHeading("");
    }
  }

  // ---------- what a filed body reads back as ----------

  /** The sections with every hidden heading as a section of its own. */
  function Split(ss: seq<Section>): seq<Section>
  {
    if ss == [] then [] else SplitOne(ss[0]) + Split(ss[1..])
  }

  function SplitOne(s: Section): seq<Section>
  {
    var t := Strip(s.content);
    if !IsHeading(t) then [s]
    else (if s.heading.Some? then [Section(s.heading, "")] else []) + [Section(Some(Lines(t)[0]), Rest(t))]
  }

  lemma SimilarAppend(a: seq<Section>, b: seq<Section>, c: seq<Section>, d: seq<Section>)
    requires Similar(a, c) && Similar(b, d)
    ensures Similar(a + b, c + d)
  {
  }

  lemma ToldIsSplit(s: Section, last: bool)
    requires s.heading.Some?
    ensures
      var t := Strip(s.content);
      Similar(if IsHeading(t) then [Section(s.heading, ""), Section(Some(Lines(t)[0]), Join(More(t, last), "\n"))]
              else [Section(s.heading, Join(Under(s.content, last), "\n"))], SplitOne(s))
  {
    MoreStrips(Strip(s.content), last);
    UnderStrips(s.content, last);
  }

  lemma {:induction false} ToldSplit(ss: seq<Section>)
    requires Headed(ss)
    ensures Similar(Told(ss), Split(ss))
  {
    if ss != [] {
      var t, last := Strip(ss[0].content), |ss| == 1;
      ToldIsSplit(ss[0], last);
      ToldSplit(ss[1..]);
      SimilarAppend(
        if IsHeading(t) then [Section(ss[0].heading, ""), Section(Some(Lines(t)[0]), Join(More(t, last), "\n"))]
        else [Section(ss[0].heading, Join(Under(ss[0].content, last), "\n"))],
        Told(ss[1..]), SplitOne(ss[0]), Split(ss[1..]));
    }
  }

  lemma LeadSplit(s: Section, tail: seq<Section>)
    requires s.heading.None? && ShapedSection(s) && Strip(s.content) != "" && Headed(tail) && Shaped(tail)
    ensures Similar(Parse(Render([s] + tail)), SplitOne(s) + Split(tail))
  {
    var t := Strip(s.content);
    StripNoInner(s.content);
    RenderLead(s, tail);
    ToldSplit(tail);
    if IsHeading(t) {
      HiddenLeadParses(t, tail);
      MoreStrips(t, tail == []);
      SimilarAppend([Section(Some(Lines(t)[0]), Join(More(t, tail == []), "\n"))], Told(tail), SplitOne(s), Split(tail));
    } else {
      PlainLeadParses(s.content, tail);
      StripAgain(s.content);
      SimilarAppend([Section(None, if tail == [] then t else t + "\n")], Told(tail), SplitOne(s), Split(tail));
    }
  }

  /** Parsing a printed list gives the list back, up to white space, with every hidden heading as a section of its own. */
  lemma ParseOfAnyRender(ss: seq<Section>)
    requires Shaped(ss) && NoBlankLead(ss)
    ensures Similar(Parse(Render(ss)), Split(ss))
  {
    if ss == [] {
      assert Lines("") == [""];
    } else {
      HeadedTail(ss);
      assert ss == [ss[0]] + ss[1..];
      if ss[0].heading.Some? {
        GatherTold(ss, None, []);
        ToldSplit(ss);
      } else {
        LeadSplit(ss[0], ss[1..]);
      }
    }
  }

  /** How many sections hide this heading. */
  function Hiding(ss: seq<Section>, h: string): nat
  {
    if ss == [] then 0 else HidesOne(ss[0], h) + Hiding(ss[1..], h)
  }

  function HidesOne(s: Section, h: string): nat
  {
    var t := Strip(s.content);
    if IsHeading(t) && Lines(t)[0] == h then 1 else 0
  }

  lemma OnlySplitOne(s: Section, h: string)
    ensures |Only(SplitOne(s), h)| == (if s.heading == Some(h) then 1 else 0) + HidesOne(s, h)
  {
    var t := Strip(s.content);
    var hidden := Section(Some(Lines(t)[0]), Rest(t));
    OnlyOne(s, h);
    OnlyOne(hidden, h);
    OnlyOne(Section(s.heading, ""), h);
    OnlyAppend(if s.heading.Some? then [Section(s.heading, "")] else [], [hidden], h);
  }

  lemma {:induction false} OnlySplit(ss: seq<Section>, h: string)
    ensures |Only(Split(ss), h)| == |Only(ss, h)| + Hiding(ss, h)
  {
    if ss != [] {
      OnlySplit(ss[1..], h);
      OnlySplitOne(ss[0], h);
      OnlyAppend(SplitOne(ss[0]), Split(ss[1..]), h);
    }
  }

  /** The sections of a heading, and the others. */
  lemma {:induction false} HidingApart(ss: seq<Section>, g: string, h: string)
    ensures Hiding(ss, h) == Hiding(Without(ss, g), h) + Hiding(Only(ss, g), h)
  {
    if ss != [] {
      HidingApart(ss[1..], g, h);
    }
  }

  lemma NoneHiding(s: Section, h: string)
    requires !IsHeading(Strip(s.content))
    ensures Hiding([s], h) == 0
  {
    assert Hiding([s][1..], h) == 0;
  }

  /** The two sections that editing writes hide nothing. */
  lemma EditedHides(ss: seq<Section>, p: string, c: string, h: string)
    requires PlainText(p) && PlainText(c)
    ensures Hiding(Edited(ss, p, c), h) == Hiding(Core(ss), h)
  {
    var e := Edited(ss, p, c);
    ExactlyOneOfEach(ss, p, c);
    EditKeepsTheRest(ss, p, c);
    HidingApart(e, Parent, h);
    HidingApart(Without(e, Parent), BlockedBy, h);
    OnlyWithout(e, Parent, BlockedBy);
    NoneHiding(ParentSection(p), h);
    NoneHiding(BlockedSection(c), h);
  }

  lemma HidingVisible(ss: seq<Section>, h: string)
    ensures Hiding(Visible(ss), h) == Hiding(ss, h)
  {
    assert !IsHeading("");
  }

  lemma EditedShaped(ss: seq<Section>, p: string, c: string)
    requires Shaped(ss) && HeadedBeside(ss) && PlainText(p) && PlainText(c)
    ensures Shaped(Edited(ss, p, c))
  {
    var e := Edited(ss, p, c);
    EditedMembers(ss, p, c);
    EditedLeadOnly(ss, p, c);
    PlainIsPrintable(Parent, p);
    PlainIsPrintable(BlockedBy, c);
    forall i | 0 <= i < |e|
      ensures ShapedSection(e[i])
    {
      assert e[i] in e;
    }
  }

  /** A filed body reads back as its visible sections, each hidden heading a section of its own. So there is one parent
      section, and one of blockers, and one more for every text of the draft that hides such a heading. */
  lemma AnyFiledBodyReadsBack(base: string, spec: nat, ns: seq<nat>)
    requires HeadedBeside(Parse(base))
    ensures
      var p, c := Ref(spec), BlockedText(ns);
      var again, others := Parse(Body(base, p, c)), Core(Parse(base));
      && Similar(again, Split(Visible(Edited(Parse(base), p, c))))
      && |Only(again, Parent)| == 1 + Hiding(others, Parent)
      && |Only(again, BlockedBy)| == 1 + Hiding(others, BlockedBy)
  {
    var p, c := Ref(spec), BlockedText(ns);
    var ss := Parse(base);
    WrittenTextsArePlain(spec, ns);
    ParseShape(base);
    EditedShaped(ss, p, c);
    VisibleOnes(Edited(ss, p, c));
    RenderVisible(Edited(ss, p, c));
    ParseOfAnyRender(Visible(Edited(ss, p, c)));
    OneMoreEach(base, p, c, Parent);
    OneMoreEach(base, p, c, BlockedBy);
  }

  lemma OneMoreEach(base: string, p: string, c: string, h: string)
    requires PlainText(p) && PlainText(c) && (h == Parent || h == BlockedBy)
    requires Similar(Parse(Body(base, p, c)), Split(Visible(Edited(Parse(base), p, c))))
    ensures |Only(Parse(Body(base, p, c)), h)| == 1 + Hiding(Core(Parse(base)), h)
  {
    var ss := Parse(base);
    var e := Edited(ss, p, c);
    SimilarOnly(Parse(Body(base, p, c)), Split(Visible(e)), h);
    OnlySplit(Visible(e), h);
    OnlyVisible(e, h);
    HidingVisible(e, h);
    EditedHides(ss, p, c, h);
    ExactlyOneOfEach(ss, p, c);
  }
}
