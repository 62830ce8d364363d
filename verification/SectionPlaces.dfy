/** What parsing keeps of a body's lines, and beside which sections an inserted one comes to stand. */
module SectionPlaces {
  import opened Outcomes
  import opened Text
  import opened SectionedMarkdown
  import opened TicketBody

  // ---------- no line is lost ----------

  /** The lines that are not empty, in order. */
  function Texts(lines: seq<string>): seq<string>
  {
    if lines == [] then [] else (if lines[0] == "" then [] else [lines[0]]) + Texts(lines[1..])
  }

  function HeadLine(heading: Option<string>): seq<string>
  {
    if heading.Some? then [heading.value] else []
  }

  /** The non-empty lines of the sections: each heading, and then what is under it. */
  function SectionTexts(ss: seq<Section>): seq<string>
  {
    if ss == [] then [] else HeadLine(ss[0].heading) + Texts(Lines(ss[0].content)) + SectionTexts(ss[1..])
  }

  lemma {:induction false} TextsAppend(a: seq<string>, b: seq<string>)
    ensures Texts(a + b) == Texts(a) + Texts(b)
  {
    if a == [] {
      assert a + b == b;
    } else {
      assert (a + b)[1..] == a[1..] + b;
      TextsAppend(a[1..], b);
      Assoc(if a[0] == "" then [] else [a[0]], Texts(a[1..]), Texts(b));
    }
  }

  lemma TextsOfJoin(lines: seq<string>)
    requires forall l :: l in lines ==> OneLine(l)
    ensures Texts(Lines(Join(lines, "\n"))) == Texts(lines)
  {
    if lines == [] {
      assert Lines("") == [""] && Texts([""][1..]) == [];
    } else {
      LinesOfJoin(lines);
    }
  }

  lemma {:induction false} GatherKeepsLines(lines: seq<string>, heading: Option<string>, current: seq<string>)
    requires forall l :: l in lines + current ==> OneLine(l)
    ensures SectionTexts(Gather(lines, heading, current)) == HeadLine(heading) + Texts(current) + Texts(lines)
  {
    assert forall l :: l in lines ==> l in lines + current;
    assert forall l :: l in current ==> l in lines + current;
    var head, now := HeadLine(heading), Texts(current);
    TextsOfJoin(current);
    if lines == [] {
      assert SectionTexts(Gather(lines, heading, current)[1..]) == [];
      assert head + now + [] == head + now;
    } else {
      var rest := lines[1..];
      assert forall l :: l in rest ==> l in lines;
      assert lines[0] in lines;
      if IsHeading(lines[0]) {
        GatherKeepsLines(rest, Some(lines[0]), []);
        OneMore(lines[0], rest);
        HeadTaken(Section(heading, Join(current, "\n")), Gather(rest, Some(lines[0]), []));
      } else {
        GatherKeepsLines(rest, heading, current + [lines[0]]);
        TextsAppend(current, [lines[0]]);
        TextsAppend([lines[0]], rest);
        assert [lines[0]] + rest == lines;
        Assoc(head, now, Texts([lines[0]]));
        Assoc(head + now, Texts([lines[0]]), Texts(rest));
      }
    }
  }

  lemma OneMore(line: string, rest: seq<string>)
    requires line != ""
    ensures Texts([line] + rest) == [line] + [] + Texts(rest)
  {
    assert ([line] + rest)[1..] == rest;
  }

  lemma HeadTaken(s: Section, rest: seq<Section>)
    ensures SectionTexts([s] + rest) == HeadLine(s.heading) + Texts(Lines(s.content)) + SectionTexts(rest)
  {
    assert ([s] + rest)[1..] == rest;
  }

  /** Parsing loses, changes and reorders no line: the sections hold all lines of the body but empty ones. */
  lemma ParseKeepsLines(body: string)
    ensures SectionTexts(Parse(body)) == Texts(Lines(body))
  {
    LinesAreOneLine(body);
    var all := Gather(Lines(body), None, []);
    assert Lines(body) + [] == Lines(body);
    GatherKeepsLines(Lines(body), None, []);
    assert [] + [] + Texts(Lines(body)) == Texts(Lines(body));
    if all[0] == Section(None, "") {
      HeadTaken(all[0], all[1..]);
      assert [all[0]] + all[1..] == all;
      assert Lines("") == [""] && Texts([""]) == [];
    }
  }

  /** The printed lines that are not empty: the heading, then the content, then the other sections'. */
  lemma FirstRendered(ss: seq<Section>)
    requires ss != [] && Headed(ss) && OneLine(ss[0].heading.value) && ss[0].heading.value != ""
    ensures Texts(Lines(Render(ss))) ==
            [ss[0].heading.value] + Texts(Lines(Strip(ss[0].content))) + if |ss| == 1 then [] else Texts(Lines(Render(ss[1..])))
  {
    RenderLines(ss);
    var h, under := ss[0].heading.value, Under(ss[0].content, |ss| == 1);
    TextsUnder(ss[0].content, |ss| == 1);
    JoinedTexts(h, under, if |ss| == 1 then [] else Lines(Render(ss[1..])));
  }

  lemma JoinedTexts(h: string, under: seq<string>, rest: seq<string>)
    requires h != ""
    ensures Texts([h] + (under + rest)) == [h] + Texts(under) + Texts(rest)
  {
    OneMore(h, under + rest);
    TextsAppend(under, rest);
    Assoc([h], Texts(under), Texts(rest));
  }

  /** Printing keeps the lines too, but for white space around the contents. */
  lemma {:induction false} RenderKeepsLines(ss: seq<Section>)
    requires ss != [] && Headed(ss) && Shaped(ss)
    ensures Texts(Lines(Render(ss))) == SectionTexts(Stripped(ss))
  {
    FirstRendered(ss);
    HeadTaken(Section(ss[0].heading, Strip(ss[0].content)), Stripped(ss[1..]));
    if |ss| > 1 {
      assert forall i :: 0 <= i < |ss[1..]| ==> ss[1..][i] == ss[i + 1];
      RenderKeepsLines(ss[1..]);
    } else {
      assert Stripped(ss[1..]) == [];
    }
  }

  function Stripped(ss: seq<Section>): seq<Section>
  {
    if ss == [] then [] else [Section(ss[0].heading, Strip(ss[0].content))] + Stripped(ss[1..])
  }

  lemma TextsUnder(content: string, last: bool)
    ensures Texts(Under(content, last)) == Texts(Lines(Strip(content)))
  {
    var t := Strip(content);
    var inner := if t != "" then [""] + Lines(t) else [];
    assert Texts([""]) == [];
    if t != "" {
      TextsAppend([""], Lines(t));
    } else {
      assert Lines("") == [""];
    }
    TextsAppend(inner, if last then [] else [""]);
  }

  // ---------- beside which section ----------

  /** Some section matches the anchor. */
  predicate Found(ss: seq<Section>, a: Anchor)
  {
    exists i :: 0 <= i < |ss| && Matches(a, ss[i].heading)
  }

  /** The first anchor that is found. */
  predicate DecidingAnchor(ss: seq<Section>, anchors: seq<Anchor>, x: nat)
  {
    x < |anchors| && Found(ss, anchors[x]) && forall y :: 0 <= y < x ==> !Found(ss, anchors[y])
  }

  lemma {:induction false} FoundByAnchor(ss: seq<Section>, anchors: seq<Anchor>) returns (x: nat)
    ensures FindAnchor(ss, anchors) >= 0 ==> DecidingAnchor(ss, anchors, x) && FindAnchor(ss, anchors) == First(ss, anchors[x])
    ensures FindAnchor(ss, anchors) < 0 ==> forall a :: a in anchors ==> !Found(ss, a)
  {
    x := 0;
    if anchors != [] && First(ss, anchors[0]) < 0 {
      var y := FoundByAnchor(ss, anchors[1..]);
      x := y + 1;
    }
  }

  /** The sections around the k-th one are the others, in order. */
  predicate Beside(u: seq<Section>, k: nat, s: Section, others: seq<Section>)
  {
    k < |u| && u[k] == s && u[..k] + u[k + 1..] == others
  }

  /**
   * Where an inserted section stands: directly in front of, or behind, the first section that matches the first anchor found;
   * without one, at the end or before the first heading, or nowhere when that is an error.
   */
  lemma UpsertedStands(ss: seq<Section>, s: Section, anchors: seq<Anchor>, after: bool, onMissing: OnMissing) returns (k: nat, x: nat)
    requires s.heading.Some?
    ensures
      var others, u := Without(ss, s.heading.value), Upserted(ss, s, anchors, after, onMissing);
      if exists a :: a in anchors && Found(others, a) then
        Beside(u, k, s, others) && DecidingAnchor(others, anchors, x) && AtAnchor(others, anchors[x], after, k)
      else match onMissing
        case Raise => u == others
        case Append => Beside(u, k, s, others) && k == |others|
        case Prepend => Beside(u, k, s, others) && BeforeHeadings(others, k)
  {
    var others := Without(ss, s.heading.value);
    var place := Place(others, anchors, after, onMissing);
    k := if place.Some? then place.value else 0;
    x := PlaceStands(others, anchors, after, onMissing);
    if place.Some? {
      InsertedBeside(others, k, s);
    }
  }

  lemma PlaceStands(others: seq<Section>, anchors: seq<Anchor>, after: bool, onMissing: OnMissing) returns (x: nat)
    ensures
      var place := Place(others, anchors, after, onMissing);
      if exists a :: a in anchors && Found(others, a) then
        place.Some? && DecidingAnchor(others, anchors, x) && AtAnchor(others, anchors[x], after, place.value)
      else match onMissing
        case Raise => place.None?
        case Append => place == Some(|others|)
        case Prepend => place.Some? && BeforeHeadings(others, place.value)
  {
    x := FoundByAnchor(others, anchors);
    if FindAnchor(others, anchors) >= 0 {
      assert anchors[x] in anchors;
    } else {
      HeadingsFrom(others);
    }
  }

  /** The place in front of, or behind, the first section that matches. */
  predicate AtAnchor(others: seq<Section>, a: Anchor, after: bool, k: nat)
  {
    var i := if after then k - 1 else k;
    0 <= i < |others| && Matches(a, others[i].heading) && forall j :: 0 <= j < i ==> !Matches(a, others[j].heading)
  }

  /** In front of all headings, behind everything else unless there is no heading at all. */
  predicate BeforeHeadings(others: seq<Section>, k: nat)
  {
    && k <= |others| && (forall i :: 0 <= i < k ==> others[i].heading.None?)
    && (if exists s :: s in others && s.heading.Some? then k < |others| && others[k].heading.Some? else k == 0)
  }

  lemma HeadingsFrom(others: seq<Section>)
    ensures BeforeHeadings(others, if FirstHeading(others) > 0 then FirstHeading(others) else 0)
  {
    forall i | 0 <= i < |others| && others[i].heading.Some?
      ensures Matches(Substring(""), others[i].heading)
    {
      assert "" <= others[i].heading.value[0..];
    }
  }

  lemma InsertedBeside(others: seq<Section>, k: nat, s: Section)
    requires k <= |others|
    ensures Beside(Insert(others, k, s), k, s, others)
  {
    var u := Insert(others, k, s);
    assert u[..k] == others[..k] && u[k + 1..] == others[k..];
  }

  // ---------- the two sections of a filed ticket ----------

  predicate HasHeading(ss: seq<Section>, h: string)
  {
    exists i :: 0 <= i < |ss| && ss[i].heading == Some(h)
  }

  predicate TouchesFiles(s: Section)
  {
    s.heading.Some? && Contains(s.heading.value, "Files touched")
  }

  /** None of the fixed headings mentions the touched files. */
  lemma FixedHeadings()
    ensures !Contains("## Parent", "Files touched") && !Contains("## Blocked by", "Files touched")
    ensures !Contains("## What to build", "Files touched")
  {
    NoCapital("## Parent");
    NoCapital("## Blocked by");
    NoCapital("## What to build");
  }

  lemma NoCapital(h: string)
    requires 'F' !in h
    ensures !Contains(h, "Files touched")
  {
    forall i | 0 <= i <= |h|
      ensures !("Files touched" <= h[i..])
    {
      if i < |h| {
        assert h[i..][0] == h[i] && h[i] in h;
        assert "Files touched"[0] == 'F';
      }
    }
  }

  /** What stands in front of the blockers, when they are inserted among the others. */
  predicate BlockersPlaced(others: seq<Section>, k: nat)
  {
    if HasHeading(others, "## Acceptance criteria") then
      0 < k <= |others| && others[k - 1].heading == Some("## Acceptance criteria")
      && forall i :: 0 <= i < k - 1 ==> others[i].heading != Some("## Acceptance criteria")
    else if exists i :: 0 <= i < |others| && TouchesFiles(others[i]) then
      k < |others| && TouchesFiles(others[k]) && forall i :: 0 <= i < k ==> !TouchesFiles(others[i])
    else k == |others|
  }

  lemma PlacedByBlockedPlace(others: seq<Section>)
    ensures BlockersPlaced(others, BlockedPlace(others))
  {
    var i, j := First(others, Criteria), First(others, FilesTouched);
    assert forall m :: 0 <= m < |others| ==> (Matches(Criteria, others[m].heading) <==> others[m].heading == Some("## Acceptance criteria"));
    assert forall m :: 0 <= m < |others| ==> (Matches(FilesTouched, others[m].heading) <==> TouchesFiles(others[m]));
  }

  /** The sections of the draft that stay decide where the blockers go. */
  lemma SameHeadings(ss: seq<Section>, p: string)
    ensures
      var others := Without(WithParent(ss, p), BlockedBy);
      && (HasHeading(others, "## Acceptance criteria") <==> HasHeading(ss, "## Acceptance criteria"))
      && ((exists s :: s in others && TouchesFiles(s)) <==> (exists s :: s in ss && TouchesFiles(s)))
  {
    var r, mid := Without(ss, Parent), WithParent(ss, p);
    var others := Without(mid, BlockedBy);
    WithoutMembers(ss, Parent);
    WithoutMembers(mid, BlockedBy);
    InsertMembers(r, ParentPlace(r), ParentSection(p));
    FixedHeadings();
    assert forall s :: s in others <==> (s == ParentSection(p) || (s in ss && s.heading != Some(Parent) && s.heading != Some(BlockedBy)));
    if HasHeading(ss, "## Acceptance criteria") {
      var i :| 0 <= i < |ss| && ss[i].heading == Some("## Acceptance criteria");
      assert ss[i] in others;
    }
    if HasHeading(others, "## Acceptance criteria") {
      var i :| 0 <= i < |others| && others[i].heading == Some("## Acceptance criteria");
      assert others[i] in ss;
    }
  }

  /**
   * The blockers of a filed ticket stand directly behind the draft's acceptance criteria; without those, directly in front of
   * its first section on the touched files; and without either at the very end.
   */
  lemma BlockersStand(ss: seq<Section>, p: string, c: string) returns (k: nat)
    ensures var e := Edited(ss, p, c);
            k < |e| && e[k] == BlockedSection(c)
    ensures var e := Edited(ss, p, c);
            if HasHeading(ss, "## Acceptance criteria") then k > 0 && e[k - 1].heading == Some("## Acceptance criteria")
            else if exists s :: s in ss && TouchesFiles(s) then
              k + 1 < |e| && TouchesFiles(e[k + 1]) && forall i :: 0 <= i < k ==> !TouchesFiles(e[i])
            else k + 1 == |e|
  {
    var others := Without(WithParent(ss, p), BlockedBy);
    k := BlockedPlace(others);
    PlacedByBlockedPlace(others);
    SameHeadings(ss, p);
    InsertedAt(others, k, BlockedSection(c));
    assert (exists s :: s in others && TouchesFiles(s)) <==> (exists i :: 0 <= i < |others| && TouchesFiles(others[i]));
  }

  lemma InsertedAt(others: seq<Section>, k: nat, s: Section)
    requires k <= |others|
    ensures var u := Insert(others, k, s);
            |u| == |others| + 1 && u[k] == s && (forall i :: 0 <= i < k ==> u[i] == others[i]) && forall i :: k < i < |u| ==> u[i] == others[i - 1]
  {
  }

  /** The parent is in front of the section on what to build, or else has no heading in front of it. */
  predicate ParentPlaced(others: seq<Section>, j: nat, p: string, build: bool)
  {
    && j < |others| && others[j] == ParentSection(p)
    && (if build then
          j + 1 < |others| && others[j + 1].heading == Some("## What to build")
          && forall i :: 0 <= i < j ==> others[i].heading != Some("## What to build")
        else forall i :: 0 <= i < j ==> others[i].heading.None?)
  }

  lemma ParentIsPlaced(ss: seq<Section>, p: string) returns (j: nat)
    ensures ParentPlaced(Without(WithParent(ss, p), BlockedBy), j, p, HasHeading(ss, "## What to build"))
  {
    var r := Without(ss, Parent);
    var i := ParentPlace(r);
    WithoutInsert(r, i, ParentSection(p), BlockedBy);
    PlaceOfParent(r);
    SameWhatToBuild(ss);
    j := |Without(r[..i], BlockedBy)|;
    Thinned(r, i, ParentSection(p));
  }

  lemma SameWhatToBuild(ss: seq<Section>)
    ensures HasHeading(Without(ss, Parent), "## What to build") <==> HasHeading(ss, "## What to build")
  {
    var r := Without(ss, Parent);
    WithoutMembers(ss, Parent);
    if HasHeading(ss, "## What to build") {
      var m :| 0 <= m < |ss| && ss[m].heading == Some("## What to build");
      assert ss[m] in r;
    }
    if HasHeading(r, "## What to build") {
      var m :| 0 <= m < |r| && r[m].heading == Some("## What to build");
      assert r[m] in ss;
    }
  }

  predicate AtWhatToBuild(r: seq<Section>, i: nat)
  {
    if HasHeading(r, "## What to build") then
      i < |r| && r[i].heading == Some("## What to build") && forall m :: 0 <= m < i ==> r[m].heading != Some("## What to build")
    else i <= |r| && forall m :: 0 <= m < i ==> r[m].heading.None?
  }

  lemma PlaceOfParent(r: seq<Section>)
    ensures AtWhatToBuild(r, ParentPlace(r))
  {
    FindOne(r, WhatToBuild);
    HeadingsFrom(r);
    assert forall m :: 0 <= m < |r| ==> (Matches(WhatToBuild, r[m].heading) <==> r[m].heading == Some("## What to build"));
  }

  /** Taking the blockers out leaves the place where it was. */
  lemma Thinned(r: seq<Section>, i: nat, s: Section)
    requires i <= |r| && AtWhatToBuild(r, i)
    ensures
      var before := Without(r[..i], BlockedBy);
      var others := before + [s] + Without(r[i..], BlockedBy);
      if HasHeading(r, "## What to build") then
        |before| + 1 < |others| && others[|before| + 1].heading == Some("## What to build")
        && forall m :: 0 <= m < |before| ==> others[m].heading != Some("## What to build")
      else forall m :: 0 <= m < |before| ==> others[m].heading.None?
  {
    var before, after := Without(r[..i], BlockedBy), Without(r[i..], BlockedBy);
    WithoutMembers(r[..i], BlockedBy);
    assert forall m :: 0 <= m < |before| ==> before[m] in before;
    if HasHeading(r, "## What to build") {
      assert after[0] == r[i];
    }
  }

  lemma NotInBetween(others: seq<Section>, j: nat, k: nat, p: string, build: bool)
    requires ParentPlaced(others, j, p, build) && BlockersPlaced(others, k)
    ensures if build then k != j + 1 else k > j
  {
    FixedHeadings();
    assert !TouchesFiles(others[j]);
  }

  lemma ParentShifted(others: seq<Section>, j: nat, k: nat, p: string, c: string, build: bool)
    requires ParentPlaced(others, j, p, build) && k <= |others| && if build then k != j + 1 else k > j
    ensures ParentPlaced(Insert(others, k, BlockedSection(c)), if k <= j then j + 1 else j, p, build)
  {
    InsertedAt(others, k, BlockedSection(c));
  }

  /**
   * The parent stands directly in front of the draft's section on what to build, and without one in front of every other
   * heading; inserting the blockers does not come between.
   */
  lemma ParentStands(ss: seq<Section>, p: string, c: string) returns (j: nat)
    ensures var e := Edited(ss, p, c);
            j < |e| && e[j] == ParentSection(p)
    ensures var e := Edited(ss, p, c);
            if HasHeading(ss, "## What to build") then
              j + 1 < |e| && e[j + 1].heading == Some("## What to build") && forall i :: 0 <= i < j ==> e[i].heading != Some("## What to build")
            else forall i :: 0 <= i < j ==> e[i].heading.None?
  {
    var others, build := Without(WithParent(ss, p), BlockedBy), HasHeading(ss, "## What to build");
    var j0 := ParentIsPlaced(ss, p);
    var k := BlockedPlace(others);
    PlacedByBlockedPlace(others);
    NotInBetween(others, j0, k, p, build);
    ParentShifted(others, j0, k, p, c, build);
    j := if k <= j0 then j0 + 1 else j0;
  }
}
