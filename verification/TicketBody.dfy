/** The body of a filed ticket: its parent and its blockers written into the draft's sections. */
module TicketBody {
  import opened Outcomes
  import opened Text
  import opened SectionedMarkdown
  import opened SessionRecords

  const Parent := "## Parent"
  const BlockedBy := "## Blocked by"
  const WhatToBuild := Exact("## What to build")
  const Criteria := Exact("## Acceptance criteria")
  const FilesTouched := Substring("Files touched")

  function ParentSection(p: string): Section { Section(Some(Parent), p) }

  function BlockedSection(c: string): Section { Section(Some(BlockedBy), c) }

  function WithParent(ss: seq<Section>, p: string): seq<Section>
  {
    Upserted(ss, ParentSection(p), [WhatToBuild], false, Prepend)
  }

  function ParentPlace(others: seq<Section>): (r: nat)
    ensures r <= |others|
  {
    Place(others, [WhatToBuild], false, Prepend).value
  }

  /** After the acceptance criteria; failing that before the touched files; failing that at the end. */
  function BlockedPlace(others: seq<Section>): (r: nat)
    ensures r <= |others|
  {
    var i, j := First(others, Criteria), First(others, FilesTouched);
    if i >= 0 then i + 1 else if j >= 0 then j else |others|
  }

  function WithBlocked(ss: seq<Section>, c: string): seq<Section>
  {
    var others := Without(ss, BlockedBy);
    Insert(others, BlockedPlace(others), BlockedSection(c))
  }

  function Edited(ss: seq<Section>, p: string, c: string): seq<Section>
  {
    WithBlocked(WithParent(ss, p), c)
  }

  function Body(base: string, p: string, c: string): string
  {
    Render(Edited(Parse(base), p, c))
  }

  // ---------- what is written ----------

  function Ref(n: nat): string { "#" + Decimal(n) }

  function Refs(ns: seq<nat>): seq<string>
  {
    if ns == [] then [] else [Ref(ns[0])] + Refs(ns[1..])
  }

  function BlockedText(ns: seq<nat>): string
  {
    if ns == [] then "None \U{2014} can start immediately." else Join(Refs(ns), ", ")
  }

  function Numbers(handles: seq<string>, filed: map<string, FiledTicket>): (r: seq<nat>)
    requires forall h :: h in handles ==> h in filed
    ensures |r| == |handles|
  {
    if handles == [] then []
    else [filed[handles[0]].number] + Numbers(handles[1..], filed)
  }

  lemma {:induction false} NumbersAppend(a: seq<string>, h: string, filed: map<string, FiledTicket>)
    requires forall x :: x in a + [h] ==> x in filed
    ensures forall x :: x in a ==> x in filed
    ensures h in filed && Numbers(a + [h], filed) == Numbers(a, filed) + [filed[h].number]
  {
    assert h in a + [h];
    assert forall x :: x in a ==> x in a + [h];
    if a == [] {
      assert a + [h] == [h] && [h][1..] == [];
    } else {
      assert (a + [h])[1..] == a[1..] + [h];
      NumbersAppend(a[1..], h, filed);
    }
  }

  /** pycastle's `_render_ticket_body`. Err carries the first blocker that is not among the filed issues. */
  method RenderTicketBody(base: string, spec: nat, blockedBy: seq<string>, filed: map<string, FiledTicket>, extra: seq<nat>)
    returns (r: Result<string, string>)
    ensures r.Ok? <==> forall h :: h in blockedBy ==> h in filed
    ensures r.Ok? ==> r.value == Body(base, Ref(spec), BlockedText(Numbers(blockedBy, filed) + extra))
    ensures r.Err? ==> r.error in blockedBy && r.error !in filed
  {
    var numbers := BlockerNumbers(blockedBy, filed);
    if numbers.Err? {
      return Err(numbers.error);
    }
    var text := EditBody(base, Ref(spec), BlockedText(numbers.value + extra));
    return Ok(text);
  }

  method BlockerNumbers(blockedBy: seq<string>, filed: map<string, FiledTicket>) returns (r: Result<seq<nat>, string>)
    ensures r.Ok? <==> forall h :: h in blockedBy ==> h in filed
    ensures r.Ok? ==> r.value == Numbers(blockedBy, filed)
    ensures r.Err? ==> r.error in blockedBy && r.error !in filed
  {
    var numbers: seq<nat> := [];
    for i := 0 to |blockedBy|
      invariant forall h :: h in blockedBy[..i] ==> h in filed
      invariant numbers == Numbers(blockedBy[..i], filed)
    {
      if blockedBy[i] !in filed {
        return Err(blockedBy[i]);
      }
      assert blockedBy[..i + 1] == blockedBy[..i] + [blockedBy[i]];
      NumbersAppend(blockedBy[..i], blockedBy[i], filed);
      numbers := numbers + [filed[blockedBy[i]].number];
    }
    assert blockedBy[..|blockedBy|] == blockedBy;
    return Ok(numbers);
  }

  method EditBody(base: string, parent: string, blocked: string) returns (text: string)
    ensures text == Body(base, parent, blocked)
  {
    var body := new SectionedMarkdownBody(base);
    var _ := body.UpsertBefore(Parent, parent, [WhatToBuild], Prepend);
    ghost var before := body.sections;
    var ok := body.UpsertAfter(BlockedBy, blocked, [Criteria], Raise);
    if !ok {
      WithoutAgain(before, BlockedBy);
      ok := body.UpsertBefore(BlockedBy, blocked, [FilesTouched], Append);
    }
    FindOne(Without(before, BlockedBy), Criteria);
    FindOne(Without(before, BlockedBy), FilesTouched);
    text := body.Show();
  }

  lemma FindOne(ss: seq<Section>, anchor: Anchor)
    ensures FindAnchor(ss, [anchor]) == First(ss, anchor)
  {
    assert FindAnchor(ss, [anchor][1..]) == -1;
  }

  // ---------- removing headings ----------

  lemma {:induction false} WithoutMembers(ss: seq<Section>, h: string)
    ensures forall s :: s in Without(ss, h) <==> s in ss && s.heading != Some(h)
  {
    if ss != [] {
      WithoutMembers(ss[1..], h);
      assert ss == [ss[0]] + ss[1..];
    }
  }

  lemma {:induction false} WithoutNothing(ss: seq<Section>, h: string)
    requires forall s :: s in ss ==> s.heading != Some(h)
    ensures Without(ss, h) == ss
  {
    if ss != [] {
      WithoutNothing(ss[1..], h);
    }
  }

  lemma WithoutAgain(ss: seq<Section>, h: string)
    ensures Without(Without(ss, h), h) == Without(ss, h)
  {
    WithoutMembers(ss, h);
    WithoutNothing(Without(ss, h), h);
  }

  lemma {:induction false} WithoutCommutes(ss: seq<Section>, g: string, h: string)
    ensures Without(Without(ss, g), h) == Without(Without(ss, h), g)
  {
    if ss != [] {
      WithoutCommutes(ss[1..], g, h);
    }
  }

  lemma WithoutAround(a: seq<Section>, s: Section, b: seq<Section>, h: string)
    ensures Without(a + [s] + b, h) == Without(a, h) + (if s.heading == Some(h) then [] else [s]) + Without(b, h)
    ensures Without(a + b, h) == Without(a, h) + Without(b, h)
  {
    WithoutAppend(a + [s], b, h);
    WithoutAppend(a, [s], h);
    WithoutAppend(a, b, h);
    WithoutOne(s, h);
  }

  lemma WithoutInsert(ss: seq<Section>, i: nat, s: Section, h: string)
    requires i <= |ss|
    ensures s.heading == Some(h) ==> Without(Insert(ss, i, s), h) == Without(ss, h)
    ensures s.heading != Some(h) ==> Without(Insert(ss, i, s), h) == Without(ss[..i], h) + [s] + Without(ss[i..], h)
    ensures Without(ss, h) == Without(ss[..i], h) + Without(ss[i..], h)
  {
    assert ss == ss[..i] + ss[i..];
    WithoutAround(ss[..i], s, ss[i..], h);
    assert Without(ss[..i], h) + [] == Without(ss[..i], h);
  }

  /** The sections that are neither the parent nor the blockers. */
  function Core(ss: seq<Section>): seq<Section>
  {
    Without(Without(ss, Parent), BlockedBy)
  }

  lemma WithParentRest(ss: seq<Section>, p: string)
    ensures Without(WithParent(ss, p), Parent) == Without(ss, Parent)
  {
    var others := Without(ss, Parent);
    var i := ParentPlace(others);
    WithoutInsert(others, i, ParentSection(p), Parent);
    WithoutAgain(ss, Parent);
  }

  lemma WithBlockedRest(ss: seq<Section>, c: string)
    ensures Without(WithBlocked(ss, c), BlockedBy) == Without(ss, BlockedBy)
  {
    var others := Without(ss, BlockedBy);
    WithoutInsert(others, BlockedPlace(others), BlockedSection(c), BlockedBy);
    WithoutAgain(ss, BlockedBy);
  }

  /** Editing neither loses, reorders nor changes any other section. */
  lemma EditKeepsTheRest(ss: seq<Section>, p: string, c: string)
    ensures Core(Edited(ss, p, c)) == Core(ss)
  {
    WithParentRest(ss, p);
    WithBlockedRest(WithParent(ss, p), c);
    WithoutCommutes(Edited(ss, p, c), Parent, BlockedBy);
    WithoutCommutes(WithParent(ss, p), Parent, BlockedBy);
  }

  // ---------- exactly one of each ----------

  function Only(ss: seq<Section>, h: string): seq<Section>
  {
    if ss == [] then [] else if ss[0].heading == Some(h) then [ss[0]] + Only(ss[1..], h) else Only(ss[1..], h)
  }

  lemma {:induction false} OnlyAppend(a: seq<Section>, b: seq<Section>, h: string)
    ensures Only(a + b, h) == Only(a, h) + Only(b, h)
  {
    if a == [] {
      assert a + b == b;
    } else {
      OnlyAppend(a[1..], b, h);
      assert (a + b)[1..] == a[1..] + b;
      var x, y := Only(a[1..], h), Only(b, h);
      if a[0].heading == Some(h) {
        assert Only(a + b, h) == [a[0]] + (x + y);
      }
    }
  }

  lemma OnlyOne(s: Section, h: string)
    ensures Only([s], h) == if s.heading == Some(h) then [s] else []
  {
    assert Only([s][1..], h) == [];
  }

  lemma OnlyAround(a: seq<Section>, s: Section, b: seq<Section>, h: string)
    ensures Only(a + [s] + b, h) == Only(a, h) + (if s.heading == Some(h) then [s] else []) + Only(b, h)
  {
    var front := a + [s];
    OnlyAppend(front, b, h);
    OnlyAppend(a, [s], h);
    OnlyOne(s, h);
  }

  lemma OnlyInsert(ss: seq<Section>, i: nat, s: Section, h: string)
    requires i <= |ss|
    ensures s.heading != Some(h) ==> Only(Insert(ss, i, s), h) == Only(ss, h)
    ensures s.heading == Some(h) && Only(ss, h) == [] ==> Only(Insert(ss, i, s), h) == [s]
  {
    assert ss == ss[..i] + ss[i..];
    OnlyAround(ss[..i], s, ss[i..], h);
    OnlyAppend(ss[..i], ss[i..], h);
    assert Only(ss[..i], h) + [] == Only(ss[..i], h);
  }

  lemma {:induction false} OnlyWithout(ss: seq<Section>, g: string, h: string)
    ensures Only(Without(ss, g), h) == if g == h then [] else Only(ss, h)
  {
    if ss != [] {
      OnlyWithout(ss[1..], g, h);
    }
  }

  /** One parent section and one section of blockers, holding what was asked for. */
  lemma ExactlyOneOfEach(ss: seq<Section>, p: string, c: string)
    ensures Only(Edited(ss, p, c), Parent) == [ParentSection(p)]
    ensures Only(Edited(ss, p, c), BlockedBy) == [BlockedSection(c)]
  {
    var r := Without(ss, Parent);
    OnlyWithout(ss, Parent, Parent);
    OnlyInsert(r, ParentPlace(r), ParentSection(p), Parent);
    var mid := WithParent(ss, p);
    var others := Without(mid, BlockedBy);
    OnlyWithout(mid, BlockedBy, Parent);
    OnlyWithout(mid, BlockedBy, BlockedBy);
    var at := BlockedPlace(others);
    OnlyInsert(others, at, BlockedSection(c), Parent);
    OnlyInsert(others, at, BlockedSection(c), BlockedBy);
  }

  // ---------- where the sections go ----------

  lemma FirstIs(ss: seq<Section>, anchor: Anchor, i: nat)
    requires i < |ss| && Matches(anchor, ss[i].heading)
    requires forall k :: 0 <= k < i ==> !Matches(anchor, ss[k].heading)
    ensures First(ss, anchor) == i
  {
  }

  /** The place of the parent section among the other ones. */
  function CorePlace(core: seq<Section>, headed: bool): (r: nat)
    ensures r <= |core|
  {
    var i := First(core, WhatToBuild);
    if i >= 0 then i else if headed && core != [] && core[0].heading.None? then 1 else 0
  }

  predicate LeadOnly(ss: seq<Section>)
  {
    forall i :: 0 <= i < |ss| ==> ss[i].heading.None? ==> i == 0
  }

  lemma FirstHeadingOf(ss: seq<Section>)
    requires LeadOnly(ss)
    ensures FirstHeading(ss) == if ss != [] && ss[0].heading.Some? then 0 else if |ss| > 1 then 1 else -1
  {
    if ss != [] {
      var i := if ss[0].heading.Some? then 0 else 1;
      if i < |ss| {
        assert "" <= ss[i].heading.value[0..];
        FirstIs(ss, Substring(""), i);
      }
    }
  }

  lemma {:induction false} LeadOnlyWithout(ss: seq<Section>, h: string)
    requires LeadOnly(ss)
    ensures LeadOnly(Without(ss, h))
    ensures ss != [] && ss[0].heading.None? ==> Without(ss, h) == [ss[0]] + Without(ss[1..], h)
    ensures ss != [] && ss[0].heading.Some? ==> Headed(Without(ss, h))
  {
    if ss != [] {
      var rest := Without(ss[1..], h);
      WithoutMembers(ss[1..], h);
      assert forall i :: 0 <= i < |ss[1..]| ==> ss[1..][i] == ss[i + 1];
      forall i | 0 <= i < |rest|
        ensures rest[i].heading.Some?
      {
        assert rest[i] in rest;
      }
    }
  }

  /** Taking the blockers out moves the parent's place with the sections in front of it. */
  lemma PlaceInCore(r: seq<Section>)
    requires LeadOnly(r)
    ensures |Without(r[..ParentPlace(r)], BlockedBy)| ==
            CorePlace(Without(r, BlockedBy), FirstHeading(r) >= 0)
  {
    var i := ParentPlace(r);
    FindOne(r, WhatToBuild);
    WithoutInsert(r, i, ParentSection(""), BlockedBy);
    var before, after := Without(r[..i], BlockedBy), Without(r[i..], BlockedBy);
    var core := Without(r, BlockedBy);
    assert core == before + after;
    if First(r, WhatToBuild) >= 0 {
      WithoutMembers(r[..i], BlockedBy);
      assert after[0] == r[i];
      forall k | 0 <= k < |before|
        ensures !Matches(WhatToBuild, core[k].heading)
      {
        assert before[k] in before;
      }
      FirstIs(core, WhatToBuild, |before|);
    } else {
      PlaceInCoreUnanchored(r);
    }
  }

  lemma PlaceInCoreUnanchored(r: seq<Section>)
    requires LeadOnly(r) && First(r, WhatToBuild) < 0
    ensures |Without(r[..ParentPlace(r)], BlockedBy)| ==
            CorePlace(Without(r, BlockedBy), FirstHeading(r) >= 0)
  {
    var core := Without(r, BlockedBy);
    FindOne(r, WhatToBuild);
    FirstHeadingOf(r);
    LeadOnlyWithout(r, BlockedBy);
    WithoutMembers(r, BlockedBy);
    forall k | 0 <= k < |core|
      ensures !Matches(WhatToBuild, core[k].heading)
    {
      assert core[k] in core;
    }
    if FirstHeading(r) == 1 {
      assert r[..1] == [r[0]];
      WithoutOne(r[0], BlockedBy);
    }
  }

  predicate HeadedBeside(ss: seq<Section>)
  {
    exists s :: s in ss && s.heading.Some? && s.heading.value != Parent
  }

  lemma HeadedBesideParent(ss: seq<Section>)
    requires LeadOnly(ss)
    ensures FirstHeading(Without(ss, Parent)) >= 0 <==> HeadedBeside(ss)
  {
    var r := Without(ss, Parent);
    WithoutMembers(ss, Parent);
    if HeadedBeside(ss) {
      var s :| s in ss && s.heading.Some? && s.heading.value != Parent;
      var i :| 0 <= i < |r| && r[i] == s;
      assert "" <= r[i].heading.value[0..];
    }
    if FirstHeading(r) >= 0 {
      assert r[FirstHeading(r)] in r;
    }
  }

  /** Where everything goes is decided by the other sections, and by whether there is a heading to go before. */
  lemma EditedFromCore(ss: seq<Section>, p: string, c: string)
    requires LeadOnly(ss)
    ensures Edited(ss, p, c) ==
            WithBlocked(Insert(Core(ss), CorePlace(Core(ss), HeadedBeside(ss)), ParentSection(p)), c)
  {
    var r := Without(ss, Parent);
    var i := ParentPlace(r);
    LeadOnlyWithout(ss, Parent);
    PlaceInCore(r);
    HeadedBesideParent(ss);
    WithoutInsert(r, i, ParentSection(p), BlockedBy);
    var before, after := Without(r[..i], BlockedBy), Without(r[i..], BlockedBy);
    assert Insert(Core(ss), |before|, ParentSection(p)) == before + [ParentSection(p)] + after;
    WithoutAgain(WithParent(ss, p), BlockedBy);
  }

  /** Nothing without a heading would come to stand behind the parent section. */
  predicate Editable(ss: seq<Section>)
  {
    HeadedBeside(ss) || forall s :: s in ss ==> s.heading.Some?
  }

  lemma {:induction false} WithoutAll(ss: seq<Section>)
    requires forall s :: s in ss ==> s.heading == Some(Parent)
    ensures Without(ss, Parent) == []
  {
    if ss != [] {
      assert ss[0] in ss;
      WithoutAll(ss[1..]);
    }
  }

  lemma EditTwice(ss: seq<Section>, p: string, c: string)
    requires LeadOnly(ss) && Editable(ss)
    ensures Edited(Edited(ss, p, c), p, c) == Edited(ss, p, c)
  {
    var e := Edited(ss, p, c);
    EditKeepsTheRest(ss, p, c);
    EditedFromCore(ss, p, c);
    EditedLeadOnly(ss, p, c);
    EditedFromCore(e, p, c);
    ExactlyOneOfEach(ss, p, c);
    OnlyMembers(e, BlockedBy);
    assert BlockedSection(c) in e;
    if !HeadedBeside(ss) {
      WithoutAll(ss);
    }
  }

  lemma {:induction false} OnlyMembers(ss: seq<Section>, h: string)
    ensures forall s :: s in Only(ss, h) ==> s in ss
  {
    if ss != [] {
      OnlyMembers(ss[1..], h);
    }
  }

  lemma InsertLeadOnly(ss: seq<Section>, i: nat, s: Section)
    requires LeadOnly(ss) && i <= |ss| && s.heading.Some?
    requires i == 0 ==> Headed(ss)
    ensures LeadOnly(Insert(ss, i, s))
  {
    var r := Insert(ss, i, s);
    forall k | 0 <= k < |r|
      ensures r[k].heading.None? ==> k == 0
    {
      if k < i {
        assert r[k] == ss[k];
      } else if k > i {
        assert r[k] == ss[k - 1];
      }
    }
  }

  lemma LeadIsHeaded(ss: seq<Section>)
    requires LeadOnly(ss)
    ensures (ss != [] && ss[0].heading.None?) || Headed(ss)
  {
  }

  lemma WithParentLeadOnly(ss: seq<Section>, p: string)
    requires LeadOnly(ss) && Editable(ss)
    ensures LeadOnly(WithParent(ss, p))
  {
    var r := Without(ss, Parent);
    var i := ParentPlace(r);
    LeadOnlyWithout(ss, Parent);
    HeadedBesideParent(ss);
    FindOne(r, WhatToBuild);
    FirstHeadingOf(r);
    LeadIsHeaded(r);
    if !HeadedBeside(ss) {
      WithoutAll(ss);
    }
    InsertLeadOnly(r, i, ParentSection(p));
  }

  lemma WithBlockedLeadOnly(ss: seq<Section>, c: string)
    requires LeadOnly(ss)
    ensures LeadOnly(WithBlocked(ss, c))
  {
    var others := Without(ss, BlockedBy);
    LeadOnlyWithout(ss, BlockedBy);
    LeadIsHeaded(others);
    InsertLeadOnly(others, BlockedPlace(others), BlockedSection(c));
  }

  lemma EditedLeadOnly(ss: seq<Section>, p: string, c: string)
    requires LeadOnly(ss) && Editable(ss)
    ensures LeadOnly(Edited(ss, p, c))
  {
    WithParentLeadOnly(ss, p);
    WithBlockedLeadOnly(WithParent(ss, p), c);
  }

  // ---------- contents ----------

  /** A text that is one line, printed as it stands, and no heading. */
  predicate PlainText(t: string)
  {
    OneLine(t) && t != "" && Strip(t) == t && !IsHeading(t)
  }

  /** The sections the printer can print so that the parser finds them again. */
  predicate Printable(s: Section)
  {
    ShapedSection(s) && !IsHeading(Strip(s.content))
  }

  lemma PlainIsPrintable(h: string, t: string)
    requires PlainText(t) && IsHeading(h) && OneLine(h)
    ensures Printable(Section(Some(h), t))
  {
    assert forall i :: 0 <= i < |t| ==> t[i] in t;
  }

  lemma InsertMembers(ss: seq<Section>, i: nat, s: Section)
    requires i <= |ss|
    ensures forall x :: x in Insert(ss, i, s) <==> x in ss || x == s
  {
    assert ss == ss[..i] + ss[i..];
  }

  lemma EditedMembers(ss: seq<Section>, p: string, c: string)
    ensures forall s :: s in Edited(ss, p, c) ==> s in ss || s == ParentSection(p) || s == BlockedSection(c)
  {
    var r, mid := Without(ss, Parent), WithParent(ss, p);
    WithoutMembers(ss, Parent);
    InsertMembers(r, ParentPlace(r), ParentSection(p));
    WithoutMembers(mid, BlockedBy);
    var others := Without(mid, BlockedBy);
    InsertMembers(others, BlockedPlace(others), BlockedSection(c));
  }

  predicate AllPrintable(ss: seq<Section>)
  {
    forall s :: s in ss ==> Printable(s)
  }

  lemma PrintableMeans(ss: seq<Section>)
    ensures AllPrintable(ss) && LeadOnly(ss) <==> Shaped(ss) && NoHidden(ss)
  {
    if AllPrintable(ss) {
      assert forall i :: 0 <= i < |ss| ==> ss[i] in ss;
    }
  }

  lemma EditedPrintable(ss: seq<Section>, p: string, c: string)
    requires AllPrintable(ss) && PlainText(p) && PlainText(c)
    ensures AllPrintable(Edited(ss, p, c))
  {
    EditedMembers(ss, p, c);
    PlainIsPrintable(Parent, p);
    PlainIsPrintable(BlockedBy, c);
  }

  // ---------- what the printer does not show does not matter ----------

  lemma {:induction false} SimilarWithout(a: seq<Section>, b: seq<Section>, h: string)
    requires Similar(a, b)
    ensures Similar(Without(a, h), Without(b, h))
  {
    if a != [] {
      assert a[0].heading == b[0].heading && Strip(a[0].content) == Strip(b[0].content);
      assert Similar(a[1..], b[1..]);
      SimilarWithout(a[1..], b[1..], h);
      if a[0].heading != Some(h) {
        SimilarLead(a[0].heading, a[0].content, Without(a[1..], h), Without(b, h));
      }
    }
  }

  lemma SimilarFirst(a: seq<Section>, b: seq<Section>, anchor: Anchor)
    requires Similar(a, b)
    ensures First(a, anchor) == First(b, anchor)
  {
    var i, j := First(a, anchor), First(b, anchor);
    assert forall k :: 0 <= k < |a| ==> Matches(anchor, a[k].heading) == Matches(anchor, b[k].heading);
  }

  lemma SimilarInsert(a: seq<Section>, b: seq<Section>, i: nat, s: Section)
    requires Similar(a, b) && i <= |a|
    ensures Similar(Insert(a, i, s), Insert(b, i, s))
  {
    var x, y := Insert(a, i, s), Insert(b, i, s);
    forall k | 0 <= k < |x|
      ensures x[k].heading == y[k].heading && Strip(x[k].content) == Strip(y[k].content)
    {
      if k < i {
        assert x[k] == a[k] && y[k] == b[k];
      } else if k > i {
        assert x[k] == a[k - 1] && y[k] == b[k - 1];
      }
    }
  }

  lemma SimilarEdited(a: seq<Section>, b: seq<Section>, p: string, c: string)
    requires Similar(a, b)
    ensures Similar(Edited(a, p, c), Edited(b, p, c))
  {
    var ra, rb := Without(a, Parent), Without(b, Parent);
    SimilarWithout(a, b, Parent);
    FindOne(ra, WhatToBuild);
    FindOne(rb, WhatToBuild);
    SimilarFirst(ra, rb, WhatToBuild);
    SimilarFirst(ra, rb, Substring(""));
    SimilarInsert(ra, rb, ParentPlace(ra), ParentSection(p));
    SimilarBlocked(WithParent(a, p), WithParent(b, p), c);
  }

  lemma SimilarBlocked(a: seq<Section>, b: seq<Section>, c: string)
    requires Similar(a, b)
    ensures Similar(WithBlocked(a, c), WithBlocked(b, c))
  {
    var ra, rb := Without(a, BlockedBy), Without(b, BlockedBy);
    SimilarWithout(a, b, BlockedBy);
    SimilarFirst(ra, rb, Criteria);
    SimilarFirst(ra, rb, FilesTouched);
    var at := BlockedPlace(ra);
    assert BlockedPlace(rb) == at;
    SimilarInsert(ra, rb, at, BlockedSection(c));
    assert WithBlocked(a, c) == Insert(ra, at, BlockedSection(c)) && WithBlocked(b, c) == Insert(rb, at, BlockedSection(c));
  }

  // ---------- editing the printed body again ----------

  /** The second round's parser finds the sections of the first round, or fewer by a blank lead. */
  lemma AgainIsVisible(e: seq<Section>, p: string, c: string)
    requires Shaped(e) && NoHidden(e)
    ensures Body(Render(e), p, c) == Render(Edited(Visible(e), p, c))
  {
    var v := Visible(e);
    VisibleShape(e);
    RenderVisible(e);
    ParseOfRender(v);
    SimilarEdited(Parse(Render(v)), v, p, c);
    SimilarRender(Edited(Parse(Render(v)), p, c), Edited(v, p, c));
  }

  /** A text before the first heading stays in front. */
  lemma EditedBehindLead(ss: seq<Section>, p: string, c: string)
    requires LeadOnly(ss) && ss != [] && ss[0].heading.None? && HeadedBeside(ss)
    ensures Edited(ss, p, c) == [ss[0]] + Edited(ss[1..], p, c)
  {
    var r, t := Without(ss, Parent), Without(ss[1..], Parent);
    LeadOnlyWithout(ss, Parent);
    FirstBehindLead(ss[0], t, WhatToBuild);
    FirstBehindLead(ss[0], t, Substring(""));
    FindOne(r, WhatToBuild);
    FindOne(t, WhatToBuild);
    HeadedBesideParent(ss);
    assert ParentPlace(r) == ParentPlace(t) + 1;
    InsertBehindLead(ss[0], t, ParentPlace(t), ParentSection(p));
    BlockedBehindLead(ss[0], WithParent(ss[1..], p), c);
  }

  lemma FirstBehindLead(lead: Section, t: seq<Section>, anchor: Anchor)
    requires lead.heading.None?
    ensures First([lead] + t, anchor) == if First(t, anchor) < 0 then -1 else First(t, anchor) + 1
  {
    assert ([lead] + t)[1..] == t;
  }

  lemma InsertBehindLead(lead: Section, t: seq<Section>, i: nat, s: Section)
    requires i <= |t|
    ensures Insert([lead] + t, i + 1, s) == [lead] + Insert(t, i, s)
  {
    var all := [lead] + t;
    assert all[..i + 1] == [lead] + t[..i] && all[i + 1..] == t[i..];
  }

  lemma BlockedBehindLead(lead: Section, t: seq<Section>, c: string)
    requires lead.heading.None?
    ensures WithBlocked([lead] + t, c) == [lead] + WithBlocked(t, c)
  {
    var others := Without(t, BlockedBy);
    WithoutAppend([lead], t, BlockedBy);
    WithoutOne(lead, BlockedBy);
    FirstBehindLead(lead, others, Criteria);
    FirstBehindLead(lead, others, FilesTouched);
    assert |[lead] + others| == |others| + 1;
    InsertBehindLead(lead, others, BlockedPlace(others), BlockedSection(c));
  }

  lemma EditableAgain(ss: seq<Section>, p: string, c: string)
    requires Shaped(ss) && NoHidden(ss) && Editable(ss) && PlainText(p) && PlainText(c)
    ensures Body(Render(Edited(ss, p, c)), p, c) == Render(Edited(ss, p, c))
  {
    var e := Edited(ss, p, c);
    PrintableMeans(ss);
    EditedPrintable(ss, p, c);
    EditedLeadOnly(ss, p, c);
    PrintableMeans(e);
    AgainIsVisible(e, p, c);
    EditTwice(ss, p, c);
    RenderVisible(e);
    if Visible(e) != e {
      ExactlyOneOfEach(ss, p, c);
      OnlyMembers(e, BlockedBy);
      assert BlockedSection(c) in e;
      EditedBehindLead(e, p, c);
    }
  }

  /** Without any other heading the parent section is put before the text, which becomes its content. */
  lemma LoneLead(ss: seq<Section>, p: string, c: string)
    requires LeadOnly(ss) && ss != [] && ss[0].heading.None? && !HeadedBeside(ss)
    ensures Edited(ss, p, c) == [ParentSection(p), ss[0], BlockedSection(c)]
  {
    var lead := ss[0];
    LeadOnlyWithout(ss, Parent);
    assert forall s :: s in ss[1..] ==> s in ss;
    WithoutAll(ss[1..]);
    FindOne([lead], WhatToBuild);
    FirstBehindLead(lead, [], WhatToBuild);
    FirstBehindLead(lead, [], Substring(""));
    assert [lead] + [] == [lead];
    assert WithParent(ss, p) == [ParentSection(p), lead];
    var mid := [ParentSection(p), lead];
    WithoutMembers(mid, BlockedBy);
    WithoutNothing(mid, BlockedBy);
    NoTouchedFiles(mid);
  }

  lemma NoTouchedFiles(mid: seq<Section>)
    requires |mid| == 2 && mid[0].heading == Some(Parent) && mid[1].heading.None?
    ensures BlockedPlace(mid) == 2
  {
    assert First(mid, FilesTouched) == -1 by {
      assert !Contains(Parent, "Files touched");
    }
  }

  predicate Keepable(ss: seq<Section>)
  {
    HeadedBeside(ss) || ss == [] || ss[0].heading.Some? || Strip(ss[0].content) == ""
  }

  lemma KeptWhenKeepable(ss: seq<Section>, p: string, c: string)
    requires Shaped(ss) && NoHidden(ss) && Keepable(ss) && PlainText(p) && PlainText(c)
    ensures Body(Render(Edited(ss, p, c)), p, c) == Render(Edited(ss, p, c))
  {
    if Editable(ss) {
      EditableAgain(ss, p, c);
    } else {
      LeadIsHeaded(ss);
      BlankLeadVanishes(ss, p, c);
      ShapedTail(ss);
      assert forall s :: s in ss[1..] ==> s in ss;
      EditableAgain(ss[1..], p, c);
    }
  }

  lemma BlankLeadVanishes(ss: seq<Section>, p: string, c: string)
    requires LeadOnly(ss) && ss != [] && ss[0].heading.None? && !HeadedBeside(ss) && Strip(ss[0].content) == ""
    ensures Render(Edited(ss, p, c)) == Render(Edited(ss[1..], p, c))
  {
    LoneLead(ss, p, c);
    assert forall s :: s in ss[1..] ==> s in ss;
    EditedNothing(ss[1..], p, c);
    PartsOfThree(p, ss[0], c);
    PartsOfTwo(ParentSection(p), BlockedSection(c));
  }

  lemma EditedNothing(ss: seq<Section>, p: string, c: string)
    requires forall s :: s in ss ==> s.heading == Some(Parent)
    ensures Edited(ss, p, c) == [ParentSection(p), BlockedSection(c)]
  {
    WithoutAll(ss);
    assert WithParent(ss, p) == [ParentSection(p)];
    WithoutNothing([ParentSection(p)], BlockedBy);
    assert !Contains(Parent, "Files touched");
  }

  lemma PartsOfOne(s: Section)
    ensures Parts([s]) == if s.heading.Some? then [PrintedHead(s.heading.value, Strip(s.content))]
                          else if Strip(s.content) == "" then [] else [Strip(s.content)]
  {
    assert Parts([s][1..]) == [];
  }

  lemma PartsOfTwo(a: Section, b: Section)
    ensures Parts([a, b]) == Parts([a]) + Parts([b])
  {
    PartsOfOne(a);
    assert [a, b][1..] == [b];
  }

  lemma PartsOfThree(p: string, lead: Section, c: string)
    ensures Parts([ParentSection(p), lead, BlockedSection(c)]) == Parts([ParentSection(p)]) + Parts([lead]) + Parts([BlockedSection(c)])
  {
    PartsOfOne(ParentSection(p));
    PartsOfTwo(lead, BlockedSection(c));
    assert [ParentSection(p), lead, BlockedSection(c)][1..] == [lead, BlockedSection(c)];
  }

  /** The parent section once it has swallowed the text. */
  function Swollen(p: string, lead: string): Section
  {
    ParentSection(p + "\n\n" + Strip(lead))
  }

  lemma SwollenPrints(p: string, lead: Section, c: string)
    requires lead.heading.None? && Strip(lead.content) != "" && PlainText(p)
    ensures Render([ParentSection(p), lead, BlockedSection(c)]) == Render([Swollen(p, lead.content), BlockedSection(c)])
    ensures |Render([ParentSection(p), lead, BlockedSection(c)])| > |Render([ParentSection(p), BlockedSection(c)])|
  {
    var x, y, z := PrintedHead(Parent, p), Strip(lead.content), PrintedHead(BlockedBy, Strip(c));
    RenderThree(p, lead, c);
    RenderTwo(p, c);
    SwollenStrips(p, lead.content);
    RenderTwo(Swollen(p, lead.content).content, c);
    assert PrintedHead(Parent, Swollen(p, lead.content).content) == x + "\n\n" + y;
  }

  lemma RenderTwo(p: string, c: string)
    ensures Render([ParentSection(p), BlockedSection(c)]) == PrintedHead(Parent, Strip(p)) + "\n\n" + PrintedHead(BlockedBy, Strip(c))
  {
    PartsOfTwo(ParentSection(p), BlockedSection(c));
    PartsOfOne(ParentSection(p));
    PartsOfOne(BlockedSection(c));
    var x, z := PrintedHead(Parent, Strip(p)), PrintedHead(BlockedBy, Strip(c));
    assert [x] + [z] == [x, z];
    JoinTwo(x, z);
  }

  lemma RenderThree(p: string, lead: Section, c: string)
    requires lead.heading.None? && Strip(lead.content) != ""
    ensures Render([ParentSection(p), lead, BlockedSection(c)]) ==
            PrintedHead(Parent, Strip(p)) + "\n\n" + Strip(lead.content) + "\n\n" + PrintedHead(BlockedBy, Strip(c))
  {
    PartsOfThree(p, lead, c);
    PartsOfOne(ParentSection(p));
    PartsOfOne(lead);
    PartsOfOne(BlockedSection(c));
    JoinThree(PrintedHead(Parent, Strip(p)), Strip(lead.content), PrintedHead(BlockedBy, Strip(c)));
  }

  lemma JoinTwo(a: string, b: string)
    ensures Join([a, b], "\n\n") == a + "\n\n" + b
  {
    assert [a, b][1..] == [b];
  }

  lemma JoinThree(a: string, b: string, c: string)
    ensures Join([a] + [b] + [c], "\n\n") == a + "\n\n" + b + "\n\n" + c
  {
    var all := [a] + [b] + [c];
    assert all[1..] == [b, c];
    JoinTwo(b, c);
    assert a + "\n\n" + (b + "\n\n" + c) == a + "\n\n" + b + "\n\n" + c;
  }

  lemma StripTrimmed(t: string)
    requires Trimmed(t)
    ensures Strip(t) == t
  {
    StripPadded("", t, "");
    assert "" + t + "" == t;
  }

  lemma SwollenStrips(p: string, lead: string)
    requires PlainText(p) && Strip(lead) != ""
    ensures Strip(Swollen(p, lead).content) == Swollen(p, lead).content
  {
    StripTrims(p);
    StripTrims(lead);
    StripTrimmed(p + "\n\n" + Strip(lead));
  }

  lemma BlankBetween(p: string, t: string)
    ensures p + "\n" + ("" + "\n" + t) == p + "\n\n" + t
  {
  }

  lemma SwollenPrintable(p: string, lead: string)
    requires PlainText(p) && Strip(lead) != "" && NoInner(lead) && !IsHeading(Strip(lead))
    ensures Printable(Swollen(p, lead))
  {
    var t := Strip(lead);
    StripNoInner(lead);
    PlainPrepend("", t);
    PlainPrepend(p, "" + "\n" + t);
    BlankBetween(p, t);
    SwollenStrips(p, lead);
  }

  /** A text alone in front is lost by the second round: it had become the content of the first parent section. */
  lemma LeadIsLost(ss: seq<Section>, p: string, c: string)
    requires Shaped(ss) && NoHidden(ss) && !Keepable(ss) && PlainText(p) && PlainText(c)
    ensures Body(Render(Edited(ss, p, c)), p, c) == Render([ParentSection(p), BlockedSection(c)])
    ensures Body(Render(Edited(ss, p, c)), p, c) != Render(Edited(ss, p, c))
  {
    LoneLead(ss, p, c);
    SwollenPrints(p, ss[0], c);
    SwollenAgain(p, ss[0].content, c);
  }

  lemma SwollenAgain(p: string, lead: string, c: string)
    requires PlainText(p) && PlainText(c) && Strip(lead) != "" && NoInner(lead) && !IsHeading(Strip(lead))
    ensures Body(Render([Swollen(p, lead), BlockedSection(c)]), p, c) == Render([ParentSection(p), BlockedSection(c)])
  {
    var e := [Swollen(p, lead), BlockedSection(c)];
    SwollenPrintable(p, lead);
    PlainIsPrintable(BlockedBy, c);
    PrintableMeans(e);
    AgainIsVisible(e, p, c);
    SwollenEdited(e, p, c);
  }

  lemma SwollenEdited(e: seq<Section>, p: string, c: string)
    requires |e| == 2 && e[0].heading == Some(Parent) && e[1].heading == Some(BlockedBy)
    ensures Edited(e, p, c) == [ParentSection(p), BlockedSection(c)]
  {
    var r := [e[1]];
    assert e == [e[0]] + r;
    WithoutAround([], e[0], r, Parent);
    WithoutOne(e[1], Parent);
    assert [] + [e[0]] + r == e && Without(e, Parent) == r;
    ParentFirst(e[1]);
    assert WithParent(e, p) == [ParentSection(p), e[1]];
    BlockedLast(p, e[1], c);
  }

  lemma ParentFirst(s: Section)
    requires s.heading == Some(BlockedBy)
    ensures ParentPlace([s]) == 0
  {
    FindOne([s], WhatToBuild);
    FirstHeadingOf([s]);
  }

  lemma BlockedLast(p: string, s: Section, c: string)
    requires s.heading == Some(BlockedBy)
    ensures WithBlocked([ParentSection(p), s], c) == [ParentSection(p), BlockedSection(c)]
  {
    assert [ParentSection(p), s] == [ParentSection(p)] + [s];
    WithoutAppend([ParentSection(p)], [s], BlockedBy);
    WithoutOne(ParentSection(p), BlockedBy);
    WithoutOne(s, BlockedBy);
    assert Without([ParentSection(p), s], BlockedBy) == [ParentSection(p)];
    assert !Contains(Parent, "Files touched");
  }

  /** The rendering of a body is a fixed point exactly when there is a heading for the parent section to go
      before, or no text in front that it could swallow. */
  lemma BodyIsStable(base: string, p: string, c: string)
    requires NoHidden(Parse(base)) && PlainText(p) && PlainText(c)
    ensures Body(Body(base, p, c), p, c) == Body(base, p, c) <==> Keepable(Parse(base))
  {
    ParseShape(base);
    if Keepable(Parse(base)) {
      KeptWhenKeepable(Parse(base), p, c);
    } else {
      LeadIsLost(Parse(base), p, c);
    }
  }

  // ---------- the texts written are plain ----------

  predicate RefText(t: string)
  {
    |t| >= 2 && t[0] == '#' && t[1] != '#' && (forall x :: x in t ==> x != '\n') && !IsSpace(t[|t| - 1])
  }

  lemma RefIsText(n: nat)
    ensures RefText(Ref(n))
  {
    var d := Decimal(n);
    assert d[0] in d && d[|d| - 1] in d;
    assert Ref(n)[1] == d[0] && Ref(n)[|Ref(n)| - 1] == d[|d| - 1];
  }

  lemma {:induction false} RefsAreText(ns: seq<nat>)
    requires ns != []
    ensures RefText(Join(Refs(ns), ", "))
  {
    RefIsText(ns[0]);
    if |ns| == 1 {
      assert Refs(ns) == [Ref(ns[0])];
    } else {
      RefsAreText(ns[1..]);
      var head, rest := Ref(ns[0]), Join(Refs(ns[1..]), ", ");
      assert Refs(ns)[1..] == Refs(ns[1..]);
      assert Join(Refs(ns), ", ") == head + ", " + rest;
    }
  }

  lemma TextIsPlain(t: string)
    requires RefText(t)
    ensures PlainText(t)
  {
    StripTrimmed(t);
  }

  lemma WrittenTextsArePlain(spec: nat, ns: seq<nat>)
    ensures PlainText(Ref(spec)) && PlainText(BlockedText(ns))
  {
    RefIsText(spec);
    TextIsPlain(Ref(spec));
    if ns == [] {
      StripTrimmed(BlockedText(ns));
    } else {
      RefsAreText(ns);
      TextIsPlain(BlockedText(ns));
    }
  }

  // ---------- the references in the texts ----------

  predicate IsDigit(c: char) { '0' <= c <= '9' }

  /** The digits that a text begins with. */
  function DigitsOf(t: string): string
  {
    if t == [] || !IsDigit(t[0]) then [] else [t[0]] + DigitsOf(t[1..])
  }

  function Value(digits: string): nat
    requires forall c :: c in digits ==> IsDigit(c)
  {
    if digits == [] then 0
    else
      assert digits[|digits| - 1] in digits && IsDigit(digits[|digits| - 1]);
      10 * Value(digits[..|digits| - 1]) + (digits[|digits| - 1] as int - '0' as int)
  }

  lemma {:induction false} DigitsAreDigits(t: string)
    ensures forall c :: c in DigitsOf(t) ==> IsDigit(c)
  {
    if t != [] && IsDigit(t[0]) {
      DigitsAreDigits(t[1..]);
    }
  }

  /** The issues that a text refers to: the numbers behind its `#` signs, in order. */
  function RefsIn(t: string): seq<nat>
  {
    if t == [] then []
    else if t[0] != '#' then RefsIn(t[1..])
    else
      DigitsAreDigits(t[1..]);
      [Value(DigitsOf(t[1..]))] + RefsIn(t[1..])
  }

  lemma {:induction false} ValueOfDecimal(n: nat)
    ensures Value(Decimal(n)) == n
  {
    if n >= 10 {
      ValueOfDecimal(n / 10);
      assert Decimal(n)[..|Decimal(n)| - 1] == Decimal(n / 10);
    } else {
      assert Decimal(n)[..0] == [];
    }
  }

  lemma {:induction false} DigitsInFront(d: string, rest: string)
    requires forall c :: c in d ==> IsDigit(c)
    requires rest != [] ==> !IsDigit(rest[0])
    ensures DigitsOf(d + rest) == d && RefsIn(d + rest) == RefsIn(rest)
  {
    if d == [] {
      assert d + rest == rest;
    } else {
      assert (d + rest)[1..] == d[1..] + rest && d[0] in d;
      DigitsInFront(d[1..], rest);
    }
  }

  lemma RefInFront(n: nat, rest: string)
    requires rest != [] ==> !IsDigit(rest[0])
    ensures RefsIn(Ref(n) + rest) == [n] + RefsIn(rest)
  {
    DecimalDigits(n);
    HashInFront(Decimal(n), rest);
    ValueOfDecimal(n);
    Assoc("#", Decimal(n), rest);
  }

  lemma DecimalDigits(n: nat)
    ensures forall c :: c in Decimal(n) ==> IsDigit(c)
  {
  }

  lemma HashInFront(d: string, rest: string)
    requires forall c :: c in d ==> IsDigit(c)
    requires rest != [] ==> !IsDigit(rest[0])
    ensures RefsIn("#" + (d + rest)) == [Value(d)] + RefsIn(rest)
  {
    var t := "#" + (d + rest);
    assert t[1..] == d + rest;
    DigitsInFront(d, rest);
  }

  lemma {:induction false} RefsInJoined(ns: seq<nat>)
    ensures RefsIn(Join(Refs(ns), ", ")) == ns
  {
    if |ns| == 1 {
      RefInFront(ns[0], "");
      assert Refs(ns) == [Ref(ns[0])] && Ref(ns[0]) + "" == Ref(ns[0]);
    } else if ns != [] {
      RefsInJoined(ns[1..]);
      var rest := Join(Refs(ns[1..]), ", ");
      assert Refs(ns)[1..] == Refs(ns[1..]);
      assert Join(Refs(ns), ", ") == Ref(ns[0]) + (", " + rest);
      RefInFront(ns[0], ", " + rest);
      assert (", " + rest)[1..] == " " + rest && (" " + rest)[1..] == rest;
    }
  }

  lemma {:induction false} NoHashNoRefs(t: string)
    requires '#' !in t
    ensures RefsIn(t) == []
  {
    if t != [] {
      assert t[0] in t;
      NoHashNoRefs(t[1..]);
    }
  }

  /** The text on blockers refers to exactly the given issues in order, and the text on the parent to the specification. */
  lemma TextsRefer(spec: nat, ns: seq<nat>)
    ensures RefsIn(BlockedText(ns)) == ns && RefsIn(Ref(spec)) == [spec]
    ensures ns == [] ==> BlockedText(ns) == "None \U{2014} can start immediately."
  {
    if ns == [] {
      NoHashNoRefs(BlockedText(ns));
    } else {
      RefsInJoined(ns);
    }
    RefInFront(spec, "");
    assert Ref(spec) + "" == Ref(spec);
  }

  /** Rendering a filed body for a second time: idempotent if and only if the draft has another heading or
      no text in front of its first one. */
  lemma FiledBodyIsStable(base: string, spec: nat, ns: seq<nat>)
    requires NoHidden(Parse(base))
    ensures
      var filed := Body(base, Ref(spec), BlockedText(ns));
      Body(filed, Ref(spec), BlockedText(ns)) == filed <==> Keepable(Parse(base))
  {
    WrittenTextsArePlain(spec, ns);
    BodyIsStable(base, Ref(spec), BlockedText(ns));
  }

  /** What a filed body looks like when it is read back: the other visible sections in order, one parent
      section naming the specification, one section of blockers. */
  lemma FiledBodyReadsBack(base: string, spec: nat, ns: seq<nat>)
    requires NoHidden(Parse(base)) && HeadedBeside(Parse(base))
    ensures
      var again := Parse(Body(base, Ref(spec), BlockedText(ns)));
      && Similar(Core(again), Visible(Core(Parse(base))))
      && Similar(Only(again, Parent), [ParentSection(Ref(spec))])
      && Similar(Only(again, BlockedBy), [BlockedSection(BlockedText(ns))])
  {
    var p, c := Ref(spec), BlockedText(ns);
    var ss := Parse(base);
    var e := Edited(ss, p, c);
    WrittenTextsArePlain(spec, ns);
    ParseShape(base);
    PrintableMeans(ss);
    EditedPrintable(ss, p, c);
    EditedLeadOnly(ss, p, c);
    PrintableMeans(e);
    VisibleShape(e);
    RenderVisible(e);
    ParseOfRender(Visible(e));
    var again := Parse(Body(base, p, c));
    SimilarWithout(again, Visible(e), Parent);
    SimilarWithout(Without(again, Parent), Without(Visible(e), Parent), BlockedBy);
    SimilarOnly(again, Visible(e), Parent);
    SimilarOnly(again, Visible(e), BlockedBy);
    ExactlyOneOfEach(ss, p, c);
    VisibleCore(e);
    EditKeepsTheRest(ss, p, c);
    OnlyVisible(e, Parent);
    OnlyVisible(e, BlockedBy);
  }

  lemma VisibleCore(e: seq<Section>)
    requires LeadOnly(e)
    ensures Core(Visible(e)) == Visible(Core(e))
  {
    LeadIsHeaded(e);
    if e != [] {
      var r := Without(e, Parent);
      LeadOnlyWithout(e, Parent);
      LeadOnlyWithout(r, BlockedBy);
      if e[0].heading.None? {
        assert r[1..] == Without(e[1..], Parent);
      } else {
        assert Headed(r);
        assert Headed(Core(e)) by { HeadedWithout(r, BlockedBy); }
      }
    }
  }

  lemma HeadedWithout(r: seq<Section>, h: string)
    requires Headed(r)
    ensures Headed(Without(r, h))
  {
    WithoutMembers(r, h);
    var w := Without(r, h);
    forall i | 0 <= i < |w|
      ensures w[i].heading.Some?
    {
      assert w[i] in w;
    }
  }

  lemma OnlyVisible(e: seq<Section>, h: string)
    ensures Only(Visible(e), h) == Only(e, h)
  {
  }

  lemma {:induction false} SimilarOnly(a: seq<Section>, b: seq<Section>, h: string)
    requires Similar(a, b)
    ensures Similar(Only(a, h), Only(b, h))
  {
    if a != [] {
      assert a[0].heading == b[0].heading && Strip(a[0].content) == Strip(b[0].content);
      assert Similar(a[1..], b[1..]);
      SimilarOnly(a[1..], b[1..], h);
      if a[0].heading == Some(h) {
        SimilarLead(a[0].heading, a[0].content, Only(a[1..], h), Only(b, h));
      }
    }
  }
}
