/** Reading an issue's readiness off its labels and body, and putting marker and slice labels right. */
module IssueLabels {
  import opened Outcomes
  import opened Text

  datatype Mode = Refactor | Behavior | Docs

  datatype Config = Config(needsInfo: string, needsSliceType: string, refactor: string, behavior: string, docs: string, hitl: string)

  function LabelOf(cfg: Config, mode: Mode): string
  {
    match mode case Refactor => cfg.refactor case Behavior => cfg.behavior case Docs => cfg.docs
  }

  function SliceLabels(cfg: Config): set<string>
  {
    {cfg.refactor, cfg.behavior, cfg.docs}
  }

  /** Marker, slice and HITL labels are pairwise different. */
  predicate Different(cfg: Config)
  {
    && cfg.refactor != cfg.behavior && cfg.refactor != cfg.docs && cfg.behavior != cfg.docs
    && cfg.needsInfo != cfg.needsSliceType && cfg.hitl != cfg.needsInfo && cfg.hitl != cfg.needsSliceType
    && cfg.needsInfo !in SliceLabels(cfg) && cfg.needsSliceType !in SliceLabels(cfg) && cfg.hitl !in SliceLabels(cfg)
  }

  // ---------- readiness ----------

  const BodyFloor := 100

  datatype Kind = ReadyAfk | HitlExempt | MissingSliceMode | MultipleSliceModes | ShortBody | Malformed

  /** `slice` is the mode when there is exactly one slice label, `found` the slice labels there are. */
  datatype Readiness = Readiness(slice: Option<Mode>, found: seq<string>, longBody: bool, exempt: bool, kind: Kind)

  datatype Issue = Issue(number: nat, body: string, labels: seq<string>)

  function Filter(labels: seq<string>, wanted: set<string>): seq<string>
  {
    if labels == [] then []
    else if labels[0] in wanted then [labels[0]] + Filter(labels[1..], wanted)
    else Filter(labels[1..], wanted)
  }

  function ModeOf(cfg: Config, l: string): Mode
    requires l in SliceLabels(cfg)
  {
    if l == cfg.docs then Docs else if l == cfg.behavior then Behavior else Refactor
  }

  lemma {:induction false} FilterMembers(labels: seq<string>, wanted: set<string>)
    ensures forall l :: l in Filter(labels, wanted) <==> l in labels && l in wanted
  {
    if labels != [] {
      FilterMembers(labels[1..], wanted);
      assert labels == [labels[0]] + labels[1..];
    }
  }

  function SliceMode(cfg: Config, labels: seq<string>): Option<Mode>
  {
    var found := Filter(labels, SliceLabels(cfg));
    if |found| == 1 && found[0] in SliceLabels(cfg) then Some(ModeOf(cfg, found[0])) else None
  }

  /** pycastle's `classify_issue_readiness`. */
  function Classify(cfg: Config, issue: Issue): Readiness
  {
    var found := Filter(issue.labels, SliceLabels(cfg));
    var slice, longBody, exempt := SliceMode(cfg, issue.labels), |Strip(issue.body)| >= BodyFloor, cfg.hitl in issue.labels;
    Readiness(slice, found, longBody, exempt,
              if exempt then HitlExempt
              else if slice.Some? && longBody then ReadyAfk
              else if slice.None? then (if !longBody then Malformed else if found != [] then MultipleSliceModes else MissingSliceMode)
              else ShortBody)
  }

  /** Ready means: not exempt, a body that is long enough, and exactly one slice label. */
  lemma ReadyMeans(cfg: Config, issue: Issue)
    ensures Classify(cfg, issue).kind == ReadyAfk <==>
            cfg.hitl !in issue.labels && |Strip(issue.body)| >= BodyFloor && |Filter(issue.labels, SliceLabels(cfg))| == 1
  {
    FilterMembers(issue.labels, SliceLabels(cfg));
    var found := Filter(issue.labels, SliceLabels(cfg));
    assert |found| == 1 ==> found[0] in found;
  }

  // ---------- label actions ----------

  datatype Intent = Add | Remove

  datatype Action = Action(number: nat, name: string, intent: Intent)

  function Without(labels: seq<string>, name: string): seq<string>
  {
    if labels == [] then []
    else if labels[0] == name then Without(labels[1..], name)
    else [labels[0]] + Without(labels[1..], name)
  }

  /** What an action does to the labels of its issue on the tracker, where a label is there or not. */
  function Do(labels: seq<string>, name: string, intent: Intent): seq<string>
  {
    match intent
    case Add => if name in labels then labels else labels + [name]
    case Remove => Without(labels, name)
  }

  /** The labels of an issue after the actions, in order. */
  function After(number: nat, labels: seq<string>, actions: seq<Action>): seq<string>
    decreases |actions|
  {
    if actions == [] then labels
    else After(number, if actions[0].number == number then Do(labels, actions[0].name, actions[0].intent) else labels, actions[1..])
  }

  lemma {:induction false} WithoutMembers(labels: seq<string>, name: string)
    ensures forall l :: l in Without(labels, name) <==> l in labels && l != name
  {
    if labels != [] {
      WithoutMembers(labels[1..], name);
      assert labels == [labels[0]] + labels[1..];
    }
  }

  lemma DoMembers(labels: seq<string>, name: string, intent: Intent)
    ensures forall l :: l in Do(labels, name, intent) <==> if l == name then intent == Add else l in labels
  {
    WithoutMembers(labels, name);
  }

  lemma {:induction false} FilterAppend(a: seq<string>, b: seq<string>, wanted: set<string>)
    ensures Filter(a + b, wanted) == Filter(a, wanted) + Filter(b, wanted)
  {
    if a == [] {
      assert a + b == b;
    } else {
      assert (a + b)[1..] == a[1..] + b;
      FilterAppend(a[1..], b, wanted);
    }
  }

  lemma {:induction false} FilterWithout(labels: seq<string>, name: string, wanted: set<string>)
    requires name !in wanted
    ensures Filter(Without(labels, name), wanted) == Filter(labels, wanted)
  {
    if labels != [] {
      FilterWithout(labels[1..], name, wanted);
    }
  }

  /** Actions on other labels leave these as they are. */
  lemma DoOther(labels: seq<string>, name: string, intent: Intent, wanted: set<string>)
    requires name !in wanted
    ensures Filter(Do(labels, name, intent), wanted) == Filter(labels, wanted)
  {
    FilterAppend(labels, [name], wanted);
    assert Filter([name], wanted) == [] by {
      assert [name][1..] == [];
    }
    FilterWithout(labels, name, wanted);
  }

  lemma {:induction false} AfterOther(number: nat, labels: seq<string>, actions: seq<Action>, wanted: set<string>)
    requires forall a :: a in actions && a.number == number ==> a.name !in wanted
    ensures Filter(After(number, labels, actions), wanted) == Filter(labels, wanted)
    decreases |actions|
  {
    if actions != [] {
      var a := actions[0];
      assert a in actions;
      if a.number == number {
        DoOther(labels, a.name, a.intent, wanted);
      }
      AfterOther(number, if a.number == number then Do(labels, a.name, a.intent) else labels, actions[1..], wanted);
    }
  }

  lemma OtherStays(number: nat, labels: seq<string>, actions: seq<Action>, name: string)
    requires forall a :: a in actions && a.number == number ==> a.name != name
    ensures name in After(number, labels, actions) <==> name in labels
  {
    AfterOther(number, labels, actions, {name});
    FilterMembers(labels, {name});
    FilterMembers(After(number, labels, actions), {name});
    assert name in labels <==> name in Filter(labels, {name});
    assert name in After(number, labels, actions) <==> name in Filter(After(number, labels, actions), {name});
  }

  /** With no two contrary actions on a label of an issue, the label is there afterwards if it was added, gone if it was
      removed, and otherwise as before. */
  lemma {:induction false} AfterMembers(number: nat, labels: seq<string>, actions: seq<Action>, name: string)
    requires forall a, b :: a in actions && b in actions && a.number == b.number == number && a.name == b.name == name ==> a.intent == b.intent
    ensures name in After(number, labels, actions) <==>
            if Action(number, name, Add) in actions then true
            else if Action(number, name, Remove) in actions then false
            else name in labels
    decreases |actions|
  {
    if actions != [] {
      var a := actions[0];
      var labels' := if a.number == number then Do(labels, a.name, a.intent) else labels;
      DoMembers(labels, a.name, a.intent);
      assert actions == [a] + actions[1..];
      AfterMembers(number, labels', actions[1..], name);
    }
  }

  // ---------- marker labels ----------

  /** A marker goes on issues with a short body, or on issues without exactly one slice label. */
  datatype Rule = BodyRule | SliceRule

  function MarkerOf(cfg: Config, rule: Rule): string
  {
    match rule case BodyRule => cfg.needsInfo case SliceRule => cfg.needsSliceType
  }

  predicate ShouldMark(rule: Rule, r: Readiness)
  {
    match rule case BodyRule => !r.longBody case SliceRule => r.slice.None?
  }

  /** The action a rule asks for on an issue. */
  function Wanted(cfg: Config, rule: Rule, issue: Issue, r: Readiness): Option<Action>
  {
    var name := MarkerOf(cfg, rule);
    if r.exempt || ShouldMark(rule, r) == (name in issue.labels) then None
    else Some(Action(issue.number, name, if ShouldMark(rule, r) then Add else Remove))
  }

  datatype Classified = Classified(issue: Issue, readiness: Readiness)

  /** The actions that are wanted, by rule and issue. */
  predicate IsWanted(cfg: Config, rules: seq<Rule>, cs: seq<Classified>, a: Action)
  {
    exists r, c :: r in rules && c in cs && Wanted(cfg, r, c.issue, c.readiness) == Some(a)
  }

  /** pycastle's `_marker_label_sync_actions`: for each rule first what is to be added, then what is to be removed. */
  method MarkerLabelSyncActions(cfg: Config, cs: seq<Classified>, rules: seq<Rule>) returns (actions: seq<Action>)
    ensures forall a :: a in actions <==> IsWanted(cfg, rules, cs, a)
  {
    actions := [];
    for i := 0 to |rules|
      invariant forall a :: a in actions <==> IsWanted(cfg, rules[..i], cs, a)
    {
      var more := RuleActions(cfg, cs, rules[i]);
      WantedByMore(cfg, rules[..i], rules[i], cs);
      assert rules[..i + 1] == rules[..i] + [rules[i]];
      actions := actions + more;
    }
    assert rules[..|rules|] == rules;
  }

  lemma WantedByMore(cfg: Config, rules: seq<Rule>, rule: Rule, cs: seq<Classified>)
    ensures forall a :: IsWanted(cfg, rules + [rule], cs, a) <==>
              IsWanted(cfg, rules, cs, a) || exists c :: c in cs && Wanted(cfg, rule, c.issue, c.readiness) == Some(a)
  {
    forall a
      ensures IsWanted(cfg, rules + [rule], cs, a) <==>
              IsWanted(cfg, rules, cs, a) || exists c :: c in cs && Wanted(cfg, rule, c.issue, c.readiness) == Some(a)
    {
      if c :| c in cs && Wanted(cfg, rule, c.issue, c.readiness) == Some(a) {
        assert rule in rules + [rule];
      }
      if IsWanted(cfg, rules, cs, a) {
        var r, c :| r in rules && c in cs && Wanted(cfg, r, c.issue, c.readiness) == Some(a);
        assert r in rules + [rule];
      }
      if IsWanted(cfg, rules + [rule], cs, a) {
        var r, c :| r in rules + [rule] && c in cs && Wanted(cfg, r, c.issue, c.readiness) == Some(a);
        assert r == rule || r in rules;
      }
    }
  }

  method RuleActions(cfg: Config, cs: seq<Classified>, rule: Rule) returns (actions: seq<Action>)
    ensures forall a :: a in actions <==> exists c :: c in cs && Wanted(cfg, rule, c.issue, c.readiness) == Some(a)
  {
    var added: seq<Action>, removed: seq<Action> := [], [];
    var name := MarkerOf(cfg, rule);
    for i := 0 to |cs|
      invariant forall a :: a in added + removed <==> exists c :: c in cs[..i] && Wanted(cfg, rule, c.issue, c.readiness) == Some(a)
    {
      var c := cs[i];
      assert cs[..i + 1] == cs[..i] + [c];
      if !c.readiness.exempt {
        if ShouldMark(rule, c.readiness) {
          if name !in c.issue.labels {
            added := added + [Action(c.issue.number, name, Add)];
          }
        } else if name in c.issue.labels {
          removed := removed + [Action(c.issue.number, name, Remove)];
        }
      }
    }
    assert cs[..|cs|] == cs;
    actions := added + removed;
  }

  // ---------- one round of preparing ----------

  datatype Prepared = Prepared(
    ready: seq<Issue>,
    readiness: map<nat, Readiness>,
    malformedBody: seq<Issue>,
    malformedSlice: seq<Issue>,
    actions: seq<Action>)

  /** An issue as it comes in, perhaps with a readiness that an earlier classification gave it. */
  datatype Raw = Raw(issue: Issue, carried: Option<Readiness>)

  /** A carried readiness that says ready was ready when it was made. */
  predicate CarriedIsSound(raw: Raw)
  {
    raw.carried.Some? && raw.carried.value.kind == ReadyAfk ==>
      raw.carried.value.slice.Some? && raw.carried.value.longBody && !raw.carried.value.exempt
  }

  /** pycastle's `_planning_ready_readiness`. */
  function PlanningReadiness(cfg: Config, raw: Raw, prepared: Issue): Readiness
  {
    var r := Classify(cfg, prepared);
    if r.kind == ReadyAfk && raw.carried.Some? && raw.carried.value.kind == ReadyAfk then raw.carried.value else r
  }

  /** `normalize` takes the stale blocker lines out of a body. */
  function PrepareIssue(normalize: (string, set<nat>) -> string, open: set<nat>, issue: Issue): Issue
  {
    issue.(body := normalize(issue.body, open))
  }

  function Numbers(raws: seq<Raw>): set<nat>
  {
    set r | r in raws :: r.issue.number
  }

  function ClassifiedOf(cfg: Config, normalize: (string, set<nat>) -> string, open: set<nat>, raw: Raw): Classified
  {
    var issue := PrepareIssue(normalize, open, raw.issue);
    Classified(issue, PlanningReadiness(cfg, raw, issue))
  }

  function ClassifiedAll(cfg: Config, normalize: (string, set<nat>) -> string, open: set<nat>, raws: seq<Raw>): (r: seq<Classified>)
    ensures |r| == |raws| && forall i :: 0 <= i < |raws| ==> r[i] == ClassifiedOf(cfg, normalize, open, raws[i])
  {
    if raws == [] then [] else [ClassifiedOf(cfg, normalize, open, raws[0])] + ClassifiedAll(cfg, normalize, open, raws[1..])
  }

  function ReadyOnes(cs: seq<Classified>): seq<Issue>
  {
    if cs == [] then []
    else ReadyOnes(cs[..|cs| - 1]) + if cs[|cs| - 1].readiness.kind == ReadyAfk then [cs[|cs| - 1].issue] else []
  }

  predicate IsMalformed(rule: Rule, r: Readiness)
  {
    r.kind != ReadyAfk && !r.exempt && ShouldMark(rule, r)
  }

  function MalformedOnes(rule: Rule, cs: seq<Classified>): seq<Issue>
  {
    if cs == [] then []
    else MalformedOnes(rule, cs[..|cs| - 1]) + if IsMalformed(rule, cs[|cs| - 1].readiness) then [cs[|cs| - 1].issue] else []
  }

  /** pycastle's `_classify_planning_issue_set`. */
  method ClassifyPlanningIssueSet(cfg: Config, normalize: (string, set<nat>) -> string, raws: seq<Raw>) returns (p: Prepared)
    ensures
      var cs := ClassifiedAll(cfg, normalize, Numbers(raws), raws);
      && p.ready == ReadyOnes(cs) && p.malformedBody == MalformedOnes(BodyRule, cs) && p.malformedSlice == MalformedOnes(SliceRule, cs)
      && (forall a :: a in p.actions <==> IsWanted(cfg, [BodyRule, SliceRule], cs, a))
      && (forall n :: n in p.readiness <==> exists i :: i in p.ready && i.number == n)
      && (forall n :: n in p.readiness ==> IsReadinessOf(cs, n, p.readiness[n]))
  {
    var cs := ClassifiedAll(cfg, normalize, Numbers(raws), raws);
    var ready, readiness, malformedBody, malformedSlice := SortOut(cs);
    var actions := MarkerLabelSyncActions(cfg, cs, [BodyRule, SliceRule]);
    p := Prepared(ready, readiness, malformedBody, malformedSlice, actions);
  }

  /** What an issue of that number was classified as, which is ready. */
  ghost predicate IsReadinessOf(cs: seq<Classified>, number: nat, r: Readiness)
  {
    r.kind == ReadyAfk && exists c :: c in cs && c.issue.number == number && c.readiness == r
  }

  method SortOut(cs: seq<Classified>)
    returns (ready: seq<Issue>, readiness: map<nat, Readiness>, malformedBody: seq<Issue>, malformedSlice: seq<Issue>)
    ensures ready == ReadyOnes(cs) && malformedBody == MalformedOnes(BodyRule, cs) && malformedSlice == MalformedOnes(SliceRule, cs)
    ensures forall n :: n in readiness <==> exists i :: i in ready && i.number == n
    ensures forall n :: n in readiness ==> IsReadinessOf(cs, n, readiness[n])
  {
    ready, readiness, malformedBody, malformedSlice := [], map[], [], [];
    for i := 0 to |cs|
      invariant ready == ReadyOnes(cs[..i])
      invariant malformedBody == MalformedOnes(BodyRule, cs[..i]) && malformedSlice == MalformedOnes(SliceRule, cs[..i])
      invariant forall n :: n in readiness <==> exists j :: j in ready && j.number == n
      invariant forall n :: n in readiness ==> IsReadinessOf(cs, n, readiness[n])
    {
      assert cs[..i + 1][..i] == cs[..i];
      var c := cs[i];
      if c.readiness.kind == ReadyAfk {
        ready := ready + [c.issue];
        assert c in cs && IsReadinessOf(cs, c.issue.number, c.readiness);
        readiness := readiness[c.issue.number := c.readiness];
      } else if !c.readiness.exempt {
        if c.readiness.slice.None? {
          malformedSlice := malformedSlice + [c.issue];
        }
        if !c.readiness.longBody {
          malformedBody := malformedBody + [c.issue];
        }
      }
    }
    assert cs[..|cs|] == cs;
  }

  // ---------- convergence ----------

  predicate DistinctNumbers(raws: seq<Raw>)
  {
    forall i, j :: 0 <= i < j < |raws| ==> raws[i].issue.number != raws[j].issue.number
  }

  /** The tracker after the actions: bodies as they were, labels as the actions leave them, nothing carried. */
  function OnTracker(raws: seq<Raw>, actions: seq<Action>): (r: seq<Raw>)
    ensures |r| == |raws|
    ensures forall i :: 0 <= i < |raws| ==>
              r[i] == Raw(raws[i].issue.(labels := After(raws[i].issue.number, raws[i].issue.labels, actions)), None)
  {
    if raws == [] then []
    else [Raw(raws[0].issue.(labels := After(raws[0].issue.number, raws[0].issue.labels, actions)), None)] + OnTracker(raws[1..], actions)
  }

  /** What is wanted only concerns marker labels, and each label of each issue in one way. */
  lemma WantedIsForMarkers(cfg: Config, rules: seq<Rule>, cs: seq<Classified>, a: Action)
    requires IsWanted(cfg, rules, cs, a)
    ensures a.name == cfg.needsInfo || a.name == cfg.needsSliceType
  {
  }

  /** The readiness an issue has after the markers are put right is the one it had. */
  lemma MarkersDoNotMatter(cfg: Config, issue: Issue, actions: seq<Action>)
    requires Different(cfg) && forall a :: a in actions ==> a.name == cfg.needsInfo || a.name == cfg.needsSliceType
    ensures Classify(cfg, issue.(labels := After(issue.number, issue.labels, actions))) == Classify(cfg, issue)
  {
    var after := After(issue.number, issue.labels, actions);
    AfterOther(issue.number, issue.labels, actions, SliceLabels(cfg));
    OtherStays(issue.number, issue.labels, actions, cfg.hitl);
  }

  const Rules := [BodyRule, SliceRule]

  lemma SameCandidate(cfg: Config, normalize: (string, set<nat>) -> string, open: set<nat>, raws: seq<Raw>, i: nat, c: Classified)
    requires DistinctNumbers(raws) && i < |raws|
    requires c in ClassifiedAll(cfg, normalize, open, raws) && c.issue.number == raws[i].issue.number
    ensures c == ClassifiedOf(cfg, normalize, open, raws[i])
  {
    var cs := ClassifiedAll(cfg, normalize, open, raws);
    var j :| 0 <= j < |cs| && cs[j] == c;
    assert i == j;
  }

  /** The action on a marker of the i-th issue, if there is one, is the one its own rule wants. */
  lemma OnlyWanted(cfg: Config, normalize: (string, set<nat>) -> string, open: set<nat>, raws: seq<Raw>, i: nat, rule: Rule, a: Action)
    requires Different(cfg) && DistinctNumbers(raws) && i < |raws|
    requires IsWanted(cfg, Rules, ClassifiedAll(cfg, normalize, open, raws), a)
    requires a.number == raws[i].issue.number && a.name == MarkerOf(cfg, rule)
    ensures var c := ClassifiedOf(cfg, normalize, open, raws[i]); Wanted(cfg, rule, c.issue, c.readiness) == Some(a)
  {
    var r, c :| r in Rules && c in ClassifiedAll(cfg, normalize, open, raws) && Wanted(cfg, r, c.issue, c.readiness) == Some(a);
    SameCandidate(cfg, normalize, open, raws, i, c);
  }

  lemma InWanted(cfg: Config, normalize: (string, set<nat>) -> string, open: set<nat>, raws: seq<Raw>, i: nat, rule: Rule, a: Action)
    requires i < |raws|
    requires var c := ClassifiedOf(cfg, normalize, open, raws[i]); Wanted(cfg, rule, c.issue, c.readiness) == Some(a)
    ensures IsWanted(cfg, Rules, ClassifiedAll(cfg, normalize, open, raws), a)
  {
    var cs := ClassifiedAll(cfg, normalize, open, raws);
    assert rule == Rules[0] || rule == Rules[1];
    assert rule in Rules && cs[i] in cs && Wanted(cfg, rule, cs[i].issue, cs[i].readiness) == Some(a);
  }

  /** After the actions the marker of a rule is on the i-th issue exactly when it should be, unless the issue is exempt. */
  lemma MarkerIsRight(cfg: Config, normalize: (string, set<nat>) -> string, open: set<nat>, raws: seq<Raw>, actions: seq<Action>, i: nat, rule: Rule)
    requires Different(cfg) && DistinctNumbers(raws) && i < |raws|
    requires forall a :: a in actions <==> IsWanted(cfg, Rules, ClassifiedAll(cfg, normalize, open, raws), a)
    ensures
      var c := ClassifiedOf(cfg, normalize, open, raws[i]);
      !c.readiness.exempt ==>
        (MarkerOf(cfg, rule) in After(c.issue.number, c.issue.labels, actions) <==> ShouldMark(rule, c.readiness))
  {
    var c := ClassifiedOf(cfg, normalize, open, raws[i]);
    var n, name := c.issue.number, MarkerOf(cfg, rule);
    forall a | a in actions && a.number == n && a.name == name
      ensures Wanted(cfg, rule, c.issue, c.readiness) == Some(a)
    {
      OnlyWanted(cfg, normalize, open, raws, i, rule, a);
    }
    AfterMembers(n, c.issue.labels, actions, name);
    if Wanted(cfg, rule, c.issue, c.readiness).Some? {
      InWanted(cfg, normalize, open, raws, i, rule, Wanted(cfg, rule, c.issue, c.readiness).value);
    }
  }

  lemma NumbersOnTracker(raws: seq<Raw>, actions: seq<Action>)
    ensures Numbers(OnTracker(raws, actions)) == Numbers(raws)
  {
    var after := OnTracker(raws, actions);
    forall n
      ensures n in Numbers(after) <==> n in Numbers(raws)
    {
      if n in Numbers(raws) {
        var i :| 0 <= i < |raws| && raws[i].issue.number == n;
        assert after[i] in after;
      }
      if n in Numbers(after) {
        var i :| 0 <= i < |after| && after[i].issue.number == n;
        assert raws[i] in raws;
      }
    }
  }

  lemma NothingWanted(cfg: Config, normalize: (string, set<nat>) -> string, raws: seq<Raw>, actions: seq<Action>, i: nat, rule: Rule)
    requires Different(cfg) && DistinctNumbers(raws) && i < |raws| && CarriedIsSound(raws[i])
    requires forall a :: a in actions <==> IsWanted(cfg, Rules, ClassifiedAll(cfg, normalize, Numbers(raws), raws), a)
    ensures
      var c' := ClassifiedOf(cfg, normalize, Numbers(raws), OnTracker(raws, actions)[i]);
      Wanted(cfg, rule, c'.issue, c'.readiness) == None
  {
    var open := Numbers(raws);
    var c := ClassifiedOf(cfg, normalize, open, raws[i]);
    forall a | a in actions
      ensures a.name == cfg.needsInfo || a.name == cfg.needsSliceType
    {
      WantedIsForMarkers(cfg, Rules, ClassifiedAll(cfg, normalize, open, raws), a);
    }
    MarkersDoNotMatter(cfg, c.issue, actions);
    MarkerIsRight(cfg, normalize, open, raws, actions, i, rule);
  }

  /** Preparing again after the actions were applied asks for nothing. */
  lemma ReconciliationConverges(cfg: Config, normalize: (string, set<nat>) -> string, raws: seq<Raw>, actions: seq<Action>, a: Action)
    requires Different(cfg) && DistinctNumbers(raws) && forall r :: r in raws ==> CarriedIsSound(r)
    requires forall x :: x in actions <==> IsWanted(cfg, Rules, ClassifiedAll(cfg, normalize, Numbers(raws), raws), x)
    ensures var after := OnTracker(raws, actions); !IsWanted(cfg, Rules, ClassifiedAll(cfg, normalize, Numbers(after), after), a)
  {
    NumbersOnTracker(raws, actions);
    forall i, rule | 0 <= i < |raws|
      ensures WantsNothing(cfg, normalize, Numbers(raws), OnTracker(raws, actions)[i], rule)
    {
      NothingWanted(cfg, normalize, raws, actions, i, rule);
    }
    NoneIsWanted(cfg, normalize, Numbers(raws), OnTracker(raws, actions), a);
  }

  predicate WantsNothing(cfg: Config, normalize: (string, set<nat>) -> string, open: set<nat>, raw: Raw, rule: Rule)
  {
    var c := ClassifiedOf(cfg, normalize, open, raw);
    Wanted(cfg, rule, c.issue, c.readiness) == None
  }

  lemma NoneIsWanted(cfg: Config, normalize: (string, set<nat>) -> string, open: set<nat>, raws: seq<Raw>, a: Action)
    requires forall i, rule :: 0 <= i < |raws| ==> WantsNothing(cfg, normalize, open, raws[i], rule)
    ensures !IsWanted(cfg, Rules, ClassifiedAll(cfg, normalize, open, raws), a)
  {
    var cs := ClassifiedAll(cfg, normalize, open, raws);
    forall r, c | r in Rules && c in cs
      ensures Wanted(cfg, r, c.issue, c.readiness) == None
    {
      var i :| 0 <= i < |cs| && cs[i] == c;
      assert WantsNothing(cfg, normalize, open, raws[i], r);
    }
  }

  // ---------- classifier verdicts ----------

  datatype Verdict = Concrete(mode: Mode) | Uncertain

  /** An issue that gets a slice label: its new labels, the label, and the slice labels that have to go. */
  datatype Decision = Decision(issue: Issue, readiness: Readiness, chosen: string, remove: seq<string>)

  function NotIn(labels: seq<string>, unwanted: set<string>): seq<string>
  {
    if labels == [] then []
    else if labels[0] in unwanted then NotIn(labels[1..], unwanted)
    else [labels[0]] + NotIn(labels[1..], unwanted)
  }

  /** The issue with the chosen slice label and no other. */
  function Relabelled(cfg: Config, issue: Issue, mode: Mode): Issue
  {
    issue.(labels := NotIn(issue.labels, SliceLabels(cfg)) + [LabelOf(cfg, mode)])
  }

  function Decide(cfg: Config, issue: Issue, mode: Mode): Decision
  {
    var updated := Relabelled(cfg, issue, mode);
    Decision(updated, Classify(cfg, updated), LabelOf(cfg, mode), Without(Filter(issue.labels, SliceLabels(cfg)), LabelOf(cfg, mode)))
  }

  /** The malformed issues that a verdict is acted on for: the body must be long enough. */
  predicate Acted(p: Prepared, verdicts: map<nat, Verdict>, issue: Issue)
  {
    issue.number in verdicts && forall b :: b in p.malformedBody ==> b.number != issue.number
  }

  function Decisions(cfg: Config, p: Prepared, verdicts: map<nat, Verdict>, issues: seq<Issue>): seq<Decision>
  {
    if issues == [] then []
    else
      var last := issues[|issues| - 1];
      Decisions(cfg, p, verdicts, issues[..|issues| - 1])
      + if Acted(p, verdicts, last) && verdicts[last.number].Concrete? then [Decide(cfg, last, verdicts[last.number].mode)] else []
  }

  function Uncertains(p: Prepared, verdicts: map<nat, Verdict>, issues: seq<Issue>): seq<nat>
  {
    if issues == [] then []
    else
      var last := issues[|issues| - 1];
      Uncertains(p, verdicts, issues[..|issues| - 1])
      + if Acted(p, verdicts, last) && verdicts[last.number].Uncertain? then [last.number] else []
  }

  lemma DecisionsNext(cfg: Config, p: Prepared, verdicts: map<nat, Verdict>, issues: seq<Issue>, i: nat)
    requires i < |issues|
    ensures
      var acted := Acted(p, verdicts, issues[i]);
      && Decisions(cfg, p, verdicts, issues[..i + 1]) ==
         Decisions(cfg, p, verdicts, issues[..i])
         + (if acted && verdicts[issues[i].number].Concrete? then [Decide(cfg, issues[i], verdicts[issues[i].number].mode)] else [])
      && Uncertains(p, verdicts, issues[..i + 1]) ==
         Uncertains(p, verdicts, issues[..i]) + (if acted && verdicts[issues[i].number].Uncertain? then [issues[i].number] else [])
  {
    assert issues[..i + 1][..i] == issues[..i];
  }

  /** pycastle's `_collect_classifier_decisions`. Its dictionaries keep one entry per number, in order of insertion. */
  method CollectDecisions(cfg: Config, p: Prepared, verdicts: map<nat, Verdict>) returns (concrete: seq<Decision>, uncertain: seq<nat>)
    requires DistinctIssues(p.malformedSlice)
    ensures concrete == Decisions(cfg, p, verdicts, p.malformedSlice)
    ensures uncertain == Uncertains(p, verdicts, p.malformedSlice)
  {
    concrete, uncertain := [], [];
    var badBodies := set b | b in p.malformedBody :: b.number;
    var issues := p.malformedSlice;
    for i := 0 to |issues|
      invariant concrete == Decisions(cfg, p, verdicts, issues[..i]) && uncertain == Uncertains(p, verdicts, issues[..i])
    {
      DecisionsNext(cfg, p, verdicts, issues, i);
      var issue := issues[i];
      if issue.number !in badBodies && issue.number in verdicts {
        match verdicts[issue.number] {
          case Concrete(mode) => concrete := concrete + [Decide(cfg, issue, mode)];
          case Uncertain => uncertain := uncertain + [issue.number];
        }
      }
    }
    assert issues[..|issues|] == issues;
  }

  lemma {:induction false} FilterNotIn(labels: seq<string>, wanted: set<string>)
    ensures Filter(NotIn(labels, wanted), wanted) == []
    ensures forall l :: l in NotIn(labels, wanted) <==> l in labels && l !in wanted
  {
    if labels != [] {
      FilterNotIn(labels[1..], wanted);
      assert labels == [labels[0]] + labels[1..];
    }
  }

  /** An issue without a HITL label whose body is long enough is ready once it is relabelled, in the mode of the verdict. */
  lemma RelabelledIsReady(cfg: Config, issue: Issue, mode: Mode)
    requires Different(cfg) && cfg.hitl !in issue.labels && |Strip(issue.body)| >= BodyFloor
    ensures Classify(cfg, Relabelled(cfg, issue, mode)).kind == ReadyAfk
    ensures Classify(cfg, Relabelled(cfg, issue, mode)).slice == Some(mode)
    ensures Filter(Relabelled(cfg, issue, mode).labels, SliceLabels(cfg)) == [LabelOf(cfg, mode)]
  {
    var slices, l := SliceLabels(cfg), LabelOf(cfg, mode);
    FilterNotIn(issue.labels, slices);
    FilterAppend(NotIn(issue.labels, slices), [l], slices);
    assert Filter([l], slices) == [l] + Filter([l][1..], slices);
  }

  // ---------- the actions of the verdicts ----------

  function Removals(number: nat, names: seq<string>): (r: seq<Action>)
    ensures forall a :: a in r <==> a.number == number && a.intent == Remove && a.name in names
  {
    if names == [] then [] else [Action(number, names[0], Remove)] + Removals(number, names[1..])
  }

  function DecisionActions(d: Decision): seq<Action>
  {
    [Action(d.issue.number, d.chosen, Add)] + Removals(d.issue.number, d.remove)
  }

  function AllDecisionActions(ds: seq<Decision>): seq<Action>
  {
    if ds == [] then [] else AllDecisionActions(ds[..|ds| - 1]) + DecisionActions(ds[|ds| - 1])
  }

  function MarkerAdds(cfg: Config, numbers: seq<nat>): seq<Action>
  {
    if numbers == [] then [] else MarkerAdds(cfg, numbers[..|numbers| - 1]) + [Action(numbers[|numbers| - 1], cfg.needsSliceType, Add)]
  }

  /** The actions that stay: all but the slice markers of issues there is a verdict for. */
  function Kept(cfg: Config, actions: seq<Action>, classified: set<nat>): seq<Action>
  {
    if actions == [] then []
    else Kept(cfg, actions[..|actions| - 1], classified)
         + if actions[|actions| - 1].number in classified && actions[|actions| - 1].name == cfg.needsSliceType
              && actions[|actions| - 1].intent == Add then [] else [actions[|actions| - 1]]
  }

  function NumbersOf(ds: seq<Decision>): set<nat>
  {
    set d | d in ds :: d.issue.number
  }

  function SetOf(numbers: seq<nat>): set<nat>
  {
    set n | n in numbers
  }

  function IssuesOf(ds: seq<Decision>): (r: seq<Issue>)
    ensures |r| == |ds| && forall i :: 0 <= i < |ds| ==> r[i] == ds[i].issue
  {
    if ds == [] then [] else [ds[0].issue] + IssuesOf(ds[1..])
  }

  /** The readiness of the promoted issues on top of the others. */
  function Promoted(readiness: map<nat, Readiness>, ds: seq<Decision>): map<nat, Readiness>
  {
    if ds == [] then readiness
    else Promoted(readiness, ds[..|ds| - 1])[ds[|ds| - 1].issue.number := ds[|ds| - 1].readiness]
  }

  function Unclassified(issues: seq<Issue>, numbers: set<nat>): seq<Issue>
  {
    if issues == [] then []
    else Unclassified(issues[..|issues| - 1], numbers) + if issues[|issues| - 1].number in numbers then [] else [issues[|issues| - 1]]
  }

  /** The set after the verdicts. */
  function Applied(cfg: Config, p: Prepared, verdicts: map<nat, Verdict>): Prepared
  {
    var ds, us := Decisions(cfg, p, verdicts, p.malformedSlice), Uncertains(p, verdicts, p.malformedSlice);
    Prepared(p.ready + IssuesOf(ds), Promoted(p.readiness, ds), p.malformedBody, Unclassified(p.malformedSlice, NumbersOf(ds)),
             Kept(cfg, p.actions, NumbersOf(ds) + SetOf(us)) + AllDecisionActions(ds) + MarkerAdds(cfg, us))
  }

  /** pycastle's `apply_slice_classifier_verdicts`. */
  method ApplySliceClassifierVerdicts(cfg: Config, p: Prepared, verdicts: map<nat, Verdict>) returns (q: Prepared)
    requires DistinctIssues(p.malformedSlice)
    ensures q == Applied(cfg, p, verdicts)
  {
    var ds, us := CollectDecisions(cfg, p, verdicts);
    if ds == [] && us == [] {
      NothingClassified(cfg, p, verdicts);
      return p;
    }
    var classified := NumbersOf(ds) + SetOf(us);
    var kept := KeepActions(cfg, p.actions, classified);
    var decided, readiness := DecisionLoop(p.readiness, ds);
    var marked: seq<Action> := [];
    for i := 0 to |us|
      invariant marked == MarkerAdds(cfg, us[..i])
    {
      assert us[..i + 1][..i] == us[..i];
      marked := marked + [Action(us[i], cfg.needsSliceType, Add)];
    }
    assert us[..|us|] == us;
    q := Prepared(p.ready + IssuesOf(ds), readiness, p.malformedBody, Unclassified(p.malformedSlice, NumbersOf(ds)), kept + decided + marked);
  }

  method KeepActions(cfg: Config, actions: seq<Action>, classified: set<nat>) returns (kept: seq<Action>)
    ensures kept == Kept(cfg, actions, classified)
  {
    kept := [];
    for i := 0 to |actions|
      invariant kept == Kept(cfg, actions[..i], classified)
    {
      assert actions[..i + 1][..i] == actions[..i];
      if !(actions[i].number in classified && actions[i].name == cfg.needsSliceType && actions[i].intent == Add) {
        kept := kept + [actions[i]];
      }
    }
    assert actions[..|actions|] == actions;
  }

  method DecisionLoop(before: map<nat, Readiness>, ds: seq<Decision>) returns (actions: seq<Action>, readiness: map<nat, Readiness>)
    ensures actions == AllDecisionActions(ds) && readiness == Promoted(before, ds)
  {
    actions, readiness := [], before;
    for i := 0 to |ds|
      invariant actions == AllDecisionActions(ds[..i]) && readiness == Promoted(before, ds[..i])
    {
      assert ds[..i + 1][..i] == ds[..i];
      actions := actions + DecisionActions(ds[i]);
      readiness := readiness[ds[i].issue.number := ds[i].readiness];
    }
    assert ds[..|ds|] == ds;
  }

  lemma NothingClassified(cfg: Config, p: Prepared, verdicts: map<nat, Verdict>)
    requires Decisions(cfg, p, verdicts, p.malformedSlice) == [] && Uncertains(p, verdicts, p.malformedSlice) == []
    ensures Applied(cfg, p, verdicts) == p
  {
    assert NumbersOf([]) == {} && SetOf([]) == {};
    assert NumbersOf([]) + SetOf([]) == {};
    KeptAll(cfg, p.actions);
    UnclassifiedAll(p.malformedSlice);
    assert p.actions + [] + [] == p.actions && p.ready + [] == p.ready;
  }

  lemma InitAndLast(actions: seq<Action>)
    requires actions != []
    ensures actions[..|actions| - 1] + [actions[|actions| - 1]] == actions
  {
  }

  lemma KeptLast(cfg: Config, actions: seq<Action>)
    requires actions != []
    ensures Kept(cfg, actions, {}) == Kept(cfg, actions[..|actions| - 1], {}) + [actions[|actions| - 1]]
  {
  }

  lemma {:induction false} KeptAll(cfg: Config, actions: seq<Action>)
    ensures Kept(cfg, actions, {}) == actions
  {
    if actions != [] {
      KeptAll(cfg, actions[..|actions| - 1]);
      KeptLast(cfg, actions);
      InitAndLast(actions);
    }
  }

  lemma {:induction false} UnclassifiedAll(issues: seq<Issue>)
    ensures Unclassified(issues, {}) == issues
  {
    if issues != [] {
      UnclassifiedAll(issues[..|issues| - 1]);
    }
  }

  // ---------- what the verdicts do ----------

  predicate DistinctIssues(issues: seq<Issue>)
  {
    forall i, j :: 0 <= i < j < |issues| ==> issues[i].number != issues[j].number
  }

  /** Each decision is about a malformed issue with a concrete verdict. */
  lemma {:induction false} DecisionsAre(cfg: Config, p: Prepared, verdicts: map<nat, Verdict>, issues: seq<Issue>)
    ensures forall d :: d in Decisions(cfg, p, verdicts, issues) <==>
              exists i :: i in issues && Acted(p, verdicts, i) && verdicts[i.number].Concrete? && d == Decide(cfg, i, verdicts[i.number].mode)
  {
    if issues != [] {
      var last := issues[|issues| - 1];
      DecisionsAre(cfg, p, verdicts, issues[..|issues| - 1]);
      assert issues == issues[..|issues| - 1] + [last];
    }
  }

  predicate Concretely(p: Prepared, verdicts: map<nat, Verdict>, issue: Issue)
  {
    issue in p.malformedSlice && Acted(p, verdicts, issue) && verdicts[issue.number].Concrete?
  }

  /** The ready issues grow by exactly the malformed ones with a concrete verdict, relabelled. */
  lemma ReadyGrowsByConcrete(cfg: Config, p: Prepared, verdicts: map<nat, Verdict>)
    ensures p.ready <= Applied(cfg, p, verdicts).ready
    ensures forall r :: r in Applied(cfg, p, verdicts).ready[|p.ready|..] <==>
              exists i :: Concretely(p, verdicts, i) && r == Relabelled(cfg, i, verdicts[i.number].mode)
  {
    var ds := Decisions(cfg, p, verdicts, p.malformedSlice);
    DecisionsAre(cfg, p, verdicts, p.malformedSlice);
    assert (p.ready + IssuesOf(ds))[|p.ready|..] == IssuesOf(ds);
    forall r
      ensures r in IssuesOf(ds) <==> exists i :: Concretely(p, verdicts, i) && r == Relabelled(cfg, i, verdicts[i.number].mode)
    {
      if r in IssuesOf(ds) {
        var k :| 0 <= k < |ds| && IssuesOf(ds)[k] == r;
        assert ds[k] in ds;
        var i :| i in p.malformedSlice && Acted(p, verdicts, i) && verdicts[i.number].Concrete? && ds[k] == Decide(cfg, i, verdicts[i.number].mode);
        assert Concretely(p, verdicts, i);
      }
      if i :| Concretely(p, verdicts, i) && r == Relabelled(cfg, i, verdicts[i.number].mode) {
        var d := Decide(cfg, i, verdicts[i.number].mode);
        assert d in ds;
        var k :| 0 <= k < |ds| && ds[k] == d;
        assert IssuesOf(ds)[k] == r;
      }
    }
  }

  lemma {:induction false} MalformedMembers(rule: Rule, cs: seq<Classified>)
    ensures forall i :: i in MalformedOnes(rule, cs) <==> exists c :: c in cs && IsMalformed(rule, c.readiness) && c.issue == i
  {
    if cs != [] {
      MalformedMembers(rule, cs[..|cs| - 1]);
      assert cs == cs[..|cs| - 1] + [cs[|cs| - 1]];
    }
  }

  /** Every issue that a round of preparing lists and a concrete verdict promotes is ready, in the verdict's mode. */
  lemma PromotedIsReady(cfg: Config, normalize: (string, set<nat>) -> string, open: set<nat>, raws: seq<Raw>, p: Prepared,
                        verdicts: map<nat, Verdict>, issue: Issue)
    requires Different(cfg) && Concretely(p, verdicts, issue)
    requires p.malformedSlice == MalformedOnes(SliceRule, ClassifiedAll(cfg, normalize, open, raws))
    requires p.malformedBody == MalformedOnes(BodyRule, ClassifiedAll(cfg, normalize, open, raws))
    ensures
      var promoted := Relabelled(cfg, issue, verdicts[issue.number].mode);
      && Classify(cfg, promoted).kind == ReadyAfk && Classify(cfg, promoted).slice == Some(verdicts[issue.number].mode)
      && Filter(promoted.labels, SliceLabels(cfg)) == [LabelOf(cfg, verdicts[issue.number].mode)]
  {
    var cs := ClassifiedAll(cfg, normalize, open, raws);
    MalformedMembers(SliceRule, cs);
    MalformedMembers(BodyRule, cs);
    var c :| c in cs && IsMalformed(SliceRule, c.readiness) && c.issue == issue;
    var k :| 0 <= k < |cs| && cs[k] == c;
    assert c.readiness == Classify(cfg, issue);
    assert !c.readiness.longBody ==> IsMalformed(BodyRule, c.readiness) && issue in p.malformedBody;
    RelabelledIsReady(cfg, issue, verdicts[issue.number].mode);
  }

  // ---------- and on the tracker ----------

  predicate NoDup(labels: seq<string>)
  {
    forall i, j :: 0 <= i < j < |labels| ==> labels[i] != labels[j]
  }

  lemma {:induction false} WithoutNoDup(labels: seq<string>, name: string)
    requires NoDup(labels)
    ensures NoDup(Without(labels, name))
  {
    if labels != [] {
      WithoutNoDup(labels[1..], name);
      WithoutMembers(labels[1..], name);
      HeadOnce(labels, Without(labels[1..], name));
    }
  }

  lemma HeadOnce(labels: seq<string>, rest: seq<string>)
    requires labels != [] && NoDup(labels) && NoDup(rest) && forall l :: l in rest ==> l in labels[1..]
    ensures NoDup([labels[0]] + rest)
  {
    var all := [labels[0]] + rest;
    forall i, j | 0 <= i < j < |all|
      ensures all[i] != all[j]
    {
      assert all[j] == rest[j - 1] && rest[j - 1] in labels[1..];
      var k :| 0 <= k < |labels[1..]| && labels[1..][k] == rest[j - 1];
      assert labels[k + 1] == rest[j - 1];
      assert i > 0 ==> all[i] == rest[i - 1];
    }
  }

  lemma {:induction false} AfterNoDup(number: nat, labels: seq<string>, actions: seq<Action>)
    requires NoDup(labels)
    ensures NoDup(After(number, labels, actions))
    decreases |actions|
  {
    if actions != [] {
      var a := actions[0];
      WithoutNoDup(labels, a.name);
      AfterNoDup(number, if a.number == number then Do(labels, a.name, a.intent) else labels, actions[1..]);
    }
  }

  lemma {:induction false} FilterNoDup(labels: seq<string>, wanted: set<string>)
    requires NoDup(labels)
    ensures NoDup(Filter(labels, wanted))
  {
    if labels != [] {
      FilterNoDup(labels[1..], wanted);
      FilterMembers(labels[1..], wanted);
      HeadOnce(labels, Filter(labels[1..], wanted));
    }
  }

  lemma OnlyOne(labels: seq<string>, l: string)
    requires NoDup(labels) && forall x :: x in labels <==> x == l
    ensures labels == [l]
  {
    assert l in labels;
    forall i | 0 <= i < |labels|
      ensures labels[i] == l
    {
      assert labels[i] in labels;
    }
    if |labels| > 1 {
      FirstTwoSame(labels, l);
    }
  }

  lemma FirstTwoSame(labels: seq<string>, l: string)
    requires |labels| > 1 && forall i :: 0 <= i < |labels| ==> labels[i] == l
    ensures labels[0] == labels[1]
  {
  }

  lemma {:induction false} AfterAppend(number: nat, labels: seq<string>, a: seq<Action>, b: seq<Action>)
    ensures After(number, labels, a + b) == After(number, After(number, labels, a), b)
    decreases |a|
  {
    if a == [] {
      assert a + b == b;
    } else {
      assert (a + b)[1..] == a[1..] + b;
      AfterAppend(number, if a[0].number == number then Do(labels, a[0].name, a[0].intent) else labels, a[1..], b);
    }
  }

  lemma {:induction false} DecisionActionsAre(ds: seq<Decision>)
    ensures forall a :: a in AllDecisionActions(ds) <==> exists d :: d in ds && a in DecisionActions(d)
  {
    if ds != [] {
      DecisionActionsAre(ds[..|ds| - 1]);
      assert ds == ds[..|ds| - 1] + [ds[|ds| - 1]];
    }
  }

  lemma {:induction false} KeptAre(cfg: Config, actions: seq<Action>, classified: set<nat>)
    ensures forall a :: a in Kept(cfg, actions, classified) <==>
              a in actions && !(a.number in classified && a.name == cfg.needsSliceType && a.intent == Add)
  {
    if actions != [] {
      KeptAre(cfg, actions[..|actions| - 1], classified);
      assert actions == actions[..|actions| - 1] + [actions[|actions| - 1]];
    }
  }

  lemma {:induction false} MarkerAddsAre(cfg: Config, numbers: seq<nat>)
    ensures forall a :: a in MarkerAdds(cfg, numbers) <==> a.name == cfg.needsSliceType && a.intent == Add && a.number in numbers
  {
    if numbers != [] {
      MarkerAddsAre(cfg, numbers[..|numbers| - 1]);
      assert numbers == numbers[..|numbers| - 1] + [numbers[|numbers| - 1]];
    }
  }

  lemma OwnDecision(cfg: Config, p: Prepared, verdicts: map<nat, Verdict>, issue: Issue, d: Decision)
    requires DistinctIssues(p.malformedSlice) && Concretely(p, verdicts, issue)
    requires d in Decisions(cfg, p, verdicts, p.malformedSlice) && d.issue.number == issue.number
    ensures d == Decide(cfg, issue, verdicts[issue.number].mode)
  {
    DecisionsAre(cfg, p, verdicts, p.malformedSlice);
    var i :| i in p.malformedSlice && Acted(p, verdicts, i) && verdicts[i.number].Concrete? && d == Decide(cfg, i, verdicts[i.number].mode);
    assert i == issue;
  }

  /** In the decisions' actions the slice labels of a promoted issue are the chosen one, added, and the other ones it has, removed. */
  lemma SliceActionsOf(cfg: Config, p: Prepared, verdicts: map<nat, Verdict>, issue: Issue, a: Action)
    requires DistinctIssues(p.malformedSlice) && Concretely(p, verdicts, issue)
    requires a in AllDecisionActions(Decisions(cfg, p, verdicts, p.malformedSlice)) && a.number == issue.number
    ensures a.intent == Add <==> a.name == LabelOf(cfg, verdicts[issue.number].mode)
  {
    var ds := Decisions(cfg, p, verdicts, p.malformedSlice);
    DecisionActionsAre(ds);
    var d :| d in ds && a in DecisionActions(d);
    OwnDecision(cfg, p, verdicts, issue, d);
    WithoutMembers(Filter(issue.labels, SliceLabels(cfg)), d.chosen);
  }

  lemma SliceActionsThere(cfg: Config, p: Prepared, verdicts: map<nat, Verdict>, issue: Issue)
    requires Concretely(p, verdicts, issue)
    ensures
      var actions, chosen := AllDecisionActions(Decisions(cfg, p, verdicts, p.malformedSlice)), LabelOf(cfg, verdicts[issue.number].mode);
      && Action(issue.number, chosen, Add) in actions
      && forall l :: l in Filter(issue.labels, SliceLabels(cfg)) && l != chosen ==> Action(issue.number, l, Remove) in actions
  {
    var ds, d := Decisions(cfg, p, verdicts, p.malformedSlice), Decide(cfg, issue, verdicts[issue.number].mode);
    DecisionsAre(cfg, p, verdicts, p.malformedSlice);
    assert d in ds;
    DecisionActionsAre(ds);
    WithoutMembers(Filter(issue.labels, SliceLabels(cfg)), d.chosen);
    forall l | l in Filter(issue.labels, SliceLabels(cfg)) && l != d.chosen
      ensures Action(issue.number, l, Remove) in AllDecisionActions(ds)
    {
      assert Action(issue.number, l, Remove) in DecisionActions(d);
    }
    assert Action(issue.number, d.chosen, Add) in DecisionActions(d);
  }

  lemma DecidedSlices(cfg: Config, p: Prepared, verdicts: map<nat, Verdict>, issue: Issue, labels: seq<string>)
    requires DistinctIssues(p.malformedSlice) && Concretely(p, verdicts, issue)
    requires Filter(labels, SliceLabels(cfg)) == Filter(issue.labels, SliceLabels(cfg))
    ensures
      var after := After(issue.number, labels, AllDecisionActions(Decisions(cfg, p, verdicts, p.malformedSlice)));
      forall l :: l in SliceLabels(cfg) ==> (l in after <==> l == LabelOf(cfg, verdicts[issue.number].mode))
  {
    var actions, chosen := AllDecisionActions(Decisions(cfg, p, verdicts, p.malformedSlice)), LabelOf(cfg, verdicts[issue.number].mode);
    SliceActionsThere(cfg, p, verdicts, issue);
    FilterMembers(labels, SliceLabels(cfg));
    forall a | a in actions && a.number == issue.number
      ensures a.intent == Add <==> a.name == chosen
    {
      SliceActionsOf(cfg, p, verdicts, issue, a);
    }
    forall l | l in SliceLabels(cfg)
      ensures l in After(issue.number, labels, actions) <==> l == chosen
    {
      AfterMembers(issue.number, labels, actions, l);
    }
  }

  /** Once the actions are applied in order, a promoted issue has exactly one slice label on the tracker: the verdict's. */
  lemma PromotedOnTracker(cfg: Config, p: Prepared, verdicts: map<nat, Verdict>, issue: Issue)
    requires Different(cfg) && DistinctIssues(p.malformedSlice) && Concretely(p, verdicts, issue) && NoDup(issue.labels)
    requires forall a :: a in p.actions ==> a.name == cfg.needsInfo || a.name == cfg.needsSliceType
    ensures Filter(After(issue.number, issue.labels, Applied(cfg, p, verdicts).actions), SliceLabels(cfg)) ==
            [LabelOf(cfg, verdicts[issue.number].mode)]
  {
    var slices, n := SliceLabels(cfg), issue.number;
    var ds, us := Decisions(cfg, p, verdicts, p.malformedSlice), Uncertains(p, verdicts, p.malformedSlice);
    var kept, marks := Kept(cfg, p.actions, NumbersOf(ds) + SetOf(us)), MarkerAdds(cfg, us);
    var l1 := After(n, issue.labels, kept);
    var l2 := After(n, l1, AllDecisionActions(ds));
    var l3 := After(n, l2, marks);
    AfterAppend(n, issue.labels, kept + AllDecisionActions(ds), marks);
    AfterAppend(n, issue.labels, kept, AllDecisionActions(ds));
    KeptAre(cfg, p.actions, NumbersOf(ds) + SetOf(us));
    AfterOther(n, issue.labels, kept, slices);
    DecidedSlices(cfg, p, verdicts, issue, l1);
    MarkerAddsAre(cfg, us);
    AfterOther(n, l2, marks, slices);
    AfterNoDup(n, issue.labels, kept);
    AfterNoDup(n, l1, AllDecisionActions(ds));
    FilterNoDup(l2, slices);
    FilterMembers(l2, slices);
    OnlyOne(Filter(l2, slices), LabelOf(cfg, verdicts[n].mode));
  }

  // ---------- the next round of preparing ----------

  /** What a round of preparing makes of the issues, as far as verdicts and actions are concerned. */
  ghost predicate PreparedFrom(cfg: Config, normalize: (string, set<nat>) -> string, raws: seq<Raw>, p: Prepared)
  {
    var cs := ClassifiedAll(cfg, normalize, Numbers(raws), raws);
    && p.malformedBody == MalformedOnes(BodyRule, cs) && p.malformedSlice == MalformedOnes(SliceRule, cs)
    && (forall a :: a in p.actions <==> IsWanted(cfg, Rules, cs, a))
  }

  predicate ProperRaws(raws: seq<Raw>)
  {
    DistinctNumbers(raws) && forall r :: r in raws ==> CarriedIsSound(r) && NoDup(r.issue.labels)
  }

  lemma {:induction false} MalformedDistinct(rule: Rule, cs: seq<Classified>)
    requires forall i, j :: 0 <= i < j < |cs| ==> cs[i].issue.number != cs[j].issue.number
    ensures DistinctIssues(MalformedOnes(rule, cs))
  {
    if cs != [] {
      var rest := cs[..|cs| - 1];
      MalformedDistinct(rule, rest);
      MalformedMembers(rule, rest);
      var before := MalformedOnes(rule, rest);
      forall i | i in before
        ensures i.number != cs[|cs| - 1].issue.number
      {
        var c :| c in rest && IsMalformed(rule, c.readiness) && c.issue == i;
        var k :| 0 <= k < |rest| && rest[k] == c;
      }
      forall k | 0 <= k < |before|
        ensures before[k].number != cs[|cs| - 1].issue.number
      {
        assert before[k] in before;
      }
    }
  }

  lemma {:induction false} UncertainsAre(p: Prepared, verdicts: map<nat, Verdict>, issues: seq<Issue>)
    ensures forall n :: n in Uncertains(p, verdicts, issues) <==>
              exists i :: i in issues && Acted(p, verdicts, i) && verdicts[i.number].Uncertain? && i.number == n
  {
    if issues != [] {
      UncertainsAre(p, verdicts, issues[..|issues| - 1]);
      assert issues == issues[..|issues| - 1] + [issues[|issues| - 1]];
    }
  }

  /** The i-th issue is malformed in the way of the rule exactly when it is listed so. */
  lemma Listed(cfg: Config, normalize: (string, set<nat>) -> string, raws: seq<Raw>, i: nat, rule: Rule)
    requires DistinctNumbers(raws) && i < |raws|
    ensures
      var cs, c := ClassifiedAll(cfg, normalize, Numbers(raws), raws), ClassifiedOf(cfg, normalize, Numbers(raws), raws[i]);
      && (c.issue in MalformedOnes(rule, cs) <==> IsMalformed(rule, c.readiness))
      && (forall x :: x in MalformedOnes(rule, cs) && x.number == c.issue.number ==> x == c.issue)
  {
    var cs := ClassifiedAll(cfg, normalize, Numbers(raws), raws);
    MalformedMembers(rule, cs);
    assert cs[i] in cs;
    forall x | x in MalformedOnes(rule, cs) && x.number == cs[i].issue.number
      ensures x == cs[i].issue && IsMalformed(rule, cs[i].readiness)
    {
      var c :| c in cs && IsMalformed(rule, c.readiness) && c.issue == x;
      SameCandidate(cfg, normalize, Numbers(raws), raws, i, c);
    }
  }

  /** The verdict on the issue: none that is acted on, an uncertain one, or a mode. */
  function Ruling(p: Prepared, verdicts: map<nat, Verdict>, issue: Issue): Option<Verdict>
  {
    if issue in p.malformedSlice && Acted(p, verdicts, issue) then Some(verdicts[issue.number]) else None
  }

  /** A decision's action is on a slice label of an issue with a concrete verdict. */
  lemma DecidedIsSlice(cfg: Config, p: Prepared, verdicts: map<nat, Verdict>, a: Action)
    requires a in AllDecisionActions(Decisions(cfg, p, verdicts, p.malformedSlice))
    ensures a.name in SliceLabels(cfg) && exists x :: Concretely(p, verdicts, x) && x.number == a.number
  {
    var ds := Decisions(cfg, p, verdicts, p.malformedSlice);
    DecisionActionsAre(ds);
    DecisionsAre(cfg, p, verdicts, p.malformedSlice);
    var d :| d in ds && a in DecisionActions(d);
    var x :| x in p.malformedSlice && Acted(p, verdicts, x) && verdicts[x.number].Concrete? && d == Decide(cfg, x, verdicts[x.number].mode);
    assert Concretely(p, verdicts, x);
    WithoutMembers(Filter(x.labels, SliceLabels(cfg)), d.chosen);
    FilterMembers(x.labels, SliceLabels(cfg));
  }

  lemma NumbersDecided(cfg: Config, p: Prepared, verdicts: map<nat, Verdict>, n: nat)
    ensures n in NumbersOf(Decisions(cfg, p, verdicts, p.malformedSlice)) <==> exists x :: Concretely(p, verdicts, x) && x.number == n
  {
    var ds := Decisions(cfg, p, verdicts, p.malformedSlice);
    DecisionsAre(cfg, p, verdicts, p.malformedSlice);
    if n in NumbersOf(ds) {
      var d :| d in ds && d.issue.number == n;
      var x :| x in p.malformedSlice && Acted(p, verdicts, x) && verdicts[x.number].Concrete? && d == Decide(cfg, x, verdicts[x.number].mode);
      assert Concretely(p, verdicts, x);
    }
    if x :| Concretely(p, verdicts, x) && x.number == n {
      var d := Decide(cfg, x, verdicts[x.number].mode);
      assert d in ds && d.issue.number == n;
    }
  }

  /** Which verdict actions there are for the i-th issue. */
  lemma RulingActions(cfg: Config, normalize: (string, set<nat>) -> string, raws: seq<Raw>, p: Prepared, verdicts: map<nat, Verdict>, i: nat)
    requires DistinctNumbers(raws) && i < |raws| && PreparedFrom(cfg, normalize, raws, p)
    ensures
      var issue := ClassifiedOf(cfg, normalize, Numbers(raws), raws[i]).issue;
      var ruling := Ruling(p, verdicts, issue);
      && (forall x :: Concretely(p, verdicts, x) && x.number == issue.number ==> ruling.Some? && ruling.value.Concrete?)
      && (issue.number in NumbersOf(Decisions(cfg, p, verdicts, p.malformedSlice)) <==> ruling.Some? && ruling.value.Concrete?)
      && (issue.number in Uncertains(p, verdicts, p.malformedSlice) <==> ruling == Some(Uncertain))
  {
    var issue := ClassifiedOf(cfg, normalize, Numbers(raws), raws[i]).issue;
    Listed(cfg, normalize, raws, i, SliceRule);
    NumbersDecided(cfg, p, verdicts, issue.number);
    UncertainsAre(p, verdicts, p.malformedSlice);
    if Ruling(p, verdicts, issue).Some? && Ruling(p, verdicts, issue).value.Concrete? {
      assert Concretely(p, verdicts, issue);
    }
  }

  /** The actions on one label of the i-th issue after the verdicts: its markers' own, but the slice marker's only as ruled. */
  lemma MarkerActionsAfter(cfg: Config, normalize: (string, set<nat>) -> string, raws: seq<Raw>, p: Prepared, verdicts: map<nat, Verdict>,
                           i: nat, rule: Rule, intent: Intent)
    requires Different(cfg) && DistinctNumbers(raws) && i < |raws| && PreparedFrom(cfg, normalize, raws, p)
    ensures
      var c := ClassifiedOf(cfg, normalize, Numbers(raws), raws[i]);
      var a, ruling := Action(c.issue.number, MarkerOf(cfg, rule), intent), Ruling(p, verdicts, c.issue);
      a in Applied(cfg, p, verdicts).actions <==>
        if rule == SliceRule && ruling.Some? then ruling.value.Uncertain? && intent == Add
        else Wanted(cfg, rule, c.issue, c.readiness) == Some(a)
  {
    var open, c := Numbers(raws), ClassifiedOf(cfg, normalize, Numbers(raws), raws[i]);
    var a := Action(c.issue.number, MarkerOf(cfg, rule), intent);
    var ds, us := Decisions(cfg, p, verdicts, p.malformedSlice), Uncertains(p, verdicts, p.malformedSlice);
    RulingActions(cfg, normalize, raws, p, verdicts, i);
    Listed(cfg, normalize, raws, i, SliceRule);
    KeptAre(cfg, p.actions, NumbersOf(ds) + SetOf(us));
    MarkerAddsAre(cfg, us);
    if a in AllDecisionActions(ds) {
      DecidedIsSlice(cfg, p, verdicts, a);
    }
    if IsWanted(cfg, Rules, ClassifiedAll(cfg, normalize, open, raws), a) {
      OnlyWanted(cfg, normalize, open, raws, i, rule, a);
    }
    if Wanted(cfg, rule, c.issue, c.readiness) == Some(a) {
      InWanted(cfg, normalize, open, raws, i, rule, a);
    }
  }

  /** After the verdicts' actions, a marker is on the issue when it should be; the slice marker of a promoted issue stays
      where it was. */
  lemma MarkerAfterVerdicts(cfg: Config, normalize: (string, set<nat>) -> string, raws: seq<Raw>, p: Prepared, verdicts: map<nat, Verdict>,
                            i: nat, rule: Rule)
    requires Different(cfg) && DistinctNumbers(raws) && i < |raws| && PreparedFrom(cfg, normalize, raws, p)
    ensures
      var c := ClassifiedOf(cfg, normalize, Numbers(raws), raws[i]);
      var ruling, here := Ruling(p, verdicts, c.issue), MarkerOf(cfg, rule) in After(c.issue.number, c.issue.labels, Applied(cfg, p, verdicts).actions);
      !c.readiness.exempt ==>
        (here <==> if rule == SliceRule && ruling.Some? && ruling.value.Concrete? then MarkerOf(cfg, rule) in c.issue.labels
                   else ShouldMark(rule, c.readiness))
  {
    var c := ClassifiedOf(cfg, normalize, Numbers(raws), raws[i]);
    MarkerActionsAfter(cfg, normalize, raws, p, verdicts, i, rule, Add);
    MarkerActionsAfter(cfg, normalize, raws, p, verdicts, i, rule, Remove);
    Listed(cfg, normalize, raws, i, SliceRule);
    AddedOrRemoved(c.issue.number, MarkerOf(cfg, rule), c.issue.labels, Applied(cfg, p, verdicts).actions);
  }

  lemma AddedOrRemoved(n: nat, name: string, labels: seq<string>, actions: seq<Action>)
    requires !(Action(n, name, Add) in actions && Action(n, name, Remove) in actions)
    ensures name in After(n, labels, actions) <==>
            if Action(n, name, Add) in actions then true else if Action(n, name, Remove) in actions then false else name in labels
  {
    forall a, b | a in actions && b in actions && a.number == b.number == n && a.name == b.name == name
      ensures a.intent == b.intent
    {
      assert a == Action(n, name, a.intent) && b == Action(n, name, b.intent);
    }
    AfterMembers(n, labels, actions, name);
  }

  /** Only the verdict on an issue touches its slice labels, and nothing its HITL label. */
  lemma ActionsOf(cfg: Config, normalize: (string, set<nat>) -> string, raws: seq<Raw>, p: Prepared, verdicts: map<nat, Verdict>, i: nat, a: Action)
    requires Different(cfg) && DistinctNumbers(raws) && i < |raws| && PreparedFrom(cfg, normalize, raws, p)
    requires a in Applied(cfg, p, verdicts).actions && a.number == raws[i].issue.number
    ensures
      var ruling := Ruling(p, verdicts, ClassifiedOf(cfg, normalize, Numbers(raws), raws[i]).issue);
      a.name != cfg.hitl && (a.name in SliceLabels(cfg) ==> ruling.Some? && ruling.value.Concrete?)
  {
    var ds, us := Decisions(cfg, p, verdicts, p.malformedSlice), Uncertains(p, verdicts, p.malformedSlice);
    KeptAre(cfg, p.actions, NumbersOf(ds) + SetOf(us));
    MarkerAddsAre(cfg, us);
    RulingActions(cfg, normalize, raws, p, verdicts, i);
    if a in AllDecisionActions(ds) {
      DecidedIsSlice(cfg, p, verdicts, a);
    } else if a in p.actions {
      WantedIsForMarkers(cfg, Rules, ClassifiedAll(cfg, normalize, Numbers(raws), raws), a);
    }
  }

  /** What the next classification sees of the labels: the same, except that a promoted issue has its one slice label. */
  lemma ReadinessAfterVerdicts(cfg: Config, normalize: (string, set<nat>) -> string, raws: seq<Raw>, p: Prepared, verdicts: map<nat, Verdict>, i: nat)
    requires Different(cfg) && ProperRaws(raws) && i < |raws| && PreparedFrom(cfg, normalize, raws, p)
    ensures
      var c := ClassifiedOf(cfg, normalize, Numbers(raws), raws[i]);
      var ruling := Ruling(p, verdicts, c.issue);
      var now, before := Classify(cfg, c.issue.(labels := After(c.issue.number, c.issue.labels, Applied(cfg, p, verdicts).actions))), Classify(cfg, c.issue);
      now.exempt == before.exempt && (if ruling.Some? && ruling.value.Concrete? then now.slice.Some? else now.slice == before.slice)
  {
    var c := ClassifiedOf(cfg, normalize, Numbers(raws), raws[i]);
    var n, labels, actions := c.issue.number, c.issue.labels, Applied(cfg, p, verdicts).actions;
    var ruling := Ruling(p, verdicts, c.issue);
    var promoted := ruling.Some? && ruling.value.Concrete?;
    forall a | a in actions && a.number == n
      ensures a.name != cfg.hitl && (a.name in SliceLabels(cfg) ==> promoted)
    {
      ActionsOf(cfg, normalize, raws, p, verdicts, i, a);
    }
    if promoted {
      PromotedSlices(cfg, normalize, raws, p, verdicts, i);
      OneSlice(cfg, After(n, labels, actions), LabelOf(cfg, ruling.value.mode));
    }
    ReadinessFrom(cfg, c.issue, actions, promoted);
  }

  lemma ReadinessFrom(cfg: Config, issue: Issue, actions: seq<Action>, promoted: bool)
    requires forall a :: a in actions && a.number == issue.number ==> a.name != cfg.hitl && (a.name in SliceLabels(cfg) ==> promoted)
    requires promoted ==> SliceMode(cfg, After(issue.number, issue.labels, actions)).Some?
    ensures
      var now, before := Classify(cfg, issue.(labels := After(issue.number, issue.labels, actions))), Classify(cfg, issue);
      now.exempt == before.exempt && (if promoted then now.slice.Some? else now.slice == before.slice)
  {
    OtherStays(issue.number, issue.labels, actions, cfg.hitl);
    if !promoted {
      AfterOther(issue.number, issue.labels, actions, SliceLabels(cfg));
    }
  }

  lemma OneSlice(cfg: Config, labels: seq<string>, l: string)
    requires l in SliceLabels(cfg) && Filter(labels, SliceLabels(cfg)) == [l]
    ensures SliceMode(cfg, labels).Some?
  {
  }

  lemma PromotedSlices(cfg: Config, normalize: (string, set<nat>) -> string, raws: seq<Raw>, p: Prepared, verdicts: map<nat, Verdict>, i: nat)
    requires Different(cfg) && ProperRaws(raws) && i < |raws| && PreparedFrom(cfg, normalize, raws, p)
    requires Concretely(p, verdicts, ClassifiedOf(cfg, normalize, Numbers(raws), raws[i]).issue)
    ensures
      var issue := ClassifiedOf(cfg, normalize, Numbers(raws), raws[i]).issue;
      Filter(After(issue.number, issue.labels, Applied(cfg, p, verdicts).actions), SliceLabels(cfg)) ==
      [LabelOf(cfg, verdicts[issue.number].mode)]
  {
    var cs := ClassifiedAll(cfg, normalize, Numbers(raws), raws);
    assert raws[i] in raws;
    MalformedDistinct(SliceRule, cs);
    forall a | a in p.actions
      ensures a.name == cfg.needsInfo || a.name == cfg.needsSliceType
    {
      WantedIsForMarkers(cfg, Rules, cs, a);
    }
    PromotedOnTracker(cfg, p, verdicts, ClassifiedOf(cfg, normalize, Numbers(raws), raws[i]).issue);
  }

  /** A carried readiness says the same as far as markers go. */
  lemma CarriedAgrees(cfg: Config, raw: Raw, prepared: Issue)
    requires CarriedIsSound(raw)
    ensures
      var r, own := PlanningReadiness(cfg, raw, prepared), Classify(cfg, prepared);
      r.exempt == own.exempt && r.longBody == own.longBody && r.slice.Some? == own.slice.Some?
  {
  }

  /** The next round's action on a marker: only a promoted issue's slice marker goes. */
  function Again(cfg: Config, p: Prepared, verdicts: map<nat, Verdict>, issue: Issue, rule: Rule): Option<Action>
  {
    if rule == SliceRule && Concretely(p, verdicts, issue) && cfg.needsSliceType in issue.labels
    then Some(Action(issue.number, cfg.needsSliceType, Remove)) else None
  }

  lemma NextClassified(cfg: Config, normalize: (string, set<nat>) -> string, raws: seq<Raw>, actions: seq<Action>, i: nat)
    requires i < |raws|
    ensures
      var issue := ClassifiedOf(cfg, normalize, Numbers(raws), raws[i]).issue;
      var issue' := issue.(labels := After(issue.number, issue.labels, actions));
      ClassifiedOf(cfg, normalize, Numbers(raws), OnTracker(raws, actions)[i]) == Classified(issue', Classify(cfg, issue'))
  {
  }

  /** What the next round wants of the i-th issue. */
  lemma WantedAfterVerdicts(cfg: Config, normalize: (string, set<nat>) -> string, raws: seq<Raw>, p: Prepared, verdicts: map<nat, Verdict>,
                            i: nat, rule: Rule)
    requires Different(cfg) && ProperRaws(raws) && i < |raws| && PreparedFrom(cfg, normalize, raws, p)
    ensures
      var c' := ClassifiedOf(cfg, normalize, Numbers(raws), OnTracker(raws, Applied(cfg, p, verdicts).actions)[i]);
      Wanted(cfg, rule, c'.issue, c'.readiness) == Again(cfg, p, verdicts, ClassifiedOf(cfg, normalize, Numbers(raws), raws[i]).issue, rule)
  {
    var c, actions := ClassifiedOf(cfg, normalize, Numbers(raws), raws[i]), Applied(cfg, p, verdicts).actions;
    assert CarriedIsSound(raws[i]) by {
      assert raws[i] in raws;
    }
    CarriedAgrees(cfg, raws[i], c.issue);
    MarkerAfterVerdicts(cfg, normalize, raws, p, verdicts, i, rule);
    ReadinessAfterVerdicts(cfg, normalize, raws, p, verdicts, i);
    Listed(cfg, normalize, raws, i, SliceRule);
    NextClassified(cfg, normalize, raws, actions, i);
    var ruling := Ruling(p, verdicts, c.issue);
    NextWants(cfg, rule, c, c.issue.(labels := After(c.issue.number, c.issue.labels, actions)), ruling.Some? && ruling.value.Concrete?);
  }

  lemma NextWants(cfg: Config, rule: Rule, c: Classified, issue': Issue, promoted: bool)
    requires issue'.number == c.issue.number && issue'.body == c.issue.body
    requires Classify(cfg, issue').exempt == c.readiness.exempt && (|Strip(c.issue.body)| >= BodyFloor) == c.readiness.longBody
    requires if promoted then Classify(cfg, issue').slice.Some? else Classify(cfg, issue').slice.Some? == c.readiness.slice.Some?
    requires promoted ==> !c.readiness.exempt
    requires !c.readiness.exempt ==>
               (MarkerOf(cfg, rule) in issue'.labels <==>
                if rule == SliceRule && promoted then MarkerOf(cfg, rule) in c.issue.labels else ShouldMark(rule, c.readiness))
    ensures Wanted(cfg, rule, issue', Classify(cfg, issue')) ==
            if rule == SliceRule && promoted && cfg.needsSliceType in c.issue.labels
            then Some(Action(c.issue.number, cfg.needsSliceType, Remove)) else None
  {
  }

  /** Preparing again after the verdicts' actions asks for exactly this: the slice marker is to be removed from the promoted
      issues that carried it. */
  lemma NextRoundAfterVerdicts(cfg: Config, normalize: (string, set<nat>) -> string, raws: seq<Raw>, p: Prepared, verdicts: map<nat, Verdict>, a: Action)
    requires Different(cfg) && ProperRaws(raws) && PreparedFrom(cfg, normalize, raws, p)
    ensures
      var after := OnTracker(raws, Applied(cfg, p, verdicts).actions);
      IsWanted(cfg, Rules, ClassifiedAll(cfg, normalize, Numbers(after), after), a) <==>
      exists i :: Concretely(p, verdicts, i) && cfg.needsSliceType in i.labels && a == Action(i.number, cfg.needsSliceType, Remove)
  {
    var after := OnTracker(raws, Applied(cfg, p, verdicts).actions);
    NumbersOnTracker(raws, Applied(cfg, p, verdicts).actions);
    var open := Numbers(raws);
    var cs, cs' := ClassifiedAll(cfg, normalize, open, raws), ClassifiedAll(cfg, normalize, open, after);
    if IsWanted(cfg, Rules, cs', a) {
      OnlyMarkerComesUp(cfg, normalize, raws, p, verdicts, a);
    }
    if i :| Concretely(p, verdicts, i) && cfg.needsSliceType in i.labels && a == Action(i.number, cfg.needsSliceType, Remove) {
      MarkerComesUp(cfg, normalize, raws, p, verdicts, i);
    }
  }

  lemma OnlyMarkerComesUp(cfg: Config, normalize: (string, set<nat>) -> string, raws: seq<Raw>, p: Prepared, verdicts: map<nat, Verdict>, a: Action)
    requires Different(cfg) && ProperRaws(raws) && PreparedFrom(cfg, normalize, raws, p)
    requires IsWanted(cfg, Rules, ClassifiedAll(cfg, normalize, Numbers(raws), OnTracker(raws, Applied(cfg, p, verdicts).actions)), a)
    ensures exists i :: Concretely(p, verdicts, i) && cfg.needsSliceType in i.labels && a == Action(i.number, cfg.needsSliceType, Remove)
  {
    var open := Numbers(raws);
    var cs, cs' := ClassifiedAll(cfg, normalize, open, raws), ClassifiedAll(cfg, normalize, open, OnTracker(raws, Applied(cfg, p, verdicts).actions));
    forall k, rule | 0 <= k < |cs|
      ensures WantsAgain(cfg, p, verdicts, cs'[k], cs[k].issue, rule)
    {
      WantedAfterVerdicts(cfg, normalize, raws, p, verdicts, k, rule);
    }
    WantedOfOne(cfg, p, verdicts, cs', cs, a);
  }

  predicate WantsAgain(cfg: Config, p: Prepared, verdicts: map<nat, Verdict>, c': Classified, issue: Issue, rule: Rule)
  {
    Wanted(cfg, rule, c'.issue, c'.readiness) == Again(cfg, p, verdicts, issue, rule)
  }

  lemma WantedOfOne(cfg: Config, p: Prepared, verdicts: map<nat, Verdict>, cs': seq<Classified>, cs: seq<Classified>, a: Action)
    requires |cs'| == |cs| && forall k, rule :: 0 <= k < |cs| ==> WantsAgain(cfg, p, verdicts, cs'[k], cs[k].issue, rule)
    requires IsWanted(cfg, Rules, cs', a)
    ensures exists i :: Concretely(p, verdicts, i) && cfg.needsSliceType in i.labels && a == Action(i.number, cfg.needsSliceType, Remove)
  {
    var r, c' :| r in Rules && c' in cs' && Wanted(cfg, r, c'.issue, c'.readiness) == Some(a);
    var k :| 0 <= k < |cs'| && cs'[k] == c';
    assert WantsAgain(cfg, p, verdicts, cs'[k], cs[k].issue, r);
    assert Concretely(p, verdicts, cs[k].issue);
  }

  lemma MarkerComesUp(cfg: Config, normalize: (string, set<nat>) -> string, raws: seq<Raw>, p: Prepared, verdicts: map<nat, Verdict>, issue: Issue)
    requires Different(cfg) && ProperRaws(raws) && PreparedFrom(cfg, normalize, raws, p)
    requires Concretely(p, verdicts, issue) && cfg.needsSliceType in issue.labels
    ensures
      var after := OnTracker(raws, Applied(cfg, p, verdicts).actions);
      IsWanted(cfg, Rules, ClassifiedAll(cfg, normalize, Numbers(raws), after), Action(issue.number, cfg.needsSliceType, Remove))
  {
    var after := OnTracker(raws, Applied(cfg, p, verdicts).actions);
    var k := IndexOf(cfg, ClassifiedAll(cfg, normalize, Numbers(raws), raws), issue);
    WantedAfterVerdicts(cfg, normalize, raws, p, verdicts, k, SliceRule);
    InWanted(cfg, normalize, Numbers(raws), after, k, SliceRule, Action(issue.number, cfg.needsSliceType, Remove));
  }

  lemma IndexOf(cfg: Config, cs: seq<Classified>, issue: Issue) returns (k: nat)
    requires issue in MalformedOnes(SliceRule, cs)
    ensures k < |cs| && cs[k].issue == issue
  {
    MalformedMembers(SliceRule, cs);
    var c :| c in cs && IsMalformed(SliceRule, c.readiness) && c.issue == issue;
    k :| 0 <= k < |cs| && cs[k] == c;
  }
}
