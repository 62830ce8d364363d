/** Readiness and marker labels, told by the labels and the body themselves. */
module LabelLaws {
  import opened Outcomes
  import opened Text
  import opened IssueLabels

  /** The i-th label is a slice label, and there is no other one. */
  predicate OnlySliceAt(cfg: Config, labels: seq<string>, i: int)
  {
    && 0 <= i < |labels| && labels[i] in {cfg.refactor, cfg.behavior, cfg.docs}
    && forall j :: 0 <= j < |labels| && j != i ==> labels[j] !in {cfg.refactor, cfg.behavior, cfg.docs}
  }

  predicate HasOneSlice(cfg: Config, labels: seq<string>)
  {
    exists i :: 0 <= i < |labels| && OnlySliceAt(cfg, labels, i)
  }

  predicate HasSlice(cfg: Config, labels: seq<string>)
  {
    cfg.refactor in labels || cfg.behavior in labels || cfg.docs in labels
  }

  lemma {:induction false} FilterCounts(cfg: Config, labels: seq<string>)
    ensures var found := Filter(labels, SliceLabels(cfg));
            && (found == [] <==> !HasSlice(cfg, labels))
            && (|found| == 1 <==> HasOneSlice(cfg, labels))
            && forall i :: OnlySliceAt(cfg, labels, i) ==> found == [labels[i]]
  {
    FilterMembers(labels, SliceLabels(cfg));
    var found := Filter(labels, SliceLabels(cfg));
    NoneFound(cfg, labels);
    forall i | OnlySliceAt(cfg, labels, i)
      ensures found == [labels[i]]
    {
      AloneIsFound(cfg, labels, i);
    }
    if |found| == 1 {
      var i := FoundIsAlone(cfg, labels);
      assert OnlySliceAt(cfg, labels, i);
    }
  }

  lemma NoneFound(cfg: Config, labels: seq<string>)
    ensures Filter(labels, SliceLabels(cfg)) == [] <==> !HasSlice(cfg, labels)
  {
    FilterMembers(labels, SliceLabels(cfg));
    var found := Filter(labels, SliceLabels(cfg));
    if found != [] {
      assert found[0] in found;
    }
    if HasSlice(cfg, labels) {
      var l :| l in labels && l in SliceLabels(cfg);
      assert l in found;
    }
  }

  lemma {:induction false} AloneIsFound(cfg: Config, labels: seq<string>, i: nat)
    requires OnlySliceAt(cfg, labels, i)
    ensures Filter(labels, SliceLabels(cfg)) == [labels[i]]
  {
    var rest := labels[1..];
    assert forall j :: 0 <= j < |rest| ==> rest[j] == labels[j + 1];
    if i == 0 {
      NoneFound(cfg, rest);
    } else {
      assert OnlySliceAt(cfg, rest, i - 1);
      AloneIsFound(cfg, rest, i - 1);
    }
  }

  lemma {:induction false} FoundIsAlone(cfg: Config, labels: seq<string>) returns (i: nat)
    requires |Filter(labels, SliceLabels(cfg))| == 1
    ensures OnlySliceAt(cfg, labels, i)
  {
    var rest := labels[1..];
    assert forall j :: 0 <= j < |rest| ==> labels[j + 1] == rest[j];
    if labels[0] in SliceLabels(cfg) {
      NoneFound(cfg, rest);
      i := 0;
      assert forall j :: 0 <= j < |rest| ==> rest[j] in rest;
    } else {
      var k := FoundIsAlone(cfg, rest);
      i := k + 1;
      assert forall j :: 1 <= j < |labels| ==> labels[j] == rest[j - 1];
    }
  }

  /** Each readiness, by the HITL label, the length of the stripped body and the number of slice labels. */
  lemma KindMeans(cfg: Config, issue: Issue)
    ensures
      var kind, long := Classify(cfg, issue).kind, |Strip(issue.body)| >= 100;
      && (kind == HitlExempt <==> cfg.hitl in issue.labels)
      && (cfg.hitl !in issue.labels ==>
            && (kind == ReadyAfk <==> long && HasOneSlice(cfg, issue.labels))
            && (kind == ShortBody <==> !long && HasOneSlice(cfg, issue.labels))
            && (kind == Malformed <==> !long && !HasOneSlice(cfg, issue.labels))
            && (kind == MissingSliceMode <==> long && !HasSlice(cfg, issue.labels))
            && (kind == MultipleSliceModes <==> long && HasSlice(cfg, issue.labels) && !HasOneSlice(cfg, issue.labels)))
  {
    SliceModeIsOne(cfg, issue.labels);
    FilterCounts(cfg, issue.labels);
  }

  lemma SliceModeIsOne(cfg: Config, labels: seq<string>)
    ensures SliceMode(cfg, labels).Some? <==> HasOneSlice(cfg, labels)
  {
    FilterCounts(cfg, labels);
    FilterMembers(labels, SliceLabels(cfg));
    var found := Filter(labels, SliceLabels(cfg));
    if |found| == 1 {
      assert found[0] in found;
    }
  }

  /** The mode is that of the one slice label. */
  lemma SliceModeMeans(cfg: Config, labels: seq<string>, i: nat)
    requires Different(cfg) && OnlySliceAt(cfg, labels, i)
    ensures SliceMode(cfg, labels) == Some(Docs) <==> labels[i] == cfg.docs
    ensures SliceMode(cfg, labels) == Some(Behavior) <==> labels[i] == cfg.behavior
    ensures SliceMode(cfg, labels) == Some(Refactor) <==> labels[i] == cfg.refactor
  {
    FilterCounts(cfg, labels);
  }

  // ---------- after a round of reconciling ----------

  /** Every action on this issue is one that its own rule wants. */
  lemma NoActionOnExempt(cfg: Config, normalize: (string, set<nat>) -> string, open: set<nat>, raws: seq<Raw>, actions: seq<Action>, i: nat)
    requires DistinctNumbers(raws) && i < |raws| && CarriedIsSound(raws[i]) && cfg.hitl in raws[i].issue.labels
    requires forall a :: a in actions <==> IsWanted(cfg, Rules, ClassifiedAll(cfg, normalize, open, raws), a)
    ensures forall a :: a in actions ==> a.number != raws[i].issue.number
  {
    var cs := ClassifiedAll(cfg, normalize, open, raws);
    forall a | a in actions
      ensures a.number != raws[i].issue.number
    {
      var r, c :| r in Rules && c in cs && Wanted(cfg, r, c.issue, c.readiness) == Some(a);
      if a.number == raws[i].issue.number {
        SameCandidate(cfg, normalize, open, raws, i, c);
      }
    }
  }

  lemma {:induction false} NoActionNoChange(number: nat, labels: seq<string>, actions: seq<Action>)
    requires forall a :: a in actions ==> a.number != number
    ensures After(number, labels, actions) == labels
    decreases |actions|
  {
    if actions != [] {
      assert actions[0] in actions;
      NoActionNoChange(number, labels, actions[1..]);
    }
  }

  /**
   * The labels of an issue after the actions of a round: those of an exempt issue are as they were. Any other issue has the
   * marker for its body exactly when the stripped body is too short, the marker for its slice exactly when it has not one slice
   * label, and all its other labels.
   */
  lemma LabelsAfterRound(cfg: Config, normalize: (string, set<nat>) -> string, raws: seq<Raw>, actions: seq<Action>, i: nat)
    requires Different(cfg) && DistinctNumbers(raws) && i < |raws| && CarriedIsSound(raws[i])
    requires forall a :: a in actions <==> IsWanted(cfg, Rules, ClassifiedAll(cfg, normalize, Numbers(raws), raws), a)
    ensures
      var before := raws[i].issue;
      var after := After(before.number, before.labels, actions);
      if cfg.hitl in before.labels then after == before.labels
      else
        && (cfg.needsInfo in after <==> |Strip(normalize(before.body, Numbers(raws)))| < 100)
        && (cfg.needsSliceType in after <==> !HasOneSlice(cfg, before.labels))
        && forall l :: l != cfg.needsInfo && l != cfg.needsSliceType ==> (l in after <==> l in before.labels)
  {
    var open, before := Numbers(raws), raws[i].issue;
    if cfg.hitl in before.labels {
      NoActionOnExempt(cfg, normalize, open, raws, actions, i);
      NoActionNoChange(before.number, before.labels, actions);
    } else {
      MarkerIsRight(cfg, normalize, open, raws, actions, i, BodyRule);
      MarkerIsRight(cfg, normalize, open, raws, actions, i, SliceRule);
      SliceModeIsOne(cfg, before.labels);
      ReadinessIsOwn(cfg, normalize, open, raws[i]);
      forall l | l != cfg.needsInfo && l != cfg.needsSliceType
        ensures l in After(before.number, before.labels, actions) <==> l in before.labels
      {
        OthersUntouched(cfg, normalize, open, raws, actions, before, l);
      }
    }
  }

  lemma OthersUntouched(cfg: Config, normalize: (string, set<nat>) -> string, open: set<nat>, raws: seq<Raw>, actions: seq<Action>, issue: Issue, l: string)
    requires forall a :: a in actions <==> IsWanted(cfg, Rules, ClassifiedAll(cfg, normalize, open, raws), a)
    requires l != cfg.needsInfo && l != cfg.needsSliceType
    ensures l in After(issue.number, issue.labels, actions) <==> l in issue.labels
  {
    forall a | a in actions
      ensures a.name != l
    {
      WantedIsForMarkers(cfg, Rules, ClassifiedAll(cfg, normalize, open, raws), a);
    }
    OtherStays(issue.number, issue.labels, actions, l);
  }

  /** A carried readiness says of body and slice what the issue itself does. */
  lemma ReadinessIsOwn(cfg: Config, normalize: (string, set<nat>) -> string, open: set<nat>, raw: Raw)
    requires CarriedIsSound(raw)
    ensures
      var c := ClassifiedOf(cfg, normalize, open, raw);
      && (c.readiness.longBody <==> |Strip(normalize(raw.issue.body, open))| >= 100)
      && (c.readiness.slice.Some? <==> SliceMode(cfg, raw.issue.labels).Some?)
      && (c.readiness.exempt <==> cfg.hitl in raw.issue.labels)
  {
  }

  // ---------- who is listed ----------

  /** The issues at these places, which are in order and are just the wanted ones. */
  ghost predicate Picks(cs: seq<Classified>, wanted: Classified -> bool, at: seq<nat>, issues: seq<Issue>)
  {
    && |at| == |issues| && (forall k :: 0 <= k < |at| ==> at[k] < |cs| && wanted(cs[at[k]]) && issues[k] == cs[at[k]].issue)
    && (forall k, m :: 0 <= k < m < |at| ==> at[k] < at[m])
    && (forall j :: 0 <= j < |cs| && wanted(cs[j]) ==> j in at)
  }

  lemma PicksMore(cs: seq<Classified>, c: Classified, wanted: Classified -> bool, at: seq<nat>, issues: seq<Issue>)
    requires Picks(cs, wanted, at, issues)
    ensures wanted(c) ==> Picks(cs + [c], wanted, at + [|cs|], issues + [c.issue])
    ensures !wanted(c) ==> Picks(cs + [c], wanted, at, issues)
  {
    var more := cs + [c];
    assert forall j :: 0 <= j < |cs| ==> more[j] == cs[j];
    assert forall j :: j in at ==> j in at + [|cs|];
    assert |cs| in at + [|cs|];
  }

  /** The ready issues are those classified as ready, in the order of the round. */
  lemma {:induction false} ReadyInOrder(cs: seq<Classified>) returns (at: seq<nat>)
    ensures Picks(cs, (c: Classified) => c.readiness.kind == ReadyAfk, at, ReadyOnes(cs))
  {
    at := [];
    if cs != [] {
      var init, c := cs[..|cs| - 1], cs[|cs| - 1];
      at := ReadyInOrder(init);
      assert cs == init + [c];
      PicksMore(init, c, (c: Classified) => c.readiness.kind == ReadyAfk, at, ReadyOnes(init));
      if c.readiness.kind == ReadyAfk {
        at := at + [|init|];
      } else {
        assert ReadyOnes(cs) == ReadyOnes(init);
      }
    }
  }

  /** And so are the issues listed for one of the two markers: those that are neither ready nor exempt and lack what it is about. */
  lemma {:induction false} MalformedInOrder(rule: Rule, cs: seq<Classified>) returns (at: seq<nat>)
    ensures Picks(cs, (c: Classified) => IsMalformed(rule, c.readiness), at, MalformedOnes(rule, cs))
  {
    at := [];
    if cs != [] {
      var init, c := cs[..|cs| - 1], cs[|cs| - 1];
      at := MalformedInOrder(rule, init);
      assert cs == init + [c];
      PicksMore(init, c, (c: Classified) => IsMalformed(rule, c.readiness), at, MalformedOnes(rule, init));
      if IsMalformed(rule, c.readiness) {
        at := at + [|init|];
      } else {
        assert MalformedOnes(rule, cs) == MalformedOnes(rule, init);
      }
    }
  }

  /** An issue that is still ready keeps the readiness it came with. */
  lemma CarriedIsKept(cfg: Config, normalize: (string, set<nat>) -> string, raws: seq<Raw>, readiness: map<nat, Readiness>, i: nat)
    requires DistinctNumbers(raws) && i < |raws| && raws[i].carried.Some? && raws[i].carried.value.kind == ReadyAfk
    requires Classify(cfg, raws[i].issue.(body := normalize(raws[i].issue.body, Numbers(raws)))).kind == ReadyAfk
    requires var cs := ClassifiedAll(cfg, normalize, Numbers(raws), raws);
             && (forall n :: n in readiness <==> exists r :: r in ReadyOnes(cs) && r.number == n)
             && (forall n :: n in readiness ==> IsReadinessOf(cs, n, readiness[n]))
    ensures raws[i].issue.number in readiness && readiness[raws[i].issue.number] == raws[i].carried.value
  {
    var open, n := Numbers(raws), raws[i].issue.number;
    var cs := ClassifiedAll(cfg, normalize, open, raws);
    assert cs[i] == ClassifiedOf(cfg, normalize, open, raws[i]);
    ReadyIsListed(cs, i);
    OneOfThatNumber(cfg, normalize, open, raws, i, readiness[n]);
  }

  lemma ReadyIsListed(cs: seq<Classified>, i: nat)
    requires i < |cs| && cs[i].readiness.kind == ReadyAfk
    ensures exists r :: r in ReadyOnes(cs) && r.number == cs[i].issue.number
  {
    var at := ReadyInOrder(cs);
    var k :| 0 <= k < |at| && at[k] == i;
    assert ReadyOnes(cs)[k] == cs[i].issue;
  }

  lemma OneOfThatNumber(cfg: Config, normalize: (string, set<nat>) -> string, open: set<nat>, raws: seq<Raw>, i: nat, r: Readiness)
    requires DistinctNumbers(raws) && i < |raws|
    requires IsReadinessOf(ClassifiedAll(cfg, normalize, open, raws), raws[i].issue.number, r)
    ensures r == ClassifiedOf(cfg, normalize, open, raws[i]).readiness
  {
    var cs := ClassifiedAll(cfg, normalize, open, raws);
    var c :| c in cs && c.issue.number == raws[i].issue.number && c.readiness == r;
    SameCandidate(cfg, normalize, open, raws, i, c);
  }
}
