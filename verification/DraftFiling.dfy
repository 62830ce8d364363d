/** Filing a set of issue drafts in two stages, with crashes between any two effects. */
module DraftFiling {
  import opened Outcomes
  import opened SectionedMarkdown
  import opened SessionRecords
  import opened TicketBody

  // ---------- the issue tracker ----------

  datatype Issue = Issue(databaseId: nat, title: string, body: string, labels: set<string>)

  /** Sub-issue edges go from parent number to child id, dependencies from child number to blocker id. */
  datatype Repo = Repo(issues: map<nat, Issue>, subIssues: set<(nat, nat)>, dependencies: set<(nat, nat)>,
                       nextNumber: nat, nextId: nat)

  ghost predicate ValidRepo(r: Repo)
  {
    && (forall n :: n in r.issues ==> n < r.nextNumber && r.issues[n].databaseId < r.nextId)
    && (forall e :: e in r.subIssues ==> e.1 < r.nextId)
    && (forall e :: e in r.dependencies ==> e.0 < r.nextNumber)
  }

  ghost function ParentsOf(r: Repo, id: nat): set<nat>
  {
    set e | e in r.subIssues && e.1 == id :: e.0
  }

  ghost function BlockersOf(r: Repo, number: nat): set<nat>
  {
    set e | e in r.dependencies && e.0 == number :: e.1
  }

  class Port {
    var repo: Repo

    constructor ()
      ensures repo == Repo(map[], {}, {}, 0, 0)
    {
      repo := Repo(map[], {}, {}, 0, 0);
    }

    method CreateIssue(title: string, body: string, labels: seq<string>) returns (number: nat, id: nat)
      requires ValidRepo(repo)
      modifies this
      ensures ValidRepo(repo)
      ensures number !in old(repo).issues && number >= old(repo).nextNumber && id >= old(repo).nextId
      ensures repo == old(repo).(issues := old(repo).issues[number := Issue(id, title, body, LabelSet(labels))],
                                 nextNumber := repo.nextNumber, nextId := repo.nextId)
    {
      var gap: nat, gap': nat := *, *;
      number, id := repo.nextNumber + gap, repo.nextId + gap';
      repo := repo.(issues := repo.issues[number := Issue(id, title, body, LabelSet(labels))],
                    nextNumber := number + 1, nextId := id + 1);
    }

    method RegisterSubIssue(parent: nat, child: nat)
      modifies this
      ensures repo == old(repo).(subIssues := old(repo).subIssues + {(parent, child)})
    {
      repo := repo.(subIssues := repo.subIssues + {(parent, child)});
    }

    method AddIssueDependency(child: nat, blocker: nat)
      modifies this
      ensures repo == old(repo).(dependencies := old(repo).dependencies + {(child, blocker)})
    {
      repo := repo.(dependencies := repo.dependencies + {(child, blocker)});
    }

    method ApplyLabel(number: nat, state: string)
      requires number in repo.issues
      modifies this
      ensures repo == Labelled(old(repo), number, state)
    {
      repo := Labelled(repo, number, state);
    }
  }

  function LabelSet(labels: seq<string>): set<string>
  {
    set l | l in labels
  }

  function Labelled(r: Repo, number: nat, state: string): Repo
    requires number in r.issues
  {
    r.(issues := r.issues[number := r.issues[number].(labels := r.issues[number].labels + {state})])
  }

  class Store {
    var record: Option<CandidateRecord>

    constructor (record: Option<CandidateRecord>)
      ensures this.record == record
    {
      this.record := record;
    }
  }

  // ---------- what is filed ----------

  /** The call's arguments: the drafts, the label that makes a ticket ready, the previous candidate's specification. */
  datatype Job = Job(drafts: seq<IssueDraft>, stateLabel: string, prevSpec: Option<IssueRef>)

  predicate DistinctHandles(drafts: seq<IssueDraft>)
  {
    forall i, j :: 0 <= i < j < |drafts| ==> drafts[i].handle != drafts[j].handle
  }

  /** Every ticket is blocked by drafts in front of it only. */
  predicate InOrder(drafts: seq<IssueDraft>)
  {
    forall i :: 0 < i < |drafts| ==> BlockersBefore(drafts, i)
  }

  predicate BlockersBefore(drafts: seq<IssueDraft>, i: nat)
    requires i < |drafts|
  {
    forall h :: h in drafts[i].blockedBy ==> h in Handles(drafts[..i])
  }

  function Handles(drafts: seq<IssueDraft>): set<string>
  {
    set d | d in drafts :: d.handle
  }

  function StripStateLabel(labels: seq<string>, stateLabel: string): (r: seq<string>)
    ensures LabelSet(r) == LabelSet(labels) - {stateLabel}
  {
    if labels == [] then []
    else
      assert LabelSet(labels) == {labels[0]} + LabelSet(labels[1..]);
      var rest := StripStateLabel(labels[1..], stateLabel);
      assert LabelSet([labels[0]] + rest) == {labels[0]} + LabelSet(rest);
      if labels[0] == stateLabel then rest else [labels[0]] + rest
  }

  function SpecFiled(job: Job, spec: IssueRef): FiledTicket
    requires job.drafts != []
  {
    FiledTicket(job.drafts[0].handle, spec.number, spec.databaseId, job.drafts[0].title)
  }

  function ByHandle(spec: FiledTicket, filed: seq<FiledTicket>): map<string, FiledTicket>
  {
    if filed == [] then map[spec.handle := spec]
    else ByHandle(spec, filed[..|filed| - 1])[filed[|filed| - 1].handle := filed[|filed| - 1]]
  }

  function Extra(job: Job): seq<nat>
  {
    if job.prevSpec.Some? then [job.prevSpec.value.number] else []
  }

  function IdsOf(handles: seq<string>, known: map<string, FiledTicket>): set<nat>
    requires forall h :: h in handles ==> h in known
  {
    set h | h in handles :: known[h].databaseId
  }

  function BlockerIds(job: Job, blockedBy: seq<string>, known: map<string, FiledTicket>): set<nat>
    requires forall h :: h in blockedBy ==> h in known
  {
    if job.prevSpec.Some? then IdsOf(blockedBy, known) + {job.prevSpec.value.databaseId} else IdsOf(blockedBy, known)
  }

  // ---------- the invariant ----------

  /** The issue of the i-th recorded ticket: what the draft says, its parent, exactly its blockers. */
  ghost predicate TicketFiled(job: Job, repo: Repo, spec: IssueRef, filed: seq<FiledTicket>, i: nat)
    requires i < |filed| && |filed| < |job.drafts|
  {
    var f, d := filed[i], job.drafts[i + 1];
    var known := ByHandle(SpecFiled(job, spec), filed[..i]);
    && f.handle == d.handle && f.title == d.title
    && (forall h :: h in d.blockedBy ==> h in known)
    && f.number in repo.issues
    && repo.issues[f.number].databaseId == f.databaseId
    && repo.issues[f.number].title == d.title
    && repo.issues[f.number].body == Body(d.body, Ref(spec.number), BlockedText(Numbers(d.blockedBy, known) + Extra(job)))
    && repo.issues[f.number].labels - {job.stateLabel} == LabelSet(d.labels) - {job.stateLabel}
    && ParentsOf(repo, f.databaseId) == {spec.number}
    && BlockersOf(repo, f.number) == BlockerIds(job, d.blockedBy, known)
  }

  ghost function Created(base: Repo, repo: Repo): set<nat>
  {
    repo.issues.Keys - base.issues.Keys
  }

  /** No issue that was there before is touched, and neither are its edges. */
  ghost predicate Extends(base: Repo, repo: Repo)
  {
    && (forall n :: n in base.issues ==> n in repo.issues && repo.issues[n] == base.issues[n])
    && EdgesKept(base, repo)
  }

  ghost predicate EdgesKept(base: Repo, repo: Repo)
  {
    && base.nextNumber <= repo.nextNumber && base.nextId <= repo.nextId
    && (forall i: nat :: i < base.nextId ==> ParentsOf(repo, i) == ParentsOf(base, i))
    && (forall n: nat :: n < base.nextNumber ==> BlockersOf(repo, n) == BlockersOf(base, n))
  }

  function Recorded(record: Option<CandidateRecord>): seq<FiledTicket>
  {
    if record.Some? then record.value.filed else []
  }

  predicate HasSpec(record: Option<CandidateRecord>)
  {
    record.Some? && record.value.spec.Some?
  }

  /** The recorded issues are different new issues. */
  ghost predicate RecordedNew(base: Repo, repo: Repo, spec: IssueRef, filed: seq<FiledTicket>)
  {
    && spec.number in Created(base, repo)
    && (forall i :: 0 <= i < |filed| ==> filed[i].number in Created(base, repo) && filed[i].number != spec.number)
    && (forall i, j :: 0 <= i < j < |filed| ==> filed[i].number != filed[j].number)
  }

  /** A new issue carries the state label only if it is a recorded ticket and every ticket is recorded. */
  ghost predicate LabelsLast(job: Job, base: Repo, repo: Repo, filed: seq<FiledTicket>)
  {
    forall n {:trigger job.stateLabel in repo.issues[n].labels} ::
      n in Created(base, repo) && job.stateLabel in repo.issues[n].labels ==>
                  |filed| + 1 == |job.drafts| && exists i :: 0 <= i < |filed| && filed[i].number == n
  }

  ghost predicate SpecFiledAs(job: Job, repo: Repo, r: CandidateRecord)
    requires r.spec.Some? && job.drafts != []
  {
    && r.specTitle == job.drafts[0].title
    && r.spec.value.number in repo.issues
    && repo.issues[r.spec.value.number] ==
       Issue(r.spec.value.databaseId, job.drafts[0].title, job.drafts[0].body, LabelSet(job.drafts[0].labels) - {job.stateLabel})
  }

  ghost predicate AllLabelled(job: Job, repo: Repo, filed: seq<FiledTicket>)
  {
    forall i :: 0 <= i < |filed| ==> filed[i].number in repo.issues && job.stateLabel in repo.issues[filed[i].number].labels
  }

  ghost predicate RecordKept(job: Job, base: Repo, repo: Repo, r: CandidateRecord)
    requires r.spec.Some?
  {
    && |r.filed| < |job.drafts|
    && SpecFiledAs(job, repo, r)
    && RecordedNew(base, repo, r.spec.value, r.filed)
    && (forall i :: 0 <= i < |r.filed| ==> TicketFiled(job, repo, r.spec.value, r.filed, i))
    && (r.labelsApplied ==> |r.filed| + 1 == |job.drafts| && AllLabelled(job, repo, r.filed))
  }

  /** What holds between any two effects of any number of runs with so many crashes behind them. */
  ghost predicate Inv(job: Job, base: Repo, repo: Repo, record: Option<CandidateRecord>, crashes: nat)
  {
    TrackerSafe(job, base, repo, Recorded(record)) && Counted(job, base, repo, record, crashes)
  }

  ghost predicate TrackerSafe(job: Job, base: Repo, repo: Repo, filed: seq<FiledTicket>)
  {
    ValidRepo(repo) && Extends(base, repo) && LabelsLast(job, base, repo, filed)
  }

  /** The record is true, and apart from the issues that it names there are no more new ones than crashes. */
  ghost predicate Counted(job: Job, base: Repo, repo: Repo, record: Option<CandidateRecord>, crashes: nat)
  {
    if HasSpec(record) then
      && RecordKept(job, base, repo, record.value)
      && |Created(base, repo)| <= 1 + |record.value.filed| + crashes
    else
      && Recorded(record) == [] && (record.Some? ==> !record.value.labelsApplied)
      && |Created(base, repo)| <= crashes
  }

  /** Nothing filed yet. */
  lemma Start(job: Job, repo: Repo, record: Option<CandidateRecord>)
    requires ValidRepo(repo)
    requires record.None? || (record.value.spec.None? && record.value.filed == [] && !record.value.labelsApplied)
    ensures Inv(job, repo, repo, record, 0)
  {
  }

  /** However often filing crashed and was resumed, no more issues were created than drafts and crashes. */
  lemma IssuesAreBounded(job: Job, base: Repo, repo: Repo, record: Option<CandidateRecord>, crashes: nat)
    requires Inv(job, base, repo, record, crashes)
    ensures |Created(base, repo)| <= |job.drafts| + crashes
  {
  }

  // ---------- what the single effects keep ----------

  lemma CreatedGrows(base: Repo, repo: Repo, repo': Repo, number: nat)
    requires Extends(base, repo) && number !in repo.issues && repo'.issues.Keys == repo.issues.Keys + {number}
    ensures Created(base, repo') == Created(base, repo) + {number}
    ensures |Created(base, repo')| == |Created(base, repo)| + 1
  {
    assert number !in base.issues;
    OneMore(base.issues.Keys, repo.issues.Keys, number);
  }

  lemma OneMore(base: set<nat>, all: set<nat>, n: nat)
    requires n !in base && n !in all
    ensures all + {n} - base == all - base + {n}
    ensures |all + {n} - base| == |all - base| + 1
  {
    assert all + {n} - base == all - base + {n};
  }

  /** The two repositories agree on everything that a recorded ticket is about. */
  ghost predicate SameFor(job: Job, repo: Repo, repo': Repo, f: FiledTicket)
  {
    f.number in repo.issues ==>
      && f.number in repo'.issues
      && SameButState(job, repo.issues[f.number], repo'.issues[f.number])
      && ParentsOf(repo', f.databaseId) == ParentsOf(repo, f.databaseId)
      && BlockersOf(repo', f.number) == BlockersOf(repo, f.number)
  }

  /** At most the state label has been added. */
  predicate SameButState(job: Job, issue: Issue, issue': Issue)
  {
    issue' == issue || issue' == issue.(labels := issue.labels + {job.stateLabel})
  }

  lemma TicketStays(job: Job, repo: Repo, repo': Repo, spec: IssueRef, filed: seq<FiledTicket>, i: nat)
    requires i < |filed| && |filed| < |job.drafts|
    requires TicketFiled(job, repo, spec, filed, i) && SameFor(job, repo, repo', filed[i])
    ensures TicketFiled(job, repo', spec, filed, i)
  {
  }

  /** A record goes on being true when its issues only gain state labels. */
  lemma RecordStays(job: Job, base: Repo, repo: Repo, repo': Repo, r: CandidateRecord)
    requires r.spec.Some? && RecordKept(job, base, repo, r)
    requires Created(base, repo) <= Created(base, repo')
    requires repo'.issues[r.spec.value.number] == repo.issues[r.spec.value.number]
    requires forall f :: f in r.filed ==> SameFor(job, repo, repo', f)
    ensures RecordKept(job, base, repo', r)
  {
    forall i | 0 <= i < |r.filed|
      ensures TicketFiled(job, repo', r.spec.value, r.filed, i)
    {
      assert r.filed[i] in r.filed;
      TicketStays(job, repo, repo', r.spec.value, r.filed, i);
    }
    if r.labelsApplied {
      forall i | 0 <= i < |r.filed|
        ensures r.filed[i].number in repo'.issues && job.stateLabel in repo'.issues[r.filed[i].number].labels
      {
        assert r.filed[i] in r.filed;
      }
    }
  }

  /** A new issue without the state label: to be counted as a crash until it is recorded. */
  lemma CreateKeeps(job: Job, base: Repo, repo: Repo, repo': Repo, record: Option<CandidateRecord>, crashes: nat, number: nat, issue: Issue)
    requires Inv(job, base, repo, record, crashes)
    requires number !in repo.issues && ValidRepo(repo') && job.stateLabel !in issue.labels
    requires repo' == repo.(issues := repo.issues[number := issue], nextNumber := repo'.nextNumber, nextId := repo'.nextId)
    requires repo.nextNumber <= repo'.nextNumber && repo.nextId <= repo'.nextId
    ensures Inv(job, base, repo', record, crashes + 1)
  {
    SameEdges(repo, repo');
    CreateKeepsLabels(job, base, repo, repo', Recorded(record), number);
    CreateKeepsCounted(job, base, repo, repo', record, crashes, number, issue);
  }

  lemma CreateKeepsCounted(job: Job, base: Repo, repo: Repo, repo': Repo, record: Option<CandidateRecord>, crashes: nat, number: nat, issue: Issue)
    requires Extends(base, repo) && Counted(job, base, repo, record, crashes) && number !in repo.issues
    requires repo' == repo.(issues := repo.issues[number := issue], nextNumber := repo'.nextNumber, nextId := repo'.nextId)
    ensures Counted(job, base, repo', record, crashes + 1)
  {
    CreatedGrows(base, repo, repo', number);
    if HasSpec(record) {
      CreateKeepsRecord(job, base, repo, repo', record.value, number);
    }
  }

  lemma CreateKeepsRecord(job: Job, base: Repo, repo: Repo, repo': Repo, r: CandidateRecord, number: nat)
    requires r.spec.Some? && RecordKept(job, base, repo, r) && Created(base, repo) <= Created(base, repo')
    requires number !in repo.issues && number in repo'.issues && repo'.issues == repo.issues[number := repo'.issues[number]]
    requires repo'.subIssues == repo.subIssues && repo'.dependencies == repo.dependencies
    ensures RecordKept(job, base, repo', r)
  {
    SameEdges(repo, repo');
    RecordStays(job, base, repo, repo', r);
  }

  /** What was filed stays filed when later calls file other drafts. */
  lemma LaterFilingKeeps(job: Job, base: Repo, repo: Repo, repo': Repo, r: CandidateRecord)
    requires ValidRepo(repo) && Extends(repo, repo') && r.spec.Some? && RecordKept(job, base, repo, r)
    ensures RecordKept(job, base, repo', r)
    ensures forall f :: f in r.filed ==> f.number in repo.issues && f.number in repo'.issues && repo'.issues[f.number] == repo.issues[f.number]
  {
    forall f | f in r.filed
      ensures f.number in repo.issues && SameFor(job, repo, repo', f)
    {
      var i :| 0 <= i < |r.filed| && r.filed[i] == f;
      assert TicketFiled(job, repo, r.spec.value, r.filed, i);
    }
    RecordStays(job, base, repo, repo', r);
  }

  lemma SameEdges(repo: Repo, repo': Repo)
    requires repo'.subIssues == repo.subIssues && repo'.dependencies == repo.dependencies
    ensures forall i :: ParentsOf(repo', i) == ParentsOf(repo, i)
    ensures forall n :: BlockersOf(repo', n) == BlockersOf(repo, n)
  {
  }

  lemma CreateKeepsLabels(job: Job, base: Repo, repo: Repo, repo': Repo, filed: seq<FiledTicket>, number: nat)
    requires LabelsLast(job, base, repo, filed) && number !in repo.issues
    requires number in repo'.issues && job.stateLabel !in repo'.issues[number].labels
    requires repo'.issues == repo.issues[number := repo'.issues[number]]
    ensures LabelsLast(job, base, repo', filed)
  {
    forall n | n in Created(base, repo') && job.stateLabel in repo'.issues[n].labels
      ensures |filed| + 1 == |job.drafts| && exists i :: 0 <= i < |filed| && filed[i].number == n
    {
      assert n in Created(base, repo);
    }
  }

  /** Edges of an issue that is not recorded yet. */
  lemma EdgeKeeps(job: Job, base: Repo, repo: Repo, repo': Repo, record: Option<CandidateRecord>, crashes: nat, number: nat, id: nat)
    requires Inv(job, base, repo, record, crashes) && ValidRepo(repo')
    requires repo'.issues == repo.issues
    requires forall f :: f in Recorded(record) ==> f.number != number && f.databaseId != id
    requires base.nextNumber <= number && base.nextId <= id && repo'.nextNumber == repo.nextNumber && repo'.nextId == repo.nextId
    requires forall i :: i != id ==> ParentsOf(repo', i) == ParentsOf(repo, i)
    requires forall n :: n != number ==> BlockersOf(repo', n) == BlockersOf(repo, n)
    ensures Inv(job, base, repo', record, crashes)
  {
    if HasSpec(record) {
      RecordStays(job, base, repo, repo', record.value);
    }
  }

  lemma SubIssueEdge(repo: Repo, repo': Repo, parent: nat, id: nat)
    requires repo' == repo.(subIssues := repo.subIssues + {(parent, id)})
    ensures ParentsOf(repo', id) == ParentsOf(repo, id) + {parent}
    ensures forall i :: i != id ==> ParentsOf(repo', i) == ParentsOf(repo, i)
    ensures forall n :: BlockersOf(repo', n) == BlockersOf(repo, n)
  {
    assert (parent, id) in repo'.subIssues;
    forall i
      ensures ParentsOf(repo', i) == ParentsOf(repo, i) + if i == id then {parent} else {}
    {
      var more := ParentsOf(repo, i) + if i == id then {parent} else {};
      forall p | p in ParentsOf(repo', i) ensures p in more {
        assert (p, i) in repo'.subIssues;
      }
      forall p | p in more ensures p in ParentsOf(repo', i) {
        assert (p, i) in repo'.subIssues;
      }
    }
  }

  lemma DependencyEdge(repo: Repo, repo': Repo, number: nat, blocker: nat)
    requires repo' == repo.(dependencies := repo.dependencies + {(number, blocker)})
    ensures BlockersOf(repo', number) == BlockersOf(repo, number) + {blocker}
    ensures forall n :: n != number ==> BlockersOf(repo', n) == BlockersOf(repo, n)
    ensures forall i :: ParentsOf(repo', i) == ParentsOf(repo, i)
  {
    assert (number, blocker) in repo'.dependencies;
    forall n
      ensures BlockersOf(repo', n) == BlockersOf(repo, n) + if n == number then {blocker} else {}
    {
      var more := BlockersOf(repo, n) + if n == number then {blocker} else {};
      forall b | b in BlockersOf(repo', n) ensures b in more {
        assert (n, b) in repo'.dependencies;
      }
      forall b | b in more ensures b in BlockersOf(repo', n) {
        assert (n, b) in repo'.dependencies;
      }
    }
  }

  /** Recording a ticket that is there with all its edges takes back the crash it was counted as. */
  lemma RecordKeeps(job: Job, base: Repo, repo: Repo, r: CandidateRecord, crashes: nat, f: FiledTicket)
    requires r.spec.Some? && !r.labelsApplied && |r.filed| + 1 < |job.drafts|
    requires Inv(job, base, repo, Some(r), crashes + 1)
    requires f.number in Created(base, repo) && f.number != r.spec.value.number
    requires forall g :: g in r.filed ==> g.number != f.number
    requires TicketFiled(job, repo, r.spec.value, r.filed + [f], |r.filed|)
    ensures Inv(job, base, repo, Some(r.(filed := r.filed + [f])), crashes)
  {
    TicketsAppend(job, repo, r.spec.value, r.filed, f);
    NewAppend(base, repo, r.spec.value, r.filed, f);
  }

  lemma TicketsAppend(job: Job, repo: Repo, spec: IssueRef, filed: seq<FiledTicket>, f: FiledTicket)
    requires |filed| + 1 < |job.drafts|
    requires forall i :: 0 <= i < |filed| ==> TicketFiled(job, repo, spec, filed, i)
    requires TicketFiled(job, repo, spec, filed + [f], |filed|)
    ensures forall i :: 0 <= i < |filed + [f]| ==> TicketFiled(job, repo, spec, filed + [f], i)
  {
    var filed' := filed + [f];
    forall i | 0 <= i < |filed'|
      ensures TicketFiled(job, repo, spec, filed', i)
    {
      if i < |filed| {
        assert filed'[..i] == filed[..i];
        assert TicketFiled(job, repo, spec, filed, i);
      }
    }
  }

  lemma NewAppend(base: Repo, repo: Repo, spec: IssueRef, filed: seq<FiledTicket>, f: FiledTicket)
    requires RecordedNew(base, repo, spec, filed)
    requires f.number in Created(base, repo) && f.number != spec.number && forall g :: g in filed ==> g.number != f.number
    ensures RecordedNew(base, repo, spec, filed + [f])
  {
    var filed' := filed + [f];
    forall i, j | 0 <= i < j < |filed'|
      ensures filed'[i].number != filed'[j].number
    {
      if j == |filed| {
        assert filed[i] in filed;
      }
    }
  }

  lemma RecordSpecKeeps(job: Job, base: Repo, repo: Repo, record: Option<CandidateRecord>, crashes: nat, spec: IssueRef)
    requires job.drafts != [] && !HasSpec(record) && Inv(job, base, repo, record, crashes + 1)
    requires spec.number in Created(base, repo)
    requires SpecFiledAs(job, repo, CandidateRecord(Some(spec), job.drafts[0].title, [], false))
    ensures Inv(job, base, repo, Some(CandidateRecord(Some(spec), job.drafts[0].title, [], false)), crashes)
  {
  }

  lemma LabelKeeps(job: Job, base: Repo, repo: Repo, r: CandidateRecord, crashes: nat, k: nat)
    requires r.spec.Some? && Inv(job, base, repo, Some(r), crashes)
    requires k < |r.filed| && |r.filed| + 1 == |job.drafts|
    ensures r.filed[k].number in repo.issues
    ensures Inv(job, base, Labelled(repo, r.filed[k].number, job.stateLabel), Some(r), crashes)
  {
    assert TicketFiled(job, repo, r.spec.value, r.filed, k);
    var repo' := Labelled(repo, r.filed[k].number, job.stateLabel);
    LabelKeepsRepo(job, base, repo, r.filed[k].number);
    RecordStays(job, base, repo, repo', r);
    LabelKeepsLast(job, base, repo, r.filed, k);
  }

  lemma LabelKeepsRepo(job: Job, base: Repo, repo: Repo, number: nat)
    requires ValidRepo(repo) && Extends(base, repo) && number in Created(base, repo)
    ensures
      var repo' := Labelled(repo, number, job.stateLabel);
      && ValidRepo(repo') && Extends(base, repo') && Created(base, repo') == Created(base, repo)
      && (forall f: FiledTicket :: SameFor(job, repo, repo', f))
  {
    var repo' := Labelled(repo, number, job.stateLabel);
    SameEdges(repo, repo');
    assert repo'.issues.Keys == repo.issues.Keys;
  }

  lemma LabelKeepsLast(job: Job, base: Repo, repo: Repo, filed: seq<FiledTicket>, k: nat)
    requires LabelsLast(job, base, repo, filed) && k < |filed| && |filed| + 1 == |job.drafts|
    requires filed[k].number in Created(base, repo)
    ensures LabelsLast(job, base, Labelled(repo, filed[k].number, job.stateLabel), filed)
  {
    var repo' := Labelled(repo, filed[k].number, job.stateLabel);
    forall n | n in Created(base, repo') && job.stateLabel in repo'.issues[n].labels
      ensures exists i :: 0 <= i < |filed| && filed[i].number == n
    {
      assert n in Created(base, repo);
    }
  }

  // ---------- the filing call ----------

  /** `Crashed`: the process died, or a request failed and its error left the call. */
  datatype Outcome = Done | Crashed | UnknownBlocker(handle: string)

  function Charged(crashes: nat, outcome: Outcome): nat
  {
    if outcome.Crashed? then crashes + 1 else crashes
  }

  /** Stage 1a. */
  method FileSpec(job: Job, port: Port, store: Store, faulty: bool, ghost base: Repo, ghost crashes: nat) returns (outcome: Outcome)
    requires job.drafts != [] && !HasSpec(store.record) && Inv(job, base, port.repo, store.record, crashes)
    modifies port, store
    ensures Inv(job, base, port.repo, store.record, Charged(crashes, outcome))
    ensures outcome.Done? || (outcome.Crashed? && faulty)
    ensures outcome.Done? ==> HasSpec(store.record) && store.record.value.filed == [] && !store.record.value.labelsApplied
    ensures outcome.Crashed? ==> store.record == old(store.record)
  {
    var dies := Dies(faulty);
    if dies {
      return Crashed;
    }
    var d := job.drafts[0];
    ghost var before := port.repo;
    var number, id := port.CreateIssue(d.title, d.body, StripStateLabel(d.labels, job.stateLabel));
    CreateKeeps(job, base, before, port.repo, store.record, crashes, number, port.repo.issues[number]);
    dies := Dies(faulty);
    if dies {
      return Crashed;
    }
    RecordSpecKeeps(job, base, port.repo, store.record, crashes, IssueRef(number, id));
    store.record := Some(CandidateRecord(Some(IssueRef(number, id)), d.title, [], false));
    return Done;
  }

  /** An issue on its way into the record. */
  datatype Made = Made(number: nat, issue: Issue)

  /** The issue exists, is not in the record, and has this parent and these blockers so far. */
  ghost predicate Pending(base: Repo, repo: Repo, r: CandidateRecord, made: Made, parents: set<nat>, blockers: set<nat>)
    requires r.spec.Some?
  {
    && made.number in Created(base, repo) && made.number != r.spec.value.number
    && base.nextNumber <= made.number && base.nextId <= made.issue.databaseId
    && (forall f :: f in r.filed ==> f.number != made.number && f.databaseId != made.issue.databaseId)
    && repo.issues[made.number] == made.issue
    && ParentsOf(repo, made.issue.databaseId) == parents
    && BlockersOf(repo, made.number) == blockers
  }

  lemma FreshIsPending(job: Job, base: Repo, repo: Repo, repo': Repo, r: CandidateRecord, crashes: nat, made: Made)
    requires r.spec.Some? && Inv(job, base, repo, Some(r), crashes)
    requires made.number !in repo.issues && made.number >= repo.nextNumber && made.issue.databaseId >= repo.nextId
    requires repo' == repo.(issues := repo.issues[made.number := made.issue], nextNumber := repo'.nextNumber, nextId := repo'.nextId)
    ensures Pending(base, repo', r, made, {}, {})
  {
    SameEdges(repo, repo');
    forall f | f in r.filed
      ensures f.number in repo.issues && repo.issues[f.number].databaseId == f.databaseId
    {
      var i :| 0 <= i < |r.filed| && r.filed[i] == f;
      assert TicketFiled(job, repo, r.spec.value, r.filed, i);
    }
    assert ParentsOf(repo, made.issue.databaseId) == {};
    assert BlockersOf(repo, made.number) == {};
  }

  lemma ParentAdded(job: Job, base: Repo, repo: Repo, repo': Repo, r: CandidateRecord, crashes: nat, made: Made)
    requires r.spec.Some? && Inv(job, base, repo, Some(r), crashes) && Pending(base, repo, r, made, {}, {})
    requires repo' == repo.(subIssues := repo.subIssues + {(r.spec.value.number, made.issue.databaseId)})
    ensures Inv(job, base, repo', Some(r), crashes) && Pending(base, repo', r, made, {r.spec.value.number}, {})
  {
    SubIssueEdge(repo, repo', r.spec.value.number, made.issue.databaseId);
    EdgeKeeps(job, base, repo, repo', Some(r), crashes, made.number, made.issue.databaseId);
  }

  lemma BlockerAdded(job: Job, base: Repo, repo: Repo, repo': Repo, r: CandidateRecord, crashes: nat, made: Made,
                     parents: set<nat>, blockers: set<nat>, blocker: nat)
    requires r.spec.Some? && Inv(job, base, repo, Some(r), crashes) && Pending(base, repo, r, made, parents, blockers)
    requires repo' == repo.(dependencies := repo.dependencies + {(made.number, blocker)})
    ensures Inv(job, base, repo', Some(r), crashes) && Pending(base, repo', r, made, parents, blockers + {blocker})
  {
    DependencyEdge(repo, repo', made.number, blocker);
    EdgeKeeps(job, base, repo, repo', Some(r), crashes, made.number, made.issue.databaseId);
  }

  lemma IdsOfMore(handles: seq<string>, i: nat, known: map<string, FiledTicket>)
    requires i < |handles| && forall h :: h in handles ==> h in known
    ensures IdsOf(handles[..i + 1], known) == IdsOf(handles[..i], known) + {known[handles[i]].databaseId}
  {
    assert handles[..i + 1] == handles[..i] + [handles[i]];
  }

  ghost predicate Wiring(job: Job, base: Repo, repo: Repo, r: CandidateRecord, crashes: nat, made: Made, blockers: set<nat>)
  {
    r.spec.Some? && Inv(job, base, repo, Some(r), crashes) && Pending(base, repo, r, made, {r.spec.value.number}, blockers)
  }

  method AddBlocker(job: Job, port: Port, r: CandidateRecord, number: nat, blocker: nat, faulty: bool,
                    ghost base: Repo, ghost crashes: nat, ghost made: Made, ghost blockers: set<nat>)
    returns (dies: bool)
    requires made.number == number && Wiring(job, base, port.repo, r, crashes, made, blockers)
    modifies port
    ensures dies ==> faulty && Inv(job, base, port.repo, Some(r), crashes)
    ensures !dies ==> Wiring(job, base, port.repo, r, crashes, made, blockers + {blocker})
  {
    dies := Dies(faulty);
    if !dies {
      ghost var before := port.repo;
      port.AddIssueDependency(number, blocker);
      BlockerAdded(job, base, before, port.repo, r, crashes, made, {r.spec.value.number}, blockers, blocker);
    }
  }

  /** Wires the dependencies of a new issue, the one on the previous candidate's specification last. */
  method AddBlockers(job: Job, port: Port, r: CandidateRecord, number: nat, blockedBy: seq<string>, known: map<string, FiledTicket>,
                     faulty: bool, ghost base: Repo, ghost crashes: nat, ghost made: Made)
    returns (dies: bool)
    requires forall h :: h in blockedBy ==> h in known
    requires made.number == number && Wiring(job, base, port.repo, r, crashes, made, {})
    modifies port
    ensures dies ==> faulty && Inv(job, base, port.repo, Some(r), crashes)
    ensures !dies ==> Wiring(job, base, port.repo, r, crashes, made, BlockerIds(job, blockedBy, known))
  {
    dies := AddHandles(job, port, r, number, blockedBy, known, faulty, base, crashes, made);
    if !dies && job.prevSpec.Some? {
      dies := AddBlocker(job, port, r, number, job.prevSpec.value.databaseId, faulty, base, crashes, made, IdsOf(blockedBy, known));
    }
  }

  method AddHandles(job: Job, port: Port, r: CandidateRecord, number: nat, blockedBy: seq<string>, known: map<string, FiledTicket>,
                    faulty: bool, ghost base: Repo, ghost crashes: nat, ghost made: Made)
    returns (dies: bool)
    requires forall h :: h in blockedBy ==> h in known
    requires made.number == number && Wiring(job, base, port.repo, r, crashes, made, {})
    modifies port
    ensures dies ==> faulty && Inv(job, base, port.repo, Some(r), crashes)
    ensures !dies ==> Wiring(job, base, port.repo, r, crashes, made, IdsOf(blockedBy, known))
  {
    ghost var wired: set<nat> := {};
    for i := 0 to |blockedBy|
      invariant wired == IdsOf(blockedBy[..i], known)
      invariant Wiring(job, base, port.repo, r, crashes, made, wired)
    {
      var id := known[blockedBy[i]].databaseId;
      dies := AddBlocker(job, port, r, number, id, faulty, base, crashes, made, wired);
      if dies {
        return;
      }
      IdsOfMore(blockedBy, i, known);
      wired := wired + {id};
    }
    assert blockedBy[..|blockedBy|] == blockedBy;
    dies := false;
  }

  /** Creates the issue and links it to its parent. */
  method CreateTicket(job: Job, port: Port, r: CandidateRecord, title: string, body: string, labels: seq<string>,
                      faulty: bool, ghost base: Repo, ghost crashes: nat)
    returns (dies: bool, number: nat, id: nat)
    requires r.spec.Some? && Inv(job, base, port.repo, Some(r), crashes) && job.stateLabel !in labels
    modifies port
    ensures dies ==> faulty && Inv(job, base, port.repo, Some(r), crashes + 1)
    ensures !dies ==> Wiring(job, base, port.repo, r, crashes + 1, Made(number, Issue(id, title, body, LabelSet(labels))), {})
  {
    number, id := 0, 0;
    dies := Dies(faulty);
    if dies {
      return;
    }
    ghost var before := port.repo;
    number, id := port.CreateIssue(title, body, labels);
    ghost var made := Made(number, port.repo.issues[number]);
    CreateKeeps(job, base, before, port.repo, Some(r), crashes, number, made.issue);
    FreshIsPending(job, base, before, port.repo, r, crashes, made);
    dies := Dies(faulty);
    if dies {
      return;
    }
    before := port.repo;
    port.RegisterSubIssue(r.spec.value.number, id);
    ParentAdded(job, base, before, port.repo, r, crashes + 1, made);
  }

  lemma WiredKeeps(job: Job, base: Repo, repo: Repo, r: CandidateRecord, crashes: nat, made: Made, f: FiledTicket)
    requires r.spec.Some? && !r.labelsApplied && |r.filed| + 1 < |job.drafts|
    requires
      var d, known := job.drafts[|r.filed| + 1], ByHandle(SpecFiled(job, r.spec.value), r.filed);
      && f == FiledTicket(d.handle, made.number, made.issue.databaseId, d.title)
      && (forall h :: h in d.blockedBy ==> h in known)
      && made.issue.title == d.title && made.issue.labels == LabelSet(d.labels) - {job.stateLabel}
      && made.issue.body == Body(d.body, Ref(r.spec.value.number), BlockedText(Numbers(d.blockedBy, known) + Extra(job)))
      && Wiring(job, base, repo, r, crashes + 1, made, BlockerIds(job, d.blockedBy, known))
    ensures Inv(job, base, repo, Some(r.(filed := r.filed + [f])), crashes)
  {
    assert (r.filed + [f])[..|r.filed|] == r.filed;
    assert TicketFiled(job, repo, r.spec.value, r.filed + [f], |r.filed|);
    RecordKeeps(job, base, repo, r, crashes, f);
  }

  /** One round of stage 1b. The record is written only after the last edge. */
  method FileTicket(job: Job, port: Port, store: Store, known: map<string, FiledTicket>, faulty: bool, ghost base: Repo, ghost crashes: nat)
    returns (outcome: Outcome, ticket: FiledTicket)
    requires HasSpec(store.record) && !store.record.value.labelsApplied && |store.record.value.filed| + 1 < |job.drafts|
    requires Inv(job, base, port.repo, store.record, crashes)
    requires known == ByHandle(SpecFiled(job, store.record.value.spec.value), store.record.value.filed)
    modifies port, store
    ensures Inv(job, base, port.repo, store.record, Charged(crashes, outcome))
    ensures outcome.Crashed? ==> faulty && store.record == old(store.record)
    ensures outcome.UnknownBlocker? ==>
              && outcome.handle in job.drafts[|old(store.record).value.filed| + 1].blockedBy && outcome.handle !in known
              && port.repo == old(port.repo) && store.record == old(store.record)
    ensures outcome.Done? ==> NextRecorded(job, old(store.record), store.record, ticket)
  {
    var d := job.drafts[|store.record.value.filed| + 1];
    ticket := FiledTicket(d.handle, 0, 0, d.title);
    var rendered := RenderNext(job, store.record.value, known);
    if rendered.Err? {
      outcome := UnknownBlocker(rendered.error);
    } else {
      outcome, ticket := RecordTicket(job, port, store, rendered.value, known, faulty, base, crashes);
    }
  }

  method RenderNext(job: Job, r: CandidateRecord, known: map<string, FiledTicket>) returns (rendered: Result<string, string>)
    requires r.spec.Some? && !r.labelsApplied && |r.filed| + 1 < |job.drafts| && known == ByHandle(SpecFiled(job, r.spec.value), r.filed)
    ensures rendered.Ok? ==> CanRecord(job, r, rendered.value, known)
    ensures rendered.Err? ==> rendered.error in job.drafts[|r.filed| + 1].blockedBy && rendered.error !in known
  {
    var d := job.drafts[|r.filed| + 1];
    rendered := RenderTicketBody(d.body, r.spec.value.number, d.blockedBy, known, Extra(job));
  }

  /** The record has gained the next draft's ticket. */
  predicate NextRecorded(job: Job, before: Option<CandidateRecord>, after: Option<CandidateRecord>, ticket: FiledTicket)
  {
    && before.Some? && |before.value.filed| + 1 < |job.drafts|
    && ticket.handle == job.drafts[|before.value.filed| + 1].handle
    && after == Some(before.value.(filed := before.value.filed + [ticket]))
  }

  method RecordTicket(job: Job, port: Port, store: Store, body: string, known: map<string, FiledTicket>,
                      faulty: bool, ghost base: Repo, ghost crashes: nat)
    returns (outcome: Outcome, ticket: FiledTicket)
    requires HasSpec(store.record) && CanRecord(job, store.record.value, body, known)
    requires Inv(job, base, port.repo, store.record, crashes)
    modifies port, store
    ensures Inv(job, base, port.repo, store.record, Charged(crashes, outcome))
    ensures outcome.Done? || (outcome.Crashed? && faulty && store.record == old(store.record))
    ensures outcome.Done? ==> NextRecorded(job, old(store.record), store.record, ticket)
  {
    var r := store.record.value;
    var dies;
    dies, ticket := MakeRecordable(job, port, r, body, known, faulty, base, crashes);
    if dies {
      return Crashed, ticket;
    }
    store.record := Some(r.(filed := r.filed + [ticket]));
    return Done, ticket;
  }

  /** The next ticket's body, written with the handles known so far. */
  predicate CanRecord(job: Job, r: CandidateRecord, body: string, known: map<string, FiledTicket>)
  {
    && r.spec.Some? && !r.labelsApplied && |r.filed| + 1 < |job.drafts|
    && var d := job.drafts[|r.filed| + 1];
    && known == ByHandle(SpecFiled(job, r.spec.value), r.filed) && (forall h :: h in d.blockedBy ==> h in known)
    && body == Body(d.body, Ref(r.spec.value.number), BlockedText(Numbers(d.blockedBy, known) + Extra(job)))
  }

  method MakeRecordable(job: Job, port: Port, r: CandidateRecord, body: string, known: map<string, FiledTicket>,
                        faulty: bool, ghost base: Repo, ghost crashes: nat)
    returns (dies: bool, ticket: FiledTicket)
    requires CanRecord(job, r, body, known) && Inv(job, base, port.repo, Some(r), crashes)
    modifies port
    ensures ticket.handle == job.drafts[|r.filed| + 1].handle
    ensures dies ==> faulty && Inv(job, base, port.repo, Some(r), crashes + 1)
    ensures !dies ==> Inv(job, base, port.repo, Some(r.(filed := r.filed + [ticket])), crashes)
  {
    var d := job.drafts[|r.filed| + 1];
    var number, id;
    dies, number, id := MakeTicket(job, port, r, d, body, known, faulty, base, crashes);
    ticket := FiledTicket(d.handle, number, id, d.title);
    if !dies {
      WiredKeeps(job, base, port.repo, r, crashes, Made(number, Issue(id, d.title, body, LabelSet(d.labels) - {job.stateLabel})), ticket);
    }
  }

  /** Creates the ticket's issue and all its edges. */
  method MakeTicket(job: Job, port: Port, r: CandidateRecord, d: IssueDraft, body: string, known: map<string, FiledTicket>,
                    faulty: bool, ghost base: Repo, ghost crashes: nat)
    returns (dies: bool, number: nat, id: nat)
    requires r.spec.Some? && Inv(job, base, port.repo, Some(r), crashes)
    requires forall h :: h in d.blockedBy ==> h in known
    modifies port
    ensures dies ==> faulty && Inv(job, base, port.repo, Some(r), crashes + 1)
    ensures !dies ==> Wiring(job, base, port.repo, r, crashes + 1,
                             Made(number, Issue(id, d.title, body, LabelSet(d.labels) - {job.stateLabel})),
                             BlockerIds(job, d.blockedBy, known))
  {
    var labels := StripStateLabel(d.labels, job.stateLabel);
    assert job.stateLabel !in LabelSet(labels);
    dies, number, id := CreateTicket(job, port, r, d.title, body, labels, faulty, base, crashes);
    if dies {
      return;
    }
    dies := AddBlockers(job, port, r, number, d.blockedBy, known, faulty, base, crashes + 1,
                        Made(number, Issue(id, d.title, body, LabelSet(labels))));
    if !dies {
      dies := Dies(faulty);
    }
  }

  ghost predicate LabelledTo(job: Job, repo: Repo, filed: seq<FiledTicket>, k: nat)
    requires k <= |filed|
  {
    forall j :: 0 <= j < k ==> filed[j].number in repo.issues && job.stateLabel in repo.issues[filed[j].number].labels
  }

  lemma LabelledMore(job: Job, repo: Repo, filed: seq<FiledTicket>, k: nat)
    requires k < |filed| && LabelledTo(job, repo, filed, k) && filed[k].number in repo.issues
    ensures
      var repo' := Labelled(repo, filed[k].number, job.stateLabel);
      LabelledTo(job, repo', filed, k + 1) && repo'.issues.Keys == repo.issues.Keys
  {
  }

  lemma AppliedKeeps(job: Job, base: Repo, repo: Repo, r: CandidateRecord, crashes: nat)
    requires r.spec.Some? && Inv(job, base, repo, Some(r), crashes)
    requires |r.filed| + 1 == |job.drafts| && LabelledTo(job, repo, r.filed, |r.filed|)
    ensures Inv(job, base, repo, Some(r.(labelsApplied := true)), crashes)
  {
  }

  lemma InvMore(job: Job, base: Repo, repo: Repo, record: Option<CandidateRecord>, crashes: nat)
    requires Inv(job, base, repo, record, crashes)
    ensures Inv(job, base, repo, record, crashes + 1)
  {
  }

  method LabelTicket(job: Job, port: Port, r: CandidateRecord, i: nat, faulty: bool, ghost base: Repo, ghost crashes: nat) returns (dies: bool)
    requires r.spec.Some? && |r.filed| + 1 == |job.drafts| && i < |r.filed|
    requires Inv(job, base, port.repo, Some(r), crashes) && LabelledTo(job, port.repo, r.filed, i)
    modifies port
    ensures port.repo.issues.Keys == old(port.repo.issues.Keys)
    ensures Inv(job, base, port.repo, Some(r), crashes)
    ensures dies ==> faulty
    ensures !dies ==> LabelledTo(job, port.repo, r.filed, i + 1)
  {
    dies := Dies(faulty);
    if !dies {
      LabelKeeps(job, base, port.repo, r, crashes, i);
      LabelledMore(job, port.repo, r.filed, i);
      port.ApplyLabel(r.filed[i].number, job.stateLabel);
    }
  }

  method LabelTickets(job: Job, port: Port, r: CandidateRecord, faulty: bool, ghost base: Repo, ghost crashes: nat) returns (dies: bool)
    requires r.spec.Some? && |r.filed| + 1 == |job.drafts|
    requires Inv(job, base, port.repo, Some(r), crashes)
    modifies port
    ensures port.repo.issues.Keys == old(port.repo.issues.Keys)
    ensures Inv(job, base, port.repo, Some(r), crashes)
    ensures if dies then faulty else LabelledTo(job, port.repo, r.filed, |r.filed|)
  {
    dies := false;
    for i := 0 to |r.filed|
      invariant !dies && Inv(job, base, port.repo, Some(r), crashes)
      invariant port.repo.issues.Keys == old(port.repo.issues.Keys)
      invariant LabelledTo(job, port.repo, r.filed, i)
    {
      dies := LabelTicket(job, port, r, i, faulty, base, crashes);
      if dies {
        return;
      }
    }
    dies := Dies(faulty);
  }

  /** Stage 2. */
  method ApplyLabels(job: Job, port: Port, store: Store, faulty: bool, ghost base: Repo, ghost crashes: nat) returns (outcome: Outcome)
    requires HasSpec(store.record) && |store.record.value.filed| + 1 == |job.drafts|
    requires Inv(job, base, port.repo, store.record, crashes)
    modifies port, store
    ensures Inv(job, base, port.repo, store.record, Charged(crashes, outcome))
    ensures port.repo.issues.Keys == old(port.repo.issues.Keys)
    ensures outcome.Done? || (outcome.Crashed? && faulty)
    ensures outcome.Crashed? ==> store.record == old(store.record)
    ensures outcome.Done? ==> store.record == Some(old(store.record).value.(labelsApplied := true))
    ensures old(store.record).value.labelsApplied ==> outcome.Done? && port.repo == old(port.repo)
  {
    var r := store.record.value;
    if r.labelsApplied {
      return Done;
    }
    var dies := LabelTickets(job, port, r, faulty, base, crashes);
    if dies {
      InvMore(job, base, port.repo, store.record, crashes);
      return Crashed;
    }
    AppliedKeeps(job, base, port.repo, r, crashes);
    store.record := Some(r.(labelsApplied := true));
    return Done;
  }

  // ---------- which handles are known ----------

  /** The recorded tickets carry the handles of the drafts behind the specification, in order. */
  ghost predicate InDraftOrder(drafts: seq<IssueDraft>, filed: seq<FiledTicket>)
  {
    |filed| < |drafts| && forall i :: 0 <= i < |filed| ==> filed[i].handle == drafts[i + 1].handle
  }

  lemma RecordInOrder(job: Job, base: Repo, repo: Repo, r: CandidateRecord)
    requires r.spec.Some? && RecordKept(job, base, repo, r)
    ensures InDraftOrder(job.drafts, r.filed)
  {
    forall i | 0 <= i < |r.filed|
      ensures r.filed[i].handle == job.drafts[i + 1].handle
    {
      assert TicketFiled(job, repo, r.spec.value, r.filed, i);
    }
  }

  lemma {:induction false} KnownHandles(job: Job, spec: IssueRef, filed: seq<FiledTicket>)
    requires InDraftOrder(job.drafts, filed)
    ensures ByHandle(SpecFiled(job, spec), filed).Keys == Handles(job.drafts[..|filed| + 1])
  {
    var n := |filed|;
    if n == 0 {
      assert job.drafts[..1] == [job.drafts[0]];
    } else {
      KnownHandles(job, spec, filed[..n - 1]);
      assert job.drafts[..n + 1] == job.drafts[..n] + [job.drafts[n]];
    }
  }

  function FiledHandles(filed: seq<FiledTicket>): set<string>
  {
    set f | f in filed :: f.handle
  }

  lemma SkippedHandles(drafts: seq<IssueDraft>, filed: seq<FiledTicket>, i: nat)
    requires DistinctHandles(drafts) && InDraftOrder(drafts, filed) && 1 <= i < |drafts|
    ensures drafts[i].handle in FiledHandles(filed) <==> i <= |filed|
  {
    if i <= |filed| {
      assert filed[i - 1] in filed;
    }
  }

  // ---------- what blocks a ticket ----------

  /** The handle is the specification's, or that of a ticket recorded before the i-th. */
  ghost predicate Names(job: Job, spec: IssueRef, filed: seq<FiledTicket>, i: nat, h: string, number: nat, id: nat)
    requires i <= |filed| && job.drafts != []
  {
    || (h == job.drafts[0].handle && number == spec.number && id == spec.databaseId)
    || exists j :: 0 <= j < i && filed[j].handle == h && number == filed[j].number && id == filed[j].databaseId
  }

  predicate IsKnownAs(known: map<string, FiledTicket>, h: string, number: nat, id: nat)
  {
    h in known && known[h].number == number && known[h].databaseId == id
  }

  lemma NamesMore(job: Job, spec: IssueRef, filed: seq<FiledTicket>, f: FiledTicket, h: string, number: nat, id: nat)
    requires job.drafts != []
    ensures Names(job, spec, filed + [f], |filed| + 1, h, number, id) <==>
            Names(job, spec, filed, |filed|, h, number, id) || (f.handle == h && number == f.number && id == f.databaseId)
  {
    var all := filed + [f];
    assert all[|filed|] == f;
    assert forall j :: 0 <= j < |filed| ==> all[j] == filed[j];
  }

  /** Handles are different, so the last draft's names nobody before it. */
  lemma LastIsNew(job: Job, spec: IssueRef, filed: seq<FiledTicket>, h: string, number: nat, id: nat)
    requires DistinctHandles(job.drafts) && |filed| + 1 < |job.drafts| && InDraftOrder(job.drafts, filed)
    ensures h == job.drafts[|filed| + 1].handle ==> !Names(job, spec, filed, |filed|, h, number, id)
  {
    assert forall j :: 0 <= j < |filed| ==> filed[j].handle == job.drafts[j + 1].handle;
  }

  lemma {:induction false} KnownNames(job: Job, spec: IssueRef, filed: seq<FiledTicket>, h: string, number: nat, id: nat)
    requires DistinctHandles(job.drafts) && InDraftOrder(job.drafts, filed)
    ensures IsKnownAs(ByHandle(SpecFiled(job, spec), filed), h, number, id) <==> Names(job, spec, filed, |filed|, h, number, id)
  {
    var n := |filed|;
    if n > 0 {
      var init, last := filed[..n - 1], filed[n - 1];
      assert filed == init + [last];
      KnownNames(job, spec, init, h, number, id);
      NamesMore(job, spec, init, last, h, number, id);
      LastIsNew(job, spec, init, h, number, id);
    }
  }

  lemma KnownNamesAt(job: Job, base: Repo, repo: Repo, r: CandidateRecord, i: nat, h: string, number: nat, id: nat)
    requires r.spec.Some? && RecordKept(job, base, repo, r) && DistinctHandles(job.drafts) && i < |r.filed|
    ensures IsKnownAs(ByHandle(SpecFiled(job, r.spec.value), r.filed[..i]), h, number, id) <==> Names(job, r.spec.value, r.filed, i, h, number, id)
  {
    RecordInOrder(job, base, repo, r);
    KnownNames(job, r.spec.value, r.filed[..i], h, number, id);
    assert forall j :: 0 <= j < i ==> r.filed[..i][j] == r.filed[j];
  }

  /** A recorded ticket is blocked by exactly the previous candidate's specification, if there is one, and the issues that
      its draft names by their handles. */
  lemma BlockersExactly(job: Job, base: Repo, repo: Repo, r: CandidateRecord, i: nat, id: nat)
    requires r.spec.Some? && RecordKept(job, base, repo, r) && DistinctHandles(job.drafts) && i < |r.filed|
    ensures id in BlockersOf(repo, r.filed[i].number) <==>
            || (job.prevSpec.Some? && id == job.prevSpec.value.databaseId)
            || exists h, number :: h in job.drafts[i + 1].blockedBy && Names(job, r.spec.value, r.filed, i, h, number, id)
  {
    var known, named := ByHandle(SpecFiled(job, r.spec.value), r.filed[..i]), job.drafts[i + 1].blockedBy;
    assert TicketFiled(job, repo, r.spec.value, r.filed, i);
    forall h, number: nat | h in named
      ensures IsKnownAs(known, h, number, id) <==> Names(job, r.spec.value, r.filed, i, h, number, id)
    {
      KnownNamesAt(job, base, repo, r, i, h, number, id);
    }
    if id in IdsOf(named, known) {
      var h :| h in named && known[h].databaseId == id;
      assert IsKnownAs(known, h, known[h].number, id);
    }
  }

  /** The section on blockers in a recorded ticket's body lists the named issues in the draft's order, and after them the
      previous candidate's specification. */
  lemma BodyNamesBlockers(job: Job, base: Repo, repo: Repo, r: CandidateRecord, i: nat) returns (ns: seq<nat>)
    requires r.spec.Some? && RecordKept(job, base, repo, r) && DistinctHandles(job.drafts) && i < |r.filed|
    ensures r.filed[i].number in repo.issues
    ensures repo.issues[r.filed[i].number].body == Body(job.drafts[i + 1].body, Ref(r.spec.value.number), BlockedText(ns))
    ensures RefsIn(BlockedText(ns)) == ns && RefsIn(Ref(r.spec.value.number)) == [r.spec.value.number]
    ensures
      var named := job.drafts[i + 1].blockedBy;
      && |ns| == |named| + (if job.prevSpec.Some? then 1 else 0)
      && (forall k :: 0 <= k < |named| ==> NamesNumber(job, r.spec.value, r.filed, i, named[k], ns[k]))
      && (job.prevSpec.Some? ==> ns[|named|] == job.prevSpec.value.number)
  {
    var known, named := ByHandle(SpecFiled(job, r.spec.value), r.filed[..i]), job.drafts[i + 1].blockedBy;
    assert TicketFiled(job, repo, r.spec.value, r.filed, i);
    ns := Numbers(named, known) + Extra(job);
    TextsRefer(r.spec.value.number, ns);
    forall k | 0 <= k < |named|
      ensures NamesNumber(job, r.spec.value, r.filed, i, named[k], ns[k])
    {
      NumbersAt(named, known, k);
      NumberIsNamed(job, base, repo, r, i, known, named[k]);
    }
  }

  ghost predicate NamesNumber(job: Job, spec: IssueRef, filed: seq<FiledTicket>, i: nat, h: string, number: nat)
    requires i <= |filed| && job.drafts != []
  {
    exists id :: Names(job, spec, filed, i, h, number, id)
  }

  lemma NumberIsNamed(job: Job, base: Repo, repo: Repo, r: CandidateRecord, i: nat, known: map<string, FiledTicket>, h: string)
    requires r.spec.Some? && RecordKept(job, base, repo, r) && DistinctHandles(job.drafts) && i < |r.filed|
    requires known == ByHandle(SpecFiled(job, r.spec.value), r.filed[..i]) && h in known
    ensures NamesNumber(job, r.spec.value, r.filed, i, h, known[h].number)
  {
    KnownNamesAt(job, base, repo, r, i, h, known[h].number, known[h].databaseId);
  }

  lemma {:induction false} NumbersAt(handles: seq<string>, known: map<string, FiledTicket>, k: nat)
    requires k < |handles| && forall h :: h in handles ==> h in known
    ensures handles[k] in known && Numbers(handles, known)[k] == known[handles[k]].number
  {
    if k > 0 {
      NumbersAt(handles[1..], known, k - 1);
    }
  }

  /** Every recorded ticket is blocked by drafts in front of it only. */
  lemma RecordedBlockersBefore(job: Job, base: Repo, repo: Repo, r: CandidateRecord)
    requires r.spec.Some? && RecordKept(job, base, repo, r)
    ensures forall i :: 1 <= i <= |r.filed| ==> BlockersBefore(job.drafts, i)
  {
    RecordInOrder(job, base, repo, r);
    forall i | 1 <= i <= |r.filed|
      ensures BlockersBefore(job.drafts, i)
    {
      assert TicketFiled(job, repo, r.spec.value, r.filed, i - 1);
      KnownHandles(job, r.spec.value, r.filed[..i - 1]);
    }
  }

  lemma AllRecordedInOrder(job: Job, base: Repo, repo: Repo, record: Option<CandidateRecord>, crashes: nat)
    requires HasSpec(record) && Inv(job, base, repo, record, crashes) && |record.value.filed| + 1 == |job.drafts|
    ensures InOrder(job.drafts)
  {
    RecordedBlockersBefore(job, base, repo, record.value);
  }

  /** The call fails on a ticket that names a draft which is not in front of it. */
  predicate NotBefore(drafts: seq<IssueDraft>, i: nat, handle: string)
  {
    1 <= i < |drafts| && handle in drafts[i].blockedBy && forall k :: 0 <= k < i ==> drafts[k].handle != handle
  }

  lemma UnknownIsNotBefore(drafts: seq<IssueDraft>, i: nat, handle: string)
    requires 1 <= i < |drafts| && handle in drafts[i].blockedBy && handle !in Handles(drafts[..i])
    ensures NotBefore(drafts, i, handle)
  {
    forall k | 0 <= k < i
      ensures drafts[k].handle != handle
    {
      assert drafts[..i][k] in drafts[..i];
    }
  }

  lemma NotBeforeIsOutOfOrder(drafts: seq<IssueDraft>, i: nat, handle: string)
    requires NotBefore(drafts, i, handle)
    ensures !InOrder(drafts)
  {
    assert handle !in Handles(drafts[..i]);
    assert !BlockersBefore(drafts, i);
  }

  /** Every ticket is recorded and carries the state label. */
  predicate Finished(record: Option<CandidateRecord>)
  {
    record.Some? && record.value.labelsApplied
  }

  /** Nothing recorded is taken back. */
  ghost predicate RecordGrows(before: Option<CandidateRecord>, after: Option<CandidateRecord>)
  {
    && Recorded(before) <= Recorded(after) && (before.Some? ==> after.Some?)
    && (HasSpec(before) ==> HasSpec(after) && after.value.spec == before.value.spec)
    && (HasSpec(before) && before.value.labelsApplied ==> after == before)
  }

  /** Stage 1b. */
  method FileTickets(job: Job, port: Port, store: Store, faulty: bool, ghost base: Repo, ghost crashes: nat) 
    returns (outcome: Outcome, ghost at: nat)
    requires DistinctHandles(job.drafts) && HasSpec(store.record)
    requires Inv(job, base, port.repo, store.record, crashes)
    modifies port, store
    ensures Inv(job, base, port.repo, store.record, Charged(crashes, outcome))
    ensures RecordGrows(old(store.record), store.record)
    ensures |old(Recorded(store.record))| + 1 == |job.drafts| ==> outcome.Done? && port.repo == old(port.repo) && store.record == old(store.record)
    ensures outcome.Crashed? ==> faulty
    ensures outcome.Done? ==> |Recorded(store.record)| + 1 == |job.drafts|
    ensures outcome.UnknownBlocker? ==> NotBefore(job.drafts, at, outcome.handle) && at == |Recorded(store.record)| + 1
    ensures !outcome.Done? ==> !Finished(store.record)
  {
    var spec := store.record.value.spec.value;
    var done := store.record.value.filed;
    var known := CollectKnown(job, spec, done);
    var filedHandles := FiledHandles(done);
    RecordInOrder(job, base, port.repo, store.record.value);
    var i := 1;
    at := 0;
    while i < |job.drafts|
      invariant 1 <= i <= |job.drafts|
      invariant AtDraft(job, store.record, spec, known, done, i)
      invariant Inv(job, base, port.repo, store.record, crashes)
      invariant RecordGrows(old(store.record), store.record)
      invariant i <= |done| + 1 ==> port.repo == old(port.repo) && store.record == old(store.record)
    {
      SkippedHandles(job.drafts, done, i);
      if job.drafts[i].handle !in filedHandles {
        ghost var before := store.record;
        outcome, known := FileNext(job, port, store, known, done, i, faulty, base, crashes);
        GrowsOn(old(store.record), before, store.record);
        if !outcome.Done? {
          at := i;
          return;
        }
      }
      i := i + 1;
    }
    outcome := Done;
  }

  lemma GrowsOn(a: Option<CandidateRecord>, b: Option<CandidateRecord>, c: Option<CandidateRecord>)
    requires RecordGrows(a, b) && RecordGrows(b, c)
    ensures RecordGrows(a, c)
  {
  }

  /** The drafts in front of the i-th are recorded and known; the first ones were so from the start. */
  ghost predicate AtDraft(job: Job, record: Option<CandidateRecord>, spec: IssueRef, known: map<string, FiledTicket>,
                          done: seq<FiledTicket>, i: nat)
  {
    && HasSpec(record) && record.value.spec.value == spec
    && |record.value.filed| == (if i <= |done| then |done| else i - 1) && |record.value.filed| < |job.drafts|
    && known == ByHandle(SpecFiled(job, spec), record.value.filed)
  }

  /** The round of a draft that was not recorded at the start of the call. */
  method FileNext(job: Job, port: Port, store: Store, known: map<string, FiledTicket>, ghost done: seq<FiledTicket>, ghost i: nat, faulty: bool,
                  ghost base: Repo, ghost crashes: nat)
    returns (outcome: Outcome, known': map<string, FiledTicket>)
    requires |done| < i < |job.drafts| && HasSpec(store.record)
    requires AtDraft(job, store.record, store.record.value.spec.value, known, done, i)
    requires Inv(job, base, port.repo, store.record, crashes)
    modifies port, store
    ensures Inv(job, base, port.repo, store.record, Charged(crashes, outcome))
    ensures RecordGrows(old(store.record), store.record)
    ensures outcome.Crashed? ==> faulty
    ensures outcome.UnknownBlocker? ==> NotBefore(job.drafts, i, outcome.handle) && |Recorded(store.record)| + 1 == i
    ensures !outcome.Done? ==> !Finished(store.record)
    ensures outcome.Done? ==> AtDraft(job, store.record, old(store.record).value.spec.value, known', done, i + 1)
  {
    ghost var r := store.record.value;
    KnownAt(job, base, port.repo, r, crashes, known, done, i);
    var ticket;
    outcome, ticket := FileTicket(job, port, store, known, faulty, base, crashes);
    known' := known;
    if outcome.UnknownBlocker? {
      UnknownIsNotBefore(job.drafts, i, outcome.handle);
    }
    if outcome.Done? {
      known' := known[ticket.handle := ticket];
      AtNextDraft(job, r, known, done, i, ticket);
    }
  }

  lemma KnownAt(job: Job, base: Repo, repo: Repo, r: CandidateRecord, crashes: nat, known: map<string, FiledTicket>, done: seq<FiledTicket>, i: nat)
    requires |done| < i < |job.drafts| && r.spec.Some? && AtDraft(job, Some(r), r.spec.value, known, done, i)
    requires Inv(job, base, repo, Some(r), crashes)
    ensures known.Keys == Handles(job.drafts[..i]) && |r.filed| + 1 == i && !r.labelsApplied
  {
    RecordInOrder(job, base, repo, r);
    KnownHandles(job, r.spec.value, r.filed);
  }

  lemma AtNextDraft(job: Job, r: CandidateRecord, known: map<string, FiledTicket>, done: seq<FiledTicket>, i: nat, ticket: FiledTicket)
    requires |done| < i < |job.drafts| && r.spec.Some? && !r.labelsApplied && AtDraft(job, Some(r), r.spec.value, known, done, i)
    ensures
      var after := Some(r.(filed := r.filed + [ticket]));
      RecordGrows(Some(r), after) && AtDraft(job, after, r.spec.value, known[ticket.handle := ticket], done, i + 1)
  {
    assert (r.filed + [ticket])[..|r.filed|] == r.filed;
  }

  /** The map of the recorded tickets, the specification's entry first. */
  method CollectKnown(job: Job, spec: IssueRef, filed: seq<FiledTicket>) returns (known: map<string, FiledTicket>)
    requires job.drafts != []
    ensures known == ByHandle(SpecFiled(job, spec), filed)
  {
    known := map[job.drafts[0].handle := SpecFiled(job, spec)];
    for i := 0 to |filed|
      invariant known == ByHandle(SpecFiled(job, spec), filed[..i])
    {
      assert filed[..i + 1][..i] == filed[..i];
      known := known[filed[i].handle := filed[i]];
    }
    assert filed[..|filed|] == filed;
  }

  /** The next ticket names a draft that is not in front of it. */
  predicate StuckAt(drafts: seq<IssueDraft>, record: Option<CandidateRecord>, handle: string)
  {
    NotBefore(drafts, |Recorded(record)| + 1, handle)
  }

  lemma IsStuck(drafts: seq<IssueDraft>, record: Option<CandidateRecord>, at: nat, handle: string)
    requires NotBefore(drafts, at, handle) && at == |Recorded(record)| + 1
    ensures StuckAt(drafts, record, handle) && !InOrder(drafts)
  {
    NotBeforeIsOutOfOrder(drafts, at, handle);
  }

  /** pycastle's `file_draft_set`. One call from any state that earlier calls for the same drafts can have left. */
  method FileDraftSet(job: Job, port: Port, store: Store, faulty: bool, ghost base: Repo, ghost crashes: nat) returns (outcome: Outcome)
    requires DistinctHandles(job.drafts) && Inv(job, base, port.repo, store.record, crashes)
    modifies port, store
    ensures Inv(job, base, port.repo, store.record, Charged(crashes, outcome))
    ensures RecordGrows(old(store.record), store.record)
    ensures Finished(old(store.record)) ==> outcome.Done? && port.repo == old(port.repo)
    ensures outcome.Crashed? ==> faulty
    ensures job.drafts != [] ==> (outcome.Done? <==> Finished(store.record))
    ensures outcome.UnknownBlocker? ==> StuckAt(job.drafts, store.record, outcome.handle)
    ensures !outcome.Crashed? ==> (outcome.Done? <==> InOrder(job.drafts))
  {
    if job.drafts == [] {
      return Done;
    }
    ghost var start := store.record;
    outcome := EnsureSpec(job, port, store, faulty, base, crashes);
    if outcome.Done? {
      ghost var specced := store.record;
      outcome := FileAndLabel(job, port, store, faulty, base, crashes);
      GrowsOn(start, specced, store.record);
    }
  }

  method EnsureSpec(job: Job, port: Port, store: Store, faulty: bool, ghost base: Repo, ghost crashes: nat) returns (outcome: Outcome)
    requires job.drafts != [] && Inv(job, base, port.repo, store.record, crashes)
    modifies port, store
    ensures Inv(job, base, port.repo, store.record, Charged(crashes, outcome))
    ensures RecordGrows(old(store.record), store.record)
    ensures outcome.Done? || (outcome.Crashed? && faulty)
    ensures outcome.Done? ==> HasSpec(store.record)
    ensures outcome.Crashed? ==> !Finished(store.record)
    ensures HasSpec(old(store.record)) ==> outcome.Done? && store.record == old(store.record) && port.repo == old(port.repo)
  {
    if HasSpec(store.record) {
      return Done;
    }
    outcome := FileSpec(job, port, store, faulty, base, crashes);
  }

  method FileAndLabel(job: Job, port: Port, store: Store, faulty: bool, ghost base: Repo, ghost crashes: nat) returns (outcome: Outcome)
    requires DistinctHandles(job.drafts) && HasSpec(store.record) && Inv(job, base, port.repo, store.record, crashes)
    modifies port, store
    ensures Inv(job, base, port.repo, store.record, Charged(crashes, outcome))
    ensures RecordGrows(old(store.record), store.record)
    ensures Finished(old(store.record)) ==> outcome.Done? && port.repo == old(port.repo)
    ensures outcome.Crashed? ==> faulty
    ensures outcome.Done? <==> Finished(store.record)
    ensures outcome.UnknownBlocker? ==> StuckAt(job.drafts, store.record, outcome.handle)
    ensures !outcome.Crashed? ==> (outcome.Done? <==> InOrder(job.drafts))
  {
    ghost var start := store.record;
    ghost var at;
    outcome, at := FileTickets(job, port, store, faulty, base, crashes);
    if outcome.Done? {
      AllRecordedInOrder(job, base, port.repo, store.record, crashes);
      ghost var filed := store.record;
      outcome := ApplyLabels(job, port, store, faulty, base, crashes);
      GrowsOn(start, filed, store.record);
    } else if outcome.UnknownBlocker? {
      IsStuck(job.drafts, store.record, at, outcome.handle);
    }
  }
}
