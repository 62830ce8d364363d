/** The improve pipeline: a scan, then a specification and tickets for each candidate, resumed from a session
    directory after any number of crashes. */
module ImproveDriver {
  import opened Outcomes
  import opened SessionRecords
  import DraftFiling

  datatype StepId = Scan | Spec(index: nat) | Tickets(index: nat) | Report

  datatype Token = ScanToken | SpecToken | TicketsToken | ReportToken

  datatype Kind = RolePrompt | FollowUp

  /** `fetch` says whether recent specification titles are to be fetched. */
  datatype Step = Step(id: StepId, kind: Kind, fetch: bool)

  datatype CandidateList = CandidateList(size: nat, noCandidate: bool)

  /** The files of the session directory. */
  datatype Session = Session(list: Option<CandidateList>, cursor: Option<nat>, inFlight: Option<Token>, records: map<nat, CandidateRecord>)

  const Empty := Session(None, None, None, map[])

  function TokenOf(id: StepId): Token
  {
    match id
    case Scan => ScanToken
    case Spec(_) => SpecToken
    case Tickets(_) => TicketsToken
    case Report => ReportToken
  }

  function Cursor(s: Session): nat
  {
    if s.cursor.Some? then s.cursor.value else 0
  }

  function ResumeKind(id: StepId, inFlight: Option<Token>): Kind
  {
    if inFlight == Some(TokenOf(id)) then RolePrompt else FollowUp
  }

  // ---------- the order of the steps ----------

  /** The steps of a session in their order: scan, specification and tickets of candidate 0, of candidate 1, and so on. */
  function StepAt(k: nat): StepId
  {
    if k == 0 then Scan else if k % 2 == 1 then Spec((k - 1) / 2) else Tickets((k - 2) / 2)
  }

  function FirstSteps(k: nat): (r: seq<StepId>)
    ensures |r| == k
  {
    if k == 0 then [] else FirstSteps(k - 1) + [StepAt(k - 1)]
  }

  /** How many outcomes the directory records. */
  function Recorded(s: Session): nat
  {
    if s.list.None? then 0 else 1 + 2 * Cursor(s) + if Cursor(s) in s.records then 1 else 0
  }

  /** The first step whose outcome is not recorded. */
  function NextStep(s: Session, report: bool): Option<StepId>
  {
    if s.list.None? then Some(Scan)
    else if s.list.value.noCandidate then (if report && Cursor(s) == 0 then Some(Report) else None)
    else if Cursor(s) >= s.list.value.size then None
    else if Cursor(s) in s.records then Some(Tickets(Cursor(s)))
    else Some(Spec(Cursor(s)))
  }

  /** The number of outcomes of a whole session. */
  function Total(s: Session): nat
    requires s.list.Some?
  {
    2 * s.list.value.size + 1
  }

  // ---------- the invariant ----------

  /** The log of outcomes matches the directory: nothing skipped, nothing twice. */
  ghost predicate LogMatches(s: Session, log: seq<StepId>)
  {
    if s.list.Some? && s.list.value.noCandidate then log == if Cursor(s) == 0 then [Scan] else [Scan, Report]
    else log == FirstSteps(Recorded(s))
  }

  ghost predicate Sound(s: Session)
  {
    && (s.list.None? ==> s.records == map[] && s.cursor.None?)
    && (s.list.Some? && s.list.value.noCandidate ==> s.records == map[] && s.list.value.size == 0 && Cursor(s) <= 1)
    && (s.list.Some? && !s.list.value.noCandidate ==> Cursor(s) <= s.list.value.size)
    && (forall i :: i in s.records ==> i <= Cursor(s))
    && (s.list.Some? && !s.list.value.noCandidate && Cursor(s) == s.list.value.size ==> Cursor(s) !in s.records)
    && (forall i :: 0 <= i < Cursor(s) && s.list.Some? && !s.list.value.noCandidate ==> i in s.records)
    && (Cursor(s) in s.records ==> !s.records[Cursor(s)].labelsApplied)
  }

  /** The token in the directory names the next step exactly when that step was handed out before. */
  ghost predicate TokenTells(s: Session, offered: set<StepId>)
  {
    forall report :: NextStep(s, report).Some? ==>
      (s.inFlight == Some(TokenOf(NextStep(s, report).value)) <==> NextStep(s, report).value in offered)
  }

  /** A step that was handed out, and how many outcomes were recorded at that time. */
  datatype Offer = Offer(id: StepId, at: nat)

  function Ids(offers: seq<Offer>): set<StepId>
  {
    set o | o in offers :: o.id
  }

  /** Every step handed out is the one whose outcome was recorded next, or the next step if none was recorded since. */
  ghost predicate OffersFit(s: Session, log: seq<StepId>, offers: seq<Offer>)
  {
    && (forall j, k :: 0 <= j < k < |offers| ==> offers[j].at <= offers[k].at)
    && (forall o :: o in offers ==>
          if o.at < |log| then log[o.at] == o.id else o.at == |log| && NextStep(s, true) == Some(o.id))
  }

  ghost predicate Inv(s: Session, log: seq<StepId>, offers: seq<Offer>)
  {
    Sound(s) && LogMatches(s, log) && TokenTells(s, Ids(offers)) && OffersFit(s, log, offers)
  }

  lemma EmptyInv()
    ensures Inv(Empty, [], [])
  {
  }

  lemma {:induction false} FirstStepsAt(k: nat, j: nat)
    requires j < k
    ensures FirstSteps(k)[j] == StepAt(j)
  {
    if j < k - 1 {
      FirstStepsAt(k - 1, j);
    }
  }

  /** The next step is the one the canonical order has at the number of recorded outcomes; there is one until all are recorded. */
  lemma NextIsFirstUnrecorded(s: Session, log: seq<StepId>, offers: seq<Offer>, report: bool)
    requires Inv(s, log, offers) && !(s.list.Some? && s.list.value.noCandidate)
    ensures |log| == Recorded(s) && forall j :: 0 <= j < |log| ==> log[j] == StepAt(j)
    ensures NextStep(s, report).Some? ==> NextStep(s, report).value == StepAt(|log|)
    ensures s.list.Some? ==> (NextStep(s, report).Some? <==> |log| < Total(s)) && |log| <= Total(s)
    ensures NextStep(s, report).Some? ==> NextStep(s, report).value !in log
  {
    forall j | 0 <= j < |log|
      ensures log[j] == StepAt(j)
    {
      FirstStepsAt(|log|, j);
    }
    StepsDiffer(|log|);
  }

  lemma StepsDiffer(k: nat)
    ensures forall j :: 0 <= j < k ==> StepAt(j) != StepAt(k)
  {
  }

  // ---------- the durable writes ----------

  const Marked := CandidateRecord(None, "", [], false)

  function WithScan(s: Session, size: nat, noCandidate: bool): Session
  {
    s.(list := Some(CandidateList(size, noCandidate)))
  }

  function WithSpec(s: Session): Session
  {
    if Cursor(s) in s.records then s else s.(records := s.records[Cursor(s) := Marked])
  }

  lemma OfferKeeps(s: Session, log: seq<StepId>, offers: seq<Offer>, report: bool)
    requires Inv(s, log, offers) && NextStep(s, report).Some?
    ensures
      var id := NextStep(s, report).value;
      Inv(s.(inFlight := Some(TokenOf(id))), log, offers + [Offer(id, |log|)])
  {
    var id := NextStep(s, report).value;
    var s' := s.(inFlight := Some(TokenOf(id)));
    assert NextStep(s', true) == NextStep(s, true) && NextStep(s', false) == NextStep(s, false);
    assert NextStep(s, true) == Some(id);
    IdsAppend(offers, Offer(id, |log|));
  }

  lemma IdsAppend(offers: seq<Offer>, o: Offer)
    ensures Ids(offers + [o]) == Ids(offers) + {o.id}
  {
    forall id | id in Ids(offers) + {o.id}
      ensures id in Ids(offers + [o])
    {
      if id != o.id {
        var x :| x in offers && x.id == id;
        assert x in offers + [o];
      }
    }
  }

  lemma ScanKeeps(s: Session, log: seq<StepId>, offers: seq<Offer>, size: nat, noCandidate: bool)
    requires Inv(s, log, offers) && s.list.None? && s.inFlight == Some(ScanToken) && (noCandidate ==> size == 0)
    ensures Inv(WithScan(s, size, noCandidate), log + [Scan], offers)
  {
    var s' := WithScan(s, size, noCandidate);
    assert FirstSteps(1) == [] + [Scan] by {
      assert FirstSteps(0) == [];
    }
    assert Cursor(s') == 0 && Cursor(s') !in s'.records;
    assert NextStep(s, true) == Some(Scan);
    assert forall o :: o in offers ==> o.id == Scan;
  }

  lemma CursorZeroKeeps(s: Session, log: seq<StepId>, offers: seq<Offer>)
    requires Inv(s, log, offers) && s.list.Some? && Cursor(s) == 0
    ensures Inv(s.(cursor := Some(0)), log, offers)
  {
    var s' := s.(cursor := Some(0));
    assert NextStep(s', true) == NextStep(s, true) && NextStep(s', false) == NextStep(s, false);
  }

  lemma OfferedUpTo(s: Session, log: seq<StepId>, offers: seq<Offer>, id: StepId)
    requires Inv(s, log, offers) && NextStep(s, true) == Some(id)
    ensures forall x :: x in Ids(offers) ==> x in log + [id]
  {
  }

  lemma SpecKeeps(s: Session, log: seq<StepId>, offers: seq<Offer>)
    requires Inv(s, log, offers) && NextStep(s, true) == Some(Spec(Cursor(s))) && s.inFlight == Some(SpecToken)
    ensures Inv(WithSpec(s), log + [Spec(Cursor(s))], offers)
  {
    var s' := WithSpec(s);
    var id := Spec(Cursor(s));
    OfferedUpTo(s, log, offers, id);
    assert StepAt(Recorded(s)) == id && Recorded(s') == Recorded(s) + 1;
    NextIsFirstUnrecordedOf(s', log + [id]);
    assert NextStep(s', true) == NextStep(s', false) == Some(Tickets(Cursor(s)));
  }

  lemma NextIsFirstUnrecordedOf(s: Session, log: seq<StepId>)
    requires log == FirstSteps(Recorded(s)) && s.list.Some? && !s.list.value.noCandidate
    ensures NextStep(s, true).Some? ==> NextStep(s, true).value !in log
  {
    forall j | 0 <= j < |log|
      ensures log[j] == StepAt(j)
    {
      FirstStepsAt(|log|, j);
    }
    StepsDiffer(|log|);
  }

  lemma TicketsKeeps(s: Session, log: seq<StepId>, offers: seq<Offer>)
    requires Inv(s, log, offers) && NextStep(s, true) == Some(Tickets(Cursor(s))) && s.inFlight == Some(TicketsToken)
    ensures Inv(s.(cursor := Some(Cursor(s) + 1)), log + [Tickets(Cursor(s))], offers)
  {
    var s' := s.(cursor := Some(Cursor(s) + 1));
    var id := Tickets(Cursor(s));
    OfferedUpTo(s, log, offers, id);
    assert StepAt(Recorded(s)) == id && Recorded(s') == Recorded(s) + 1;
    NextIsFirstUnrecordedOf(s', log + [id]);
    assert NextStep(s', true) == NextStep(s', false);
  }

  lemma ReportKeeps(s: Session, log: seq<StepId>, offers: seq<Offer>)
    requires Inv(s, log, offers) && NextStep(s, true) == Some(Report)
    ensures Inv(s.(cursor := Some(1)), log + [Report], offers)
  {
    OfferedUpTo(s, log, offers, Report);
    var s' := s.(cursor := Some(1));
    assert NextStep(s', true).None? && NextStep(s', false).None?;
  }

  /** Right after an outcome is recorded the token names the step before, never the next one. */
  lemma ClearKeeps(s: Session, log: seq<StepId>, offers: seq<Offer>)
    requires Inv(s, log, offers) && forall id :: id in Ids(offers) ==> id in log
    ensures Inv(s.(inFlight := None), log, offers)
  {
    var s' := s.(inFlight := None);
    assert NextStep(s', true) == NextStep(s, true) && NextStep(s', false) == NextStep(s, false);
    forall report | NextStep(s', report).Some?
      ensures NextStep(s', report).value !in Ids(offers)
    {
      NextNotInLog(s, log, offers, report);
    }
  }

  lemma NextNotInLog(s: Session, log: seq<StepId>, offers: seq<Offer>, report: bool)
    requires Inv(s, log, offers) && NextStep(s, report).Some?
    ensures NextStep(s, report).value !in log
  {
    if !(s.list.Some? && s.list.value.noCandidate) {
      NextIsFirstUnrecorded(s, log, offers, report);
    }
  }

  // ---------- what became of the drafts ----------

  /** One filing of a candidate's drafts: the arguments, the tracker before, how the call ended, the record it left. */
  datatype FilingCall = FilingCall(job: DraftFiling.Job, before: DraftFiling.Repo, outcome: DraftFiling.Outcome, record: CandidateRecord)

  function PrevSpec(records: map<nat, CandidateRecord>, i: nat): Option<IssueRef>
  {
    if i > 0 && i - 1 in records then records[i - 1].spec else None
  }

  /** Candidates behind the cursor have the record that their filing call left, or the bare marker when there was none. */
  ghost predicate FilingsFit(s: Session, filings: map<nat, FilingCall>)
  {
    && (forall i :: i in filings ==>
          i < Cursor(s) && i in s.records && s.records[i] == filings[i].record && filings[i].job.prevSpec == PrevSpec(s.records, i))
    && (forall i :: i in s.records && i !in filings ==> s.records[i] == Marked)
  }

  /** What a filing call left, seen on the tracker now. */
  ghost predicate Told(f: FilingCall, repo: DraftFiling.Repo)
  {
    && f.job.drafts != [] && DraftFiling.DistinctHandles(f.job.drafts)
    && (f.outcome.Done? <==> f.record.labelsApplied)
    && (!f.outcome.Crashed? ==> (f.outcome.Done? <==> DraftFiling.InOrder(f.job.drafts)))
    && (f.outcome.UnknownBlocker? ==> DraftFiling.StuckAt(f.job.drafts, Some(f.record), f.outcome.handle))
    && (f.record.spec.None? ==> f.record.filed == [] && !f.record.labelsApplied)
    && (f.record.spec.Some? ==> DraftFiling.RecordKept(f.job, f.before, repo, f.record))
    && (|f.record.filed| + 1 < |f.job.drafts| ==> Unlabelled(f, repo))
  }

  ghost predicate Unlabelled(f: FilingCall, repo: DraftFiling.Repo)
  {
    forall t :: t in f.record.filed ==> t.number in repo.issues && f.job.stateLabel !in repo.issues[t.number].labels
  }

  ghost predicate AllTold(filings: map<nat, FilingCall>, repo: DraftFiling.Repo)
  {
    DraftFiling.ValidRepo(repo) && forall i :: i in filings ==> Told(filings[i], repo)
  }

  /** What there was after a candidate's tickets step: the drafts, or None if they could not be read, and whether the safe commit
      has moved since the phase began. */
  datatype Found = Found(drafts: Option<seq<IssueDraft>>, moved: bool)

  type Resolutions = map<nat, Found>

  /** A session's directory and what happened in it. */
  datatype Trail = Trail(disk: Session, log: seq<StepId>, offers: seq<Offer>, filings: map<nat, FilingCall>, resolved: Resolutions)

  const NoTrail := Trail(Empty, [], [], map[], map[])

  ghost predicate Right(t: Trail)
  {
    Inv(t.disk, t.log, t.offers) && FilingsFit(t.disk, t.filings) && ResolvedFit(t.disk, t.filings, t.resolved)
  }

  /** What was filed is what was read. */
  ghost predicate ResolvedFit(s: Session, filings: map<nat, FilingCall>, resolved: Resolutions)
  {
    && (forall i :: i in resolved ==> i < Cursor(s))
    && (forall i :: i in filings ==> i in resolved && resolved[i].drafts == Some(filings[i].job.drafts))
  }

  /** Nothing was read or filed in between. */
  ghost predicate NothingFiled(t: Trail, t': Trail)
  {
    t'.filings == t.filings && t'.resolved == t.resolved
  }

  /** Later on in the same session; the candidates behind the cursor are left alone. */
  ghost predicate Continues(t: Trail, t': Trail)
  {
    && t.log <= t'.log && t.offers <= t'.offers && Cursor(t.disk) <= Cursor(t'.disk)
    && (t.disk.list.Some? ==> t'.disk.list == t.disk.list)
    && LeftAlone(t, t')
  }

  ghost predicate LeftAlone(t: Trail, t': Trail)
  {
    && (forall i :: 0 <= i < Cursor(t.disk) ==>
          && (i in t'.disk.records <==> i in t.disk.records)
          && (i in t.disk.records ==> t'.disk.records[i] == t.disk.records[i]))
    && (forall i :: 0 <= i < Cursor(t.disk) ==>
          && (i in t'.filings <==> i in t.filings)
          && (i in t.filings ==> t'.filings[i] == t.filings[i]))
    && (forall i :: i in t.resolved ==> i in t'.resolved && t'.resolved[i] == t.resolved[i])
  }

  ghost predicate Later(t: Trail, t': Trail)
  {
    Right(t') && Continues(t, t')
  }

  lemma NothingYet()
    ensures Right(NoTrail)
  {
    EmptyInv();
  }

  lemma ContinuesOn(a: Trail, b: Trail, c: Trail)
    requires Continues(a, b) && Continues(b, c)
    ensures Continues(a, c)
  {
  }

  // ---------- the store and the driver ----------

  /** `log` is the sequence of recorded outcomes, `offers` the steps handed out, `filings` the filing calls of this session. */
  class Store {
    var disk: Session
    ghost var log: seq<StepId>
    ghost var offers: seq<Offer>
    ghost var filings: map<nat, FilingCall>
    ghost var resolved: Resolutions

    ghost function Now(): Trail
      reads this
    {
      Trail(disk, log, offers, filings, resolved)
    }

    ghost predicate Good()
      reads this
    {
      Right(Now())
    }

    ghost predicate KeepsGhosts(t: Trail)
      reads this
    {
      log == t.log && offers == t.offers && NothingFiled(t, Now())
    }

    constructor ()
      ensures Good() && Now() == NoTrail
    {
      disk, log, offers, filings, resolved := Empty, [], [], map[], map[];
      new;
      NothingYet();
    }

    /** The drafts of a candidate, as they were when they were read. */
    ghost method NoteDrafts(index: nat, found: Found)
      requires Good() && index < Cursor(disk) && index !in filings && index !in resolved
      modifies this`resolved
      ensures Good() && Now() == WithDrafts(old(Now()), index, found)
    {
      resolved := resolved[index := found];
    }

    /** The record that a filing call left, and the call itself. */
    method NoteFiling(index: nat, ghost call: FilingCall, record: CandidateRecord)
      requires record == call.record && Right(WithFiling(Now(), index, call))
      modifies this
      ensures Good() && Now() == WithFiling(old(Now()), index, call)
    {
      disk := disk.(records := disk.records[index := record]);
      filings := filings[index := call];
    }

    /** The durable write that records the outcome of a step. */
    method Write(disk': Session, ghost id: StepId)
      modifies this
      ensures Now() == Trail(disk', old(log) + [id], old(offers), old(filings), old(resolved))
    {
      disk, log := disk', log + [id];
    }

    /** Throws the session directory away: the next session starts from nothing. */
    method Discard()
      modifies this
      ensures Good() && Now() == NoTrail
    {
      disk, log, offers, filings, resolved := Empty, [], [], map[], map[];
      NothingYet();
    }

    method HandOut(id: StepId, ghost report: bool)
      requires Good() && NextStep(disk, report) == Some(id)
      modifies this
      ensures Good() && disk == old(disk).(inFlight := Some(TokenOf(id)))
      ensures log == old(log) && NothingFiled(old(Now()), Now()) && offers == old(offers) + [Offer(id, |log|)]
    {
      OfferKeeps(disk, log, offers, report);
      disk, offers := disk.(inFlight := Some(TokenOf(id))), offers + [Offer(id, |log|)];
    }
  }

  ghost function WithDrafts(t: Trail, index: nat, found: Found): Trail
  {
    t.(resolved := t.resolved[index := found])
  }

  predicate Complete(records: map<nat, CandidateRecord>, i: nat)
  {
    i in records && records[i].labelsApplied
  }

  /** The first candidate from i on that is not complete, or n. */
  function FirstOpen(records: map<nat, CandidateRecord>, i: nat, n: nat): (r: nat)
    requires i <= n
    ensures i <= r <= n && (r < n ==> !Complete(records, r))
    ensures forall j :: i <= j < r ==> Complete(records, j)
    decreases n - i
  {
    if i < n && Complete(records, i) then FirstOpen(records, i + 1, n) else i
  }

  function CandidateStep(s: Session, i: nat, fromStart: bool): Step
  {
    var id := if i in s.records then Tickets(i) else Spec(i);
    Step(id, if fromStart then ResumeKind(id, s.inFlight) else FollowUp, id.Spec?)
  }

  class ImprovePhaseDriver {
    const store: Store
    const report: bool
    var candidates: Option<nat>
    var noCandidate: bool
    var cursor: nat

    constructor (store: Store, report: bool)
      ensures this.store == store && this.report == report && candidates.None?
    {
      this.store, this.report := store, report;
      candidates, noCandidate, cursor := None, false, 0;
    }

    /** The driver's fields say what the directory says. */
    ghost predicate InStep()
      reads this, store
    {
      && (candidates.None? <==> store.disk.list.None?)
      && (candidates.Some? ==> store.disk.list.value == CandidateList(candidates.value, noCandidate) && cursor == Cursor(store.disk))
    }

    method StepForCandidate(i: nat, fromStart: bool) returns (step: Option<Step>)
      ensures step == if Complete(store.disk.records, i) then None else Some(CandidateStep(store.disk, i, fromStart))
    {
      if i in store.disk.records && store.disk.records[i].labelsApplied {
        return None;
      }
      if i !in store.disk.records {
        return Some(Step(Spec(i), if fromStart then ResumeKind(Spec(i), store.disk.inFlight) else FollowUp, true));
      }
      return Some(Step(Tickets(i), if fromStart then ResumeKind(Tickets(i), store.disk.inFlight) else FollowUp, false));
    }

    /** pycastle's `_next_step_from_cursor`: complete candidates are passed over, moving the cursor on. */
    method NextStepFromCursor(from: nat, fromStart: bool) returns (step: Option<Step>)
      requires candidates.Some? && from <= candidates.value && from == Cursor(store.disk)
      modifies this, store
      ensures candidates == old(candidates) && noCandidate == old(noCandidate)
      ensures store.KeepsGhosts(old(store.Now()))
      ensures
        var n, s := candidates.value, old(store.disk);
        var open := FirstOpen(s.records, from, n);
        && (store.disk == if open == from then s else s.(cursor := Some(open)))
        && (step == if open < n then Some(CandidateStep(s, open, fromStart)) else None)
        && (open < n ==> cursor == open)
        && (open == n ==> cursor == old(cursor))
    {
      var at := from;
      var n := candidates.value;
      while at < n
        invariant from <= at <= n
        invariant candidates == old(candidates) && noCandidate == old(noCandidate) && cursor == old(cursor)
        invariant store.KeepsGhosts(old(store.Now()))
        invariant FirstOpen(old(store.disk).records, from, n) == FirstOpen(old(store.disk).records, at, n)
        invariant store.disk == if at == from then old(store.disk) else old(store.disk).(cursor := Some(at))
      {
        step := StepForCandidate(at, fromStart);
        if step.Some? {
          cursor := at;
          return;
        }
        at := at + 1;
        store.disk := store.disk.(cursor := Some(at));
      }
      return None;
    }

    /** What handing out a step leaves: its token, and its offer. */
    ghost predicate HandedOut(t: Trail, step: Step)
      reads this, store
    {
      && NextStep(t.disk, report) == Some(step.id) == NextStep(store.disk, report)
      && store.disk.inFlight == Some(TokenOf(step.id))
      && store.offers == t.offers + [Offer(step.id, |t.log|)]
    }

    /** The token of the step, written before it is handed out. */
    method OfferStep(step: Option<Step>, faulty: bool) returns (crashed: bool)
      requires store.Good() && InStep() && (step.Some? ==> NextStep(store.disk, report) == Some(step.value.id))
      modifies store
      ensures crashed ==> faulty && step.Some?
      ensures Later(old(store.Now()), store.Now()) && store.log == old(store.log) && NothingFiled(old(store.Now()), store.Now())
      ensures store.disk == old(store.disk).(inFlight := store.disk.inFlight) && InStep()
      ensures step.None? ==> store.Now() == old(store.Now())
      ensures !crashed && step.Some? ==> HandedOut(old(store.Now()), step.value)
    {
      crashed := false;
      if step.Some? {
        crashed := Dies(faulty);
        if !crashed {
          store.HandOut(step.value.id, report);
        }
      }
    }

    /** After any crashes, the first unrecorded step is handed out again: as a resumption if and only if it was
        handed out before. */
    method Start(faulty: bool) returns (step: Option<Step>, crashed: bool)
      requires store.Good()
      modifies this, store
      ensures crashed ==> faulty
      ensures Later(old(store.Now()), store.Now()) && store.log == old(store.log) && NothingFiled(old(store.Now()), store.Now())
      ensures store.disk == old(store.disk).(inFlight := store.disk.inFlight)
      ensures !crashed ==> InStep()
      ensures !crashed ==> (step.Some? <==> NextStep(old(store.disk), report).Some?)
      ensures !crashed && step.None? ==> NextStep(store.disk, report).None? && store.Now() == old(store.Now())
      ensures !crashed && step.Some? ==>
                && HandedOut(old(store.Now()), step.value)
                && (step.value.id == Scan ==> step.value.kind == RolePrompt && (step.value.fetch <==> Scan !in old(Ids(store.offers))))
                && (step.value.id != Scan ==> (step.value.kind == RolePrompt <==> step.value.id in old(Ids(store.offers))))
                && (step.value.id != Scan ==> (step.value.fetch <==> !step.value.id.Tickets?))
    {
      step := None;
      var s := store.disk;
      if s.list.None? {
        candidates, cursor := None, 0;
        step := Some(Step(Scan, RolePrompt, ResumeKind(Scan, s.inFlight) == FollowUp));
      } else {
        candidates, noCandidate, cursor := Some(s.list.value.size), s.list.value.noCandidate, Cursor(s);
        if noCandidate {
          if report && cursor == 0 {
            step := Some(Step(Report, ResumeKind(Report, s.inFlight), true));
          }
        } else {
          assert FirstOpen(s.records, cursor, candidates.value) == cursor;
          step := NextStepFromCursor(cursor, true);
        }
      }
      assert store.Now() == old(store.Now());
      crashed := OfferStep(step, faulty);
    }

    method Next(faulty: bool) returns (step: Option<Step>, crashed: bool)
      requires store.Good() && InStep() && candidates.Some?
      modifies this, store
      ensures crashed ==> faulty
      ensures Later(old(store.Now()), store.Now()) && store.log == old(store.log) && NothingFiled(old(store.Now()), store.Now())
      ensures store.disk == old(store.disk).(inFlight := store.disk.inFlight)
      ensures !crashed ==> InStep()
      ensures !crashed ==> (step.Some? <==> NextStep(old(store.disk), report).Some?)
      ensures !crashed && step.None? ==> NextStep(store.disk, report).None? && store.Now() == old(store.Now())
      ensures !crashed && step.Some? ==>
                && HandedOut(old(store.Now()), step.value)
                && step.value.kind == FollowUp && (step.value.fetch <==> !step.value.id.Tickets?)
    {
      step := None;
      if noCandidate {
        if report && cursor == 0 {
          step := Some(Step(Report, FollowUp, true));
        }
      } else {
        assert FirstOpen(store.disk.records, cursor, candidates.value) == cursor;
        step := NextStepFromCursor(cursor, false);
      }
      assert store.Now() == old(store.Now());
      crashed := OfferStep(step, faulty);
    }

    /** Records the outcome of the step in hand, then clears the token; a crash can come before, between or after. */
    method RecordOutcome(step: Step, output: Output, faulty: bool) returns (crashed: bool)
      requires store.Good() && InStep()
      requires NextStep(store.disk, report) == Some(step.id) && store.disk.inFlight == Some(TokenOf(step.id))
      requires step.id == Scan ==> !output.OtherOutput?
      modifies this, store
      ensures crashed ==> faulty
      ensures Later(old(store.Now()), store.Now()) && NothingFiled(old(store.Now()), store.Now())
      ensures store.log == old(store.log) + [step.id] || (crashed && store.log == old(store.log))
      ensures CursorMoved(old(store.Now()), store.Now(), step.id)
      ensures !crashed ==> InStep() && candidates.Some? && store.log == old(store.log) + [step.id]
      ensures !crashed ==> store.disk == Written(old(store.disk), step.id, output).(inFlight := None)
      ensures !crashed ==> SaysOutcome(old(store.disk), step.id, output, store.disk)
      ensures !crashed ==> Remaining(store.disk) < old(Remaining(store.disk)) || old(store.disk.list.None?)
    {
      crashed := Dies(faulty);
      if !crashed {
        ghost var t := store.Now();
        crashed := RecordAndClear(step, output, faulty);
        WrittenSays(t.disk, report, step.id, output);
        StageKeeps(t, report, step.id, output, store.Now());
      }
    }

    method RecordAndClear(step: Step, output: Output, faulty: bool) returns (crashed: bool)
      requires Sound(store.disk) && InStep() && NextStep(store.disk, report) == Some(step.id)
      modifies this, store
      ensures crashed ==> faulty
      ensures IsStage(old(store.Now()), step.id, output, store.Now())
      ensures !crashed ==> InStep() && candidates.Some? && store.Now() == Cleared(old(store.Now()), step.id, output)
    {
      crashed := RecordDurably(step, output, faulty);
      if !crashed {
        store.disk := store.disk.(inFlight := None);
      }
    }

    /** The durable writes of an outcome. */
    method RecordDurably(step: Step, output: Output, faulty: bool) returns (crashed: bool)
      requires Sound(store.disk) && InStep() && NextStep(store.disk, report) == Some(step.id)
      modifies this, store
      ensures crashed ==> faulty
      ensures
        var t := After(old(store.Now()), step.id, output);
        store.Now() == t || store.Now() == t.(disk := Written(old(store.disk), step.id, output))
      ensures !crashed ==> InStep() && candidates.Some? && store.disk == Written(old(store.disk), step.id, output)
    {
      var disk := store.disk;
      match step.id {
        case Scan =>
          var size := if output.Candidates? then output.size else 0;
          candidates, noCandidate, cursor := Some(size), output.NoCandidateFound?, 0;
          disk := WithScan(disk, size, noCandidate);
        case Spec(i) =>
          disk := WithSpec(disk);
        case Tickets(i) =>
          cursor := cursor + 1;
          disk := disk.(cursor := Some(cursor));
        case Report =>
          cursor := 1;
          disk := disk.(cursor := Some(1));
      }
      store.Write(disk, step.id);
      crashed := Dies(faulty);
      if !crashed && step.id == Scan {
        store.disk := store.disk.(cursor := Some(0));
      }
    }
  }

  datatype Output = Candidates(size: nat) | NoCandidateFound | OtherOutput

  /** The directory with the outcome of a step in it. */
  function WithOutcome(s: Session, id: StepId, output: Output): Session
  {
    match id
    case Scan => WithScan(s, if output.Candidates? then output.size else 0, output.NoCandidateFound?)
    case Spec(_) => WithSpec(s)
    case Tickets(_) => s.(cursor := Some(Cursor(s) + 1))
    case Report => s.(cursor := Some(1))
  }

  /** What the outcome of a step changes on disk: the scan leaves its candidates in their number or the mark that there are none,
      a specification its marker, tickets and report a cursor one further on. */
  ghost predicate SaysOutcome(s: Session, id: StepId, output: Output, s': Session)
  {
    && s'.inFlight.None?
    && (id.Scan? && output.Candidates? ==> s' == Session(Some(CandidateList(output.size, false)), Some(0), None, s.records))
    && (id.Scan? && output.NoCandidateFound? ==> s' == Session(Some(CandidateList(0, true)), Some(0), None, s.records))
    && (!id.Scan? ==> s'.list == s.list)
    && (id.Spec? ==> id.index in s'.records && s'.cursor == s.cursor && s'.records.Keys == s.records.Keys + {id.index}
                     && forall i :: i in s.records ==> s'.records[i] == s.records[i])
    && (id.Tickets? ==> s'.cursor == Some(id.index + 1) && s'.records == s.records)
    && (id.Report? ==> s'.cursor == Some(1) && s'.records == s.records)
  }

  lemma WrittenSays(s: Session, report: bool, id: StepId, output: Output)
    requires NextStep(s, report) == Some(id)
    ensures SaysOutcome(s, id, output, Written(s, id, output).(inFlight := None))
  {
  }

  function Written(s: Session, id: StepId, output: Output): Session
  {
    if id == Scan then WithOutcome(s, id, output).(cursor := Some(0)) else WithOutcome(s, id, output)
  }

  function After(t: Trail, id: StepId, output: Output): Trail
  {
    Trail(WithOutcome(t.disk, id, output), t.log + [id], t.offers, t.filings, t.resolved)
  }

  function Cleared(t: Trail, id: StepId, output: Output): Trail
  {
    After(t, id, output).(disk := Written(t.disk, id, output).(inFlight := None))
  }

  /** How far the writes of an outcome can have got. */
  predicate IsStage(t: Trail, id: StepId, output: Output, now: Trail)
  {
    now == After(t, id, output) || now == After(t, id, output).(disk := Written(t.disk, id, output)) || now == Cleared(t, id, output)
  }

  lemma StageKeeps(t: Trail, report: bool, id: StepId, output: Output, now: Trail)
    requires Right(t) && NextStep(t.disk, report) == Some(id) && t.disk.inFlight == Some(TokenOf(id)) && IsStage(t, id, output, now)
    ensures Later(t, now) && now.log == t.log + [id] && NothingFiled(t, now)
    ensures now == Cleared(t, id, output) ==> t.disk.list.None? || Remaining(now.disk) < Remaining(t.disk)
    ensures CursorMoved(t, now, id)
  {
    OutcomeKeeps(t, report, id, output);
    OutcomeMoves(t, report, id, output, now);
  }

  /** Only the outcomes of tickets and of the report move the cursor, by one. */
  ghost predicate CursorMoved(t: Trail, now: Trail, id: StepId)
  {
    Cursor(now.disk) == Cursor(t.disk) || (Cursor(now.disk) == Cursor(t.disk) + 1 && (id.Tickets? || NoCandidates(now)))
  }

  lemma OutcomeMoves(t: Trail, report: bool, id: StepId, output: Output, now: Trail)
    requires Sound(t.disk) && NextStep(t.disk, report) == Some(id) && IsStage(t, id, output, now)
    ensures CursorMoved(t, now, id)
  {
  }

  /** Whichever of its writes an outcome got to: the invariant holds, and nothing behind the cursor has changed. */
  lemma OutcomeKeeps(t: Trail, report: bool, id: StepId, output: Output)
    requires Right(t) && NextStep(t.disk, report) == Some(id) && t.disk.inFlight == Some(TokenOf(id))
    ensures
      var t' := After(t, id, output);
      var written := t'.(disk := Written(t.disk, id, output));
      && Later(t, t') && Later(t, written) && Later(t, Cleared(t, id, output))
      && (t.disk.list.None? || Remaining(written.disk) < Remaining(t.disk))
  {
    OfferedUpToAny(t.disk, t.log, t.offers, report, id);
    AfterIsRight(t, id, output);
    AfterContinues(t, id, output);
    WrittenKeeps(t, After(t, id, output), id, output);
  }

  lemma AfterIsRight(t: Trail, id: StepId, output: Output)
    requires Right(t) && NextStep(t.disk, true) == Some(id) && t.disk.inFlight == Some(TokenOf(id))
    ensures Right(After(t, id, output))
    ensures t.disk.list.None? || Remaining(WithOutcome(t.disk, id, output)) < Remaining(t.disk)
  {
    OutcomeKeepsInv(t.disk, t.log, t.offers, id, output);
    OutcomeKeepsFilings(t.disk, t.filings, t.resolved, id, output);
  }

  lemma AfterContinues(t: Trail, id: StepId, output: Output)
    requires Sound(t.disk) && NextStep(t.disk, true) == Some(id)
    ensures Continues(t, After(t, id, output))
  {
  }

  lemma WrittenKeeps(t: Trail, t': Trail, id: StepId, output: Output)
    requires t' == After(t, id, output) && Later(t, t') && Sound(t.disk) && NextStep(t.disk, true) == Some(id) && forall x :: x in Ids(t.offers) ==> x in t'.log
    ensures
      var written := t'.(disk := Written(t.disk, id, output));
      Later(t, written) && Later(t, Cleared(t, id, output))
  {
    var written := t'.(disk := Written(t.disk, id, output));
    if id == Scan {
      CursorZeroKeeps(t'.disk, t'.log, t'.offers);
    }
    ClearKeeps(written.disk, written.log, written.offers);
  }

  lemma OutcomeKeepsInv(s: Session, log: seq<StepId>, offers: seq<Offer>, id: StepId, output: Output)
    requires Inv(s, log, offers) && NextStep(s, true) == Some(id) && s.inFlight == Some(TokenOf(id))
    ensures Inv(WithOutcome(s, id, output), log + [id], offers)
    ensures s.list.None? || Remaining(WithOutcome(s, id, output)) < Remaining(s)
  {
    match id {
      case Scan => ScanKeeps(s, log, offers, if output.Candidates? then output.size else 0, output.NoCandidateFound?);
      case Spec(_) => SpecKeeps(s, log, offers);
      case Tickets(_) => TicketsKeeps(s, log, offers);
      case Report => ReportKeeps(s, log, offers);
    }
  }

  lemma OutcomeKeepsFilings(s: Session, filings: map<nat, FilingCall>, resolved: Resolutions, id: StepId, output: Output)
    requires Sound(s) && FilingsFit(s, filings) && ResolvedFit(s, filings, resolved) && NextStep(s, true) == Some(id)
    ensures FilingsFit(WithOutcome(s, id, output), filings) && ResolvedFit(WithOutcome(s, id, output), filings, resolved)
  {
  }

  lemma OfferedUpToAny(s: Session, log: seq<StepId>, offers: seq<Offer>, report: bool, id: StepId)
    requires Inv(s, log, offers) && NextStep(s, report) == Some(id)
    ensures NextStep(s, true) == Some(id)
    ensures forall x :: x in Ids(offers) ==> x in log + [id]
  {
  }

  /** How many outcomes are still to come once the scan is recorded. */
  function Remaining(s: Session): nat
  {
    if s.list.None? then 0
    else if s.list.value.noCandidate then (if Cursor(s) == 0 then 1 else 0)
    else if Recorded(s) <= Total(s) then Total(s) - Recorded(s) else 0
  }

  // ---------- filing after a tickets step ----------

  /** The session directory is right, and the tracker has what its records say. */
  ghost predicate Sane(store: Store, port: DraftFiling.Port)
    reads store, port
  {
    store.Good() && AllTold(store.filings, port.repo)
  }

  /** `Abandoned`: the drafts could not be read; `Raised`: a ticket named an unknown draft, and the error left the phase. */
  datatype Decision = Advance | Abandoned | Stop(reason: Reason) | Dead | Raised

  datatype Reason = CapReached | SafeShaChanged

  /** `max` is the limit on improvements, if there is one; `dispatched` were counted before this phase. */
  datatype Config = Config(stateLabel: string, max: Option<nat>, dispatched: nat)

  predicate AtCap(cfg: Config, completed: nat)
  {
    cfg.max.Some? && cfg.dispatched + completed >= cfg.max.value
  }

  /** What follows from filing a candidate's drafts, when the process lives. */
  ghost predicate Decided(drafts: Option<seq<IssueDraft>>, cfg: Config, moved: bool, count: nat, decision: Decision, count': nat)
  {
    && (decision.Abandoned? <==> drafts.None?)
    && (decision.Raised? <==> drafts.Some? && !DraftFiling.InOrder(drafts.value))
    && count' == count + (if decision.Advance? || decision.Stop? then 1 else 0)
    && (decision.Advance? ==> !AtCap(cfg, count') && !moved)
    && (decision.Stop? ==> decision.reason == if AtCap(cfg, count') then CapReached else SafeShaChanged)
    && (decision.Stop? && !AtCap(cfg, count') ==> moved)
  }

  /** pycastle's `file_and_decide`, after the cursor has moved on and the drafts have been read. `moved` says whether the
      safe commit is another one by the end, `count` how many candidates were filed before. */
  method FileAndDecide(store: Store, port: DraftFiling.Port, index: nat, drafts: Option<seq<IssueDraft>>, cfg: Config, count: nat, moved: bool, faulty: bool)
    returns (decision: Decision, count': nat)
    requires Sane(store, port) && CanFile(store.Now(), index, drafts) && store.resolved[index].moved == moved
    modifies store, port
    ensures Sane(store, port) && count <= count' <= count + 1
    ensures store.Now() == if index in store.filings then WithFiling(old(store.Now()), index, store.filings[index]) else old(store.Now())
    ensures index in store.filings && drafts.Some? ==> store.filings[index].job.drafts == drafts.value && store.filings[index].job.stateLabel == cfg.stateLabel
    ensures decision.Dead? ==> faulty
    ensures !decision.Dead? ==> Decided(drafts, cfg, moved, count, decision, count')
    ensures !decision.Dead? ==> (index in store.filings <==> drafts.Some?)
    ensures decision.Raised? ==> index in store.filings && store.filings[index].outcome.UnknownBlocker?
    ensures decision.Advance? || decision.Stop? ==> index in store.filings && store.filings[index].outcome.Done?
  {
    count' := count;
    var dies := Dies(faulty);
    if dies {
      return Dead, count';
    }
    if drafts.None? {
      return Abandoned, count';
    }
    var outcome := FileDrafts(store, port, index, DraftFiling.Job(drafts.value, cfg.stateLabel, PrevSpec(store.disk.records, index)), faulty);
    HowItEnded(store.filings[index], port.repo);
    if !outcome.Done? {
      decision := if outcome.Crashed? then Dead else Raised;
      return;
    }
    count' := count + 1;
    dies := Dies(faulty);
    decision := if dies then Dead else if AtCap(cfg, count') then Stop(CapReached) else if moved then Stop(SafeShaChanged) else Advance;
  }

  lemma HowItEnded(f: FilingCall, repo: DraftFiling.Repo)
    requires Told(f, repo)
    ensures !f.outcome.Crashed? ==> (f.outcome.Done? <==> DraftFiling.InOrder(f.job.drafts))
    ensures f.outcome.Done? ==> DraftFiling.InOrder(f.job.drafts)
  {
    CallEnded(f, repo);
  }

  /** The candidate is the one just behind the cursor; its drafts were read and nothing is filed for it yet. */
  ghost predicate CanFile(t: Trail, index: nat, drafts: Option<seq<IssueDraft>>)
  {
    && index + 1 == Cursor(t.disk) && index in t.disk.records && index !in t.filings
    && index in t.resolved && t.resolved[index].drafts == drafts
    && (drafts.Some? ==> drafts.value != [] && DraftFiling.DistinctHandles(drafts.value))
  }

  /** The filing call on the candidate's own record. */
  method FileDrafts(store: Store, port: DraftFiling.Port, index: nat, job: DraftFiling.Job, faulty: bool) returns (outcome: DraftFiling.Outcome)
    requires Sane(store, port) && CanFile(store.Now(), index, Some(job.drafts)) && job.prevSpec == PrevSpec(store.disk.records, index)
    modifies store, port
    ensures Sane(store, port)
    ensures index in store.filings && store.Now() == WithFiling(old(store.Now()), index, store.filings[index])
    ensures store.filings[index].job == job && store.filings[index].outcome == outcome
    ensures outcome.Crashed? ==> faulty
  {
    ghost var before := port.repo;
    var record;
    outcome, record := CallFiling(port, job, faulty);
    ghost var call := FilingCall(job, before, outcome, record);
    FiledAway(store.Now(), before, port.repo, index, call);
    store.NoteFiling(index, call, record);
  }

  /** The trail with the record that a filing call left. */
  function WithFiling(t: Trail, index: nat, call: FilingCall): Trail
  {
    Trail(t.disk.(records := t.disk.records[index := call.record]), t.log, t.offers, t.filings[index := call], t.resolved)
  }

  lemma FiledAway(t: Trail, repo: DraftFiling.Repo, repo': DraftFiling.Repo, index: nat, call: FilingCall)
    requires Right(t) && CanFile(t, index, Some(call.job.drafts)) && call.job.prevSpec == PrevSpec(t.disk.records, index)
    requires AllTold(t.filings, repo) && DraftFiling.ValidRepo(repo') && DraftFiling.Extends(repo, repo') && Told(call, repo')
    ensures Right(WithFiling(t, index, call)) && AllTold(t.filings[index := call], repo')
  {
    OthersTold(t.filings, repo, repo');
    FilingKeeps(t, index, call);
  }

  method CallFiling(port: DraftFiling.Port, job: DraftFiling.Job, faulty: bool) returns (outcome: DraftFiling.Outcome, record: CandidateRecord)
    requires DraftFiling.ValidRepo(port.repo) && job.drafts != [] && DraftFiling.DistinctHandles(job.drafts)
    modifies port
    ensures Told(FilingCall(job, old(port.repo), outcome, record), port.repo)
    ensures DraftFiling.ValidRepo(port.repo) && DraftFiling.Extends(old(port.repo), port.repo)
    ensures outcome.Crashed? ==> faulty
  {
    ghost var before := port.repo;
    var file := new DraftFiling.Store(Some(Marked));
    DraftFiling.Start(job, before, file.record);
    outcome := DraftFiling.FileDraftSet(job, port, file, faulty, before, 0);
    record := file.record.value;
    FilingTold(FilingCall(job, before, outcome, record), port.repo);
  }

  /** Filing writes the record of the candidate just behind the cursor. */
  lemma FilingKeeps(t: Trail, index: nat, call: FilingCall)
    requires Right(t) && CanFile(t, index, Some(call.job.drafts)) && call.job.prevSpec == PrevSpec(t.disk.records, index)
    ensures Right(WithFiling(t, index, call))
  {
    FilingKeepsInv(t.disk, t.log, t.offers, index, call.record);
    FilingKeepsFit(t.disk, t.filings, index, call);
  }

  lemma FilingKeepsInv(s: Session, log: seq<StepId>, offers: seq<Offer>, index: nat, record: CandidateRecord)
    requires Inv(s, log, offers) && index < Cursor(s) && index in s.records
    ensures Inv(s.(records := s.records[index := record]), log, offers)
  {
    var s' := s.(records := s.records[index := record]);
    assert NextStep(s', true) == NextStep(s, true) && NextStep(s', false) == NextStep(s, false);
  }

  lemma FilingKeepsFit(s: Session, filings: map<nat, FilingCall>, index: nat, call: FilingCall)
    requires FilingsFit(s, filings) && index + 1 == Cursor(s) && index in s.records && index !in filings
    requires call.job.prevSpec == PrevSpec(s.records, index)
    ensures FilingsFit(s.(records := s.records[index := call.record]), filings[index := call])
  {
    var records, filings' := s.records[index := call.record], filings[index := call];
    forall i | i in filings'
      ensures i < Cursor(s) && i in records && records[i] == filings'[i].record && filings'[i].job.prevSpec == PrevSpec(records, i)
    {
      assert i != index ==> i in filings && i < index;
      EarlierSpecStays(s.records, index, call.record, i);
    }
  }

  lemma EarlierSpecStays(records: map<nat, CandidateRecord>, index: nat, record: CandidateRecord, i: nat)
    requires i <= index
    ensures PrevSpec(records[index := record], i) == PrevSpec(records, i)
  {
  }

  lemma FilingTold(f: FilingCall, repo: DraftFiling.Repo)
    requires f.job.drafts != [] && DraftFiling.DistinctHandles(f.job.drafts)
    requires DraftFiling.Inv(f.job, f.before, repo, Some(f.record), DraftFiling.Charged(0, f.outcome))
    requires f.outcome.Done? <==> DraftFiling.Finished(Some(f.record))
    requires f.outcome.UnknownBlocker? ==> DraftFiling.StuckAt(f.job.drafts, Some(f.record), f.outcome.handle)
    requires !f.outcome.Crashed? ==> (f.outcome.Done? <==> DraftFiling.InOrder(f.job.drafts))
    ensures Told(f, repo)
  {
    var filed := f.record.filed;
    if |filed| + 1 < |f.job.drafts| {
      forall t | t in filed
        ensures t.number in repo.issues && f.job.stateLabel !in repo.issues[t.number].labels
      {
        var i :| 0 <= i < |filed| && filed[i] == t;
        assert filed[i].number in DraftFiling.Created(f.before, repo);
      }
    }
  }

  lemma OthersTold(filings: map<nat, FilingCall>, repo: DraftFiling.Repo, repo': DraftFiling.Repo)
    requires AllTold(filings, repo) && DraftFiling.ValidRepo(repo') && DraftFiling.Extends(repo, repo')
    ensures AllTold(filings, repo')
  {
    forall i | i in filings
      ensures Told(filings[i], repo')
    {
      var f := filings[i];
      if f.record.spec.Some? {
        DraftFiling.LaterFilingKeeps(f.job, f.before, repo, repo', f.record);
      }
    }
  }

  lemma FilingContinues(t: Trail, t': Trail, t'': Trail, index: nat, found: Found)
    requires Right(t) && Continues(t, t') && AfterTickets(t.disk, t'.disk, index) && NothingFiled(t, t')
    requires t'' == if index in t''.filings then WithFiling(WithDrafts(t', index, found), index, t''.filings[index]) else WithDrafts(t', index, found)
    ensures Continues(t, t'')
  {
  }

  // ---------- the loop ----------

  datatype End = Finished | Stopped(reason: Reason) | Restarted | Died | FilingFailed

  /** The candidate's drafts were read, and filed unless they could not be read. */
  ghost predicate Handled(t: Trail, i: nat)
  {
    i in t.resolved && (t.resolved[i].drafts.Some? ==> i in t.filings)
  }

  ghost predicate NoCandidates(t: Trail)
  {
    t.disk.list.Some? && t.disk.list.value.noCandidate
  }

  /** Every candidate passed in between was handled; only a death can leave out the last one. */
  ghost predicate PassedHandled(t: Trail, t': Trail, died: bool)
  {
    !NoCandidates(t') ==> forall i :: Cursor(t.disk) <= i < Cursor(t'.disk) ==> Handled(t', i) || (died && i + 1 == Cursor(t'.disk))
  }

  /** How many candidates from `from` on and before `to` have a filing call that came to its end. */
  ghost function Completed(filings: map<nat, FilingCall>, from: nat, to: nat): nat
  {
    if from >= to then 0
    else Completed(filings, from, to - 1) + (if to - 1 in filings && filings[to - 1].outcome.Done? then 1 else 0)
  }

  /** The candidate was filed, and the safe commit was found to have moved. */
  ghost predicate MustStop(t: Trail, i: nat)
  {
    i in t.filings && t.filings[i].outcome.Done? && i in t.resolved && t.resolved[i].moved
  }

  /** No other candidate comes behind one after which the loop must stop; and it stops for that reason only behind such a one. */
  ghost predicate StopsInTime(t: Trail, t': Trail, ended: Option<End>)
  {
    && (forall i :: Cursor(t.disk) <= i < Cursor(t'.disk) && MustStop(t', i) ==>
          i + 1 == Cursor(t'.disk) && ended.Some? && (ended.value.Died? || ended.value.Stopped?))
    && (ended == Some(Stopped(SafeShaChanged)) ==> Cursor(t'.disk) > 0 && MustStop(t', Cursor(t'.disk) - 1))
  }

  /** What a stretch of a phase did: the candidates it passed and the count it kept. */
  ghost predicate Tallied(t: Trail, t': Trail, ended: Option<End>, count: nat, count': nat)
  {
    && Continues(t, t') && PassedHandled(t, t', ended == Some(Died)) && StopsInTime(t, t', ended)
    && (ended != Some(Died) ==> count' == count + Completed(t'.filings, Cursor(t.disk), Cursor(t'.disk)))
  }

  lemma {:induction false} CompletedSame(filings: map<nat, FilingCall>, filings': map<nat, FilingCall>, from: nat, to: nat)
    requires forall i :: from <= i < to ==> (i in filings <==> i in filings') && (i in filings ==> filings'[i] == filings[i])
    ensures Completed(filings, from, to) == Completed(filings', from, to)
  {
    if from < to {
      CompletedSame(filings, filings', from, to - 1);
    }
  }

  lemma {:induction false} CompletedParts(filings: map<nat, FilingCall>, from: nat, mid: nat, to: nat)
    requires from <= mid <= to
    ensures Completed(filings, from, to) == Completed(filings, from, mid) + Completed(filings, mid, to)
  {
    if mid < to {
      CompletedParts(filings, from, mid, to - 1);
    }
  }

  lemma TalliedOn(a: Trail, b: Trail, c: Trail, ended: Option<End>, x: nat, y: nat, z: nat)
    requires Right(b) && Right(c) && Tallied(a, b, None, x, y) && Tallied(b, c, ended, y, z)
    ensures Tallied(a, c, ended, x, z)
  {
    ContinuesOn(a, b, c);
    HandledOn(a, b, c, ended == Some(Died));
    StopsOn(a, b, c, ended);
    CompletedSame(b.filings, c.filings, Cursor(a.disk), Cursor(b.disk));
    CompletedParts(c.filings, Cursor(a.disk), Cursor(b.disk), Cursor(c.disk));
  }

  lemma StopsOn(a: Trail, b: Trail, c: Trail, ended: Option<End>)
    requires Right(b) && Continues(b, c) && StopsInTime(a, b, None) && StopsInTime(b, c, ended)
    ensures StopsInTime(a, c, ended)
  {
    forall i | Cursor(a.disk) <= i < Cursor(c.disk) && MustStop(c, i)
      ensures i + 1 == Cursor(c.disk) && ended.Some? && (ended.value.Died? || ended.value.Stopped?)
    {
      if i < Cursor(b.disk) {
        assert MustStop(b, i);
        assert false;
      }
    }
  }

  lemma HandledOn(a: Trail, b: Trail, c: Trail, died: bool)
    requires Continues(a, b) && Continues(b, c) && PassedHandled(a, b, false) && PassedHandled(b, c, died)
    ensures PassedHandled(a, c, died)
  {
    if !NoCandidates(c) {
      forall i | Cursor(a.disk) <= i < Cursor(c.disk)
        ensures Handled(c, i) || (died && i + 1 == Cursor(c.disk))
      {
        if i < Cursor(b.disk) {
          assert Handled(b, i);
        }
      }
    }
  }

  /** A stretch that does not move the cursor tallies nothing. */
  lemma TalliedStill(t: Trail, t': Trail, ended: Option<End>, count: nat)
    requires Continues(t, t') && Cursor(t'.disk) == Cursor(t.disk) && ended != Some(Stopped(SafeShaChanged))
    ensures Tallied(t, t', ended, count, count)
  {
  }

  /** The session directory stays when the process died or the filing call raised an error. */
  predicate Resumable(end: End)
  {
    end.Died? || end.FilingFailed?
  }

  /**
   * pycastle's `improve_phase`. `last` is the session when the loop ended, `transcript` says whether the scan's transcript is
   * there for a specification step to go on from. Without a death every candidate that was passed was handled, and `count`
   * of them are filed. The loop stops early only behind a filed candidate, at the cap or when the safe commit has moved.
   */
  method ImprovePhase(store: Store, port: DraftFiling.Port, cfg: Config, report: bool, transcript: bool, faulty: bool)
    returns (end: End, count: nat, ghost last: Trail)
    requires Sane(store, port)
    modifies store, port
    ensures Sane(store, port) && store.Now() == if Resumable(end) then last else NoTrail
    ensures Right(last) && AllTold(last.filings, port.repo) && Continues(old(store.Now()), last)
    ensures end.Died? ==> faulty
    ensures end.FilingFailed? ==> RaisedBefore(last)
    ensures end.Finished? ==> Whole(last, report)
    ensures Tallied(old(store.Now()), last, Some(end), 0, count)
    ensures !end.Died? ==> WithinCap(cfg, end, count)
    ensures end.Restarted? ==> MustRestart(old(store.Now()), report, transcript)
    ensures MustRestart(old(store.Now()), report, transcript) ==> end.Restarted? || end.Died?
  {
    end, count, last := RunPhase(store, port, cfg, report, transcript, faulty);
    if !Resumable(end) {
      store.Discard();
    }
  }

  /** Candidates are filed one by one until the cap is reached; the first one is filed in any case. */
  ghost predicate WithinCap(cfg: Config, end: End, count: nat)
  {
    && (count > 1 ==> !AtCap(cfg, count - 1))
    && (end.Stopped? ==> count > 0 && end.reason == if AtCap(cfg, count) then CapReached else SafeShaChanged)
    && (count > 0 && AtCap(cfg, count) ==> end.Stopped?)
    && (end.Restarted? ==> count == 0)
  }

  /** A specification step comes next, it was not handed out before, and there is no transcript for it to follow. */
  ghost predicate MustRestart(t: Trail, report: bool, transcript: bool)
  {
    !transcript && NextStep(t.disk, report).Some? && NextStep(t.disk, report).value.Spec? && NextStep(t.disk, report).value !in Ids(t.offers)
  }

  /** The phase, without what becomes of the session directory. */
  method RunPhase(store: Store, port: DraftFiling.Port, cfg: Config, report: bool, transcript: bool, faulty: bool)
    returns (end: End, count: nat, ghost last: Trail)
    requires Sane(store, port)
    modifies store, port
    ensures Sane(store, port) && store.Now() == last
    ensures (end.Died? ==> faulty) && (end.FilingFailed? ==> RaisedBefore(last)) && (end.Finished? ==> Whole(last, report))
    ensures Tallied(old(store.Now()), last, Some(end), 0, count)
    ensures !end.Died? ==> WithinCap(cfg, end, count)
    ensures end.Restarted? ==> MustRestart(old(store.Now()), report, transcript)
    ensures MustRestart(old(store.Now()), report, transcript) ==> end.Restarted? || end.Died?
  {
    ghost var t := store.Now();
    var driver, step, restart, died := StartPhase(store, report, transcript, faulty);
    count, last := 0, store.Now();
    if died {
      end := Died;
    } else if restart {
      end := Restarted;
    } else if step.Some? {
      ghost var started := last;
      end, count, last := RunSteps(driver, store, port, step.value, cfg, faulty);
      TalliedOn(t, started, last, Some(end), 0, 0, count);
    } else {
      AllRecorded(store.disk, store.log, store.offers, report);
      end := Finished;
    }
  }

  method StartPhase(store: Store, report: bool, transcript: bool, faulty: bool)
    returns (driver: ImprovePhaseDriver, step: Option<Step>, restart: bool, died: bool)
    requires store.Good()
    modifies store
    ensures fresh(driver) && driver.store == store && driver.report == report && (died ==> faulty)
    ensures store.Good() && NothingFiled(old(store.Now()), store.Now()) && Tallied(old(store.Now()), store.Now(), if died then Some(Died) else None, 0, 0)
    ensures !died ==> InHand(driver, store, step)
    ensures !died ==> (restart <==> MustRestart(old(store.Now()), report, transcript))
  {
    driver := new ImprovePhaseDriver(store, report);
    ghost var t := store.Now();
    step, died := driver.Start(faulty);
    TalliedStill(t, store.Now(), if died then Some(Died) else None, 0);
    restart := step.Some? && step.value.id.Spec? && step.value.kind == FollowUp && !transcript;
  }

  method RunSteps(driver: ImprovePhaseDriver, store: Store, port: DraftFiling.Port, first: Step, cfg: Config, faulty: bool)
    returns (end: End, count: nat, ghost last: Trail)
    requires InHand(driver, store, Some(first)) && Sane(store, port)
    modifies driver, store, port
    ensures Sane(store, port) && store.Now() == last
    ensures !end.Restarted? && (end.Died? ==> faulty) && (end.FilingFailed? ==> RaisedBefore(last))
    ensures end.Finished? ==> Whole(last, driver.report)
    ensures Tallied(old(store.Now()), last, Some(end), 0, count)
    ensures !end.Died? ==> WithinCap(cfg, end, count)
  {
    count, last := 0, store.Now();
    ghost var start := last;
    TalliedStill(start, last, None, 0);
    var step := Some(first);
    var ended: Option<End> := None;
    while ended.None? && step.Some?
      invariant Sane(store, port) && start == old(store.Now()) && last == store.Now() && Tallied(start, last, ended, 0, count)
      invariant ended.None? ==> InHand(driver, store, step) && (count > 0 ==> !AtCap(cfg, count))
      invariant ended.Some? ==> EndsWell(last, cfg, ended.value, count, faulty)
      decreases ended.None?, store.disk.list.None?, Remaining(store.disk)
    {
      step, ended, count := NextRound(driver, store, port, step.value, cfg, count, faulty, start);
      last := store.Now();
    }
    if ended.Some? {
      end := ended.value;
    } else {
      end := Finished;
      WholeAtTheEnd(start, last, driver.report, cfg, count);
    }
  }

  /** The ways in which the loop ends before every step is recorded. */
  ghost predicate EndsWell(t: Trail, cfg: Config, end: End, count: nat, faulty: bool)
  {
    && !end.Restarted? && !end.Finished? && (end.Died? ==> faulty) && (end.FilingFailed? ==> RaisedBefore(t))
    && (!end.Died? ==> WithinCap(cfg, end, count))
  }

  lemma WholeAtTheEnd(t: Trail, t': Trail, report: bool, cfg: Config, count: nat)
    requires Tallied(t, t', None, 0, count) && Right(t') && NextStep(t'.disk, report).None? && (count > 0 ==> !AtCap(cfg, count))
    ensures Tallied(t, t', Some(Finished), 0, count) && Whole(t', report) && WithinCap(cfg, Finished, count)
  {
    AllRecorded(t'.disk, t'.log, t'.offers, report);
  }

  /** A round, seen from the state in which the loop began. */
  method NextRound(driver: ImprovePhaseDriver, store: Store, port: DraftFiling.Port, step: Step, cfg: Config, count: nat, faulty: bool, ghost start: Trail)
    returns (next: Option<Step>, ended: Option<End>, count': nat)
    requires InHand(driver, store, Some(step)) && Sane(store, port)
    requires Tallied(start, store.Now(), None, 0, count) && (count > 0 ==> !AtCap(cfg, count))
    modifies driver, store, port
    ensures Sane(store, port) && Tallied(start, store.Now(), ended, 0, count')
    ensures ended.None? ==> InHand(driver, store, next) && (count' > 0 ==> !AtCap(cfg, count'))
    ensures ended.None? ==> store.disk.list.Some? && (old(store.disk.list.None?) || Remaining(store.disk) < old(Remaining(store.disk)))
    ensures ended.Some? ==> EndsWell(store.Now(), cfg, ended.value, count', faulty)
  {
    ghost var t := store.Now();
    next, ended, count' := Round(driver, store, port, step, cfg, count, faulty);
    TalliedOn(start, t, store.Now(), ended, 0, count, count');
  }

  /** Some filing call met a ticket that names a draft which is not in front of it. */
  ghost predicate RaisedBefore(t: Trail)
  {
    exists i :: i in t.filings && t.filings[i].outcome.UnknownBlocker?
  }

  /** Every step of the session is recorded, in order. */
  ghost predicate Whole(t: Trail, report: bool)
  {
    && t.disk.list.Some?
    && exists reported ::
         (report ==> reported) && t.log == WholeSession(t.disk.list.value.size, t.disk.list.value.noCandidate, reported)
  }

  /** The step in hand is the first unrecorded one, and there is none only when everything is recorded. */
  ghost predicate InHand(driver: ImprovePhaseDriver, store: Store, step: Option<Step>)
    reads driver, store
  {
    && driver.store == store && store.Good() && driver.InStep()
    && (step.Some? ==> NextStep(store.disk, driver.report) == Some(step.value.id) && store.disk.inFlight == Some(TokenOf(step.value.id)))
    && (step.None? ==> NextStep(store.disk, driver.report).None?)
  }

  /** What may end the loop inside a round, and how the count goes on when the process lives. */
  ghost predicate RoundEnds(t: Trail, cfg: Config, ended: Option<End>, count: nat, count': nat)
  {
    && count <= count' <= count + 1
    && (ended.None? && count' > count ==> !AtCap(cfg, count'))
    && (ended.Some? ==> ended.value.Stopped? || ended.value.Died? || (ended.value.FilingFailed? && RaisedBefore(t) && count' == count))
    && (ended.Some? && ended.value.Stopped? ==>
          count' == count + 1 && ended.value.reason == if AtCap(cfg, count') then CapReached else SafeShaChanged)
  }

  /** One round of the loop: the agent runs, its outcome is recorded, tickets are filed, the next step is fetched. */
  method Round(driver: ImprovePhaseDriver, store: Store, port: DraftFiling.Port, step: Step, cfg: Config, count: nat, faulty: bool)
    returns (next: Option<Step>, ended: Option<End>, count': nat)
    requires InHand(driver, store, Some(step)) && Sane(store, port)
    modifies driver, store, port
    ensures Sane(store, port) && Tallied(old(store.Now()), store.Now(), ended, count, count')
    ensures RoundEnds(store.Now(), cfg, ended, count, count') && (ended == Some(Died) ==> faulty)
    ensures ended.None? ==> InHand(driver, store, next)
    ensures ended.None? ==> store.disk.list.Some? && (old(store.disk.list.None?) || Remaining(store.disk) < old(Remaining(store.disk)))
  {
    next := None;
    ghost var t := store.Now();
    ended, count' := Work(driver, store, port, step, cfg, count, faulty);
    if ended.None? {
      ghost var t' := store.Now();
      next, ended := Fetch(driver, store, port, faulty, count');
      TalliedOn(t, t', store.Now(), ended, count, count', count');
    }
  }

  /** The next step, if the process lives to have it. */
  method Fetch(driver: ImprovePhaseDriver, store: Store, port: DraftFiling.Port, faulty: bool, ghost count: nat)
    returns (next: Option<Step>, ended: Option<End>)
    requires Sane(store, port) && driver.store == store && driver.InStep() && driver.candidates.Some?
    modifies driver, store
    ensures Sane(store, port) && Tallied(old(store.Now()), store.Now(), ended, count, count)
    ensures ended.Some? ==> ended == Some(Died) && faulty
    ensures ended.None? ==> InHand(driver, store, next)
    ensures store.disk.list.Some? && Remaining(store.disk) == old(Remaining(store.disk))
  {
    ghost var t := store.Now();
    var died;
    next, died := driver.Next(faulty);
    ended := if died then Some(Died) else None;
    TalliedStill(t, store.Now(), ended, count);
  }

  method Work(driver: ImprovePhaseDriver, store: Store, port: DraftFiling.Port, step: Step, cfg: Config, count: nat, faulty: bool)
    returns (ended: Option<End>, count': nat)
    requires InHand(driver, store, Some(step)) && Sane(store, port)
    modifies driver, store, port
    ensures Sane(store, port) && Tallied(old(store.Now()), store.Now(), ended, count, count')
    ensures RoundEnds(store.Now(), cfg, ended, count, count') && (ended == Some(Died) ==> faulty)
    ensures ended.None? ==> driver.InStep() && driver.candidates.Some?
    ensures ended.None? ==> old(store.disk.list.None?) || Remaining(store.disk) < old(Remaining(store.disk))
  {
    ghost var t := store.Now();
    count' := count;
    var died := RunStep(driver, step, faulty);
    ended := if died then Some(Died) else None;
    ghost var t' := store.Now();
    if died || !step.id.Tickets? {
      StepTallied(t, t', step.id, died, count);
    } else {
      ended, count' := FileStep(store, port, step.id.index, cfg, count, faulty, t);
      RemainingStays(t', store.Now());
    }
  }

  lemma StepTallied(t: Trail, t': Trail, id: StepId, died: bool, count: nat)
    requires Later(t, t') && NothingFiled(t, t') && CursorMoved(t, t', id) && (id.Tickets? ==> died)
    ensures Tallied(t, t', if died then Some(Died) else None, count, count)
  {
    if Cursor(t'.disk) == Cursor(t.disk) {
      TalliedStill(t, t', if died then Some(Died) else None, count);
    } else {
      assert Completed(t'.filings, Cursor(t.disk), Cursor(t.disk)) == 0;
    }
  }

  /** The filing after a tickets step, seen from the state before that step. */
  method FileStep(store: Store, port: DraftFiling.Port, index: nat, cfg: Config, count: nat, faulty: bool, ghost t: Trail)
    returns (ended: Option<End>, count': nat)
    requires Sane(store, port) && Right(t)
    requires Continues(t, store.Now()) && AfterTickets(t.disk, store.disk, index) && NothingFiled(t, store.Now())
    modifies store, port
    ensures Sane(store, port) && Tallied(t, store.Now(), ended, count, count')
    ensures RoundEnds(store.Now(), cfg, ended, count, count') && (ended == Some(Died) ==> faulty)
    ensures store.disk == old(store.disk).(records := store.disk.records) && store.disk.records.Keys == old(store.disk.records.Keys)
  {
    ghost var t' := store.Now();
    NotYetFiled(t, t', index);
    var found := ReadAndNote(store, index);
    ended, count' := Settle(store, port, index, found, cfg, count, faulty);
    FilingTallied(t, t', store.Now(), index, found, ended, count, count');
  }

  lemma NotYetFiled(t: Trail, t': Trail, index: nat)
    requires Right(t) && AfterTickets(t.disk, t'.disk, index) && NothingFiled(t, t')
    ensures index + 1 == Cursor(t'.disk) && index in t'.disk.records && index !in t'.filings && index !in t'.resolved
  {
  }

  /** How the filing of a candidate ended, and what that says of its drafts, of the count and of the safe commit. */
  ghost predicate Settled(t: Trail, index: nat, found: Found, ended: Option<End>, count: nat, count': nat)
  {
    && (ended != Some(Died) ==> (index in t.filings <==> found.drafts.Some?))
    && (ended != Some(Died) ==> count' == count + (if index in t.filings && t.filings[index].outcome.Done? then 1 else 0))
    && (index in t.filings && t.filings[index].outcome.Done? && found.moved ==> ended.Some? && (ended.value.Died? || ended.value.Stopped?))
    && (ended == Some(Stopped(SafeShaChanged)) ==> index in t.filings && t.filings[index].outcome.Done? && found.moved)
  }

  lemma FilingTallied(t: Trail, t': Trail, t'': Trail, index: nat, found: Found, ended: Option<End>, count: nat, count': nat)
    requires Right(t) && Continues(t, t') && AfterTickets(t.disk, t'.disk, index) && NothingFiled(t, t')
    requires t'' == if index in t''.filings then WithFiling(WithDrafts(t', index, found), index, t''.filings[index]) else WithDrafts(t', index, found)
    requires Settled(t'', index, found, ended, count, count')
    ensures Tallied(t, t'', ended, count, count')
    ensures t''.disk == t'.disk.(records := t''.disk.records) && t''.disk.records.Keys == t'.disk.records.Keys
  {
    FilingContinues(t, t', t'', index, found);
    OneMoreTallied(t, t'', index, found, ended, count, count');
  }

  method ReadAndNote(store: Store, index: nat) returns (found: Found)
    requires store.Good() && index + 1 == Cursor(store.disk) && index in store.disk.records && index !in store.filings && index !in store.resolved
    modifies store`resolved
    ensures store.Good() && store.Now() == WithDrafts(old(store.Now()), index, found) && CanFile(store.Now(), index, found.drafts) && store.resolved[index] == found
  {
    var drafts := ReadDrafts();
    var moved: bool := *;
    found := Found(drafts, moved);
    store.NoteDrafts(index, found);
  }

  method Settle(store: Store, port: DraftFiling.Port, index: nat, found: Found, cfg: Config, count: nat, faulty: bool)
    returns (ended: Option<End>, count': nat)
    requires Sane(store, port) && CanFile(store.Now(), index, found.drafts) && store.resolved[index] == found
    modifies store, port
    ensures Sane(store, port)
    ensures store.Now() == if index in store.filings then WithFiling(old(store.Now()), index, store.filings[index]) else old(store.Now())
    ensures RoundEnds(store.Now(), cfg, ended, count, count') && (ended == Some(Died) ==> faulty)
    ensures Settled(store.Now(), index, found, ended, count, count')
  {
    var decision;
    decision, count' := FileAndDecide(store, port, index, found.drafts, cfg, count, found.moved, faulty);
    ended := EndOf(decision);
  }

  lemma OneMoreTallied(t: Trail, t': Trail, index: nat, found: Found, ended: Option<End>, count: nat, count': nat)
    requires Continues(t, t') && index == Cursor(t.disk) && Cursor(t'.disk) == index + 1 && index in t'.resolved && t'.resolved[index] == found
    requires Settled(t', index, found, ended, count, count')
    ensures Tallied(t, t', ended, count, count')
  {
    assert Completed(t'.filings, index, index) == 0;
  }

  lemma RemainingStays(t: Trail, t': Trail)
    requires t'.disk == t.disk.(records := t'.disk.records) && t'.disk.records.Keys == t.disk.records.Keys
    ensures Remaining(t'.disk) == Remaining(t.disk) && t'.disk.list == t.disk.list && Cursor(t'.disk) == Cursor(t.disk)
  {
  }

  function EndOf(decision: Decision): Option<End>
  {
    match decision
    case Dead => Some(Died)
    case Raised => Some(FilingFailed)
    case Stop(reason) => Some(Stopped(reason))
    case _ => None
  }

  /** The drafts that an agent left, if they can be read as a draft set at last. */
  method ReadDrafts() returns (resolved: Option<seq<IssueDraft>>)
    ensures resolved.Some? ==> resolved.value != [] && DraftFiling.DistinctHandles(resolved.value)
  {
    resolved := *;
    if resolved.Some? && (resolved.value == [] || !DraftFiling.DistinctHandles(resolved.value)) {
      resolved := None;
    }
  }

  /** The agent runs and its outcome is recorded. */
  method RunStep(driver: ImprovePhaseDriver, step: Step, faulty: bool) returns (died: bool)
    requires InHand(driver, driver.store, Some(step))
    modifies driver, driver.store
    ensures Later(old(driver.store.Now()), driver.store.Now()) && NothingFiled(old(driver.store.Now()), driver.store.Now())
    ensures died ==> faulty
    ensures !died ==> driver.InStep() && driver.candidates.Some?
    ensures !died ==> Remaining(driver.store.disk) < old(Remaining(driver.store.disk)) || old(driver.store.disk.list.None?)
    ensures CursorMoved(old(driver.store.Now()), driver.store.Now(), step.id)
    ensures !died && step.id.Tickets? ==> AfterTickets(old(driver.store.disk), driver.store.disk, step.id.index)
  {
    var output: Output := *;
    died := Dies(faulty);
    if died {
      return;
    }
    if step.id == Scan && output.OtherOutput? {
      output := NoCandidateFound;
    }
    died := driver.RecordOutcome(step, output, faulty);
  }

  ghost predicate AfterTickets(s: Session, s': Session, index: nat)
  {
    && index == Cursor(s) && s' == s.(cursor := Some(index + 1), inFlight := None) && index in s.records
  }

  /** Every step of a session. */
  function WholeSession(n: nat, noCandidate: bool, report: bool): seq<StepId>
  {
    if noCandidate then (if report then [Scan, Report] else [Scan]) else FirstSteps(2 * n + 1)
  }

  lemma AllRecorded(s: Session, log: seq<StepId>, offers: seq<Offer>, report: bool)
    requires Inv(s, log, offers) && NextStep(s, report).None?
    ensures s.list.Some? && exists reported ::
              (report ==> reported) && log == WholeSession(s.list.value.size, s.list.value.noCandidate, reported)
  {
    var reported := if s.list.value.noCandidate then Cursor(s) != 0 else report;
    assert log == WholeSession(s.list.value.size, s.list.value.noCandidate, reported);
  }

  // ---------- what crashes cannot and can do ----------

  /** A step is never handed out again once its outcome is recorded. */
  lemma RecordedIsNotReoffered(s: Session, log: seq<StepId>, offers: seq<Offer>, o: Offer, j: nat)
    requires Inv(s, log, offers) && o in offers && j < o.at
    ensures j < |log| && log[j] != o.id
  {
    if o.at == |log| {
      NextNotInLog(s, log, offers, true);
    } else if !(s.list.Some? && s.list.value.noCandidate) {
      FirstStepsAt(|log|, j);
      FirstStepsAt(|log|, o.at);
      StepsDiffer(o.at);
    }
  }

  /** The scan found candidates, and the cursor has moved past this one. */
  predicate Behind(s: Session, i: nat)
  {
    s.list.Some? && !s.list.value.noCandidate && i < Cursor(s)
  }

  /** Both steps of a candidate behind the cursor are recorded, and neither is handed out afterwards or next. */
  lemma BehindIsOver(t: Trail, i: nat, report: bool)
    requires Right(t) && Behind(t.disk, i)
    ensures 2 * i + 2 < |t.log| && t.log[2 * i + 1] == Spec(i) && t.log[2 * i + 2] == Tickets(i)
    ensures NextStep(t.disk, report) != Some(Spec(i)) && NextStep(t.disk, report) != Some(Tickets(i))
    ensures forall o :: o in t.offers && o.at > 2 * i + 2 ==> o.id != Spec(i) && o.id != Tickets(i)
  {
    NextIsFirstUnrecorded(t.disk, t.log, t.offers, report);
    forall o | o in t.offers && o.at > 2 * i + 2
      ensures o.id != Spec(i) && o.id != Tickets(i)
    {
      RecordedIsNotReoffered(t.disk, t.log, t.offers, o, 2 * i + 1);
      RecordedIsNotReoffered(t.disk, t.log, t.offers, o, 2 * i + 2);
    }
  }

  /** The drafts could be read, the filing call did not die, and every ticket names earlier drafts only. */
  ghost predicate FilingEnded(filings: map<nat, FilingCall>, i: nat)
  {
    i in filings && !filings[i].outcome.Crashed? && DraftFiling.InOrder(filings[i].job.drafts)
  }

  /** The specification and every ticket are on the tracker with all edges, and the tickets carry the state label. */
  ghost predicate FullyFiled(f: FilingCall, repo: DraftFiling.Repo)
  {
    && f.record.spec.Some? && |f.record.filed| + 1 == |f.job.drafts|
    && DraftFiling.RecordKept(f.job, f.before, repo, f.record)
    && DraftFiling.AllLabelled(f.job, repo, f.record.filed)
  }

  /** A recorded ticket is blocked by exactly the specification recorded for the candidate before, if there is one, and the
      issues that its draft names. */
  lemma WaitsForPreviousCandidate(t: Trail, repo: DraftFiling.Repo, i: nat, k: nat, id: nat)
    requires Right(t) && AllTold(t.filings, repo) && i in t.filings && k < |t.filings[i].record.filed|
    ensures t.filings[i].record.spec.Some? && i in t.disk.records && t.disk.records[i] == t.filings[i].record
    ensures i > 0 ==> i - 1 in t.disk.records
    ensures
      var f := t.filings[i];
      id in DraftFiling.BlockersOf(repo, f.record.filed[k].number) <==>
      || (i > 0 && t.disk.records[i - 1].spec.Some? && id == t.disk.records[i - 1].spec.value.databaseId)
      || exists h, number ::
           h in f.job.drafts[k + 1].blockedBy && DraftFiling.Names(f.job, f.record.spec.value, f.record.filed, k, h, number, id)
  {
    var f := t.filings[i];
    assert Told(f, repo);
    DraftFiling.BlockersExactly(f.job, f.before, repo, f.record, k, id);
  }

  /** A candidate behind the cursor is marked complete if and only if its filing call came to its end, and then it is fully
      filed. Without the mark it can be fully filed only by a call that died after the last label. */
  lemma FiledWhenCallEnded(t: Trail, repo: DraftFiling.Repo, i: nat)
    requires Right(t) && AllTold(t.filings, repo) && Behind(t.disk, i)
    ensures i in t.disk.records && (Complete(t.disk.records, i) <==> FilingEnded(t.filings, i))
    ensures FilingEnded(t.filings, i) ==> t.filings[i].record == t.disk.records[i] && FullyFiled(t.filings[i], repo)
    ensures i !in t.filings ==> t.disk.records[i] == Marked
    ensures i in t.filings && FullyFiled(t.filings[i], repo) ==> DraftFiling.InOrder(t.filings[i].job.drafts)
    ensures i in t.filings && FullyFiled(t.filings[i], repo) ==> FilingEnded(t.filings, i) || t.filings[i].outcome.Crashed?
  {
    HasRecord(t.disk, t.filings, i);
    if i in t.filings {
      CallEnded(t.filings[i], repo);
    }
  }

  lemma HasRecord(s: Session, filings: map<nat, FilingCall>, i: nat)
    requires Sound(s) && FilingsFit(s, filings) && Behind(s, i)
    ensures i in s.records && s.records[i] == if i in filings then filings[i].record else Marked
  {
  }

  lemma CallEnded(f: FilingCall, repo: DraftFiling.Repo)
    requires Told(f, repo)
    ensures f.record.labelsApplied <==> !f.outcome.Crashed? && DraftFiling.InOrder(f.job.drafts)
    ensures f.record.labelsApplied ==> FullyFiled(f, repo)
    ensures FullyFiled(f, repo) ==> DraftFiling.InOrder(f.job.drafts)
  {
    if FullyFiled(f, repo) {
      DraftFiling.RecordedBlockersBefore(f.job, f.before, repo, f.record);
    }
  }

  /** Any number of restarts of the process in one session: in each, candidates behind the cursor are marked complete,
      and fully filed, exactly when their one filing call came to its end; another one can be fully filed only by a call
      that died after the last label. */
  method ImproveSession(port: DraftFiling.Port, cfg: Config, report: bool, attempts: nat) returns (end: End, ghost last: Trail, ghost deaths: nat)
    requires DraftFiling.ValidRepo(port.repo)
    modifies port
    ensures Right(last) && AllTold(last.filings, port.repo)
    ensures forall i: nat :: Behind(last.disk, i) ==> i in last.disk.records && (Complete(last.disk.records, i) <==> FilingEnded(last.filings, i))
    ensures forall i: nat :: Behind(last.disk, i) && FilingEnded(last.filings, i) ==> FullyFiled(last.filings[i], port.repo)
    ensures forall i: nat :: Behind(last.disk, i) && i in last.filings && FullyFiled(last.filings[i], port.repo) ==>
              FilingEnded(last.filings, i) || last.filings[i].outcome.Crashed?
    ensures end.Finished? ==> Whole(last, report)
    ensures |Lost(last)| <= deaths <= attempts
  {
    var store := new Store();
    NothingYet();
    end, last, deaths := Died, NoTrail, 0;
    var k := 0;
    while k < attempts && Resumable(end)
      invariant Right(last) && AllTold(last.filings, port.repo) && fresh(store)
      invariant Resumable(end) ==> store.Now() == last
      invariant end.Finished? ==> Whole(last, report)
      invariant |Lost(last)| <= deaths <= k <= attempts
      decreases attempts - k
    {
      ghost var t := last;
      var transcript: bool := *;
      var count;
      end, count, last := ImprovePhase(store, port, cfg, report, transcript, true);
      DeathsCostOne(t, last, end.Died?);
      if end.Died? {
        deaths := deaths + 1;
      }
      k := k + 1;
    }
    SessionEnds(last, port.repo);
  }

  lemma SessionEnds(last: Trail, repo: DraftFiling.Repo)
    requires Right(last) && AllTold(last.filings, repo)
    ensures forall i: nat :: Behind(last.disk, i) ==> i in last.disk.records && (Complete(last.disk.records, i) <==> FilingEnded(last.filings, i))
    ensures forall i: nat :: Behind(last.disk, i) && FilingEnded(last.filings, i) ==> FullyFiled(last.filings[i], repo)
    ensures forall i: nat :: Behind(last.disk, i) && i in last.filings && FullyFiled(last.filings[i], repo) ==>
              FilingEnded(last.filings, i) || last.filings[i].outcome.Crashed?
  {
    forall i: nat | Behind(last.disk, i)
      ensures i in last.disk.records && (Complete(last.disk.records, i) <==> FilingEnded(last.filings, i))
      ensures FilingEnded(last.filings, i) ==> FullyFiled(last.filings[i], repo)
      ensures i in last.filings && FullyFiled(last.filings[i], repo) ==>
                FilingEnded(last.filings, i) || last.filings[i].outcome.Crashed?
    {
      FiledWhenCallEnded(last, repo, i);
    }
  }

  /** The candidates behind the cursor whose drafts were never read, or were read and never filed. */
  ghost function Lost(t: Trail): set<nat>
  {
    set i | 0 <= i < Cursor(t.disk) && Behind(t.disk, i) && !Handled(t, i)
  }

  lemma DeathsCostOne(t: Trail, t': Trail, died: bool)
    requires Right(t) && Continues(t, t') && PassedHandled(t, t', died)
    ensures |Lost(t')| <= |Lost(t)| + (if died then 1 else 0)
  {
    var one: set<nat> := if died && Cursor(t'.disk) > 0 then {Cursor(t'.disk) - 1} else {};
    assert Lost(t') <= Lost(t) + one;
    Sizes(Lost(t'), Lost(t) + one);
  }

  lemma Sizes(a: set<nat>, b: set<nat>)
    requires a <= b
    ensures |a| <= |b|
  {
    if a != {} {
      var x :| x in a;
      Sizes(a - {x}, b - {x});
    }
  }

  // ---------- two ways to lose a candidate ----------

  /** The outcome of the step in hand is recorded, and the next one is fetched. */
  method RecordAndFetch(driver: ImprovePhaseDriver, step: Step, output: Output) returns (next: Option<Step>)
    requires InHand(driver, driver.store, Some(step)) && (step.id == Scan ==> !output.OtherOutput?)
    modifies driver, driver.store
    ensures InHand(driver, driver.store, next)
    ensures driver.store.log == old(driver.store.log) + [step.id] && NothingFiled(old(driver.store.Now()), driver.store.Now())
    ensures driver.store.disk == Written(old(driver.store.disk), step.id, output).(inFlight := driver.store.disk.inFlight)
  {
    var died := driver.RecordOutcome(step, output, false);
    next, died := driver.Next(false);
  }

  /** A session with one candidate, whose specification step is in hand. */
  method UpToScan() returns (store: Store, driver: ImprovePhaseDriver, step: Step)
    ensures fresh(store) && fresh(driver) && driver.store == store && InHand(driver, store, Some(step))
    ensures store.log == [Scan] && store.filings == map[] && store.resolved == map[]
    ensures store.disk == Session(Some(CandidateList(1, false)), Some(0), Some(SpecToken), map[])
  {
    store := new Store();
    driver := new ImprovePhaseDriver(store, false);
    var first, died := driver.Start(false);
    var second := RecordAndFetch(driver, first.value, Candidates(1));
    step := second.value;
  }

  /** Then its tickets step is. */
  method UpToSpec() returns (store: Store, driver: ImprovePhaseDriver, step: Step)
    ensures fresh(store) && fresh(driver) && driver.store == store && InHand(driver, store, Some(step))
    ensures store.log == [Scan, Spec(0)] && store.filings == map[] && store.resolved == map[]
    ensures store.disk == Session(Some(CandidateList(1, false)), Some(0), Some(TicketsToken), map[0 := Marked])
  {
    store, driver, step := UpToScan();
    ghost var s := store.disk;
    var next := RecordAndFetch(driver, step, OtherOutput);
    assert store.disk == WithSpec(s).(inFlight := store.disk.inFlight);
    assert NextStep(store.disk, false) == Some(Tickets(0));
    step := next.value;
  }

  /** Then the outcome of that step is durable. */
  method UpToTickets() returns (store: Store)
    ensures fresh(store) && store.Good() && store.log == [Scan, Spec(0), Tickets(0)] && store.filings == map[] && store.resolved == map[]
    ensures store.disk == Session(Some(CandidateList(1, false)), Some(1), None, map[0 := Marked])
  {
    var driver, step;
    store, driver, step := UpToSpec();
    var died := driver.RecordOutcome(step, OtherOutput, false);
  }

  /** The process dies after the tickets outcome is durable and before anything is filed: the next process finds
      nothing left to do, and the candidate has no issues. */
  method CrashSkipsFiling() returns (store: Store, next: Option<Step>)
    ensures next.None? && Right(store.Now()) && store.log == [Scan, Spec(0), Tickets(0)]
    ensures store.disk.records == map[0 := Marked] && store.filings == map[] && store.resolved == map[]
  {
    store := UpToTickets();
    var driver := new ImprovePhaseDriver(store, false);
    var died;
    next, died := driver.Start(false);
  }

  const SwappedDrafts := [IssueDraft("spec", "", [], "", []), IssueDraft("01-a", "", [], "", []),
                          IssueDraft("02-b", "", [], "", ["03-c"]), IssueDraft("03-c", "", [], "", [])]

  lemma SwappedIsOutOfOrder()
    ensures SwappedDrafts != [] && DraftFiling.DistinctHandles(SwappedDrafts) && !DraftFiling.InOrder(SwappedDrafts)
    ensures forall i, h :: DraftFiling.NotBefore(SwappedDrafts, i, h) ==> i == 2
  {
    var d := SwappedDrafts;
    assert "03-c" in d[2].blockedBy;
    DraftFiling.NotBeforeIsOutOfOrder(d, 2, "03-c");
  }

  /** No crash at all: the second ticket names the third. Filing stops after the first ticket, which never gets its
      state label, and the next process finds nothing left to do. */
  method SwappedDraftsSkipFiling() returns (store: Store, port: DraftFiling.Port, next: Option<Step>)
    ensures next.None? && Right(store.Now()) && StoppedAfterOne(store.Now(), port.repo)
  {
    store := UpToTickets();
    port := FileSwapped(store);
    var driver := new ImprovePhaseDriver(store, false);
    var died;
    next, died := driver.Start(false);
  }

  /** No crash, one ticket on the tracker without its label, and the candidate behind the cursor. */
  ghost predicate StoppedAfterOne(t: Trail, repo: DraftFiling.Repo)
  {
    && Behind(t.disk, 0) && 0 in t.filings && 0 in t.disk.records && t.disk.records[0] == t.filings[0].record
    && !t.filings[0].outcome.Crashed? && |t.disk.records[0].filed| == 1
    && !Complete(t.disk.records, 0) && Unlabelled(t.filings[0], repo)
  }

  method FileSwapped(store: Store) returns (port: DraftFiling.Port)
    requires store.Good() && store.filings == map[] && store.resolved == map[]
    requires store.disk == Session(Some(CandidateList(1, false)), Some(1), None, map[0 := Marked])
    modifies store
    ensures fresh(port) && store.Good() && StoppedAfterOne(store.Now(), port.repo)
    ensures store.disk == Session(Some(CandidateList(1, false)), Some(1), None, store.disk.records)
  {
    port := new DraftFiling.Port();
    SwappedIsOutOfOrder();
    store.NoteDrafts(0, Found(Some(SwappedDrafts), false));
    var decision, count := FileAndDecide(store, port, 0, Some(SwappedDrafts), Config("ready", None, 0), 0, false, false);
    HasRecord(store.disk, store.filings, 0);
    SwappedStops(store.filings[0], port.repo);
  }

  lemma SwappedStops(f: FilingCall, repo: DraftFiling.Repo)
    requires Told(f, repo) && f.job.drafts == SwappedDrafts && !f.outcome.Crashed?
    ensures f.outcome.UnknownBlocker? && |f.record.filed| == 1 && Unlabelled(f, repo) && !f.record.labelsApplied
  {
    SwappedIsOutOfOrder();
  }
}
