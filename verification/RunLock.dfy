/** The run-slot protocol: one global run lock (the token), one marker lock per project, transient
    probe locks taken by marker scans, and an advisory holder record.  Every process is a little
    state machine; a global state changes by one effect of one process at a time. */
module RunLock {
  import opened MapSum
  import opened Outcomes

  type Pid = nat
  type Project = string

  datatype Mode = LockRespecting | QueueJumping

  /** Where a process stands.  `todo` is what is left of the marker files listed when the scan
      began, `busy` says whether some probe already failed. */
  datatype Phase =
    | Arriving
    | Queued
    | HoldsToken
    | Recorded
    | Scanning(todo: set<Project>, busy: bool)
    | Probing(target: Project, todo: set<Project>, busy: bool)
    | Claiming
    | Running
    | Leaving
    | Unrecorded
    | Done
    | Crashed

  /** `scanStart` and `entered` are history: the step at which the latest marker scan began and the
      step at which the own marker was taken. */
  datatype Run = Run(project: Project, mode: Mode, phase: Phase, scanStart: nat, entered: nat)

  /** `markers` holds the marker files that exist, each with its lock owner. */
  datatype State = State(
    runs: map<Pid, Run>,
    token: Option<Pid>,
    markers: map<Project, Option<Pid>>,
    record: Option<Pid>,
    clock: nat)

  datatype Action =
    | Arrive
    | TakeToken
    | TimeOutQueued
    | WriteRecord
    | BeginScan
    | Probe(target: Project)
    | Unprobe
    | ScanClear
    | ScanAgain
    | TimeOutScanning
    | Claim
    | GiveUp
    | Exit
    | RemoveRecord
    | ReleaseToken
    | Crash

  // ---------- one effect of one process ----------

  ghost predicate Enabled(s: State, i: Pid, a: Action)
  {
    i in s.runs &&
    var r := s.runs[i];
    match a
    case Arrive => r.phase.Arriving?
    case TakeToken => r.phase.Queued? && s.token.None?
    case TimeOutQueued => r.phase.Queued?
    case WriteRecord => r.phase.HoldsToken?
    case BeginScan => r.phase.Recorded?
    case Probe(q) => r.phase.Scanning? && q in r.phase.todo && q in s.markers
    case Unprobe => r.phase.Probing?
    case ScanClear => r.phase.Scanning? && r.phase.todo == {} && !r.phase.busy
    case ScanAgain => r.phase.Scanning? && r.phase.todo == {} && r.phase.busy
    case TimeOutScanning => r.phase.Scanning? && r.phase.todo == {} && r.phase.busy
    case Claim => r.phase.Claiming? && r.project in s.markers && s.markers[r.project].None?
    case GiveUp => r.phase.Claiming? && r.project in s.markers && s.markers[r.project].Some?
    case Exit => r.phase.Running?
    case RemoveRecord => r.phase.Leaving?
    case ReleaseToken => r.phase.Unrecorded?
    case Crash => !r.phase.Done? && !r.phase.Crashed?
  }

  /** The marker table once process i holds no lock any more: the system drops locks with the process. */
  ghost function Dropped(markers: map<Project, Option<Pid>>, i: Pid): map<Project, Option<Pid>>
  {
    map q | q in markers :: if markers[q] == Some(i) then None else markers[q]
  }

  ghost function Apply(s: State, i: Pid, a: Action): State
    requires Enabled(s, i, a)
  {
    var r := s.runs[i];
    var now := s.clock;
    var s := s.(clock := now + 1);
    match a
    case Arrive =>
      s.(markers := if r.project in s.markers then s.markers else s.markers[r.project := None],
         runs := s.runs[i := r.(phase := if r.mode.LockRespecting? then Queued else Claiming)])
    case TakeToken => s.(token := Some(i), runs := s.runs[i := r.(phase := HoldsToken)])
    case TimeOutQueued => s.(runs := s.runs[i := r.(phase := Done)])
    case WriteRecord => s.(record := Some(i), runs := s.runs[i := r.(phase := Recorded)])
    case BeginScan =>
      s.(runs := s.runs[i := r.(phase := Scanning(s.markers.Keys - {r.project}, false), scanStart := now)])
    case Probe(q) =>
      var rest := r.phase.todo - {q};
      if s.markers[q].None?
      then s.(markers := s.markers[q := Some(i)], runs := s.runs[i := r.(phase := Probing(q, rest, r.phase.busy))])
      else s.(runs := s.runs[i := r.(phase := Scanning(rest, true))])
    case Unprobe =>
      s.(markers := s.markers[r.phase.target := None],
         runs := s.runs[i := r.(phase := Scanning(r.phase.todo, r.phase.busy))])
    case ScanClear => s.(runs := s.runs[i := r.(phase := Claiming)])
    case ScanAgain => s.(runs := s.runs[i := r.(phase := Recorded)])
    case TimeOutScanning => s.(runs := s.runs[i := r.(phase := Leaving)])
    case Claim =>
      s.(markers := s.markers[r.project := Some(i)], runs := s.runs[i := r.(phase := Running, entered := now)])
    case GiveUp => s.(runs := s.runs[i := r.(phase := if r.mode.LockRespecting? then Leaving else Done)])
    case Exit =>
      s.(markers := s.markers[r.project := None],
         runs := s.runs[i := r.(phase := if r.mode.LockRespecting? then Leaving else Done)])
    case RemoveRecord => s.(record := None, runs := s.runs[i := r.(phase := Unrecorded)])
    case ReleaseToken => s.(token := None, runs := s.runs[i := r.(phase := Done)])
    case Crash =>
      s.(token := if s.token == Some(i) then None else s.token,
         markers := Dropped(s.markers, i),
         runs := s.runs[i := r.(phase := Crashed)])
  }

  // ---------- whole runs ----------

  /** Some marker files may be left from earlier runs; nobody holds anything, and no record is left. */
  ghost predicate Init(s: State)
  {
    && (forall i :: i in s.runs ==> s.runs[i].phase.Arriving? && s.runs[i].scanStart == s.runs[i].entered == 0)
    && s.token.None? && s.record.None? && s.clock == 0
    && (forall q :: q in s.markers ==> s.markers[q].None?)
  }

  datatype Move = Move(pid: Pid, action: Action)

  /** b[k+1] is b[k] after moves[k]. */
  ghost predicate IsBehavior(b: seq<State>, moves: seq<Move>)
  {
    && |b| == |moves| + 1
    && Init(b[0])
    && forall k :: 0 <= k < |moves| ==>
         Enabled(b[k], moves[k].pid, moves[k].action) && b[k + 1] == Apply(b[k], moves[k].pid, moves[k].action)
  }

  ghost predicate CrashFree(moves: seq<Move>)
  {
    forall k :: 0 <= k < |moves| ==> !moves[k].action.Crash?
  }

  // ---------- the invariant ----------

  predicate TokenPhase(p: Phase)
  {
    p.HoldsToken? || p.Recorded? || p.Scanning? || p.Probing? || p.Leaving? || p.Unrecorded?
  }

  predicate HasToken(r: Run)
  {
    TokenPhase(r.phase) || (r.mode.LockRespecting? && (r.phase.Claiming? || r.phase.Running?))
  }

  predicate HasRecord(r: Run)
  {
    HasToken(r) && !r.phase.HoldsToken? && !r.phase.Unrecorded?
  }

  /** The marker r holds: its own for as long as it runs, another one while probing it. */
  function MarkerOf(r: Run): Option<Project>
  {
    if r.phase.Running? then Some(r.project) else if r.phase.Probing? then Some(r.phase.target) else None
  }

  ghost predicate Holds(s: State, i: Pid, q: Project)
  {
    q in s.markers && s.markers[q] == Some(i)
  }

  ghost predicate LocksMatch(s: State)
  {
    && (forall i :: i in s.runs ==> (HasToken(s.runs[i]) <==> s.token == Some(i)))
    && (s.token.Some? ==> s.token.value in s.runs)
    && (forall i, q :: Holds(s, i, q) ==> i in s.runs && MarkerOf(s.runs[i]) == Some(q))
    && (forall i :: i in s.runs && MarkerOf(s.runs[i]).Some? ==> Holds(s, i, MarkerOf(s.runs[i]).value))
  }

  ghost predicate ShapedRun(r: Run, markers: set<Project>, clock: nat)
  {
    && (r.phase.Queued? || TokenPhase(r.phase) ==> r.mode.LockRespecting?)
    && (!r.phase.Arriving? ==> r.project in markers || r.phase.Crashed?)
    && (r.phase.Scanning? ==> r.phase.todo <= markers - {r.project})
    && (r.phase.Probing? ==> r.phase.todo <= markers - {r.project} && r.phase.target != r.project)
    && r.scanStart <= clock && r.entered <= clock
    && (ScanTrusted(r) ==> r.scanStart < clock)
  }

  ghost predicate Shaped(s: State)
  {
    forall i :: i in s.runs ==> ShapedRun(s.runs[i], s.markers.Keys, s.clock)
  }

  ghost predicate RecordMatches(s: State)
  {
    && (forall i :: i in s.runs && HasRecord(s.runs[i]) ==> s.record == Some(i))
    && (s.record.Some? ==>
          && s.record.value in s.runs
          && (HasRecord(s.runs[s.record.value]) || s.runs[s.record.value].phase.Crashed?))
  }

  /** r has scanned, and found nothing busy, everything outside `Todo(r)`. */
  predicate ScanTrusted(r: Run)
  {
    || ((r.phase.Scanning? || r.phase.Probing?) && !r.phase.busy)
    || (r.mode.LockRespecting? && (r.phase.Claiming? || r.phase.Running?))
  }

  function Todo(r: Run): set<Project>
  {
    if r.phase.Scanning? || r.phase.Probing? then r.phase.todo else {}
  }

  /** Whoever runs now is another project's queue-jumper that took its marker after r's last scan
      began, unless r has yet to look at its marker (or will try to take that very marker). */
  predicate Overlaps(r: Run, other: Run)
  {
    other.phase.Running? ==>
      other.mode.QueueJumping? &&
      (other.entered > r.scanStart || other.project in Todo(r) || (other.project == r.project && !r.phase.Running?))
  }

  ghost predicate ScansHold(s: State)
  {
    forall i, j :: i in s.runs && j in s.runs && i != j && ScanTrusted(s.runs[i]) ==> Overlaps(s.runs[i], s.runs[j])
  }

  ghost predicate Inv(s: State)
  {
    LocksMatch(s) && Shaped(s) && RecordMatches(s) && ScansHold(s)
  }

  lemma InitInv(s: State)
    requires Init(s)
    ensures Inv(s)
  {
  }

  /** What a step must show about the one process it moves. */
  lemma LocalLocks(s: State, t: State, i: Pid, r: Run)
    requires LocksMatch(s) && i in s.runs && t.runs == s.runs[i := r]
    requires HasToken(r) <==> t.token == Some(i)
    requires t.token == s.token || ((s.token.None? || s.token == Some(i)) && (t.token.None? || t.token == Some(i)))
    requires forall q :: Holds(t, i, q) <==> MarkerOf(r) == Some(q)
    requires forall j, q :: j != i ==> (Holds(t, j, q) <==> Holds(s, j, q))
    ensures LocksMatch(t)
  {
  }

  /** The actions that change who holds a marker. */
  predicate MovesMarker(a: Action)
  {
    a.Probe? || a.Unprobe? || a.Claim? || a.Exit? || a.Crash?
  }

  lemma StepMarkersStay(s: State, i: Pid, a: Action)
    requires LocksMatch(s) && Enabled(s, i, a) && !MovesMarker(a) && ShapedRun(s.runs[i], s.markers.Keys, s.clock)
    ensures LocksMatch(Apply(s, i, a))
  {
    var t := Apply(s, i, a);
    assert forall j, q :: Holds(t, j, q) <==> Holds(s, j, q);
    assert MarkerOf(t.runs[i]) == MarkerOf(s.runs[i]);
    LocalLocks(s, t, i, t.runs[i]);
  }

  lemma StepMarkersMove(s: State, i: Pid, a: Action)
    requires LocksMatch(s) && Enabled(s, i, a) && MovesMarker(a) && ShapedRun(s.runs[i], s.markers.Keys, s.clock)
    ensures LocksMatch(Apply(s, i, a))
  {
    var t := Apply(s, i, a);
    OthersHold(s, i, a);
    OwnHolds(s, i, a);
    LocalLocks(s, t, i, t.runs[i]);
  }

  lemma OthersHold(s: State, i: Pid, a: Action)
    requires Enabled(s, i, a) && MovesMarker(a)
    requires MarkerOf(s.runs[i]).Some? ==> Holds(s, i, MarkerOf(s.runs[i]).value)
    ensures forall j, q :: j != i ==> (Holds(Apply(s, i, a), j, q) <==> Holds(s, j, q))
  {
  }

  lemma OwnHolds(s: State, i: Pid, a: Action)
    requires Enabled(s, i, a) && MovesMarker(a) && ShapedRun(s.runs[i], s.markers.Keys, s.clock)
    requires forall q :: Holds(s, i, q) <==> MarkerOf(s.runs[i]) == Some(q)
    ensures forall q :: Holds(Apply(s, i, a), i, q) <==> MarkerOf(Apply(s, i, a).runs[i]) == Some(q)
  {
  }

  lemma StepLocks(s: State, i: Pid, a: Action)
    requires Inv(s) && Enabled(s, i, a)
    ensures LocksMatch(Apply(s, i, a))
  {
    if MovesMarker(a) {
      StepMarkersMove(s, i, a);
    } else {
      StepMarkersStay(s, i, a);
    }
  }

  lemma ShapedLater(r: Run, markers: set<Project>, markers': set<Project>, clock: nat)
    requires ShapedRun(r, markers, clock) && markers <= markers'
    ensures ShapedRun(r, markers', clock + 1)
  {
  }

  lemma StepShapeOwn(s: State, i: Pid, a: Action)
    requires LocksMatch(s) && Enabled(s, i, a) && ShapedRun(s.runs[i], s.markers.Keys, s.clock)
    ensures
      var t := Apply(s, i, a);
      s.markers.Keys <= t.markers.Keys && t.clock == s.clock + 1 && ShapedRun(t.runs[i], t.markers.Keys, t.clock)
  {
    assert MarkerOf(s.runs[i]).Some? ==> Holds(s, i, MarkerOf(s.runs[i]).value);
  }

  lemma StepShape(s: State, i: Pid, a: Action)
    requires Inv(s) && Enabled(s, i, a)
    ensures Shaped(Apply(s, i, a))
  {
    var t := Apply(s, i, a);
    StepFrame(s, i, a);
    StepShapeOwn(s, i, a);
    forall j | j in t.runs
      ensures ShapedRun(t.runs[j], t.markers.Keys, t.clock)
    {
      if j != i {
        ShapedLater(s.runs[j], s.markers.Keys, t.markers.Keys, s.clock);
      }
    }
  }

  lemma LocalRecord(s: State, t: State, i: Pid, r: Run)
    requires LocksMatch(s) && RecordMatches(s) && i in s.runs && t.runs == s.runs[i := r]
    requires HasRecord(r) ==> t.record == Some(i)
    requires t.record == Some(i) ==> HasRecord(r) || r.phase.Crashed?
    requires t.record != s.record ==> s.token == Some(i) && (t.record.None? || t.record == Some(i))
    ensures RecordMatches(t)
  {
  }

  lemma RecordEffect(s: State, i: Pid, a: Action, hasToken: bool)
    requires Enabled(s, i, a) && hasToken == HasToken(s.runs[i])
    requires HasRecord(s.runs[i]) ==> s.record == Some(i)
    requires s.record == Some(i) ==> HasRecord(s.runs[i]) || s.runs[i].phase.Crashed?
    requires TokenPhase(s.runs[i].phase) ==> s.runs[i].mode.LockRespecting?
    ensures
      var t := Apply(s, i, a);
      && t.runs == s.runs[i := t.runs[i]]
      && (HasRecord(t.runs[i]) ==> t.record == Some(i))
      && (t.record == Some(i) ==> HasRecord(t.runs[i]) || t.runs[i].phase.Crashed?)
      && (t.record != s.record ==> hasToken && (t.record.None? || t.record == Some(i)))
  {
  }

  lemma StepRecord(s: State, i: Pid, a: Action)
    requires Inv(s) && Enabled(s, i, a)
    ensures RecordMatches(Apply(s, i, a))
  {
    var t := Apply(s, i, a);
    RecordEffect(s, i, a, HasToken(s.runs[i]));
    LocalRecord(s, t, i, t.runs[i]);
  }

  /** What a step must show about the one process it moves, against every other one. */
  lemma LocalScans(s: State, t: State, i: Pid, r: Run)
    requires ScansHold(s) && i in s.runs && t.runs == s.runs[i := r]
    requires forall j :: j in s.runs && j != i && ScanTrusted(r) ==> Overlaps(r, s.runs[j])
    requires forall j :: j in s.runs && j != i && ScanTrusted(s.runs[j]) ==> Overlaps(s.runs[j], r)
    ensures ScansHold(t)
  {
  }

  /** A scan begins: every process already running is one whose marker is on the list. */
  lemma StepScansBegin(s: State, i: Pid)
    requires Inv(s) && Enabled(s, i, BeginScan)
    ensures ScansHold(Apply(s, i, BeginScan))
  {
    var t := Apply(s, i, BeginScan);
    forall j | j in s.runs && j != i && s.runs[j].phase.Running?
      ensures Overlaps(t.runs[i], s.runs[j])
    {
      assert MarkerOf(s.runs[j]) == Some(s.runs[j].project);
      assert Holds(s, j, s.runs[j].project);
      assert s.token == Some(i) && !HasToken(s.runs[j]);
    }
    LocalScans(s, t, i, t.runs[i]);
  }

  lemma StepScansProbe(s: State, i: Pid, q: Project)
    requires Inv(s) && Enabled(s, i, Probe(q))
    ensures ScansHold(Apply(s, i, Probe(q)))
  {
    var t := Apply(s, i, Probe(q));
    forall j | j in s.runs && j != i && ScanTrusted(t.runs[i])
      ensures Overlaps(t.runs[i], s.runs[j])
    {
      assert Overlaps(s.runs[i], s.runs[j]);
      if s.runs[j].phase.Running? {
        assert MarkerOf(s.runs[j]) == Some(s.runs[j].project);
        assert Holds(s, j, s.runs[j].project);
      }
    }
    LocalScans(s, t, i, t.runs[i]);
  }

  lemma StepScansClaim(s: State, i: Pid)
    requires Inv(s) && Enabled(s, i, Claim)
    ensures ScansHold(Apply(s, i, Claim))
  {
    var t := Apply(s, i, Claim);
    forall j | j in s.runs && j != i && ScanTrusted(t.runs[i])
      ensures Overlaps(t.runs[i], s.runs[j])
    {
      assert Overlaps(s.runs[i], s.runs[j]);
      if s.runs[j].phase.Running? {
        assert MarkerOf(s.runs[j]) == Some(s.runs[j].project);
        assert Holds(s, j, s.runs[j].project);
      }
    }
    forall j | j in s.runs && j != i && ScanTrusted(s.runs[j])
      ensures Overlaps(s.runs[j], t.runs[i])
    {
      assert HasToken(s.runs[j]);
      assert ShapedRun(s.runs[j], s.markers.Keys, s.clock);
    }
    LocalScans(s, t, i, t.runs[i]);
  }

  lemma StepScansOther(s: State, i: Pid, a: Action)
    requires ScansHold(s) && Enabled(s, i, a) && !a.BeginScan? && !a.Probe? && !a.Claim?
    ensures ScansHold(Apply(s, i, a))
  {
    var t := Apply(s, i, a);
    StepFrame(s, i, a);
    forall j | j in s.runs && j != i && ScanTrusted(t.runs[i])
      ensures Overlaps(t.runs[i], s.runs[j])
    {
      assert Overlaps(s.runs[i], s.runs[j]);
    }
    LocalScans(s, t, i, t.runs[i]);
  }

  lemma StepScans(s: State, i: Pid, a: Action)
    requires Inv(s) && Enabled(s, i, a)
    ensures ScansHold(Apply(s, i, a))
  {
    match a
    case BeginScan => StepScansBegin(s, i);
    case Probe(q) => StepScansProbe(s, i, q);
    case Claim => StepScansClaim(s, i);
    case _ => StepScansOther(s, i, a);
  }

  lemma StepInv(s: State, i: Pid, a: Action)
    requires Inv(s) && Enabled(s, i, a)
    ensures Inv(Apply(s, i, a))
  {
    StepLocks(s, i, a);
    StepShape(s, i, a);
    StepRecord(s, i, a);
    StepScans(s, i, a);
  }

  lemma {:induction false} BehaviorInv(b: seq<State>, moves: seq<Move>, k: nat)
    requires IsBehavior(b, moves) && k <= |moves|
    ensures Inv(b[k]) && b[k].clock == k
  {
    if k == 0 {
      InitInv(b[0]);
    } else {
      BehaviorInv(b, moves, k - 1);
      StepInv(b[k - 1], moves[k - 1].pid, moves[k - 1].action);
    }
  }

  // ---------- overlap, over whole runs ----------

  ghost predicate LastScanAt(moves: seq<Move>, k: nat, i: Pid, scan: nat)
  {
    && scan < k <= |moves| && moves[scan] == Move(i, BeginScan)
    && forall m :: scan < m < k ==> moves[m] != Move(i, BeginScan)
  }

  ghost predicate ClaimedAt(moves: seq<Move>, k: nat, j: Pid, claim: nat)
  {
    claim < k <= |moves| && moves[claim] == Move(j, Claim)
  }

  /** The history fields of b[k] say what really happened before. */
  ghost predicate HistoryTrue(b: seq<State>, moves: seq<Move>, k: nat)
    requires k < |b|
  {
    forall i :: i in b[k].runs ==>
      && (b[k].runs[i].phase.Running? ==> ClaimedAt(moves, k, i, b[k].runs[i].entered))
      && (ScanTrusted(b[k].runs[i]) ==> LastScanAt(moves, k, i, b[k].runs[i].scanStart))
  }

  /** What one step leaves of the processes: the others as they are, and the history of its own. */
  lemma StepFrame(s: State, i: Pid, a: Action)
    requires Enabled(s, i, a)
    ensures var t := Apply(s, i, a);
            && t.runs == s.runs[i := t.runs[i]]
            && (t.runs[i].phase.Running? ==> a.Claim? && t.runs[i].entered == s.clock)
            && (ScanTrusted(t.runs[i]) ==>
                  || (a.BeginScan? && t.runs[i].scanStart == s.clock)
                  || (!a.BeginScan? && ScanTrusted(s.runs[i]) && t.runs[i].scanStart == s.runs[i].scanStart))
            && (t.runs[i].phase.Crashed? ==> a.Crash?)
  {
  }

  lemma ScanHistory(moves: seq<Move>, k: nat, s: State, t: State, j: Pid)
    requires k < |moves| && Enabled(s, moves[k].pid, moves[k].action) && t == Apply(s, moves[k].pid, moves[k].action) && s.clock == k
    requires j in s.runs && (ScanTrusted(s.runs[j]) ==> LastScanAt(moves, k, j, s.runs[j].scanStart))
    ensures j in t.runs && (ScanTrusted(t.runs[j]) ==> LastScanAt(moves, k + 1, j, t.runs[j].scanStart))
  {
    StepFrame(s, moves[k].pid, moves[k].action);
  }

  lemma ClaimHistory(moves: seq<Move>, k: nat, s: State, t: State, j: Pid)
    requires k < |moves| && Enabled(s, moves[k].pid, moves[k].action) && t == Apply(s, moves[k].pid, moves[k].action) && s.clock == k
    requires j in s.runs && (s.runs[j].phase.Running? ==> ClaimedAt(moves, k, j, s.runs[j].entered))
    ensures j in t.runs && (t.runs[j].phase.Running? ==> ClaimedAt(moves, k + 1, j, t.runs[j].entered))
  {
    StepFrame(s, moves[k].pid, moves[k].action);
  }

  lemma {:induction false} HistoryAt(b: seq<State>, moves: seq<Move>, k: nat)
    requires IsBehavior(b, moves) && k <= |moves|
    ensures HistoryTrue(b, moves, k)
  {
    if k != 0 {
      HistoryAt(b, moves, k - 1);
      BehaviorInv(b, moves, k - 1);
      StepFrame(b[k - 1], moves[k - 1].pid, moves[k - 1].action);
      forall j | j in b[k].runs
        ensures ScanTrusted(b[k].runs[j]) ==> LastScanAt(moves, k, j, b[k].runs[j].scanStart)
        ensures b[k].runs[j].phase.Running? ==> ClaimedAt(moves, k, j, b[k].runs[j].entered)
      {
        ScanHistory(moves, k - 1, b[k - 1], b[k], j);
        ClaimHistory(moves, k - 1, b[k - 1], b[k], j);
      }
    }
  }

  /** Whenever two runs are in their bodies at once they belong to different projects, at most one
      respects the lock, and next to a lock-respecting run there are only queue-jumpers that took
      their marker after that run began its last marker scan. */
  lemma RunsOverlapOnlyAsAllowed(b: seq<State>, moves: seq<Move>, k: nat, i: Pid, j: Pid)
    requires IsBehavior(b, moves) && k <= |moves|
    requires i in b[k].runs && j in b[k].runs && i != j
    requires b[k].runs[i].phase.Running? && b[k].runs[j].phase.Running?
    ensures b[k].runs[i].project != b[k].runs[j].project
    ensures b[k].runs[i].mode.LockRespecting? ==>
              && b[k].runs[j].mode.QueueJumping?
              && exists scan, claim :: LastScanAt(moves, k, i, scan) && ClaimedAt(moves, k, j, claim) && scan < claim
  {
    BehaviorInv(b, moves, k);
    HistoryAt(b, moves, k);
    var ri, rj := b[k].runs[i], b[k].runs[j];
    assert Holds(b[k], i, ri.project) && Holds(b[k], j, rj.project);
    if ri.mode.LockRespecting? {
      assert Overlaps(ri, rj);
      assert LastScanAt(moves, k, i, ri.scanStart) && ClaimedAt(moves, k, j, rj.entered);
    }
  }

  // ---------- probes, refusals and the record, in every reachable state ----------

  /** At most one probe lock exists; its owner holds the token and never probes its own marker. */
  lemma ProbeIsTheHoldersAlone(b: seq<State>, moves: seq<Move>, k: nat, i: Pid, j: Pid)
    requires IsBehavior(b, moves) && k <= |moves|
    requires i in b[k].runs && j in b[k].runs && b[k].runs[i].phase.Probing? && b[k].runs[j].phase.Probing?
    ensures i == j && b[k].token == Some(i) && b[k].runs[i].phase.target != b[k].runs[i].project
  {
    BehaviorInv(b, moves, k);
  }

  /** A try-lock on the own marker fails only against a real run of the same project; a queue-jumper
      can also meet the probe of the process that holds the token. */
  lemma RefusedOnlyByARealRun(b: seq<State>, moves: seq<Move>, k: nat, i: Pid)
    requires IsBehavior(b, moves) && k <= |moves|
    requires Enabled(b[k], i, GiveUp)
    ensures var j := b[k].markers[b[k].runs[i].project].value;
            && j in b[k].runs && j != i
            && (b[k].runs[i].mode.LockRespecting? ==>
                  b[k].runs[j].phase.Running? && b[k].runs[j].project == b[k].runs[i].project && b[k].runs[j].mode.QueueJumping?)
            && ((b[k].runs[j].phase.Running? && b[k].runs[j].project == b[k].runs[i].project) ||
                (b[k].runs[j].phase.Probing? && b[k].token == Some(j)))
  {
    BehaviorInv(b, moves, k);
    var s := b[k];
    var q := s.runs[i].project;
    var j := s.markers[q].value;
    assert Holds(s, j, q);
    assert MarkerOf(s.runs[i]).None?;
  }

  lemma {:induction false} NobodyCrashed(b: seq<State>, moves: seq<Move>, k: nat)
    requires IsBehavior(b, moves) && k <= |moves| && CrashFree(moves)
    ensures forall i :: i in b[k].runs ==> !b[k].runs[i].phase.Crashed?
  {
    if k != 0 {
      NobodyCrashed(b, moves, k - 1);
      StepFrame(b[k - 1], moves[k - 1].pid, moves[k - 1].action);
    }
  }

  /** A holder record that is present names the process that holds the token, or one that crashed
      while it held it; without crashes it always names the current holder. */
  lemma RecordNamesTheHolder(b: seq<State>, moves: seq<Move>, k: nat)
    requires IsBehavior(b, moves) && k <= |moves| && b[k].record.Some?
    ensures b[k].record.value in b[k].runs
    ensures b[k].token == b[k].record || b[k].runs[b[k].record.value].phase.Crashed?
    ensures CrashFree(moves) ==> b[k].token == b[k].record
  {
    BehaviorInv(b, moves, k);
    if CrashFree(moves) {
      NobodyCrashed(b, moves, k);
    }
  }

  // ---------- the life of a run ----------

  /** The steps of a process in order, without the rounds of its marker scan. */
  ghost function StepsOf(moves: seq<Move>, k: nat, i: Pid): seq<Action>
    requires k <= |moves|
  {
    if k == 0 then []
    else StepsOf(moves, k - 1, i) + if moves[k - 1].pid == i && !InScan(moves[k - 1].action) then [moves[k - 1].action] else []
  }

  predicate InScan(a: Action)
  {
    a.BeginScan? || a.Probe? || a.Unprobe? || a.ScanAgain?
  }

  const Entry := [Arrive, TakeToken, WriteRecord]

  /** The three ways in which a lock-respecting run comes to give its record and the token back: after its body,
      refused its own marker, or tired of waiting for the others' markers. */
  predicate WayOut(steps: seq<Action>)
  {
    || steps == Entry + [ScanClear, Claim, Exit]
    || steps == Entry + [ScanClear, GiveUp]
    || steps == Entry + [TimeOutScanning]
  }

  /** What a process has done by the time it is where it is. */
  predicate LivedSoFar(r: Run, steps: seq<Action>)
  {
    match r.phase
    case Arriving => steps == []
    case Queued => steps == [Arrive]
    case HoldsToken => steps == [Arrive, TakeToken]
    case Recorded => steps == Entry
    case Scanning(_, _) => steps == Entry
    case Probing(_, _, _) => steps == Entry
    case Claiming => steps == if r.mode.LockRespecting? then Entry + [ScanClear] else [Arrive]
    case Running => steps == if r.mode.LockRespecting? then Entry + [ScanClear, Claim] else [Arrive, Claim]
    case Leaving => WayOut(steps)
    case Unrecorded => |steps| > 0 && WayOut(steps[..|steps| - 1]) && steps[|steps| - 1] == RemoveRecord
    case Done =>
      if r.mode.QueueJumping? then steps == [Arrive, Claim, Exit] || steps == [Arrive, GiveUp]
      else steps == [Arrive, TimeOutQueued]
           || (|steps| > 1 && WayOut(steps[..|steps| - 2]) && steps[|steps| - 2..] == [RemoveRecord, ReleaseToken])
    case Crashed => true
  }

  lemma LivesOn(s: State, i: Pid, a: Action, steps: seq<Action>)
    requires Enabled(s, i, a) && LivedSoFar(s.runs[i], steps)
    requires s.runs[i].phase.Queued? || TokenPhase(s.runs[i].phase) ==> s.runs[i].mode.LockRespecting?
    ensures LivedSoFar(Apply(s, i, a).runs[i], steps + if InScan(a) then [] else [a])
  {
    var more := steps + [a];
    assert steps + [] == steps && more[..|more| - 1] == steps;
    assert |steps| > 0 ==> more[..|more| - 2] == steps[..|steps| - 1] && more[|more| - 2..] == [steps[|steps| - 1], a];
  }

  /** In every run of the processes each of them goes through its steps in this order: a lock-respecting one arrives, takes
      the token, writes the record, finds all markers free, takes its own, runs, removes the record and releases the token. */
  lemma {:induction false} EveryRunLivesInOrder(b: seq<State>, moves: seq<Move>, k: nat, i: Pid)
    requires IsBehavior(b, moves) && k <= |moves| && i in b[k].runs
    ensures LivedSoFar(b[k].runs[i], StepsOf(moves, k, i))
  {
    if k != 0 {
      var s, move := b[k - 1], moves[k - 1];
      StepFrame(s, move.pid, move.action);
      EveryRunLivesInOrder(b, moves, k - 1, i);
      RespectsLock(b, moves, k - 1, i);
      OneLivesOn(s, move, i, StepsOf(moves, k - 1, i));
    }
  }

  lemma RespectsLock(b: seq<State>, moves: seq<Move>, k: nat, i: Pid)
    requires IsBehavior(b, moves) && k <= |moves| && i in b[k].runs
    ensures b[k].runs[i].phase.Queued? || TokenPhase(b[k].runs[i].phase) ==> b[k].runs[i].mode.LockRespecting?
  {
    BehaviorInv(b, moves, k);
    assert ShapedRun(b[k].runs[i], b[k].markers.Keys, b[k].clock);
  }

  lemma OneLivesOn(s: State, move: Move, i: Pid, steps: seq<Action>)
    requires Enabled(s, move.pid, move.action) && i in s.runs && LivedSoFar(s.runs[i], steps)
    requires s.runs[i].phase.Queued? || TokenPhase(s.runs[i].phase) ==> s.runs[i].mode.LockRespecting?
    ensures i in Apply(s, move.pid, move.action).runs
    ensures LivedSoFar(Apply(s, move.pid, move.action).runs[i], steps + if move.pid == i && !InScan(move.action) then [move.action] else [])
  {
    StepFrame(s, move.pid, move.action);
    if move.pid == i {
      LivesOn(s, i, move.action, steps);
    } else {
      assert steps + [] == steps;
    }
  }

  lemma {:induction false} StepsAreMoves(moves: seq<Move>, k: nat, i: Pid, a: Action)
    requires k <= |moves|
    ensures a in StepsOf(moves, k, i) <==> !InScan(a) && exists j :: 0 <= j < k && moves[j] == Move(i, a)
  {
    if k != 0 {
      StepsAreMoves(moves, k - 1, i, a);
    }
  }

  /** A process that is done without having given up or timed out has been in its body: it took its marker and left it. */
  lemma DoneMeansRan(b: seq<State>, moves: seq<Move>, k: nat, i: Pid)
    requires IsBehavior(b, moves) && k <= |moves| && i in b[k].runs && b[k].runs[i].phase.Done?
    requires forall j :: 0 <= j < k && moves[j].pid == i ==>
               !moves[j].action.TimeOutQueued? && !moves[j].action.TimeOutScanning? && !moves[j].action.GiveUp?
    ensures exists j, m :: 0 <= j < k && 0 <= m < k && moves[j] == Move(i, Claim) && moves[m] == Move(i, Exit)
  {
    EveryRunLivesInOrder(b, moves, k, i);
    StepsAreMoves(moves, k, i, Claim);
    StepsAreMoves(moves, k, i, Exit);
    StepsAreMoves(moves, k, i, TimeOutQueued);
    StepsAreMoves(moves, k, i, TimeOutScanning);
    StepsAreMoves(moves, k, i, GiveUp);
    RanUnlessGivenUp(b[k].runs[i], StepsOf(moves, k, i));
    var j :| 0 <= j < k && moves[j] == Move(i, Claim);
    var m :| 0 <= m < k && moves[m] == Move(i, Exit);
  }

  lemma RanUnlessGivenUp(r: Run, steps: seq<Action>)
    requires r.phase.Done? && LivedSoFar(r, steps)
    ensures (Claim in steps && Exit in steps) || TimeOutQueued in steps || TimeOutScanning in steps || GiveUp in steps
  {
    if |steps| > 1 && WayOut(steps[..|steps| - 2]) {
      var way := steps[..|steps| - 2];
      assert forall a :: a in way ==> a in steps;
      assert way == Entry + [ScanClear, Claim, Exit] ==> way[4] == Claim && way[5] == Exit;
      assert way == Entry + [ScanClear, GiveUp] ==> way[4] == GiveUp;
      assert way == Entry + [TimeOutScanning] ==> way[3] == TimeOutScanning;
    }
  }

  // ---------- deadlock freedom ----------

  /** The process has not been in its body yet. */
  predicate BeforeBody(r: Run)
  {
    r.phase.Arriving? || r.phase.Queued? || r.phase.HoldsToken? || r.phase.Recorded? || r.phase.Scanning? || r.phase.Probing? || r.phase.Claiming?
  }

  lemma PatientStaysBefore(s: State, i: Pid, a: Action)
    requires Enabled(s, i, a) && Patient(a) && BeforeBody(s.runs[i])
    ensures a == Claim || BeforeBody(Apply(s, i, a).runs[i])
  {
  }

  ghost predicate Finished(s: State)
  {
    forall i :: i in s.runs ==> s.runs[i].phase.Done? || s.runs[i].phase.Crashed?
  }

  /** A move that neither gives up nor crashes. */
  predicate Patient(a: Action)
  {
    !a.TimeOutQueued? && !a.TimeOutScanning? && !a.GiveUp? && !a.Crash?
  }

  ghost predicate PatientRun(s: State, moves: seq<Move>, t: State)
    decreases |moves|
  {
    if moves == [] then s == t
    else
      && Patient(moves[0].action)
      && Enabled(s, moves[0].pid, moves[0].action)
      && PatientRun(Apply(s, moves[0].pid, moves[0].action), moves[1..], t)
  }

  /** How many steps a process is from its end when every marker it meets is free. */
  function Rank(r: Run, markers: nat): nat
  {
    match r.phase
    case Arriving => 6 * markers + 50
    case Queued => 6 * markers + 40
    case HoldsToken => 2 * markers + 30
    case Scanning(todo, true) => 2 * markers + 2 * |todo| + 30
    case Probing(_, todo, true) => 2 * markers + 2 * |todo| + 31
    case Recorded => 2 * markers + 20
    case Probing(_, todo, false) => 2 * |todo| + 11
    case Scanning(todo, false) => 2 * |todo| + 10
    case Claiming => 5
    case Running => 4
    case Leaving => 3
    case Unrecorded => 2
    case Done => 0
    case Crashed => 0
  }

  ghost function Distance(s: State): nat
  {
    Sum(s.runs.Keys, s.runs, (r: Run) => Rank(r, |s.markers|))
  }

  ghost function Arrivals(s: State): nat
  {
    Sum(s.runs.Keys, s.runs, (r: Run) => if r.phase.Arriving? then 1 else 0)
  }

  ghost predicate Closer(s: State, t: State)
  {
    Arrivals(t) < Arrivals(s) || (Arrivals(t) == Arrivals(s) && Distance(t) < Distance(s))
  }

  lemma MarkersKept(s: State, i: Pid, a: Action)
    requires LocksMatch(s) && Enabled(s, i, a) && !a.Arrive? && !a.Crash?
    ensures Apply(s, i, a).markers.Keys == s.markers.Keys
  {
    assert MarkerOf(s.runs[i]).Some? ==> Holds(s, i, MarkerOf(s.runs[i]).value);
  }

  /** Every patient move after the arrival lowers the rank, unless it probes a marker that is held. */
  lemma RankDrops(s: State, i: Pid, a: Action)
    requires Inv(s) && Enabled(s, i, a) && Patient(a) && !a.Arrive?
    requires a.Probe? ==> s.markers[a.target].None?
    ensures var t := Apply(s, i, a);
            |t.markers| == |s.markers| && Rank(t.runs[i], |s.markers|) < Rank(s.runs[i], |s.markers|)
  {
    MarkersKept(s, i, a);
    SubsetSize(s.markers.Keys - {s.runs[i].project}, s.markers.Keys);
    assert |Apply(s, i, a).markers.Keys| == |Apply(s, i, a).markers|;
    assert ShapedRun(s.runs[i], s.markers.Keys, s.clock);
    RankDropsOwn(s, i, a);
  }

  lemma RankDropsOwn(s: State, i: Pid, a: Action)
    requires Enabled(s, i, a) && Patient(a) && !a.Arrive? && ShapedRun(s.runs[i], s.markers.Keys, s.clock)
    requires a.Probe? ==> s.markers[a.target].None?
    requires |s.markers.Keys - {s.runs[i].project}| <= |s.markers|
    ensures Rank(Apply(s, i, a).runs[i], |s.markers|) < Rank(s.runs[i], |s.markers|)
  {
  }

  lemma MoveCloser(s: State, i: Pid, a: Action)
    requires Inv(s) && Enabled(s, i, a) && Patient(a) && !a.Arrive?
    requires a.Probe? ==> s.markers[a.target].None?
    ensures Closer(s, Apply(s, i, a))
  {
    var t := Apply(s, i, a);
    RankDrops(s, i, a);
    StepFrame(s, i, a);
    assert t.runs.Keys == s.runs.Keys;
    SumUpdate(s.runs, (r: Run) => Rank(r, |s.markers|), i, t.runs[i]);
    SumUpdate(s.runs, (r: Run) => if r.phase.Arriving? then 1 else 0, i, t.runs[i]);
  }

  lemma ArriveCloser(s: State, i: Pid)
    requires Enabled(s, i, Arrive)
    ensures Closer(s, Apply(s, i, Arrive))
  {
    var t := Apply(s, i, Arrive);
    StepFrame(s, i, Arrive);
    assert t.runs.Keys == s.runs.Keys;
    SumUpdate(s.runs, (r: Run) => if r.phase.Arriving? then 1 else 0, i, t.runs[i]);
  }

  ghost predicate NobodyInside(s: State)
  {
    forall j :: j in s.runs ==> !s.runs[j].phase.Arriving? && !s.runs[j].phase.Running?
  }

  /** With nobody arriving or running, the process that holds the token can go on. */
  lemma HolderMoves(s: State, i: Pid) returns (a: Action)
    requires Inv(s) && NobodyInside(s) && s.token == Some(i)
    ensures Enabled(s, i, a) && Patient(a) && Closer(s, Apply(s, i, a))
  {
    var r := s.runs[i];
    assert HasToken(r);
    forall q, j | Holds(s, j, q)
      ensures j == i && r.phase.Probing?
    {
      assert MarkerOf(s.runs[j]) == Some(q);
      assert HasToken(s.runs[j]);
    }
    match r.phase {
    case HoldsToken => a := WriteRecord;
    case Recorded => a := BeginScan;
    case Scanning(todo, busy) =>
      if q :| q in todo {
        a := Probe(q);
        assert s.markers[q].Some? ==> Holds(s, s.markers[q].value, q);
      } else {
        a := if busy then ScanAgain else ScanClear;
      }
    case Probing(_, _, _) => a := Unprobe;
    case Claiming =>
      a := Claim;
      assert s.markers[r.project].Some? ==> Holds(s, s.markers[r.project].value, r.project);
    case Leaving => a := RemoveRecord;
    case Unrecorded => a := ReleaseToken;
    }
    MoveCloser(s, i, a);
  }

  /** As long as some process has not finished, some process can move towards its end. */
  lemma SomebodyMoves(s: State) returns (i: Pid, a: Action)
    requires Inv(s) && !Finished(s)
    ensures Enabled(s, i, a) && Patient(a) && Closer(s, Apply(s, i, a))
  {
    if j :| j in s.runs && s.runs[j].phase.Arriving? {
      i, a := j, Arrive;
      ArriveCloser(s, i);
    } else if j :| j in s.runs && s.runs[j].phase.Running? {
      i, a := j, Exit;
      MoveCloser(s, i, a);
    } else if s.token.Some? {
      i := s.token.value;
      a := HolderMoves(s, i);
    } else {
      i :| i in s.runs && !s.runs[i].phase.Done? && !s.runs[i].phase.Crashed?;
      assert !HasToken(s.runs[i]);
      if s.runs[i].phase.Queued? {
        a := TakeToken;
      } else {
        a := Claim;
        var q := s.runs[i].project;
        assert s.markers[q].Some? ==> Holds(s, s.markers[q].value, q);
      }
      MoveCloser(s, i, a);
    }
  }

  /** No deadlock: from every reachable state all processes can still be brought to their end without any of them giving
      up, timing out or crashing, and each of them that has not been in its body yet gets into it. */
  lemma {:induction false} CanAlwaysFinish(s: State) returns (moves: seq<Move>, t: State)
    requires Inv(s)
    ensures PatientRun(s, moves, t) && Finished(t)
    ensures forall i :: i in s.runs && BeforeBody(s.runs[i]) ==> Move(i, Claim) in moves
    decreases Arrivals(s), Distance(s)
  {
    if Finished(s) {
      return [], s;
    }
    var i, a := SomebodyMoves(s);
    StepInv(s, i, a);
    StepFrame(s, i, a);
    if BeforeBody(s.runs[i]) {
      PatientStaysBefore(s, i, a);
    }
    var rest;
    rest, t := CanAlwaysFinish(Apply(s, i, a));
    moves := [Move(i, a)] + rest;
  }
}
