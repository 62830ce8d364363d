/** The scheduler's questions: which chain to dispatch now, whether anything is available, and when to wake up. */
module ServiceRegistry {
  import opened Outcomes
  import opened WakeTime
  import opened CredentialPools
  import opened StageChain

  // ---------- one service ----------

  /** What a service's availability tracker holds: one time of its own, the accounts of a pool, or nothing. */
  datatype Tracker =
    | Inline(exhaustedUntil: Option<Instant>, restricted: set<string>)
    | Pooled(accounts: seq<Account>)
    | NoPool

  predicate IsAvailable(t: Tracker, now: Instant, model: Option<string>)
  {
    match t
    case Inline(until, restricted) => !(until.Some? && now < until.value) && (model.Some? ==> model.value !in restricted)
    case Pooled(accounts) => exists a :: a in accounts && Usable(a, now, model)
    case NoPool => true
  }

  function EarliestFinite(accounts: seq<Account>): (r: Option<Instant>)
    ensures r.Some? ==> IsEarliest(accounts, r.value)
    ensures r.None? <==> forall a :: a in accounts ==> !Finite(a)
  {
    if accounts == [] then None
    else
      var rest := EarliestFinite(accounts[1..]);
      assert accounts == [accounts[0]] + accounts[1..];
      if Finite(accounts[0]) && (rest.None? || accounts[0].exhaustedUntil.value < rest.value) then
        assert accounts[0] in accounts;
        accounts[0].exhaustedUntil
      else rest
  }

  /** None is the error that there is no wake time. */
  function WakeOf(t: Tracker): Option<Instant>
  {
    match t
    case Inline(until, _) => until
    case Pooled(accounts) => EarliestFinite(accounts)
    case NoPool => None
  }

  /** The tracker that keeps one time. A permanent exhaustion leaves no trace in it. */
  class InlineStateAvailabilityTracker {
    var exhaustedUntil: Option<Instant>
    var restricted: set<string>

    function State(): Tracker
      reads this
    {
      Inline(exhaustedUntil, restricted)
    }

    constructor ()
      ensures State() == Inline(None, {})
    {
      exhaustedUntil, restricted := None, {};
    }

    method Available(now: Instant, model: Option<string>) returns (yes: bool)
      ensures yes == IsAvailable(State(), now, model)
    {
      if exhaustedUntil.Some? && now < exhaustedUntil.value {
        return false;
      }
      yes := model.None? || model.value !in restricted;
    }

    method MarkExhausted(reset: Option<Instant>, now: Instant)
      modifies this
      ensures State() == Inline(Some(Wake(reset, now, 0)), old(restricted))
    {
      var wake, _ := ComputeWakeTime(reset, now, 0);
      exhaustedUntil := Some(wake);
    }

    method MarkPermanentlyExhausted() returns (account: Option<string>)
      ensures account.None?
    {
      return None;
    }
  }

  // ---------- the registry ----------

  type Services = map<string, Tracker>

  function ModelOf(model: string): Option<string>
  {
    if model == "" then None else Some(model)
  }

  predicate IsUp(services: Services, now: Instant, e: Entry)
  {
    e.service in services && IsAvailable(services[e.service], now, ModelOf(e.model))
  }

  /** The entries of the chain whose service is configured. */
  function Candidates(services: Services, o: StageOverride): seq<Entry>
  {
    OnlyConfigured(Entries(o), services.Keys)
  }

  function DownTimes(services: Services, now: Instant, es: seq<Entry>): seq<Instant>
  {
    if es == [] then []
    else
      DownTime(services, now, es[0]) + DownTimes(services, now, es[1..])
  }

  function DownTime(services: Services, now: Instant, e: Entry): seq<Instant>
  {
    if e.service in services && !IsUp(services, now, e) && WakeOf(services[e.service]).Some?
    then [WakeOf(services[e.service]).value] else []
  }

  function Least(times: seq<Instant>): (r: Option<Instant>)
    ensures r.None? <==> times == []
    ensures r.Some? ==> r.value in times && forall t :: t in times ==> r.value <= t
  {
    if times == [] then None
    else
      var rest := Least(times[1..]);
      assert times == [times[0]] + times[1..];
      if rest.Some? && rest.value < times[0] then rest else Some(times[0])
  }

  /** When to wake up for a stage, or None. */
  function NextWake(services: Services, now: Instant, o: StageOverride): Option<Instant>
  {
    Least(DownTimes(services, now, Candidates(services, o)))
  }

  /** pycastle's `_availability_by_service_model`: each service and model is asked once. */
  method AvailabilityByServiceModel(services: Services, nodes: seq<StageOverride>, now: Instant) returns (avail: map<(string, string), bool>)
    requires forall n :: n in nodes ==> n.service in services
    ensures forall n :: n in nodes ==> (n.service, n.model) in avail && avail[(n.service, n.model)] == IsUp(services, now, EntryOf(n))
  {
    avail := map[];
    for i := 0 to |nodes|
      invariant forall k :: k in avail ==> k.0 in services && avail[k] == IsAvailable(services[k.0], now, ModelOf(k.1))
      invariant forall j :: 0 <= j < i ==> (nodes[j].service, nodes[j].model) in avail
    {
      var key := (nodes[i].service, nodes[i].model);
      assert nodes[i] in nodes;
      if key !in avail {
        avail := avail[key := IsAvailable(services[nodes[i].service], now, ModelOf(nodes[i].model))];
      }
    }
  }

  method ConfiguredNodes(services: Services, o: StageOverride) returns (nodes: seq<StageOverride>)
    ensures nodes == Configured(Nodes(o), services.Keys) && EntriesOf(nodes) == Candidates(services, o)
    ensures forall n :: n in nodes ==> n.service in services
  {
    var all := IterStageChain(o);
    nodes := Configured(all, services.Keys);
    EntriesAreNodes(o);
    ConfiguredEntries(all, services.Keys);
    ConfiguredMembers(all, services.Keys);
  }

  lemma {:induction false} ConfiguredMembers(nodes: seq<StageOverride>, configured: set<string>)
    ensures forall n :: n in Configured(nodes, configured) ==> n in nodes && n.service in configured
  {
    if nodes != [] {
      ConfiguredMembers(nodes[1..], configured);
    }
  }

  /** pycastle's `resolve`: the chosen entries, whichever way the chain is put together. */
  method Resolve(services: Services, o: StageOverride, now: Instant) returns (r: StageOverride)
    ensures Entries(r) == Chosen(Entries(o), services.Keys, e => IsUp(services, now, e))
  {
    var nodes := ConfiguredNodes(services, o);
    var avail := AvailabilityByServiceModel(services, nodes, now);
    var up := (e: Entry) => (e.service, e.model) in avail && avail[(e.service, e.model)];
    var selected := SelectChain(o, nodes, services.Keys, up);
    if selected.None? {
      NoneConfigured(services, o, nodes);
      return o;
    }
    UpAgree(services, o, now, nodes, avail);
    ChosenSame(Entries(o), services.Keys, up, e => IsUp(services, now, e));
    return selected.value;
  }

  lemma NoneConfigured(services: Services, o: StageOverride, nodes: seq<StageOverride>)
    requires EntriesOf(nodes) == Candidates(services, o) && nodes == []
    ensures Candidates(services, o) == []
  {
  }

  lemma UpAgree(services: Services, o: StageOverride, now: Instant, nodes: seq<StageOverride>, avail: map<(string, string), bool>)
    requires EntriesOf(nodes) == Candidates(services, o)
    requires forall n :: n in nodes ==> (n.service, n.model) in avail && avail[(n.service, n.model)] == IsUp(services, now, EntryOf(n))
    ensures forall e :: e in Entries(o) && e.service in services.Keys ==>
              (((e.service, e.model) in avail && avail[(e.service, e.model)]) == IsUp(services, now, e))
  {
    OnlyConfiguredMembers(Entries(o), services.Keys);
    forall e | e in Entries(o) && e.service in services.Keys
      ensures ((e.service, e.model) in avail && avail[(e.service, e.model)]) == IsUp(services, now, e)
    {
      assert e in EntriesOf(nodes);
      var i :| 0 <= i < |nodes| && EntriesOf(nodes)[i] == e;
      assert nodes[i] in nodes;
    }
  }

  /** pycastle's `has_available_for`. */
  method HasAvailableFor(services: Services, o: StageOverride, now: Instant) returns (yes: bool)
    ensures yes <==> !NoneUp(services, now, o)
  {
    var nodes := ConfiguredNodes(services, o);
    var avail := AvailabilityByServiceModel(services, nodes, now);
    yes := exists n :: n in nodes && avail[(n.service, n.model)];
    SomeNodeUp(services, now, o, nodes);
  }

  lemma SomeNodeUp(services: Services, now: Instant, o: StageOverride, nodes: seq<StageOverride>)
    requires EntriesOf(nodes) == Candidates(services, o)
    ensures !NoneUp(services, now, o) <==> exists n :: n in nodes && IsUp(services, now, EntryOf(n))
  {
    forall e | e in Candidates(services, o)
      ensures exists n :: n in nodes && EntryOf(n) == e
    {
      var i :| 0 <= i < |nodes| && EntriesOf(nodes)[i] == e;
      assert nodes[i] in nodes;
    }
    forall n | n in nodes
      ensures EntryOf(n) in Candidates(services, o)
    {
      var i :| 0 <= i < |nodes| && nodes[i] == n;
      assert EntriesOf(nodes)[i] in EntriesOf(nodes);
    }
  }

  /** It holds exactly when what the stage is dispatched with begins with a configured, available candidate. */
  lemma AvailableWhenHeadIs(services: Services, o: StageOverride, now: Instant)
    ensures
      var chosen := Chosen(Entries(o), services.Keys, e => IsUp(services, now, e));
      chosen != [] && (IsUp(services, now, chosen[0]) <==> !NoneUp(services, now, o))
  {
    HeadIsUpIfAny(Entries(o), services.Keys, e => IsUp(services, now, e));
    OnlyConfiguredMembers(Entries(o), services.Keys);
  }

  /** pycastle's `next_wake_time_for`. */
  method NextWakeTimeFor(services: Services, o: StageOverride, now: Instant) returns (wake: Option<Instant>)
    ensures wake == NextWake(services, now, o)
  {
    var nodes := ConfiguredNodes(services, o);
    var avail := AvailabilityByServiceModel(services, nodes, now);
    var times: seq<Instant> := [];
    ghost var es := EntriesOf(nodes);
    for i := 0 to |nodes|
      invariant times == DownTimes(services, now, es[..i])
    {
      assert nodes[i] in nodes && es[i] == EntryOf(nodes[i]);
      DownTimesSnoc(services, now, es, i);
      if !avail[(nodes[i].service, nodes[i].model)] {
        var w := WakeOf(services[nodes[i].service]);
        if w.Some? {
          times := times + [w.value];
        }
      }
    }
    assert es[..|nodes|] == es;
    return Least(times);
  }

  lemma {:induction false} DownTimesAppend(services: Services, now: Instant, es: seq<Entry>, e: Entry)
    ensures DownTimes(services, now, es + [e]) == DownTimes(services, now, es) + DownTime(services, now, e)
  {
    if es == [] {
      assert [] + [e] == [e] && [e][1..] == [];
    } else {
      assert (es + [e])[1..] == es[1..] + [e];
      DownTimesAppend(services, now, es[1..], e);
    }
  }

  lemma DownTimesSnoc(services: Services, now: Instant, es: seq<Entry>, i: nat)
    requires i < |es|
    ensures DownTimes(services, now, es[..i + 1]) == DownTimes(services, now, es[..i]) + DownTime(services, now, es[i])
  {
    assert es[..i + 1] == es[..i] + [es[i]];
    DownTimesAppend(services, now, es[..i], es[i]);
  }

  // ---------- is the wake time right? ----------

  predicate NoneUp(services: Services, now: Instant, o: StageOverride)
  {
    forall e :: e in Candidates(services, o) ==> !IsUp(services, now, e)
  }

  lemma {:induction false} DownTimesAre(services: Services, now: Instant, es: seq<Entry>)
    requires forall e :: e in es ==> e.service in services && !IsUp(services, now, e)
    ensures forall w :: w in DownTimes(services, now, es) <==> exists e :: e in es && WakeOf(services[e.service]) == Some(w)
  {
    if es != [] {
      DownTimesAre(services, now, es[1..]);
      assert es == [es[0]] + es[1..];
    }
  }

  lemma CandidatesConfigured(services: Services, o: StageOverride)
    ensures forall e :: e in Candidates(services, o) ==> e.service in services
  {
    OnlyConfiguredMembers(Entries(o), services.Keys);
  }

  /** A moment at which the service becomes available for the model: unrestricted, and exhausted until then. */
  predicate Frees(t: Tracker, w: Instant, model: Option<string>)
  {
    match t
    case Inline(until, restricted) => until == Some(w) && (model.Some? ==> model.value !in restricted)
    case Pooled(accounts) => exists a :: a in accounts && a.exhaustedUntil == Some(w) && (model.Some? ==> model.value !in a.restricted)
    case NoPool => false
  }

  /** A service that is unavailable now and available later is freed in between, and not before its wake time. */
  lemma FreedBetween(t: Tracker, now: Instant, later: Instant, model: Option<string>)
    requires !IsAvailable(t, now, model) && IsAvailable(t, later, model) && now <= later < Permanent
    ensures WakeOf(t).Some? && WakeOf(t).value <= later
    ensures exists w :: now < w <= later && Frees(t, w, model) && WakeOf(t).value <= w
  {
    match t {
      case Inline(until, _) => assert Frees(t, until.value, model);
      case Pooled(accounts) =>
        var a :| a in accounts && Usable(a, later, model);
        assert !Usable(a, now, model);
        assert Finite(a) && Frees(t, a.exhaustedUntil.value, model);
    }
  }

  lemma FreedIsAvailable(t: Tracker, now: Instant, w: Instant, model: Option<string>)
    requires Frees(t, w, model) && !IsAvailable(t, now, model)
    ensures w > now && IsAvailable(t, w, model)
  {
    if t.Pooled? {
      var a :| a in t.accounts && a.exhaustedUntil == Some(w) && (model.Some? ==> model.value !in a.restricted);
      assert !Usable(a, now, model);
      assert Usable(a, w, model);
    }
  }

  /** The wake time is the least of the candidates'. */
  lemma WakeBound(services: Services, now: Instant, o: StageOverride, e: Entry)
    requires NoneUp(services, now, o) && e in Candidates(services, o)
    ensures e.service in services
    ensures WakeOf(services[e.service]).Some? ==>
              NextWake(services, now, o).Some? && NextWake(services, now, o).value <= WakeOf(services[e.service]).value
  {
    CandidatesConfigured(services, o);
    DownTimesAre(services, now, Candidates(services, o));
  }

  /** When nothing is available now, nothing becomes available before the wake time. */
  lemma WakeIsNotTooLate(services: Services, now: Instant, o: StageOverride, t: Instant)
    requires NoneUp(services, now, o) && NoneForGood(services, o)
    requires NextWake(services, now, o).Some? && now <= t < NextWake(services, now, o).value
    ensures NoneUp(services, t, o)
  {
    WakeBeforePermanent(services, now, o, NextWake(services, now, o).value);
    forall e | e in Candidates(services, o)
      ensures !IsUp(services, t, e)
    {
      WakeBound(services, now, o, e);
      if IsUp(services, t, e) {
        FreedBetween(services[e.service], now, t, ModelOf(e.model));
      }
    }
  }

  /** A time, not for good, until which the service or one of its accounts is exhausted. */
  predicate ExhaustedUntil(t: Tracker, v: Instant)
  {
    match t
    case Inline(until, _) => until == Some(v)
    case Pooled(accounts) => exists a :: a in accounts && Finite(a) && a.exhaustedUntil.value == v
    case NoPool => false
  }

  /** No candidate's service is exhausted for good by its own time. */
  predicate NoneForGood(services: Services, o: StageOverride)
  {
    forall e :: e in Candidates(services, o) && e.service in services ==>
      services[e.service].Inline? && services[e.service].exhaustedUntil.Some? ==> services[e.service].exhaustedUntil.value < Permanent
  }

  /** No candidate's service and none of its accounts is exhausted until an earlier time. */
  ghost predicate EarliestOfAll(services: Services, o: StageOverride, v: Instant)
  {
    forall e, u :: e in Candidates(services, o) && e.service in services && ExhaustedUntil(services[e.service], u) ==> v <= u
  }

  /** Of all times until which the candidates' accounts are exhausted, the earliest frees one for its candidate's model. */
  ghost predicate EarliestFrees(services: Services, o: StageOverride)
  {
    exists e, v :: e in Candidates(services, o) && e.service in services && v < Permanent &&
                   Frees(services[e.service], v, ModelOf(e.model)) && EarliestOfAll(services, o, v)
  }

  lemma WakeIsEarliestOfOne(t: Tracker, v: Instant)
    ensures WakeOf(t) == Some(v) ==> ExhaustedUntil(t, v)
    ensures ExhaustedUntil(t, v) ==> WakeOf(t).Some? && WakeOf(t).value <= v
    ensures forall model :: v < Permanent && Frees(t, v, model) ==> ExhaustedUntil(t, v)
  {
  }

  /** The wake time is the earliest of all those times. */
  lemma WakeIsEarliest(services: Services, now: Instant, o: StageOverride, w: Instant)
    requires NoneUp(services, now, o)
    ensures NextWake(services, now, o) == Some(w) ==> EarliestOfAll(services, o, w)
    ensures NextWake(services, now, o) == Some(w) ==> exists e ::
              e in Candidates(services, o) && e.service in services && ExhaustedUntil(services[e.service], w)
  {
    if NextWake(services, now, o) == Some(w) {
      CandidatesConfigured(services, o);
      DownTimesAre(services, now, Candidates(services, o));
      var e :| e in Candidates(services, o) && WakeOf(services[e.service]) == Some(w);
      WakeIsEarliestOfOne(services[e.service], w);
      forall e, u | e in Candidates(services, o) && e.service in services && ExhaustedUntil(services[e.service], u)
        ensures w <= u
      {
        WakeIsEarliestOfOne(services[e.service], u);
        WakeBound(services, now, o, e);
      }
    }
  }

  /** There is a wake time, it is in the future and finds something available, if and only if the earliest of all
      times until which the candidates' accounts are exhausted frees one that is not restricted. */
  lemma WakeIsNotTooEarly(services: Services, now: Instant, o: StageOverride)
    requires NoneUp(services, now, o) && NoneForGood(services, o)
    ensures
      var wake := NextWake(services, now, o);
      (wake.Some? && wake.value > now && !NoneUp(services, wake.value, o)) <==> EarliestFrees(services, o)
  {
    var wake := NextWake(services, now, o);
    if wake.Some? && wake.value > now && !NoneUp(services, wake.value, o) {
      WakeFindsFreed(services, now, o, wake.value);
    }
    if EarliestFrees(services, o) {
      var e, v :| e in Candidates(services, o) && e.service in services && v < Permanent &&
                  Frees(services[e.service], v, ModelOf(e.model)) && EarliestOfAll(services, o, v);
      WakeIsEarliestOfOne(services[e.service], v);
      WakeBound(services, now, o, e);
      WakeIsEarliest(services, now, o, wake.value);
      assert wake.value == v;
      FreedIsAvailable(services[e.service], now, v, ModelOf(e.model));
      assert IsUp(services, v, e);
    }
  }

  lemma WakeFindsFreed(services: Services, now: Instant, o: StageOverride, w: Instant)
    requires NoneUp(services, now, o) && NoneForGood(services, o)
    requires NextWake(services, now, o) == Some(w) && w > now && !NoneUp(services, w, o)
    ensures EarliestFrees(services, o)
  {
    var e :| e in Candidates(services, o) && IsUp(services, w, e);
    WakeIsEarliest(services, now, o, w);
    WakeBeforePermanent(services, now, o, w);
    WakeBound(services, now, o, e);
    FreedBetween(services[e.service], now, w, ModelOf(e.model));
  }

  lemma WakeBeforePermanent(services: Services, now: Instant, o: StageOverride, w: Instant)
    requires NoneUp(services, now, o) && NoneForGood(services, o) && NextWake(services, now, o) == Some(w)
    ensures w < Permanent
  {
    WakeIsEarliest(services, now, o, w);
  }

  predicate Unrestricted(t: Tracker, model: Option<string>)
  {
    match t
    case Inline(_, restricted) => model.Some? ==> model.value !in restricted
    case Pooled(accounts) => forall a :: a in accounts && model.Some? ==> model.value !in a.restricted
    case NoPool => true
  }

  predicate NoneRestricted(services: Services, o: StageOverride)
  {
    forall e :: e in Candidates(services, o) && e.service in services ==> Unrestricted(services[e.service], ModelOf(e.model))
  }

  /** Without restricted models the wake time is exactly when the first candidate becomes available. */
  lemma WakeIsExact(services: Services, now: Instant, o: StageOverride)
    requires NoneUp(services, now, o) && NextWake(services, now, o).Some? && NoneForGood(services, o)
    requires NoneRestricted(services, o)
    ensures
      var w := NextWake(services, now, o).value;
      w > now && !NoneUp(services, w, o) && forall t :: now <= t < w ==> NoneUp(services, t, o)
  {
    var w := NextWake(services, now, o).value;
    CandidatesConfigured(services, o);
    DownTimesAre(services, now, Candidates(services, o));
    var e :| e in Candidates(services, o) && WakeOf(services[e.service]) == Some(w);
    WakeFrees(services[e.service], w, ModelOf(e.model));
    WakeIsEarliest(services, now, o, w);
    WakeBeforePermanent(services, now, o, w);
    WakeIsNotTooEarly(services, now, o);
    forall t | now <= t < w
      ensures NoneUp(services, t, o)
    {
      WakeIsNotTooLate(services, now, o, t);
    }
  }

  lemma WakeFrees(t: Tracker, w: Instant, model: Option<string>)
    requires WakeOf(t) == Some(w) && Unrestricted(t, model)
    ensures Frees(t, w, model)
  {
  }

  /** No wake time: without restricted models every account of every candidate is exhausted for good. */
  lemma NoWakeIsPermanent(services: Services, now: Instant, o: StageOverride)
    requires NoneUp(services, now, o) && NextWake(services, now, o).None? && NoneRestricted(services, o)
    ensures forall e :: e in Candidates(services, o) ==>
              e.service in services && services[e.service].Pooled? &&
              forall a :: a in services[e.service].accounts ==> a.exhaustedUntil.Some? && a.exhaustedUntil.value >= Permanent
  {
    CandidatesConfigured(services, o);
    forall e | e in Candidates(services, o)
      ensures services[e.service].Pooled?
      ensures forall a :: a in services[e.service].accounts ==> a.exhaustedUntil.Some? && a.exhaustedUntil.value >= Permanent
    {
      WakeBound(services, now, o, e);
      WakelessIsPermanent(services[e.service], now, ModelOf(e.model));
    }
  }

  lemma WakelessIsPermanent(t: Tracker, now: Instant, model: Option<string>)
    requires !IsAvailable(t, now, model) && WakeOf(t).None? && Unrestricted(t, model)
    ensures t.Pooled? && forall a :: a in t.accounts ==> a.exhaustedUntil.Some? && a.exhaustedUntil.value >= Permanent
  {
    if t.Pooled? {
      forall a | a in t.accounts
        ensures a.exhaustedUntil.Some? && a.exhaustedUntil.value >= Permanent
      {
        assert !Usable(a, now, model);
        assert !Finite(a);
      }
    }
  }

  /** A restricted model on an account whose time has passed makes the wake time lie in the past, while the other
      account, which could serve the model, is still exhausted. */
  lemma RestrictionMakesWakeEarly() returns (services: Services, o: StageOverride)
    ensures NoneUp(services, 100, o) && NextWake(services, 100, o) == Some(50) && NoneUp(services, 50, o)
  {
    var a := Account("a", "t", Some(50), {"m"});
    var b := Account("b", "u", Some(200), {});
    services := map["s" := Pooled([a, b])];
    o := StageOverride("m", "", "s", None);
    var e := Entry("s", "m", "");
    assert Entries(o) == [e];
    assert OnlyConfigured([e], services.Keys) == [e] + OnlyConfigured([], services.Keys);
    assert Candidates(services, o) == [e];
    assert [a, b][1..] == [b] && [b][1..] == [];
    assert EarliestFinite([b]) == Some(200) && EarliestFinite([a, b]) == Some(50);
    assert DownTimes(services, 100, [e]) == [50] + DownTimes(services, 100, []);
  }
}
