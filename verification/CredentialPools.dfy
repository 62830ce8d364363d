/** Accounts of a provider, what is exhausted until when, and when the scheduler wakes up for it. */
module CredentialPools {
  import opened Outcomes
  import opened WakeTime

  /** pycastle's `PERMANENT_EXHAUSTION_WAKE`, in microseconds since the year 1. */
  const Permanent: Instant := 315_537_897_540_000_000

  datatype Account = Account(name: string, token: string, exhaustedUntil: Option<Instant>, restricted: set<string>)

  predicate IsExhausted(a: Account, now: Instant)
  {
    a.exhaustedUntil.Some? && a.exhaustedUntil.value > now
  }

  /** No model given means any model. */
  predicate Usable(a: Account, now: Instant, model: Option<string>)
  {
    !IsExhausted(a, now) && (model.Some? ==> model.value !in a.restricted)
  }

  predicate FirstUsable(accounts: seq<Account>, i: nat, now: Instant, model: Option<string>)
    requires i < |accounts|
  {
    Usable(accounts[i], now, model) && forall j :: 0 <= j < i ==> !Usable(accounts[j], now, model)
  }

  predicate Finite(a: Account)
  {
    a.exhaustedUntil.Some? && a.exhaustedUntil.value < Permanent
  }

  /** The least finite time among the accounts. */
  predicate IsEarliest(accounts: seq<Account>, wake: Instant)
  {
    && (exists a :: a in accounts && Finite(a) && a.exhaustedUntil.value == wake)
    && forall a :: a in accounts && Finite(a) ==> wake <= a.exhaustedUntil.value
  }

  /** The first account with the token changed, as every marking does. */
  function Marked(accounts: seq<Account>, token: string, change: Account -> Account): seq<Account>
  {
    if accounts == [] then []
    else if accounts[0].token == token then [change(accounts[0])] + accounts[1..]
    else [accounts[0]] + Marked(accounts[1..], token, change)
  }

  lemma {:induction false} MarkedAt(accounts: seq<Account>, token: string, change: Account -> Account, i: nat)
    requires i < |accounts| && accounts[i].token == token && forall j :: 0 <= j < i ==> accounts[j].token != token
    ensures Marked(accounts, token, change) == accounts[i := change(accounts[i])]
  {
    if i > 0 {
      MarkedAt(accounts[1..], token, change, i - 1);
    }
  }

  lemma {:induction false} MarkedNowhere(accounts: seq<Account>, token: string, change: Account -> Account)
    requires forall j :: 0 <= j < |accounts| ==> accounts[j].token != token
    ensures Marked(accounts, token, change) == accounts
  {
    if accounts != [] {
      MarkedNowhere(accounts[1..], token, change);
    }
  }

  predicate DistinctTokens(accounts: seq<Account>)
  {
    forall i, j :: 0 <= i < j < |accounts| ==> accounts[i].token != accounts[j].token
  }

  // ---------- a pool over its life ----------

  /** What happens to a pool: the account with a token is used up until a time, or may not use a model. */
  datatype Mark = Exhausted(token: string, until: Instant) | Restricted(token: string, model: string)

  function Change(m: Mark): Account -> Account
  {
    match m
    case Exhausted(_, until) => (a: Account) => a.(exhaustedUntil := Some(until))
    case Restricted(_, model) => (a: Account) => a.(restricted := a.restricted + {model})
  }

  function AfterMarks(accounts: seq<Account>, marks: seq<Mark>): seq<Account>
  {
    if marks == [] then accounts
    else
      var m := marks[|marks| - 1];
      Marked(AfterMarks(accounts, marks[..|marks| - 1]), m.token, Change(m))
  }

  /** The k-th mark is the last one that used the account with the token up. */
  predicate LastExhaustion(marks: seq<Mark>, token: string, k: int)
  {
    && 0 <= k < |marks| && marks[k].Exhausted? && marks[k].token == token
    && forall j :: k < j < |marks| && marks[j].Exhausted? ==> marks[j].token != token
  }

  ghost predicate EverExhausted(marks: seq<Mark>, token: string)
  {
    exists m :: m in marks && m.Exhausted? && m.token == token
  }

  lemma MarkingKeepsTokens(accounts: seq<Account>, token: string, change: Account -> Account)
    requires forall a :: change(a).token == a.token && change(a).name == a.name
    ensures var marked := Marked(accounts, token, change);
            |marked| == |accounts| && forall i :: 0 <= i < |accounts| ==> marked[i].token == accounts[i].token && marked[i].name == accounts[i].name
  {
    if accounts != [] && accounts[0].token != token {
      MarkingKeepsTokens(accounts[1..], token, change);
    }
  }

  lemma {:induction false} MarkedByToken(accounts: seq<Account>, token: string, change: Account -> Account)
    requires DistinctTokens(accounts)
    ensures var marked := Marked(accounts, token, change);
            |marked| == |accounts|
            && forall i :: 0 <= i < |accounts| ==> marked[i] == if accounts[i].token == token then change(accounts[i]) else accounts[i]
  {
    if accounts != [] && accounts[0].token != token {
      MarkedByToken(accounts[1..], token, change);
    }
  }

  lemma {:induction false} MarksKeepTokens(accounts: seq<Account>, marks: seq<Mark>)
    ensures var after := AfterMarks(accounts, marks);
            |after| == |accounts| && forall i :: 0 <= i < |accounts| ==> after[i].token == accounts[i].token && after[i].name == accounts[i].name
  {
    if marks != [] {
      var m := marks[|marks| - 1];
      MarksKeepTokens(accounts, marks[..|marks| - 1]);
      MarkingKeepsTokens(AfterMarks(accounts, marks[..|marks| - 1]), m.token, Change(m));
    }
  }

  /** One more mark changes the account with its token and no other. */
  lemma OneMoreMark(accounts: seq<Account>, before: seq<Mark>, m: Mark, i: nat)
    requires DistinctTokens(accounts) && i < |accounts|
    ensures |AfterMarks(accounts, before)| == |AfterMarks(accounts, before + [m])| == |accounts|
    ensures var was := AfterMarks(accounts, before)[i];
            AfterMarks(accounts, before + [m])[i] == if accounts[i].token == m.token then Change(m)(was) else was
  {
    MarksKeepTokens(accounts, before);
    MarkedByToken(AfterMarks(accounts, before), m.token, Change(m));
    assert (before + [m])[..|before|] == before;
  }

  /** The restrictions of an account are those it had and those marked since. */
  lemma {:induction false} RestrictionsAreMarks(accounts: seq<Account>, marks: seq<Mark>, i: nat, model: string)
    requires DistinctTokens(accounts) && i < |accounts|
    ensures |AfterMarks(accounts, marks)| == |accounts|
    ensures model in AfterMarks(accounts, marks)[i].restricted <==>
            model in accounts[i].restricted || Restricted(accounts[i].token, model) in marks
  {
    if marks != [] {
      var before, m := marks[..|marks| - 1], marks[|marks| - 1];
      RestrictionsAreMarks(accounts, before, i, model);
      OneMoreMark(accounts, before, m, i);
      assert marks == before + [m];
    }
  }

  /** An account is used up until the time of the last mark that says so. */
  lemma {:induction false} LastExhaustionCounts(accounts: seq<Account>, marks: seq<Mark>, i: nat, k: int)
    requires DistinctTokens(accounts) && i < |accounts| && LastExhaustion(marks, accounts[i].token, k)
    ensures |AfterMarks(accounts, marks)| == |accounts|
    ensures AfterMarks(accounts, marks)[i].exhaustedUntil == Some(marks[k].until)
  {
    var before, m := marks[..|marks| - 1], marks[|marks| - 1];
    assert marks == before + [m];
    OneMoreMark(accounts, before, m, i);
    if k < |before| {
      assert LastExhaustion(before, accounts[i].token, k);
      LastExhaustionCounts(accounts, before, i, k);
    }
  }

  lemma {:induction false} NeverExhaustedIsAsBefore(accounts: seq<Account>, marks: seq<Mark>, i: nat)
    requires DistinctTokens(accounts) && i < |accounts| && !EverExhausted(marks, accounts[i].token)
    ensures |AfterMarks(accounts, marks)| == |accounts|
    ensures AfterMarks(accounts, marks)[i].exhaustedUntil == accounts[i].exhaustedUntil
  {
    if marks != [] {
      var before, m := marks[..|marks| - 1], marks[|marks| - 1];
      assert marks == before + [m] && m in marks;
      NeverExhaustedIsAsBefore(accounts, before, i);
      OneMoreMark(accounts, before, m, i);
    }
  }

  /**
   * After any marks an account may be used for a model exactly when the last mark that used it up, or else what it
   * had at first, is over, and neither at first nor since was the model forbidden to it.
   */
  lemma UsableAfterMarks(accounts: seq<Account>, marks: seq<Mark>, i: nat, now: Instant, model: string)
    requires DistinctTokens(accounts) && i < |accounts|
    ensures |AfterMarks(accounts, marks)| == |accounts|
    ensures var a := AfterMarks(accounts, marks)[i];
            a.token == accounts[i].token
            && (Usable(a, now, Some(model)) <==>
                && model !in accounts[i].restricted
                && Restricted(accounts[i].token, model) !in marks
                && (forall k :: LastExhaustion(marks, accounts[i].token, k) ==> marks[k].until <= now)
                && (EverExhausted(marks, accounts[i].token) || accounts[i].exhaustedUntil.None? || accounts[i].exhaustedUntil.value <= now))
  {
    MarksKeepTokens(accounts, marks);
    RestrictionsAreMarks(accounts, marks, i, model);
    var token := accounts[i].token;
    if EverExhausted(marks, token) {
      var last := ThereIsALast(marks, token);
      LastExhaustionCounts(accounts, marks, i, last);
      assert forall k :: LastExhaustion(marks, token, k) ==> k == last;
    } else {
      NeverExhaustedIsAsBefore(accounts, marks, i);
      assert forall k :: 0 <= k < |marks| ==> marks[k] in marks;
      assert forall k :: !LastExhaustion(marks, token, k);
    }
  }

  lemma {:induction false} ThereIsALast(marks: seq<Mark>, token: string) returns (k: int)
    requires EverExhausted(marks, token)
    ensures LastExhaustion(marks, token, k)
  {
    var before, m := marks[..|marks| - 1], marks[|marks| - 1];
    if m.Exhausted? && m.token == token {
      k := |marks| - 1;
    } else {
      assert marks == before + [m];
      k := ThereIsALast(before, token);
    }
  }

  class CredentialPool {
    var accounts: seq<Account>

    /** An empty list of accounts is an error. */
    constructor (accounts: seq<Account>)
      requires accounts != []
      ensures this.accounts == accounts
    {
      this.accounts := accounts;
    }

    method PickForModel(now: Instant, model: Option<string>) returns (picked: Option<Account>)
      ensures picked.None? <==> forall a :: a in accounts ==> !Usable(a, now, model)
      ensures picked.Some? ==> exists i :: 0 <= i < |accounts| && accounts[i] == picked.value && FirstUsable(accounts, i, now, model)
      ensures picked.Some? && model.Some? ==> model.value !in picked.value.restricted
      ensures picked.Some? && picked.value.exhaustedUntil.Some? ==> picked.value.exhaustedUntil.value <= now
    {
      for i := 0 to |accounts|
        invariant forall j :: 0 <= j < i ==> !Usable(accounts[j], now, model)
      {
        if Usable(accounts[i], now, model) {
          return Some(accounts[i]);
        }
      }
      return None;
    }

    method HasAvailableForModel(now: Instant, model: Option<string>) returns (yes: bool)
      ensures yes <==> exists a :: a in accounts && Usable(a, now, model)
    {
      var picked := PickForModel(now, model);
      yes := picked.Some?;
    }

    method MarkExhausted(token: string, reset: Option<Instant>, now: Instant)
      modifies this
      ensures accounts == Marked(old(accounts), token, Change(Exhausted(token, Wake(reset, now, 0))))
    {
      var wake, _ := ComputeWakeTime(reset, now, 0);
      ghost var change := Change(Exhausted(token, Wake(reset, now, 0)));
      for i := 0 to |accounts|
        invariant accounts == old(accounts) && forall j :: 0 <= j < i ==> accounts[j].token != token
      {
        if accounts[i].token == token {
          MarkedAt(accounts, token, change, i);
          accounts := accounts[i := accounts[i].(exhaustedUntil := Some(wake))];
          return;
        }
      }
      MarkedNowhere(accounts, token, change);
    }

    method MarkPermanentlyExhausted(token: string) returns (name: Option<string>)
      modifies this
      ensures accounts == Marked(old(accounts), token, Change(Exhausted(token, Permanent)))
      ensures name.Some? <==> exists a :: a in old(accounts) && a.token == token
    {
      ghost var change := Change(Exhausted(token, Permanent));
      for i := 0 to |accounts|
        invariant accounts == old(accounts) && forall j :: 0 <= j < i ==> accounts[j].token != token
      {
        if accounts[i].token == token {
          MarkedAt(accounts, token, change, i);
          name := Some(accounts[i].name);
          accounts := accounts[i := accounts[i].(exhaustedUntil := Some(Permanent))];
          return;
        }
      }
      MarkedNowhere(accounts, token, change);
      name := None;
    }

    /** With one account for each token, the account is not picked for the model again. */
    method MarkModelRestricted(token: string, model: string)
      modifies this
      ensures accounts == Marked(old(accounts), token, Change(Restricted(token, model)))
      ensures DistinctTokens(old(accounts)) ==>
                forall a, now :: a in accounts && a.token == token ==> !Usable(a, now, Some(model))
    {
      ghost var change := Change(Restricted(token, model));
      for i := 0 to |accounts|
        invariant accounts == old(accounts) && forall j :: 0 <= j < i ==> accounts[j].token != token
      {
        if accounts[i].token == token {
          MarkedAt(accounts, token, change, i);
          accounts := accounts[i := accounts[i].(restricted := accounts[i].restricted + {model})];
          return;
        }
      }
      MarkedNowhere(accounts, token, change);
    }

    /** None is the error that no account has a finite wake time. Times that have passed are not left out. */
    method EarliestWakeTime() returns (wake: Option<Instant>)
      ensures wake.Some? ==> IsEarliest(accounts, wake.value)
      ensures wake.None? <==> forall a :: a in accounts ==> !Finite(a)
    {
      wake := None;
      for i := 0 to |accounts|
        invariant wake.None? <==> forall j :: 0 <= j < i ==> !Finite(accounts[j])
        invariant wake.Some? ==> exists j :: 0 <= j < i && Finite(accounts[j]) && accounts[j].exhaustedUntil.value == wake.value
        invariant wake.Some? ==> forall j :: 0 <= j < i && Finite(accounts[j]) ==> wake.value <= accounts[j].exhaustedUntil.value
      {
        if Finite(accounts[i]) && (wake.None? || accounts[i].exhaustedUntil.value < wake.value) {
          wake := accounts[i].exhaustedUntil;
        }
      }
    }
  }

  // ---------- the account in use ----------

  datatype UsageLimit = UsageLimit(reset: Option<Instant>, permanent: bool)

  /** pycastle's `PoolAvailabilityHelper`: marks the account whose token was picked last. */
  class PoolAvailabilityHelper {
    const pool: CredentialPool
    var current: Option<string>

    constructor (pool: CredentialPool)
      ensures this.pool == pool && current.None?
    {
      this.pool, current := pool, None;
    }

    /** A token of a usable account, or the error that says when there will be one. */
    method PickToken(now: Instant) returns (r: Result<string, UsageLimit>)
      modifies this
      ensures r.Ok? ==> current == Some(r.value) && exists a :: a in pool.accounts && a.token == r.value && !IsExhausted(a, now)
      ensures r.Ok? <==> exists a :: a in pool.accounts && !IsExhausted(a, now)
      ensures r.Err? ==> current == old(current)
      ensures r.Err? && !r.error.permanent ==> r.error.reset.Some? && r.error.reset.value > now && IsEarliest(pool.accounts, r.error.reset.value)
      ensures r.Err? && r.error.permanent ==> forall a :: a in pool.accounts ==> a.exhaustedUntil.Some? && a.exhaustedUntil.value >= Permanent
    {
      var picked := pool.PickForModel(now, None);
      if picked.Some? {
        current := Some(picked.value.token);
        return Ok(picked.value.token);
      }
      assert forall a :: a in pool.accounts ==> !Usable(a, now, None);
      var wake := pool.EarliestWakeTime();
      return Err(UsageLimit(wake, wake.None?));
    }

    method MarkExhausted(reset: Option<Instant>, now: Instant)
      modifies pool
      ensures pool.accounts ==
              if current.None? then old(pool.accounts)
              else Marked(old(pool.accounts), current.value, Change(Exhausted(current.value, Wake(reset, now, 0))))
    {
      if current.Some? {
        pool.MarkExhausted(current.value, reset, now);
      }
    }
  }

  /** The account that was picked is exhausted until the wake time, and the other accounts are as they were. */
  lemma {:induction false} MarkingTakesOneAccount(accounts: seq<Account>, token: string, until: Instant)
    requires exists a :: a in accounts && a.token == token
    ensures
      var marked := Marked(accounts, token, Change(Exhausted(token, until)));
      && |marked| == |accounts|
      && exists i :: 0 <= i < |accounts| && accounts[i].token == token && marked == accounts[i := accounts[i].(exhaustedUntil := Some(until))]
  {
    var change := Change(Exhausted(token, until));
    if accounts[0].token == token {
      MarkedAt(accounts, token, change, 0);
    } else {
      var a :| a in accounts && a.token == token;
      assert a in accounts[1..];
      MarkingTakesOneAccount(accounts[1..], token, until);
      var i :| 0 <= i < |accounts[1..]| && accounts[1..][i].token == token
               && Marked(accounts[1..], token, change) == accounts[1..][i := change(accounts[1..][i])];
      assert Marked(accounts, token, change) == accounts[i + 1 := change(accounts[i + 1])];
    }
  }
}
