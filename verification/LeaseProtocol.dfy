/**
 Any number of concurrent `try_consume` calls on one stored lease, with revocation, expiry sweeps
 and a clock that may jump (crates/coevo-risk/src/lease.rs, lines 143-207): every await point of
 the code is a separate step, every SQL statement is atomic.
 */
module LeaseProtocol {
  import opened Prelude
  import opened Lease

  /** Where a call stands: before each of its database statements, or finished. */
  datatype Pc =
    | Finding
    | Checking(row: Row)
    | Revoking
    | Consuming
    | Refreshing
    | Finished(result: Result<(), LeaseError>)

  datatype Caller = Caller(urn: string, pc: Pc)

  /** What happened to the row, in order. */
  datatype Entry = Took(caller: nat) | Ended

  datatype State = State(row: Row, clock: nat, callers: map<nat, Caller>, log: seq<Entry>)

  datatype Label =
    | Begin(caller: nat, urn: string)
    | Advance(caller: nat)
    | RevokeNow
    | ExpireAll
    | SetClock(now: nat)

  function Goto(s: State, c: nat, pc: Pc): State
    requires c in s.callers
  {
    s.(callers := s.callers[c := s.callers[c].(pc := pc)])
  }

  function End(s: State, row: Row): State {
    s.(row := row, log := s.log + [Ended])
  }

  /** The caller's next statement. */
  function StepCaller(s: State, c: nat): State
    requires c in s.callers
  {
    var urn := s.callers[c].urn;
    match s.callers[c].pc
    case Finding =>
      Goto(s, c, if s.row.Live() then Checking(s.row) else Finished(Err(LeaseExpiredOrRevoked)))
    case Checking(row) =>
      Goto(s, c,
        if s.clock >= row.expiresAtMs then Revoking
        else if !InScope(row.scope, urn) then Finished(Err(OutOfScope(urn)))
        else Consuming)
    case Revoking =>
      Goto(End(s, s.row.Revoked()), c, Finished(Err(LeaseExpiredOrRevoked)))
    case Consuming =>
      if s.row.CanConsume() then
        Goto(s.(row := s.row.Consumed(), log := s.log + [Took(c)]), c, Finished(Ok(())))
      else Goto(s, c, Refreshing)
    case Refreshing =>
      Goto(s, c, Finished(Err(
        if s.row.Live() && s.row.used >= s.row.budget then BudgetExhausted(AsU32(s.row.used), AsU32(s.row.budget))
        else LeaseExpiredOrRevoked)))
    case Finished(_) => s
  }

  function Step(s: State, l: Label): State {
    match l
    case Begin(c, urn) =>
      if c in s.callers then s else s.(callers := s.callers[c := Caller(urn, Finding)])
    case Advance(c) => if c in s.callers then StepCaller(s, c) else s
    case RevokeNow => End(s, s.row.Revoked())
    case ExpireAll => if s.row.Expired(s.clock) == s.row then s else End(s, s.row.Expired(s.clock))
    case SetClock(now) => s.(clock := now)
  }

  function Run(s: State, labels: seq<Label>): State
    decreases |labels|
  {
    if labels == [] then s else Run(Step(s, labels[0]), labels[1..])
  }

  /** A lease as granted, before anyone has called. */
  predicate Initial(s: State) {
    s.row.used == 0 && s.row.Live() && s.callers == map[] && s.log == []
  }

  // ---- The invariant ----

  function Taken(log: seq<Entry>): set<nat> {
    set i | 0 <= i < |log| && log[i].Took? :: log[i].caller
  }

  function CountTaken(log: seq<Entry>): nat {
    if log == [] then 0
    else CountTaken(log[..|log| - 1]) + if log[|log| - 1].Took? then 1 else 0
  }

  predicate Succeeded(caller: Caller) {
    caller.pc == Finished(Ok(()))
  }

  /** What is known of a call at each of its program points. */
  predicate CallerOk(s: State, caller: Caller) {
    match caller.pc
    case Checking(row) => row.scope == s.row.scope && row.expiresAtMs == s.row.expiresAtMs
    case Consuming | Refreshing => InScope(s.row.scope, caller.urn)
    case Finished(Ok(_)) => InScope(s.row.scope, caller.urn)
    case Finished(Err(BudgetExhausted(used, budget))) =>
      budget == AsU32(s.row.budget) && s.row.budget <= used <= s.row.used
    case _ => true
  }

  /** Once ended, never alive again and nothing taken. */
  predicate NothingAfterEnd(log: seq<Entry>) {
    forall i, j | 0 <= i < j < |log| && log[i].Ended? :: !log[j].Took?
  }

  ghost predicate Inv(s: State) {
    && 0 <= s.row.used
    && (s.row.used > 0 ==> s.row.used <= s.row.budget)
    && CountTaken(s.log) == s.row.used
    && NothingAfterEnd(s.log)
    && ((exists i :: 0 <= i < |s.log| && s.log[i].Ended?) ==> !s.row.Live())
    && (forall c | c in s.callers :: CallerOk(s, s.callers[c]))
    && (forall c :: c in Taken(s.log) <==> c in s.callers && Succeeded(s.callers[c]))
    && |Taken(s.log)| == s.row.used
  }

  lemma TakenGrows(log: seq<Entry>, e: Entry)
    ensures Taken(log + [e]) == Taken(log) + if e.Took? then {e.caller} else {}
    ensures CountTaken(log + [e]) == CountTaken(log) + if e.Took? then 1 else 0
  {
    hide Taken;
    var longer := log + [e];
    assert longer[..|log|] == log && longer[|log|] == e;
    forall c
      ensures c in Taken(longer) <==> c in Taken(log) || (e.Took? && c == e.caller)
    {
      TakenBy(log, c);
      TakenBy(longer, c);
      if c in Taken(log) {
        var i :| 0 <= i < |log| && log[i] == Took(c);
        assert longer[i] == Took(c);
      }
    }
  }

  lemma TakenBy(log: seq<Entry>, c: nat)
    ensures c in Taken(log) <==> exists i :: 0 <= i < |log| && log[i] == Took(c)
  {
  }

  /** A step that changes only the program point of one caller, to a point it may be at. */
  lemma GotoKeeps(s: State, c: nat, pc: Pc)
    requires Inv(s) && c in s.callers && !s.callers[c].pc.Finished?
    requires CallerOk(s, s.callers[c].(pc := pc)) && pc != Finished(Ok(()))
    ensures Inv(Goto(s, c, pc))
  {
    hide InScope, CountTaken, Taken;
    var s' := Goto(s, c, pc);
    forall k | k in s'.callers
      ensures CallerOk(s', s'.callers[k])
    {
      assert CallerOk(s, s.callers[k]) || k == c;
    }
  }

  lemma EndKeeps(s: State, row: Row)
    requires Inv(s) && !row.Live() && row == s.row.(isActive := row.isActive, wasRevoked := row.wasRevoked)
    ensures Inv(End(s, row))
  {
    hide InScope, CountTaken, Taken;
    TakenGrows(s.log, Ended);
    var s' := End(s, row);
    forall k | k in s'.callers
      ensures CallerOk(s', s'.callers[k])
    {
      assert CallerOk(s, s.callers[k]);
    }
  }

  lemma TakeKeeps(s: State, c: nat)
    requires Inv(s) && c in s.callers && s.callers[c].pc == Consuming && s.row.CanConsume()
    ensures Inv(StepCaller(s, c))
  {
    hide InScope, CountTaken, Taken;
    TakenGrows(s.log, Took(c));
    var s' := StepCaller(s, c);
    assert CallerOk(s, s.callers[c]);
    assert c !in Taken(s.log);
    forall k | k in s'.callers
      ensures CallerOk(s', s'.callers[k])
    {
      assert CallerOk(s, s.callers[k]);
    }
  }

  lemma StepKeeps(s: State, l: Label)
    requires Inv(s)
    ensures Inv(Step(s, l))
  {
    hide InScope, CountTaken, Taken, Inv;
    match l
    case Begin(c, urn) => BeginKeeps(s, c, urn);
    case Advance(c) =>
      if c in s.callers {
        AdvanceKeeps(s, c);
      }
    case RevokeNow => EndKeeps(s, s.row.Revoked());
    case ExpireAll =>
      if s.row.Expired(s.clock) != s.row {
        EndKeeps(s, s.row.Expired(s.clock));
      }
    case SetClock(now) => ClockKeeps(s, now);
  }

  lemma BeginKeeps(s: State, c: nat, urn: string)
    requires Inv(s)
    ensures Inv(Step(s, Begin(c, urn)))
  {
    hide InScope, CountTaken, Taken;
    var s' := Step(s, Begin(c, urn));
    forall k | k in s'.callers
      ensures CallerOk(s', s'.callers[k])
    {
      assert k in s.callers ==> CallerOk(s, s.callers[k]);
    }
  }

  lemma ClockKeeps(s: State, now: nat)
    requires Inv(s)
    ensures Inv(s.(clock := now))
  {
  }

  lemma CallerIs(s: State, c: nat)
    requires Inv(s) && c in s.callers
    ensures CallerOk(s, s.callers[c])
  {
  }

  lemma UsedNonNegative(s: State)
    requires Inv(s)
    ensures s.row.used >= 0
  {
  }

  lemma AdvanceKeeps(s: State, c: nat)
    requires Inv(s) && c in s.callers
    ensures Inv(StepCaller(s, c))
  {
    hide InScope, Inv;
    CallerIs(s, c);
    assert s.row.used >= 0 by { UsedNonNegative(s); }
    var caller := s.callers[c];
    match caller.pc
    case Finding =>
      GotoKeeps(s, c, if s.row.Live() then Checking(s.row) else Finished(Err(LeaseExpiredOrRevoked)));
    case Checking(row) =>
      GotoKeeps(s, c,
        if s.clock >= row.expiresAtMs then Revoking
        else if !InScope(row.scope, caller.urn) then Finished(Err(OutOfScope(caller.urn)))
        else Consuming);
    case Revoking =>
      EndKeeps(s, s.row.Revoked());
      GotoKeeps(End(s, s.row.Revoked()), c, Finished(Err(LeaseExpiredOrRevoked)));
    case Consuming =>
      if s.row.CanConsume() {
        TakeKeeps(s, c);
      } else {
        GotoKeeps(s, c, Refreshing);
      }
    case Refreshing =>
      GotoKeeps(s, c, Finished(Err(
        if s.row.Live() && s.row.used >= s.row.budget then BudgetExhausted(AsU32(s.row.used), AsU32(s.row.budget))
        else LeaseExpiredOrRevoked)));
    case Finished(_) =>
  }

  lemma {:induction false} RunKeeps(s: State, labels: seq<Label>)
    requires Inv(s)
    ensures Inv(Run(s, labels))
    decreases |labels|
  {
    hide Inv, Step;
    if labels == [] {
    } else {
      StepKeeps(s, labels[0]);
      RunKeeps(Step(s, labels[0]), labels[1..]);
    }
  }

  lemma InitialInv(s: State)
    requires Initial(s)
    ensures Inv(s)
  {
  }

  /**
   In every interleaving: the count never exceeds the budget, it equals the number of consumptions
   that took effect and the number of calls that succeeded, nothing is taken after a revocation or
   expiry sweep has ended the lease, and every success is in scope.
   */
  lemma LeaseSafety(s: State, labels: seq<Label>)
    requires Initial(s)
    ensures var s' := Run(s, labels);
      && 0 <= s'.row.used
      && (s'.row.used > 0 ==> s'.row.used <= s'.row.budget)
      && s'.row.used == CountTaken(s'.log) == |Taken(s'.log)|
      && (forall c :: c in Taken(s'.log) <==> c in s'.callers && Succeeded(s'.callers[c]))
      && NothingAfterEnd(s'.log)
      && (forall c | c in s'.callers && Succeeded(s'.callers[c]) :: InScope(s'.row.scope, s'.callers[c].urn))
      && (forall c, used, budget
            | c in s'.callers && s'.callers[c].pc == Finished(Err(BudgetExhausted(used, budget))) ::
            budget == AsU32(s'.row.budget) && s'.row.budget <= used <= s'.row.used)
  {
    hide InScope, CountTaken, Taken, Step;
    InitialInv(s);
    RunKeeps(s, labels);
    var s' := Run(s, labels);
    forall c | c in s'.callers
      ensures CallerOk(s', s'.callers[c])
    {
    }
  }

  /** Each `Ended` entry the log ever gets comes from a revocation or an expiry, so a call after it cannot succeed. */
  lemma {:induction false} EndedStaysDead(s: State, labels: seq<Label>)
    requires Inv(s) && (exists i :: 0 <= i < |s.log| && s.log[i].Ended?)
    ensures Run(s, labels).row.used == s.row.used && !Run(s, labels).row.Live()
    decreases |labels|
  {
    hide InScope, CountTaken, Taken;
    if labels == [] {
    } else {
      var s' := Step(s, labels[0]);
      StepKeeps(s, labels[0]);
      var i :| 0 <= i < |s.log| && s.log[i].Ended?;
      assert s.log <= s'.log;
      assert s'.log[i].Ended?;
      EndedStaysDead(s', labels[1..]);
    }
  }

  lemma RevocationEnds(s: State)
    ensures var s' := Step(s, RevokeNow);
      && s'.row == s.row.(isActive := false, wasRevoked := true)
      && s'.log == s.log + [Ended] && s'.callers == s.callers && s'.clock == s.clock
  {
  }

  /** A sweep ends the lease exactly when it is active and its expiry has passed, and only then is it logged. */
  lemma SweepEndsExactly(s: State)
    ensures var s', swept := Step(s, ExpireAll), s.row.isActive && s.row.expiresAtMs < s.clock;
      && s'.row == (if swept then s.row.(isActive := false) else s.row)
      && s'.log == s.log + if swept then [Ended] else []
  {
    assert s.log + [] == s.log;
  }

  /** From the grant on: after a revocation nothing is taken any more, and no call that was not done succeeds. */
  lemma RevokedNeverUsed(s: State, before: seq<Label>, after: seq<Label>)
    requires Initial(s)
    ensures var m := Run(s, before);
      var s' := Run(Step(m, RevokeNow), after);
      && s'.row.used == m.row.used && !s'.row.Live()
      && Taken(s'.log) == Taken(m.log)
      && forall c | c in s'.callers && Succeeded(s'.callers[c]) :: c in m.callers && Succeeded(m.callers[c])
  {
    hide InScope, CountTaken, Taken, Step;
    InitialInv(s);
    RunKeeps(s, before);
    var m := Run(s, before);
    var r := Step(m, RevokeNow);
    RevocationEnds(m);
    StepKeeps(m, RevokeNow);
    assert r.log[|m.log|].Ended?;
    EndedStaysDead(r, after);
    RunKeeps(r, after);
    TakenGrows(m.log, Ended);
    LogGrows(r, after);
    SameTaken(r, Run(r, after));
  }

  lemma {:induction false} LogGrows(s: State, labels: seq<Label>)
    ensures s.log <= Run(s, labels).log
    decreases |labels|
  {
    hide InScope;
    if labels == [] {
    } else {
      LogGrows(Step(s, labels[0]), labels[1..]);
    }
  }

  /** As long as the count stays the same, the calls that took something do. */
  lemma SameTaken(s: State, s': State)
    requires Inv(s) && Inv(s') && s.log <= s'.log && s.row.used == s'.row.used
    ensures Taken(s.log) == Taken(s'.log)
  {
    hide CountTaken, InScope;
    assert Taken(s.log) <= Taken(s'.log);
    SubsetSameSize(Taken(s.log), Taken(s'.log));
  }

  lemma SubsetSameSize(a: set<nat>, b: set<nat>)
    requires a <= b && |a| == |b|
    ensures a == b
  {
    assert |b - a| == |b| - |a|;
  }

  // ---- Expiry ----

  /** Along these steps the clock never goes back. */
  predicate ClockAdvances(s: State, labels: seq<Label>)
    decreases |labels|
  {
    labels != [] ==>
      && (labels[0].SetClock? ==> s.clock <= labels[0].now)
      && ClockAdvances(Step(s, labels[0]), labels[1..])
  }

  /** The call has yet to begin, or to pass the check of the expiry, or has failed. */
  predicate NotPastCheck(s: State, c: nat) {
    c in s.callers ==> !s.callers[c].pc.Consuming? && !Succeeded(s.callers[c])
  }

  lemma ExpiredStep(s: State, l: Label, c: nat)
    requires Inv(s) && s.clock >= s.row.expiresAtMs && NotPastCheck(s, c)
    ensures NotPastCheck(Step(s, l), c)
    ensures Step(s, l).row.expiresAtMs == s.row.expiresAtMs
  {
    hide InScope, CountTaken, Taken;
    if c in s.callers {
      CallerIs(s, c);
    }
  }

  /**
   In every interleaving in which the clock never goes back, a call that has not passed the check of
   the expiry when the lease expires never succeeds; in particular none that begins afterwards.
   */
  lemma {:induction false} NoSuccessAfterExpiry(s: State, labels: seq<Label>, c: nat)
    requires Inv(s) && s.clock >= s.row.expiresAtMs && NotPastCheck(s, c)
    requires ClockAdvances(s, labels)
    ensures c in Run(s, labels).callers ==> !Succeeded(Run(s, labels).callers[c])
    decreases |labels|
  {
    hide Inv, Step;
    if labels == [] {
    } else {
      var s' := Step(s, labels[0]);
      StepKeeps(s, labels[0]);
      ExpiredStep(s, labels[0], c);
      ClockStep(s, labels[0]);
      NoSuccessAfterExpiry(s', labels[1..], c);
    }
  }

  lemma ClockStep(s: State, l: Label)
    ensures Step(s, l).clock == if l.SetClock? then l.now else s.clock
  {
    hide InScope;
  }

  /** From the grant on: a call that begins once the lease has expired never succeeds. */
  lemma LateCallFails(s: State, before: seq<Label>, after: seq<Label>, c: nat)
    requires Initial(s)
    requires var m := Run(s, before);
      c !in m.callers && m.clock >= m.row.expiresAtMs && ClockAdvances(m, after)
    ensures var s' := Run(Run(s, before), after); c in s'.callers ==> !Succeeded(s'.callers[c])
  {
    hide Inv, Step;
    InitialInv(s);
    RunKeeps(s, before);
    NoSuccessAfterExpiry(Run(s, before), after, c);
  }

  // ---- One caller alone ----

  /** A call that nothing interferes with decides and leaves what the sequential manager does. */
  lemma AloneIsSequential(s: State, c: nat, urn: string)
    requires Inv(s) && c !in s.callers
    ensures var labels := [Begin(c, urn), Advance(c), Advance(c), Advance(c), Advance(c)];
      var s' := Run(s, labels);
      && c in s'.callers
      && s'.callers[c].pc == Finished(ConsumeAlone(Some(s.row), urn, s.clock).0)
      && Some(s'.row) == ConsumeAlone(Some(s.row), urn, s.clock).1
  {
    hide InScope, Inv, Step;
    var a := Advance(c);
    RunFive(s, Begin(c, urn), a);
    var s1 := Step(s, Begin(c, urn));
    Begun(s, c, urn);
    LookedUp(s1, c);
    var s3 := Step(Step(s1, a), a);
    Settled(s, s3, c, urn);
  }

  lemma Begun(s: State, c: nat, urn: string)
    requires c !in s.callers
    ensures Step(s, Begin(c, urn)) == s.(callers := s.callers[c := Caller(urn, Finding)])
  {
  }

  /** Where a call is after finding the row and checking it, with nothing in between. */
  function Checked(s: State, urn: string): Pc {
    if !s.row.Live() then Finished(Err(LeaseExpiredOrRevoked))
    else if s.clock >= s.row.expiresAtMs then Revoking
    else if !InScope(s.row.scope, urn) then Finished(Err(OutOfScope(urn)))
    else Consuming
  }

  lemma LookedUp(s: State, c: nat)
    requires c in s.callers && s.callers[c].pc == Finding
    ensures Step(Step(s, Advance(c)), Advance(c)) == Goto(s, c, Checked(s, s.callers[c].urn))
  {
  }

  lemma Settled(s: State, s3: State, c: nat, urn: string)
    requires c in s3.callers && s3.callers[c] == Caller(urn, Checked(s, urn)) && s3.row == s.row && s3.clock == s.clock
    ensures var s' := Step(Step(s3, Advance(c)), Advance(c));
      && c in s'.callers
      && s'.callers[c].pc == Finished(ConsumeAlone(Some(s.row), urn, s.clock).0)
      && Some(s'.row) == ConsumeAlone(Some(s.row), urn, s.clock).1
  {
    hide InScope;
  }

  lemma RunFive(s: State, first: Label, a: Label)
    ensures Run(s, [first, a, a, a, a]) == Step(Step(Step(Step(Step(s, first), a), a), a), a)
  {
    hide Step;
    var labels := [first, a, a, a, a];
    assert labels[1..] == [a, a, a, a] && labels[1..][1..] == [a, a, a];
    assert [a, a, a][1..] == [a, a] && [a, a][1..] == [a] && [a][1..] == [];
    var s1 := Step(s, first);
    assert Run(s1, [a, a, a, a]) == Run(Step(s1, a), [a, a, a]);
    var s2 := Step(s1, a);
    assert Run(s2, [a, a, a]) == Run(Step(s2, a), [a, a]);
    var s3 := Step(s2, a);
    assert Run(s3, [a, a]) == Run(Step(s3, a), [a]);
  }
}
