/**
 Ownership of child processes (crates/coevo-executors/src/local_process.rs): `execute`, its output
 collector, its timeout and any number of cancellers share one registry under a lock. Each critical
 section and each await is a separate step; spawning, waiting and killing are the environment's.
 */
module ChildRegistry {
  import opened Prelude

  type RunId = nat

  // ---- The protocol ----

  datatype ExecResult = Succeeded | Failed | TimedOut

  datatype ExecPc =
    | Collecting              // child registered, output being read
    | Waiting                 // collector holds the child and awaits its exit
    | CollectFailed           // collector returned an error
    | Elapsed                 // the timeout fired and dropped the collector
    | Returned(result: ExecResult)

  datatype CancelPc = Killing | CancelOk | CancelErr

  datatype Cancel = Cancel(run: RunId, pc: CancelPc)

  datatype Party = Collector | Cleanup | Timeout | Canceller(id: nat)

  /** A removal that found the child. */
  datatype Take = Take(run: RunId, party: Party)

  datatype State = State(
    registry: set<RunId>,
    execs: map<RunId, ExecPc>,
    cancels: map<nat, Cancel>,
    takes: seq<Take>)

  datatype Label =
    | Spawn(run: RunId)                    // execute: spawn and register
    | ReadFails(run: RunId)                // collector: reading stdout or stderr fails
    | Reclaim(run: RunId)                  // collector: take the child back
    | Exits(run: RunId)                    // collector: the child's exit status arrives
    | WaitFails(run: RunId)                // collector: waiting fails
    | CleanUp(run: RunId)                  // execute: remove after a collector error, return
    | Elapses(run: RunId)                  // execute: the timeout fires
    | KillElapsed(run: RunId)              // execute: remove and kill after the timeout, return
    | CancelRun(id: nat, run: RunId)       // cancel: remove the child
    | KillWorks(id: nat)                   // cancel: kill succeeds, return Ok
    | KillBreaks(id: nat)                  // cancel: kill fails, return Err

  function RemoveBy(s: State, run: RunId, party: Party): State {
    if run in s.registry then s.(registry := s.registry - {run}, takes := s.takes + [Take(run, party)]) else s
  }

  function At(s: State, run: RunId, pc: ExecPc): State {
    s.(execs := s.execs[run := pc])
  }

  predicate Is(s: State, run: RunId, pc: ExecPc) {
    run in s.execs && s.execs[run] == pc
  }

  /** A step that is not enabled changes nothing. */
  function Step(s: State, l: Label): State {
    match l
    case Spawn(run) =>
      if run in s.execs then s else At(s.(registry := s.registry + {run}), run, Collecting)
    case ReadFails(run) =>
      if Is(s, run, Collecting) then At(s, run, CollectFailed) else s
    case Reclaim(run) =>
      if !Is(s, run, Collecting) then s
      else if run in s.registry then At(RemoveBy(s, run, Collector), run, Waiting)
      else At(s, run, CollectFailed)
    case Exits(run) =>
      if Is(s, run, Waiting) then At(s, run, Returned(Succeeded)) else s
    case WaitFails(run) =>
      if Is(s, run, Waiting) then At(s, run, CollectFailed) else s
    case CleanUp(run) =>
      if Is(s, run, CollectFailed) then At(RemoveBy(s, run, Cleanup), run, Returned(Failed)) else s
    case Elapses(run) =>
      if Is(s, run, Collecting) || Is(s, run, Waiting) then At(s, run, Elapsed) else s
    case KillElapsed(run) =>
      if Is(s, run, Elapsed) then At(RemoveBy(s, run, Timeout), run, Returned(TimedOut)) else s
    case CancelRun(id, run) =>
      if id in s.cancels then s
      else if run in s.registry then
        RemoveBy(s, run, Canceller(id)).(cancels := s.cancels[id := Cancel(run, Killing)])
      else s.(cancels := s.cancels[id := Cancel(run, CancelErr)])
    case KillWorks(id) =>
      if id in s.cancels && s.cancels[id].pc == Killing then
        s.(cancels := s.cancels[id := s.cancels[id].(pc := CancelOk)])
      else s
    case KillBreaks(id) =>
      if id in s.cancels && s.cancels[id].pc == Killing then
        s.(cancels := s.cancels[id := s.cancels[id].(pc := CancelErr)])
      else s
  }

  function Run(s: State, labels: seq<Label>): State
    decreases |labels|
  {
    if labels == [] then s else Run(Step(s, labels[0]), labels[1..])
  }

  const EMPTY := State({}, map[], map[], [])

  // ---- The critical sections as the code runs them ----

  class LocalProcessExecutor {
    var running: set<RunId>
    var execs: map<RunId, ExecPc>
    var cancels: map<nat, Cancel>
    var takes: seq<Take>

    function View(): State
      reads this
    {
      State(running, execs, cancels, takes)
    }

    constructor ()
      ensures View() == EMPTY
    {
      running, execs, cancels, takes := {}, map[], map[], [];
    }

    /** Takes the child out of the map if it is there. */
    method Remove(run: RunId, party: Party) returns (found: bool)
      modifies this
      ensures found <==> run in old(running)
      ensures View() == RemoveBy(old(View()), run, party)
    {
      found := run in running;
      if found {
        running := running - {run};
        takes := takes + [Take(run, party)];
      }
    }

    /** `execute` registers the child it has spawned under a fresh run id. */
    method Register(run: RunId)
      requires run !in execs
      modifies this
      ensures View() == Step(old(View()), Spawn(run))
    {
      running := running + {run};
      execs := execs[run := Collecting];
    }

    /** `collect_output` reclaims the child, or reports that the execution was cancelled. */
    method ReclaimChild(run: RunId) returns (ok: bool)
      requires Is(View(), run, Collecting)
      modifies this
      ensures ok <==> run in old(running)
      ensures View() == Step(old(View()), Reclaim(run))
    {
      ok := Remove(run, Collector);
      execs := execs[run := if ok then Waiting else CollectFailed];
    }

    /** `execute` returns the collector's error. */
    method ReturnCollectError(run: RunId)
      requires Is(View(), run, CollectFailed)
      modifies this
      ensures View() == Step(old(View()), CleanUp(run))
    {
      var found := Remove(run, Cleanup);
      execs := execs[run := Returned(Failed)];
    }

    /** `execute` kills the child, if it is still registered, and reports the timeout. */
    method ReturnTimeout(run: RunId) returns (kill: bool)
      requires Is(View(), run, Elapsed)
      modifies this
      ensures kill <==> run in old(running)
      ensures View() == Step(old(View()), KillElapsed(run))
    {
      kill := Remove(run, Timeout);
      execs := execs[run := Returned(TimedOut)];
    }

    /** `cancel` takes the child to kill it, or reports that no such run is registered. */
    method CancelExecution(id: nat, run: RunId) returns (kill: bool)
      requires id !in cancels
      modifies this
      ensures kill <==> run in old(running)
      ensures View() == Step(old(View()), CancelRun(id, run))
    {
      kill := Remove(run, Canceller(id));
      cancels := cancels[id := Cancel(run, if kill then Killing else CancelErr)];
    }
  }

  // ---- The invariant ----

  ghost predicate TakenBy(s: State, run: RunId, party: Party) {
    Take(run, party) in s.takes
  }

  ghost predicate Taken(s: State, run: RunId) {
    exists party :: TakenBy(s, run, party)
  }

  predicate TakenOnce(takes: seq<Take>) {
    forall i, j | 0 <= i < j < |takes| :: takes[i].run != takes[j].run
  }

  ghost predicate Inv(s: State) {
    && TakenOnce(s.takes)
    && (forall t | t in s.takes :: t.run in s.execs && t.run !in s.registry)
    && (forall run | run in s.registry :: run in s.execs && !s.execs[run].Waiting? && !s.execs[run].Returned?)
    && (forall run | run in s.execs :: run in s.registry || Taken(s, run))
    && (forall run | run in s.execs && (s.execs[run].Waiting? || s.execs[run] == Returned(Succeeded)) ::
        TakenBy(s, run, Collector))
    && (forall id | id in s.cancels && s.cancels[id].pc != CancelErr :: TakenBy(s, s.cancels[id].run, Canceller(id)))
  }

  /** Whoever finds the child in the registry is the first and only one to take it. */
  lemma RemoveKeeps(s: State, run: RunId, party: Party)
    requires Inv(s)
    ensures var s' := RemoveBy(s, run, party);
      Inv(s') && run !in s'.registry && s'.execs == s.execs && s'.cancels == s.cancels
      && (run in s.registry ==> TakenBy(s', run, party))
  {
    var s' := RemoveBy(s, run, party);
    if run in s.registry {
      forall r | r in s'.execs
        ensures r in s'.registry || Taken(s', r)
      {
        if r == run {
          assert TakenBy(s', run, party);
        } else if r !in s.registry {
          var p :| TakenBy(s, r, p);
          assert TakenBy(s', r, p);
        }
      }
    }
  }

  /** Moving one execution on, to a point that asks for nothing new or that its removal has earned. */
  lemma AtKeeps(s: State, run: RunId, pc: ExecPc)
    requires Inv(s) && run in s.execs
    requires pc.Waiting? || pc == Returned(Succeeded) ==> TakenBy(s, run, Collector)
    requires pc.Waiting? || pc.Returned? ==> run !in s.registry
    ensures Inv(At(s, run, pc))
  {
    var s' := At(s, run, pc);
    assert s'.execs.Keys == s.execs.Keys;
    forall r | r in s'.execs
      ensures r in s'.registry || Taken(s', r)
    {
      if r !in s.registry {
        var p :| TakenBy(s, r, p);
        assert TakenBy(s', r, p);
      }
    }
  }

  lemma CancelKeeps(s: State, id: nat, c: Cancel)
    requires Inv(s) && (c.pc != CancelErr ==> TakenBy(s, c.run, Canceller(id)))
    ensures Inv(s.(cancels := s.cancels[id := c]))
  {
    var s' := s.(cancels := s.cancels[id := c]);
    forall r | r in s'.execs
      ensures r in s'.registry || Taken(s', r)
    {
      if r !in s.registry {
        var p :| TakenBy(s, r, p);
        assert TakenBy(s', r, p);
      }
    }
  }

  lemma SpawnKeeps(s: State, run: RunId)
    requires Inv(s) && run !in s.execs
    ensures Inv(Step(s, Spawn(run)))
  {
    var s' := Step(s, Spawn(run));
    forall r | r in s'.execs
      ensures r in s'.registry || Taken(s', r)
    {
      if r !in s'.registry {
        var p :| TakenBy(s, r, p);
        assert TakenBy(s', r, p);
      }
    }
  }

  lemma WaitingIsTaken(s: State, run: RunId)
    requires Inv(s) && Is(s, run, Waiting)
    ensures TakenBy(s, run, Collector) && run !in s.registry
  {
  }

  lemma KillingIsTaken(s: State, id: nat)
    requires Inv(s) && id in s.cancels && s.cancels[id].pc == Killing
    ensures TakenBy(s, s.cancels[id].run, Canceller(id))
  {
  }

  lemma StepKeeps(s: State, l: Label)
    requires Inv(s)
    ensures Inv(Step(s, l))
  {
    hide Inv, Taken, TakenBy;
    match l
    case Spawn(run) =>
      if run !in s.execs { SpawnKeeps(s, run); }
    case ReadFails(run) =>
      if Is(s, run, Collecting) { AtKeeps(s, run, CollectFailed); }
    case Reclaim(run) =>
      if Is(s, run, Collecting) {
        RemoveKeeps(s, run, Collector);
        AtKeeps(RemoveBy(s, run, Collector), run, if run in s.registry then Waiting else CollectFailed);
      }
    case Exits(run) =>
      if Is(s, run, Waiting) {
        WaitingIsTaken(s, run);
        AtKeeps(s, run, Returned(Succeeded));
      }
    case WaitFails(run) =>
      if Is(s, run, Waiting) { AtKeeps(s, run, CollectFailed); }
    case CleanUp(run) =>
      if Is(s, run, CollectFailed) {
        RemoveKeeps(s, run, Cleanup);
        AtKeeps(RemoveBy(s, run, Cleanup), run, Returned(Failed));
      }
    case Elapses(run) =>
      if Is(s, run, Collecting) || Is(s, run, Waiting) { AtKeeps(s, run, Elapsed); }
    case KillElapsed(run) =>
      if Is(s, run, Elapsed) {
        RemoveKeeps(s, run, Timeout);
        AtKeeps(RemoveBy(s, run, Timeout), run, Returned(TimedOut));
      }
    case CancelRun(id, run) =>
      if id !in s.cancels {
        RemoveKeeps(s, run, Canceller(id));
        CancelKeeps(RemoveBy(s, run, Canceller(id)), id, Cancel(run, if run in s.registry then Killing else CancelErr));
      }
    case KillWorks(id) =>
      if id in s.cancels && s.cancels[id].pc == Killing {
        KillingIsTaken(s, id);
        CancelKeeps(s, id, s.cancels[id].(pc := CancelOk));
      }
    case KillBreaks(id) =>
      if id in s.cancels && s.cancels[id].pc == Killing {
        CancelKeeps(s, id, s.cancels[id].(pc := CancelErr));
      }
  }

  lemma {:induction false} RunKeeps(s: State, labels: seq<Label>)
    requires Inv(s)
    ensures Inv(Run(s, labels))
    decreases |labels|
  {
    hide Inv, Step;
    if labels == [] {
    } else {
      StepKeeps(s, labels[0]);
      RunKeeps(Step(s, labels[0]), labels[1..]);
    }
  }

  /**
   In every interleaving each child is taken by at most one party, and a run is registered exactly
   as long as nobody has taken its child; once `execute` has returned, its run is not registered.
   */
  lemma ChildrenTakenOnce(labels: seq<Label>)
    ensures var s := Run(EMPTY, labels);
      && TakenOnce(s.takes)
      && (forall run | run in s.execs :: run in s.registry <==> !Taken(s, run))
      && (forall run | run in s.execs && s.execs[run].Returned? :: run !in s.registry)
  {
    RunKeeps(EMPTY, labels);
  }

  lemma SameTaker(s: State, run: RunId, p: Party, q: Party)
    requires TakenOnce(s.takes) && TakenBy(s, run, p) && TakenBy(s, run, q)
    ensures p == q
  {
  }

  /** `execute` returns Ok only for a child that its collector took, so never for one a canceller got hold of. */
  lemma CancelledNeverSucceeds(labels: seq<Label>, id: nat, run: RunId)
    ensures var s := Run(EMPTY, labels);
      id in s.cancels && s.cancels[id] == Cancel(run, CancelOk) && run in s.execs ==>
        s.execs[run] != Returned(Succeeded)
  {
    RunKeeps(EMPTY, labels);
    var s := Run(EMPTY, labels);
    if id in s.cancels && s.cancels[id] == Cancel(run, CancelOk) && Is(s, run, Returned(Succeeded)) {
      SameTaker(s, run, Collector, Canceller(id));
      assert false;
    }
  }

  /** At most one cancel of a run returns Ok. */
  lemma OneCancelWins(labels: seq<Label>, a: nat, b: nat)
    requires var s := Run(EMPTY, labels);
      && a in s.cancels && b in s.cancels && s.cancels[a].pc == s.cancels[b].pc == CancelOk
      && s.cancels[a].run == s.cancels[b].run
    ensures a == b
  {
    RunKeeps(EMPTY, labels);
    var s := Run(EMPTY, labels);
    SameTaker(s, s.cancels[a].run, Canceller(a), Canceller(b));
  }

  // ---- What the verdicts mean ----

  lemma {:induction false} RunLast(s: State, labels: seq<Label>, l: Label)
    ensures Run(s, labels + [l]) == Step(Run(s, labels), l)
    decreases |labels|
  {
    hide Step;
    var all := labels + [l];
    if labels == [] {
      assert all[0] == l && all[1..] == [];
    } else {
      assert all[0] == labels[0] && all[1..] == labels[1..] + [l];
      RunLast(Step(s, labels[0]), labels[1..], l);
    }
  }

  ghost function After(labels: seq<Label>): State {
    Run(EMPTY, labels)
  }

  predicate Kills(s: State, id: nat) {
    id in s.cancels && s.cancels[id].pc == Killing
  }

  /** The canceller's kill worked, or broke, while it held the child. */
  ghost predicate KillEnded(labels: seq<Label>, id: nat, works: bool) {
    exists n | 0 <= n < |labels| ::
      labels[n] == (if works then KillWorks(id) else KillBreaks(id)) && Kills(After(labels[..n]), id)
  }

  /** The canceller looked for the run's child and did, or did not, find it registered. */
  ghost predicate Looked(labels: seq<Label>, id: nat, found: bool) {
    exists n | 0 <= n < |labels| ::
      && labels[n].CancelRun? && labels[n].id == id && id !in After(labels[..n]).cancels
      && (labels[n].run in After(labels[..n]).registry <==> found)
  }

  lemma Earlier(labels: seq<Label>, l: Label, id: nat, b: bool)
    ensures KillEnded(labels + [l], id, b)
       <==> KillEnded(labels, id, b)
            || (l == (if b then KillWorks(id) else KillBreaks(id)) && Kills(After(labels), id))
    ensures Looked(labels + [l], id, b)
       <==> Looked(labels, id, b)
            || (l.CancelRun? && l.id == id && id !in After(labels).cancels && (l.run in After(labels).registry <==> b))
  {
    hide Run, Kills;
    var all := labels + [l];
    assert all[..|labels|] == labels && all[|labels|] == l;
    assert forall n | 0 <= n < |labels| :: all[n] == labels[n] && all[..n] == labels[..n];
  }

  /**
   A cancel has returned Ok exactly when its kill worked on the child it had taken, and Err exactly
   when it found no child or its kill broke; it is killing as long as neither has happened.
   */
  lemma {:induction false} CancelVerdictExactly(labels: seq<Label>, id: nat)
    ensures var s := After(labels);
      && (id in s.cancels && s.cancels[id].pc == CancelOk <==> KillEnded(labels, id, true))
      && (id in s.cancels && s.cancels[id].pc == CancelErr
          <==> (Looked(labels, id, false) || KillEnded(labels, id, false)))
      && (id in s.cancels <==> Looked(labels, id, true) || Looked(labels, id, false))
    decreases |labels|
  {
    hide Run, KillEnded, Looked;
    if labels == [] {
      NothingYet(id);
    } else {
      var n := |labels| - 1;
      var before, l := labels[..n], labels[n];
      assert labels == before + [l];
      CancelVerdictExactly(before, id);
      Earlier(before, l, id, true);
      Earlier(before, l, id, false);
      RunLast(EMPTY, before, l);
    }
  }

  lemma NothingYet(id: nat)
    ensures !KillEnded([], id, true) && !KillEnded([], id, false) && !Looked([], id, true) && !Looked([], id, false)
    ensures After([]) == EMPTY
  {
  }

  /** The step with which `execute` returns this result. */
  function Ending(run: RunId, result: ExecResult): Label {
    match result
    case Succeeded => Exits(run)
    case Failed => CleanUp(run)
    case TimedOut => KillElapsed(run)
  }

  /** Where `execute` stands before that step: the child's exit, a failed collector, the timeout. */
  function BeforeEnding(result: ExecResult): ExecPc {
    match result
    case Succeeded => Waiting
    case Failed => CollectFailed
    case TimedOut => Elapsed
  }

  ghost predicate EndedWith(labels: seq<Label>, run: RunId, result: ExecResult) {
    exists n | 0 <= n < |labels| ::
      labels[n] == Ending(run, result) && Is(After(labels[..n]), run, BeforeEnding(result))
  }

  lemma EndedEarlier(labels: seq<Label>, l: Label, run: RunId, result: ExecResult)
    ensures EndedWith(labels + [l], run, result)
       <==> EndedWith(labels, run, result) || (l == Ending(run, result) && Is(After(labels), run, BeforeEnding(result)))
  {
    hide Run, Is;
    var all := labels + [l];
    assert all[..|labels|] == labels && all[|labels|] == l;
    assert forall n | 0 <= n < |labels| :: all[n] == labels[n] && all[..n] == labels[..n];
  }

  /** A result never changes, and comes about by its own step only. */
  lemma StepReturns(s: State, l: Label, run: RunId, result: ExecResult)
    ensures Is(Step(s, l), run, Returned(result))
       <==> Is(s, run, Returned(result)) || (l == Ending(run, result) && Is(s, run, BeforeEnding(result)))
  {
  }

  /**
   `execute` has returned Ok exactly when the child's exit arrived while the collector waited for it,
   an error exactly when its collector had failed, and a timeout exactly when the timeout had fired.
   */
  lemma {:induction false} ResultExactly(labels: seq<Label>, run: RunId, result: ExecResult)
    ensures Is(After(labels), run, Returned(result)) <==> EndedWith(labels, run, result)
    decreases |labels|
  {
    hide Run, EndedWith, Step, Is;
    if labels == [] {
      NothingEnded(run, result);
    } else {
      var n := |labels| - 1;
      var before, l := labels[..n], labels[n];
      assert labels == before + [l];
      ResultExactly(before, run, result);
      EndedEarlier(before, l, run, result);
      RunLast(EMPTY, before, l);
      StepReturns(After(before), l, run, result);
    }
  }

  lemma NothingEnded(run: RunId, result: ExecResult)
    ensures !EndedWith([], run, result) && !Is(After([]), run, Returned(result))
  {
  }

  // ---- Bounded output ----

  const MAX_OUTPUT_BYTES: nat := 64 * 1024

  function Flatten<T>(chunks: seq<seq<T>>): seq<T> {
    if chunks == [] then [] else Flatten(chunks[..|chunks| - 1]) + chunks[|chunks| - 1]
  }

  /**
   Reads until an empty read ends the stream, keeping the first `MAX_OUTPUT_BYTES` bytes: what is
   kept and whether it was cut do not depend on how the stream was divided into reads.
   */
  method ReadLimitedOutput<T>(chunks: seq<seq<T>>) returns (out: seq<T>, truncated: bool)
    requires forall i | 0 <= i < |chunks| :: chunks[i] != []
    ensures var all := Flatten(chunks);
      && out == (if |all| <= MAX_OUTPUT_BYTES then all else all[..MAX_OUTPUT_BYTES])
      && (truncated <==> |all| > MAX_OUTPUT_BYTES)
  {
    out, truncated := [], false;
    for k := 0 to |chunks|
      invariant var all := Flatten(chunks[..k]);
        && out == (if |all| <= MAX_OUTPUT_BYTES then all else all[..MAX_OUTPUT_BYTES])
        && (truncated <==> |all| > MAX_OUTPUT_BYTES)
    {
      var buf := chunks[k];
      var n := |buf|;
      assert chunks[..k + 1][..k] == chunks[..k];
      assert Flatten(chunks[..k + 1]) == Flatten(chunks[..k]) + buf;
      var remaining := if |out| < MAX_OUTPUT_BYTES then MAX_OUTPUT_BYTES - |out| else 0;
      if remaining > 0 {
        var keep := if remaining < n then remaining else n;
        out := out + buf[..keep];
        if keep < n {
          truncated := true;
        }
      } else {
        truncated := true;
      }
    }
    assert chunks[..|chunks|] == chunks;
  }
}
