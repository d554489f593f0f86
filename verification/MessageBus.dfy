/** The in-process message bus (crates/coevo-adapters/src/a2a_router.rs, lines 22-122). */
module MessageBus {
  import opened Prelude

  datatype Message = Message(
    fromAgent: string,
    toAgent: string,
    payload: string,
    traceparent: string,
    contractHash: string)

  datatype Delivered = Delivered(deliveryId: string, message: Message)

  /** How an accepted message left its inbox. */
  datatype Departure = Drained(d: Delivered) | Discarded(d: Delivered)

  /** The inboxes, and per agent everything ever accepted and everything that has left, in order. */
  datatype Bus = Bus(
    inboxes: map<string, seq<Delivered>>,
    accepted: map<string, seq<Delivered>>,
    departed: map<string, seq<Departure>>)

  datatype Op =
    | Register(agent: string)
    | Unregister(agent: string)
    | Send(message: Message)
    | Drain(agent: string)

  function Of<T>(m: map<string, seq<T>>, agent: string): seq<T> {
    if agent in m then m[agent] else []
  }

  function Tag(drained: bool, ds: seq<Delivered>): (r: seq<Departure>)
    ensures |r| == |ds|
  {
    seq(|ds|, i requires 0 <= i < |ds| => if drained then Drained(ds[i]) else Discarded(ds[i]))
  }

  function Content(departures: seq<Departure>): seq<Delivered> {
    seq(|departures|, i requires 0 <= i < |departures| => departures[i].d)
  }

  function Step(b: Bus, op: Op, deliveryId: Message -> string): Bus {
    match op
    case Register(a) => if a in b.inboxes then b else b.(inboxes := b.inboxes[a := []])
    case Unregister(a) =>
      if a !in b.inboxes then b
      else b.(inboxes := b.inboxes - {a}, departed := b.departed[a := Of(b.departed, a) + Tag(false, b.inboxes[a])])
    case Send(m) =>
      var a := m.toAgent;
      if a !in b.inboxes then b
      else
        var d := Delivered(deliveryId(m), m);
        b.(inboxes := b.inboxes[a := b.inboxes[a] + [d]], accepted := b.accepted[a := Of(b.accepted, a) + [d]])
    case Drain(a) =>
      if a !in b.inboxes then b
      else b.(inboxes := b.inboxes[a := []], departed := b.departed[a := Of(b.departed, a) + Tag(true, b.inboxes[a])])
  }

  function Run(b: Bus, ops: seq<Op>, deliveryId: Message -> string): Bus
    decreases |ops|
  {
    if ops == [] then b else Run(Step(b, ops[0], deliveryId), ops[1..], deliveryId)
  }

  // ---- The router ----

  class InProcessA2aRouter {
    var inboxes: map<string, seq<Delivered>>
    ghost var accepted: map<string, seq<Delivered>>
    ghost var departed: map<string, seq<Departure>>

    ghost function View(): Bus
      reads this
    {
      Bus(inboxes, accepted, departed)
    }

    constructor (agents: seq<string>)
      ensures inboxes.Keys == set i | 0 <= i < |agents| :: agents[i]
      ensures forall a | a in inboxes :: inboxes[a] == []
      ensures accepted == map[] && departed == map[]
    {
      inboxes, accepted, departed := map[], map[], map[];
      new;
      for n := 0 to |agents|
        invariant inboxes.Keys == set i | 0 <= i < n :: agents[i]
        invariant forall a | a in inboxes :: inboxes[a] == []
        invariant accepted == map[] && departed == map[]
      {
        if agents[n] !in inboxes {
          inboxes := inboxes[agents[n] := []];
        }
      }
    }

    method RegisterAgent(agent: string)
      modifies this
      ensures forall id: Message -> string :: View() == Step(old(View()), Register(agent), id)
      ensures inboxes == old(inboxes)[agent := Of(old(inboxes), agent)] && accepted == old(accepted)
    {
      if agent !in inboxes {
        inboxes := inboxes[agent := []];
      }
    }

    method UnregisterAgent(agent: string)
      modifies this
      ensures forall id: Message -> string :: View() == Step(old(View()), Unregister(agent), id)
      ensures agent !in inboxes && inboxes == old(inboxes) - {agent} && accepted == old(accepted)
    {
      if agent in inboxes {
        departed := departed[agent := Of(departed, agent) + Tag(false, inboxes[agent])];
        inboxes := inboxes - {agent};
      }
    }

    /** Queues the message, or rejects it when the recipient is not registered. */
    method SendMessage(m: Message, deliveryId: Message -> string) returns (r: Result<string, string>)
      modifies this
      ensures View() == Step(old(View()), Send(m), deliveryId)
      ensures r.Ok? <==> m.toAgent in old(inboxes)
      ensures r.Ok? ==>
        && r.value == deliveryId(m)
        && inboxes[m.toAgent] == old(inboxes)[m.toAgent] + [Delivered(r.value, m)]
      ensures r.Err? ==> View() == old(View())
    {
      var id := deliveryId(m);
      if m.toAgent !in inboxes {
        return Err("target agent '" + m.toAgent + "' is not registered on this company bus");
      }
      var d := Delivered(id, m);
      inboxes := inboxes[m.toAgent := inboxes[m.toAgent] + [d]];
      accepted := accepted[m.toAgent := Of(accepted, m.toAgent) + [d]];
      return Ok(id);
    }

    method DrainInbox(agent: string) returns (messages: seq<Delivered>)
      modifies this
      ensures forall id: Message -> string :: View() == Step(old(View()), Drain(agent), id)
      ensures inboxes == if agent in old(inboxes) then old(inboxes)[agent := []] else old(inboxes)
      ensures messages == Of(old(inboxes), agent)
    {
      if agent !in inboxes {
        return [];
      }
      messages := inboxes[agent];
      departed := departed[agent := Of(departed, agent) + Tag(true, messages)];
      inboxes := inboxes[agent := []];
    }
  }

  // ---- What became of the messages ----

  function DrainedIn(departures: seq<Departure>): seq<Delivered> {
    if departures == [] then []
    else (if departures[0].Drained? then [departures[0].d] else []) + DrainedIn(departures[1..])
  }

  function DiscardedIn(departures: seq<Departure>): seq<Delivered> {
    if departures == [] then []
    else (if departures[0].Discarded? then [departures[0].d] else []) + DiscardedIn(departures[1..])
  }

  /** The messages that draining this agent's inbox hands out along the run. */
  function HandedOut(b: Bus, ops: seq<Op>, deliveryId: Message -> string, agent: string): seq<Delivered>
    decreases |ops|
  {
    if ops == [] then []
    else
      (if ops[0] == Drain(agent) then Of(b.inboxes, agent) else [])
      + HandedOut(Step(b, ops[0], deliveryId), ops[1..], deliveryId, agent)
  }

  /** The messages still queued whenever this agent is unregistered along the run. */
  function ThrownAway(b: Bus, ops: seq<Op>, deliveryId: Message -> string, agent: string): seq<Delivered>
    decreases |ops|
  {
    if ops == [] then []
    else
      (if ops[0] == Unregister(agent) then Of(b.inboxes, agent) else [])
      + ThrownAway(Step(b, ops[0], deliveryId), ops[1..], deliveryId, agent)
  }

  lemma {:induction false} DepartedConcat(a: seq<Departure>, b: seq<Departure>)
    ensures DrainedIn(a + b) == DrainedIn(a) + DrainedIn(b)
    ensures DiscardedIn(a + b) == DiscardedIn(a) + DiscardedIn(b)
  {
    if a == [] {
      assert a + b == b;
    } else {
      assert (a + b)[0] == a[0] && (a + b)[1..] == a[1..] + b;
      DepartedConcat(a[1..], b);
    }
  }

  lemma {:induction false} Tagged(drained: bool, ds: seq<Delivered>)
    ensures DrainedIn(Tag(drained, ds)) == if drained then ds else []
    ensures DiscardedIn(Tag(drained, ds)) == if drained then [] else ds
  {
    if ds == [] {
    } else {
      assert Tag(drained, ds)[1..] == Tag(drained, ds[1..]);
      Tagged(drained, ds[1..]);
      assert [ds[0]] + ds[1..] == ds;
    }
  }

  lemma StepDeparts(b: Bus, op: Op, deliveryId: Message -> string, agent: string)
    ensures Of(Step(b, op, deliveryId).departed, agent) == Of(b.departed, agent)
      + if op == Drain(agent) then Tag(true, Of(b.inboxes, agent))
        else if op == Unregister(agent) then Tag(false, Of(b.inboxes, agent))
        else []
  {
    assert Of(b.departed, agent) + [] == Of(b.departed, agent);
  }

  /** Over every run what has been drained is what draining handed out, and what was discarded was thrown away. */
  lemma {:induction false} DeparturesExplained(b: Bus, ops: seq<Op>, deliveryId: Message -> string, agent: string)
    ensures var before, after := Of(b.departed, agent), Of(Run(b, ops, deliveryId).departed, agent);
      && DrainedIn(after) == DrainedIn(before) + HandedOut(b, ops, deliveryId, agent)
      && DiscardedIn(after) == DiscardedIn(before) + ThrownAway(b, ops, deliveryId, agent)
    decreases |ops|
  {
    hide Step, Tag, DrainedIn, DiscardedIn, Of;
    var before := Of(b.departed, agent);
    if ops == [] {
      assert DrainedIn(before) + [] == DrainedIn(before) && DiscardedIn(before) + [] == DiscardedIn(before);
    } else {
      var op, queue := ops[0], Of(b.inboxes, agent);
      var b' := Step(b, op, deliveryId);
      DeparturesExplained(b', ops[1..], deliveryId, agent);
      StepDeparts(b, op, deliveryId, agent);
      Tagged(true, queue);
      Tagged(false, queue);
      if op == Drain(agent) {
        DepartedConcat(before, Tag(true, queue));
      } else if op == Unregister(agent) {
        DepartedConcat(before, Tag(false, queue));
      } else {
        assert before + [] == before;
      }
      var handed, thrown := if op == Drain(agent) then queue else [], if op == Unregister(agent) then queue else [];
      assert DrainedIn(Of(b'.departed, agent)) == DrainedIn(before) + handed;
      assert DiscardedIn(Of(b'.departed, agent)) == DiscardedIn(before) + thrown;
      Assoc(DrainedIn(before), handed, HandedOut(b', ops[1..], deliveryId, agent));
      Assoc(DiscardedIn(before), thrown, ThrownAway(b', ops[1..], deliveryId, agent));
    }
  }

  // ---- First in, first out, and nothing lost ----

  /** Everything ever accepted for the agent has left in order or is still queued, in order. */
  predicate Conserved(b: Bus, agent: string) {
    Of(b.accepted, agent) == Content(Of(b.departed, agent)) + Of(b.inboxes, agent)
  }

  lemma StepConserves(b: Bus, op: Op, deliveryId: Message -> string, agent: string)
    requires Conserved(b, agent)
    ensures Conserved(Step(b, op, deliveryId), agent)
  {
  }

  /**
   Over every run, the messages accepted for an agent are, in order, those that were drained or
   discarded by unregistering it, followed by those still queued.
   */
  lemma {:induction false} RunConserves(b: Bus, ops: seq<Op>, deliveryId: Message -> string, agent: string)
    requires Conserved(b, agent)
    ensures Conserved(Run(b, ops, deliveryId), agent)
    ensures var b' := Run(b, ops, deliveryId);
      |Of(b'.accepted, agent)| == |Of(b'.departed, agent)| + |Of(b'.inboxes, agent)|
    decreases |ops|
  {
    hide Step;
    if ops == [] {
    } else {
      StepConserves(b, ops[0], deliveryId, agent);
      RunConserves(Step(b, ops[0], deliveryId), ops[1..], deliveryId, agent);
    }
  }

  predicate NeverUnregistered(ops: seq<Op>, agent: string) {
    forall i | 0 <= i < |ops| :: ops[i] != Unregister(agent)
  }

  /** What two histories of the same run have in common, and what the later one adds. */
  lemma {:induction false} SinceRegistration(b: Bus, ops: seq<Op>, deliveryId: Message -> string, agent: string)
    returns (sent: seq<Delivered>, drained: seq<Delivered>)
    requires NeverUnregistered(ops, agent)
    ensures var b' := Run(b, ops, deliveryId);
      && Of(b'.accepted, agent) == Of(b.accepted, agent) + sent
      && Of(b'.departed, agent) == Of(b.departed, agent) + Tag(true, drained)
      && Of(b.inboxes, agent) + sent == drained + Of(b'.inboxes, agent)
      && (agent in b.inboxes ==> agent in b'.inboxes)
    decreases |ops|
  {
    hide Step;
    if ops == [] {
      sent, drained := [], [];
      assert Tag(true, drained) == [];
    } else {
      var b1 := Step(b, ops[0], deliveryId);
      var sent1, drained1 := StepSince(b, ops[0], deliveryId, agent);
      var sent2, drained2 := SinceRegistration(b1, ops[1..], deliveryId, agent);
      sent, drained := sent1 + sent2, drained1 + drained2;
      var b2 := Run(b, ops, deliveryId);
      TagConcat(drained1, drained2);
      Assoc(Of(b.accepted, agent), sent1, sent2);
      Assoc(Of(b.departed, agent), Tag(true, drained1), Tag(true, drained2));
      JoinQueues(Of(b.inboxes, agent), sent1, drained1, Of(b1.inboxes, agent), sent2, drained2, Of(b2.inboxes, agent));
    }
  }

  lemma TagConcat(a: seq<Delivered>, b: seq<Delivered>)
    ensures Tag(true, a + b) == Tag(true, a) + Tag(true, b)
  {
  }

  lemma Assoc<T>(a: seq<T>, b: seq<T>, c: seq<T>)
    ensures (a + b) + c == a + (b + c)
  {
  }

  /** Two stretches of a queue, from `x0` over `x1` to `x2`, make one. */
  lemma JoinQueues<T>(x0: seq<T>, in1: seq<T>, out1: seq<T>, x1: seq<T>, in2: seq<T>, out2: seq<T>, x2: seq<T>)
    requires x0 + in1 == out1 + x1 && x1 + in2 == out2 + x2
    ensures x0 + (in1 + in2) == (out1 + out2) + x2
  {
    Assoc(x0, in1, in2);
    Assoc(out1, x1, in2);
    Assoc(out1, out2, x2);
  }

  lemma OthersUntouched(b: Bus, op: Op, deliveryId: Message -> string, agent: string)
    requires op != Unregister(agent) && op != Drain(agent)
    requires op.Send? ==> op.message.toAgent != agent || agent !in b.inboxes
    ensures var b' := Step(b, op, deliveryId);
      && Of(b'.accepted, agent) == Of(b.accepted, agent)
      && Of(b'.departed, agent) == Of(b.departed, agent)
      && Of(b'.inboxes, agent) == Of(b.inboxes, agent)
      && (agent in b.inboxes ==> agent in b'.inboxes)
  {
  }

  lemma StepSince(b: Bus, op: Op, deliveryId: Message -> string, agent: string)
    returns (sent: seq<Delivered>, drained: seq<Delivered>)
    requires op != Unregister(agent)
    ensures var b' := Step(b, op, deliveryId);
      && Of(b'.accepted, agent) == Of(b.accepted, agent) + sent
      && Of(b'.departed, agent) == Of(b.departed, agent) + Tag(true, drained)
      && Of(b.inboxes, agent) + sent == drained + Of(b'.inboxes, agent)
      && (agent in b.inboxes ==> agent in b'.inboxes)
  {
    var b' := Step(b, op, deliveryId);
    if op.Send? && op.message.toAgent == agent && agent in b.inboxes {
      sent, drained := [Delivered(deliveryId(op.message), op.message)], [];
      assert b'.departed == b.departed;
    } else if op == Drain(agent) {
      sent, drained := [], Of(b.inboxes, agent);
      assert b'.accepted == b.accepted;
    } else {
      sent, drained := [], [];
      OthersUntouched(b, op, deliveryId, agent);
    }
    assert Tag(true, []) == [];
  }

  /**
   From the moment an agent is registered anew, and until it is unregistered, what it was sent is
   what it drained followed by what is still queued; registering again in between loses nothing.
   */
  lemma RegisteredAgentGetsAll(b: Bus, ops: seq<Op>, deliveryId: Message -> string, agent: string)
    returns (sent: seq<Delivered>, drained: seq<Delivered>)
    requires agent !in b.inboxes && NeverUnregistered(ops, agent)
    ensures var start := Step(b, Register(agent), deliveryId);
      var b' := Run(start, ops, deliveryId);
      && Of(b'.accepted, agent) == Of(b.accepted, agent) + sent
      && Of(b'.departed, agent) == Of(b.departed, agent) + Tag(true, drained)
      && sent == drained + Of(b'.inboxes, agent)
      && agent in b'.inboxes
  {
    var start := Step(b, Register(agent), deliveryId);
    sent, drained := SinceRegistration(start, ops, deliveryId, agent);
    assert [] + sent == sent;
  }
}
