/**
 Reputation vectors (crates/coevo-core/src/reputation.rs) and the scoring engine over the stored
 rows (crates/coevo-reputation/src/scoring.rs). Scores are exact reals.
 */
module Reputation {
  import opened Prelude

  datatype Dimension = TaskDomainCompetence | UncertaintyHonesty | PolicyCompliance | ResourceEfficiency

  datatype Severity = Minor | Moderate | Severe

  datatype Vector = Vector(
    competence: real,
    honesty: real,
    compliance: real,
    efficiency: real,
    taskCount: nat,
    avoidanceCount: nat)
  {
    function Score(d: Dimension): real {
      match d
      case TaskDomainCompetence => competence
      case UncertaintyHonesty => honesty
      case PolicyCompliance => compliance
      case ResourceEfficiency => efficiency
    }

    function With(d: Dimension, score: real): Vector {
      match d
      case TaskDomainCompetence => this.(competence := score)
      case UncertaintyHonesty => this.(honesty := score)
      case PolicyCompliance => this.(compliance := score)
      case ResourceEfficiency => this.(efficiency := score)
    }

    predicate InRange() {
      forall d: Dimension :: 0.0 <= Score(d) <= 1.0
    }
  }

  const NEUTRAL := Vector(0.5, 0.5, 1.0, 0.5, 0, 0)
  const ETA: real := 0.05
  const DECAY: real := 0.95

  function Max(x: real, y: real): real { if x >= y then x else y }

  function Min(x: real, y: real): real { if x <= y then x else y }

  function Clamp(x: real, low: real, high: real): real {
    if x < low then low else if x > high then high else x
  }

  // ---- One vector, changed in place ----

  class ReputationVector {
    var competence: real
    var honesty: real
    var compliance: real
    var efficiency: real
    var taskCount: nat
    var avoidanceCount: nat

    function View(): Vector
      reads this
    {
      Vector(competence, honesty, compliance, efficiency, taskCount, avoidanceCount)
    }

    constructor (v: Vector)
      ensures View() == v
    {
      competence, honesty, compliance, efficiency := v.competence, v.honesty, v.compliance, v.efficiency;
      taskCount, avoidanceCount := v.taskCount, v.avoidanceCount;
    }

    /** Lowers one score, not below 0; it stays a score for as long as the difference is at most 1. */
    method Penalize(d: Dimension, penaltyPct: real)
      modifies this
      ensures View() == Penalized(old(View()), d, penaltyPct)
      ensures old(View()).InRange() ==> (View().InRange() <==> old(View()).Score(d) - penaltyPct <= 1.0)
    {
      var target := View().Score(d);
      match d {
        case TaskDomainCompetence => competence := Max(target - penaltyPct, 0.0);
        case UncertaintyHonesty => honesty := Max(target - penaltyPct, 0.0);
        case PolicyCompliance => compliance := Max(target - penaltyPct, 0.0);
        case ResourceEfficiency => efficiency := Max(target - penaltyPct, 0.0);
      }
      PenalizedRange(old(View()), d, penaltyPct);
    }

    /** Raises one score, not above 1; it stays a score for as long as the sum is at least 0. */
    method Reward(d: Dimension, rewardPct: real)
      modifies this
      ensures View() == Rewarded(old(View()), d, rewardPct)
      ensures old(View()).InRange() ==> (View().InRange() <==> old(View()).Score(d) + rewardPct >= 0.0)
    {
      var target := View().Score(d);
      match d {
        case TaskDomainCompetence => competence := Min(target + rewardPct, 1.0);
        case UncertaintyHonesty => honesty := Min(target + rewardPct, 1.0);
        case PolicyCompliance => compliance := Min(target + rewardPct, 1.0);
        case ResourceEfficiency => efficiency := Min(target + rewardPct, 1.0);
      }
      if old(View()).InRange() {
        WithRange(old(View()), d, Min(target + rewardPct, 1.0));
      }
    }
  }

  function Penalized(v: Vector, d: Dimension, penaltyPct: real): Vector {
    v.With(d, Max(v.Score(d) - penaltyPct, 0.0))
  }

  function Rewarded(v: Vector, d: Dimension, rewardPct: real): Vector {
    v.With(d, Min(v.Score(d) + rewardPct, 1.0))
  }

  lemma WithRange(v: Vector, d: Dimension, score: real)
    requires v.InRange()
    ensures v.With(d, score).InRange() <==> 0.0 <= score <= 1.0
  {
    var w := v.With(d, score);
    assert w.Score(d) == score;
    forall e: Dimension | e != d
      ensures w.Score(e) == v.Score(e)
    {
    }
  }

  lemma PenalizedRange(v: Vector, d: Dimension, penaltyPct: real)
    ensures v.InRange() ==> (Penalized(v, d, penaltyPct).InRange() <==> v.Score(d) - penaltyPct <= 1.0)
  {
    if v.InRange() {
      WithRange(v, d, Max(v.Score(d) - penaltyPct, 0.0));
    }
  }

  // ---- The engine ----

  /** The error-driven change of competence. */
  function Delta(d: real, outcome: real, expected: real): real {
    ETA * d * (outcome - expected)
  }

  function Updated(v: Vector, difficulty: real, outcome: real, expected: real): Vector {
    var d := Clamp(difficulty, 1.0, 5.0);
    var competence := Clamp(v.competence + Delta(d, outcome, expected), 0.0, 1.0);
    var avoidance := if d < 3.0 then v.avoidanceCount + 1 else 0;
    var w := v.(competence := competence, taskCount := v.taskCount + 1, avoidanceCount := avoidance);
    if avoidance > 10 then w.(competence := competence * DECAY, honesty := v.honesty * DECAY) else w
  }

  function PenaltyPct(s: Severity): real {
    match s case Minor => 0.03 case Moderate => 0.15 case Severe => 0.40
  }

  function Sanctioned(v: Vector, d: Dimension, s: Severity): Vector {
    var w := Penalized(v, d, PenaltyPct(s));
    if s == Severe then Penalized(w, PolicyCompliance, PenaltyPct(s) * 0.5) else w
  }

  datatype Op =
    | Update(agent: string, difficulty: real, outcome: real, expected: real)
    | Penalize(agent: string, dimension: Dimension, severity: Severity)
    | AntiHindsight(agent: string, tool: string, actual: real, confidence: real, dirty: bool)

  function RowOf(rows: map<string, Vector>, agent: string): Vector {
    if agent in rows then rows[agent] else NEUTRAL
  }

  function Step(rows: map<string, Vector>, op: Op): map<string, Vector> {
    match op
    case Update(agent, difficulty, outcome, expected) =>
      rows[agent := Updated(RowOf(rows, agent), difficulty, outcome, expected)]
    case Penalize(agent, d, s) => rows[agent := Sanctioned(RowOf(rows, agent), d, s)]
    case AntiHindsight(agent, tool, actual, confidence, dirty) =>
      if dirty then rows[tool := Penalized(RowOf(rows, tool), TaskDomainCompetence, 0.05)]
      else rows[agent := Updated(RowOf(rows, agent), 3.0, actual, confidence)]
  }

  function Run(rows: map<string, Vector>, ops: seq<Op>): map<string, Vector>
    decreases |ops|
  {
    if ops == [] then rows else Run(Step(rows, ops[0]), ops[1..])
  }

  class ReputationEngine {
    var rows: map<string, Vector>

    method GetOrInit(agent: string) returns (rv: ReputationVector)
      modifies this
      ensures fresh(rv) && rv.View() == RowOf(old(rows), agent)
      ensures rows == old(rows)[agent := RowOf(old(rows), agent)]
    {
      if agent !in rows {
        rows := rows[agent := NEUTRAL];
      }
      rv := new ReputationVector(rows[agent]);
    }

    method UpdateReputation(agent: string, difficulty: real, outcome: real, expected: real)
      modifies this
      ensures rows == Step(old(rows), Update(agent, difficulty, outcome, expected))
      ensures rows == old(rows)[agent := Updated(RowOf(old(rows), agent), difficulty, outcome, expected)]
    {
      hide RowOf, Delta, Clamp;
      var d := Clamp(difficulty, 1.0, 5.0);
      var rv := GetOrInit(agent);
      var delta := Delta(d, outcome, expected);
      rv.competence := Clamp(rv.competence + delta, 0.0, 1.0);
      rv.taskCount := rv.taskCount + 1;
      if d < 3.0 {
        rv.avoidanceCount := rv.avoidanceCount + 1;
      } else {
        rv.avoidanceCount := 0;
      }
      if rv.avoidanceCount > 10 {
        rv.competence := rv.competence * DECAY;
        rv.honesty := rv.honesty * DECAY;
      }
      rows := rows[agent := rv.View()];
    }

    method PenalizeReputation(agent: string, d: Dimension, s: Severity)
      modifies this
      ensures rows == Step(old(rows), Penalize(agent, d, s))
      ensures rows == old(rows)[agent := Sanctioned(RowOf(old(rows), agent), d, s)]
    {
      hide RowOf, Penalized, PenaltyPct, Vector.InRange;
      var rv := GetOrInit(agent);
      rv.Penalize(d, PenaltyPct(s));
      if s == Severe {
        rv.Penalize(PolicyCompliance, PenaltyPct(s) * 0.5);
      }
      rows := rows[agent := rv.View()];
    }

    method ApplyAntiHindsight(agent: string, tool: string, actual: real, confidence: real, dirty: bool)
      modifies this
      ensures rows == Step(old(rows), AntiHindsight(agent, tool, actual, confidence, dirty))
    {
      if dirty {
        var rv := GetOrInit(tool);
        rv.Penalize(TaskDomainCompetence, 0.05);
        rows := rows[tool := rv.View()];
      } else {
        UpdateReputation(agent, 3.0, actual, confidence);
      }
    }
  }

  // ---- Scores stay scores ----

  ghost predicate AllInRange(rows: map<string, Vector>) {
    forall a | a in rows :: rows[a].InRange()
  }

  lemma UpdatedInRange(v: Vector, difficulty: real, outcome: real, expected: real)
    requires v.InRange()
    ensures Updated(v, difficulty, outcome, expected).InRange()
  {
    var w := Updated(v, difficulty, outcome, expected);
    var c := Clamp(v.competence + Delta(Clamp(difficulty, 1.0, 5.0), outcome, expected), 0.0, 1.0);
    assert 0.0 <= c <= 1.0 && 0.0 <= c * DECAY <= 1.0;
    assert 0.0 <= v.Score(UncertaintyHonesty) <= 1.0 && v.Score(PolicyCompliance) == w.Score(PolicyCompliance);
    assert 0.0 <= v.honesty * DECAY <= 1.0;
    assert v.Score(ResourceEfficiency) == w.Score(ResourceEfficiency);
    forall d: Dimension
      ensures 0.0 <= w.Score(d) <= 1.0
    {
    }
  }

  lemma StepInRange(rows: map<string, Vector>, op: Op)
    requires AllInRange(rows)
    ensures AllInRange(Step(rows, op))
  {
    hide Updated, Vector.InRange;
    NeutralInRange();
    match op
    case Update(agent, difficulty, outcome, expected) =>
      UpdatedInRange(RowOf(rows, agent), difficulty, outcome, expected);
    case Penalize(agent, d, s) =>
      SanctionedInRange(RowOf(rows, agent), d, s);
    case AntiHindsight(agent, tool, actual, confidence, dirty) =>
      PenaltyInRange(RowOf(rows, tool), TaskDomainCompetence, 0.05);
      UpdatedInRange(RowOf(rows, agent), 3.0, actual, confidence);
  }

  lemma NeutralInRange()
    ensures NEUTRAL.InRange()
  {
  }

  lemma PenaltyInRange(v: Vector, d: Dimension, penaltyPct: real)
    requires v.InRange() && penaltyPct >= 0.0
    ensures Penalized(v, d, penaltyPct).InRange()
  {
    PenalizedRange(v, d, penaltyPct);
  }

  lemma SanctionedInRange(v: Vector, d: Dimension, s: Severity)
    requires v.InRange()
    ensures Sanctioned(v, d, s).InRange()
  {
    hide Vector.InRange, Penalized;
    PenaltyInRange(v, d, PenaltyPct(s));
    PenaltyInRange(Penalized(v, d, PenaltyPct(s)), PolicyCompliance, PenaltyPct(s) * 0.5);
  }

  // ---- What one update does ----

  function Distance(x: real, y: real): real {
    if x >= y then x - y else y - x
  }

  /** The nearest value to `x` between the bounds. */
  ghost predicate Nearest(r: real, x: real, low: real, high: real) {
    low <= r <= high && forall y: real | low <= y <= high :: Distance(r, x) <= Distance(y, x)
  }

  lemma ClampIsNearest(x: real, low: real, high: real)
    requires low <= high
    ensures Nearest(Clamp(x, low, high), x, low, high)
  {
  }

  /**
   An update moves competence by 0.05 times the difficulty, between 1 and 5, times the surprise, and
   keeps it between 0 and 1; counts the task, and counts or forgets the avoided ones; after more than
   ten avoided tasks competence and honesty are multiplied by 0.95. Nothing else changes.
   */
  lemma UpdateExactly(v: Vector, difficulty: real, outcome: real, expected: real) returns (d: real, c: real)
    ensures Nearest(d, difficulty, 1.0, 5.0)
    ensures Nearest(c, v.competence + 0.05 * d * (outcome - expected), 0.0, 1.0)
    ensures var w := Updated(v, difficulty, outcome, expected);
      var factor := if w.avoidanceCount > 10 then 0.95 else 1.0;
      && w.avoidanceCount == (if difficulty < 3.0 then v.avoidanceCount + 1 else 0)
      && w.taskCount == v.taskCount + 1
      && w.competence == c * factor && w.honesty == v.honesty * factor
      && w.compliance == v.compliance && w.efficiency == v.efficiency
  {
    hide Nearest;
    d := Clamp(difficulty, 1.0, 5.0);
    c := Clamp(v.competence + Delta(d, outcome, expected), 0.0, 1.0);
    ClampIsNearest(difficulty, 1.0, 5.0);
    ClampIsNearest(v.competence + Delta(d, outcome, expected), 0.0, 1.0);
    assert Delta(d, outcome, expected) == 0.05 * d * (outcome - expected);
  }

  /** An outcome with clean data is an update of the agent at difficulty 3, expected with its confidence. */
  lemma CleanOutcomeCounts(rows: map<string, Vector>, agent: string, tool: string, actual: real, confidence: real)
    ensures Step(rows, AntiHindsight(agent, tool, actual, confidence, false))
         == Step(rows, Update(agent, 3.0, actual, confidence))
    ensures var before := RowOf(rows, agent);
      var after := RowOf(Step(rows, AntiHindsight(agent, tool, actual, confidence, false)), agent);
      && after.avoidanceCount == 0 && after.taskCount == before.taskCount + 1
      && (0.0 <= before.competence <= 1.0 && actual >= confidence ==> after.competence >= before.competence)
      && (0.0 <= before.competence <= 1.0 && actual <= confidence ==> after.competence <= before.competence)
  {
  }

  /** What each severity takes off the score, and off compliance when it is severe; never below 0. */
  lemma SeverityCosts(v: Vector, d: Dimension)
    requires v.InRange()
    ensures Sanctioned(v, d, Minor) == v.With(d, Max(v.Score(d) - 0.03, 0.0))
    ensures Sanctioned(v, d, Moderate) == v.With(d, Max(v.Score(d) - 0.15, 0.0))
    ensures d != PolicyCompliance ==>
      && Sanctioned(v, d, Severe).Score(d) == Max(v.Score(d) - 0.40, 0.0)
      && Sanctioned(v, d, Severe).compliance == Max(v.compliance - 0.20, 0.0)
    ensures d == PolicyCompliance ==> Sanctioned(v, d, Severe).compliance == Max(v.compliance - 0.60, 0.0)
    ensures Sanctioned(v, d, Severe).Score(d) <= Sanctioned(v, d, Moderate).Score(d)
    ensures Sanctioned(v, d, Moderate).Score(d) <= Sanctioned(v, d, Minor).Score(d) <= v.Score(d)
  {
  }

  /** In every run of the engine all four scores of every agent stay in [0, 1]. */
  lemma {:induction false} RunInRange(rows: map<string, Vector>, ops: seq<Op>)
    requires AllInRange(rows)
    ensures AllInRange(Run(rows, ops))
    decreases |ops|
  {
    hide AllInRange, Step;
    if ops == [] {
    } else {
      StepInRange(rows, ops[0]);
      RunInRange(Step(rows, ops[0]), ops[1..]);
    }
  }

  // ---- Dirty tool data, over a run ----

  /** The agent whose row an operation writes. */
  function Target(op: Op): string {
    match op
    case Update(agent, _, _, _) => agent
    case Penalize(agent, _, _) => agent
    case AntiHindsight(agent, tool, _, _, dirty) => if dirty then tool else agent
  }

  /** The run without the outcomes of `agent` for which dirty data of another tool is to blame. */
  function WithoutDirty(ops: seq<Op>, agent: string): seq<Op> {
    if ops == [] then []
    else
      var op := ops[0];
      var excused := op.AntiHindsight? && op.dirty && op.agent == agent && op.tool != agent;
      (if excused then [] else [op]) + WithoutDirty(ops[1..], agent)
  }

  lemma OnlyTargetMoves(rows: map<string, Vector>, op: Op, agent: string)
    requires agent != Target(op)
    ensures RowOf(Step(rows, op), agent) == RowOf(rows, agent)
  {
    hide Updated, Sanctioned, Penalized;
  }

  /** What a step makes of an agent's row depends on that row alone. */
  lemma SameRowSameStep(rows: map<string, Vector>, rows': map<string, Vector>, op: Op, agent: string)
    requires RowOf(rows, agent) == RowOf(rows', agent)
    ensures RowOf(Step(rows, op), agent) == RowOf(Step(rows', op), agent)
  {
    hide Updated, Sanctioned, Penalized;
  }

  /**
   In every run an agent ends with the scores it would have had without the outcomes that dirty data
   of another tool is to blame for, whatever else happens in between.
   */
  lemma {:induction false} DirtyDataSparesAgent(rows: map<string, Vector>, rows': map<string, Vector>, ops: seq<Op>,
                                                agent: string)
    requires RowOf(rows, agent) == RowOf(rows', agent)
    ensures RowOf(Run(rows, ops), agent) == RowOf(Run(rows', WithoutDirty(ops, agent)), agent)
    decreases |ops|
  {
    hide Step, RowOf;
    if ops == [] {
    } else {
      var op, rest := ops[0], WithoutDirty(ops[1..], agent);
      if op.AntiHindsight? && op.dirty && op.agent == agent && op.tool != agent {
        OnlyTargetMoves(rows, op, agent);
        DirtyDataSparesAgent(Step(rows, op), rows', ops[1..], agent);
        assert [] + rest == rest;
      } else {
        SameRowSameStep(rows, rows', op, agent);
        DirtyDataSparesAgent(Step(rows, op), Step(rows', op), ops[1..], agent);
        assert ([op] + rest)[1..] == rest;
      }
    }
  }

  /** The tool pays instead: its competence falls by 0.05 each time, down to 0 and no further. */
  lemma {:induction false} DirtyDataCostsTool(rows: map<string, Vector>, ops: seq<Op>, tool: string)
    requires forall op | op in ops :: op.AntiHindsight? && op.dirty && op.tool == tool
    requires RowOf(rows, tool).competence >= 0.0
    ensures RowOf(Run(rows, ops), tool).competence == Max(RowOf(rows, tool).competence - 0.05 * |ops| as real, 0.0)
    decreases |ops|
  {
    if ops == [] {
    } else {
      assert ops[0] in ops;
      var rows' := Step(rows, ops[0]);
      assert RowOf(rows', tool).competence == Max(RowOf(rows, tool).competence - 0.05, 0.0);
      DirtyDataCostsTool(rows', ops[1..], tool);
      assert |ops| as real == 1.0 + |ops[1..]| as real;
    }
  }

  /**
   Neither clamp guards the other end: a negative penalty lifts a neutral score above 1, a negative
   reward sinks it.
   */
  lemma NegativeAmountsLeaveRange()
    ensures NEUTRAL.InRange()
    ensures !Penalized(NEUTRAL, TaskDomainCompetence, -1.0).InRange()
    ensures !Rewarded(NEUTRAL, TaskDomainCompetence, -1.0).InRange()
  {
    NeutralInRange();
    PenalizedRange(NEUTRAL, TaskDomainCompetence, -1.0);
    WithRange(NEUTRAL, TaskDomainCompetence, -0.5);
  }

  // ---- Decay while avoiding difficult tasks ----

  datatype Task = Task(difficulty: real, outcome: real, expected: real)

  function UpdatedAll(v: Vector, tasks: seq<Task>): Vector
    decreases |tasks|
  {
    if tasks == [] then v
    else UpdatedAll(Updated(v, tasks[0].difficulty, tasks[0].outcome, tasks[0].expected), tasks[1..])
  }

  function Power(x: real, n: nat): real {
    if n == 0 then 1.0 else x * Power(x, n - 1)
  }

  /** How many of `k` further avoided tasks decay the scores after `a` avoided ones. */
  function Decays(a: nat, k: nat): nat {
    if a + k <= 10 then 0 else if a >= 10 then k else a + k - 10
  }

  lemma DecayOnce(x: real, n: nat)
    ensures x * DECAY * Power(DECAY, n) == x * Power(DECAY, n + 1)
  {
  }

  /**
   `k` tasks in a row below difficulty 3, after `a` such tasks, multiply honesty by exactly
   0.95 ^ max(0, min(k, a + k - 10)), whatever their outcomes.
   */
  lemma {:induction false} HonestyDecays(v: Vector, tasks: seq<Task>)
    requires forall t | t in tasks :: t.difficulty < 3.0
    ensures UpdatedAll(v, tasks).honesty == v.honesty * Power(DECAY, Decays(v.avoidanceCount, |tasks|))
    ensures UpdatedAll(v, tasks).avoidanceCount == v.avoidanceCount + |tasks|
    decreases |tasks|
  {
    if tasks == [] {
    } else {
      var t := tasks[0];
      assert t in tasks;
      var w := Updated(v, t.difficulty, t.outcome, t.expected);
      HonestyDecays(w, tasks[1..]);
      var n := Decays(w.avoidanceCount, |tasks| - 1);
      if v.avoidanceCount + 1 > 10 {
        DecayOnce(v.honesty, n);
        assert Decays(v.avoidanceCount, |tasks|) == n + 1;
      } else {
        assert Decays(v.avoidanceCount, |tasks|) == n;
      }
    }
  }

  /** One such task moves competence to at most its old value, times 0.95 once the decay has set in. */
  lemma CompetenceStep(v: Vector, t: Task)
    requires 0.0 <= v.competence <= 1.0 && t.difficulty < 3.0 && t.outcome <= t.expected
    ensures var w := Updated(v, t.difficulty, t.outcome, t.expected);
      && 0.0 <= w.competence <= 1.0
      && w.competence <= if v.avoidanceCount >= 10 then v.competence * DECAY else v.competence
  {
  }

  lemma {:induction false} PowerPositive(n: nat)
    ensures Power(DECAY, n) > 0.0
  {
    if n > 0 {
      PowerPositive(n - 1);
    }
  }

  lemma ScaleMono(x: real, y: real, f: real)
    requires x <= y && f > 0.0
    ensures x * f <= y * f
  {
  }

  /** ... and, when no outcome beats its expectation, competence is bounded by the same factor. */
  lemma {:induction false} CompetenceDecays(v: Vector, tasks: seq<Task>)
    requires 0.0 <= v.competence <= 1.0
    requires forall t | t in tasks :: t.difficulty < 3.0 && t.outcome <= t.expected
    ensures UpdatedAll(v, tasks).competence <= v.competence * Power(DECAY, Decays(v.avoidanceCount, |tasks|))
    decreases |tasks|
  {
    hide Updated;
    if tasks == [] {
    } else {
      var t := tasks[0];
      assert t in tasks;
      var w := Updated(v, t.difficulty, t.outcome, t.expected);
      CompetenceStep(v, t);
      AvoidanceStep(v, t);
      CompetenceDecays(w, tasks[1..]);
      var n := Decays(w.avoidanceCount, |tasks| - 1);
      PowerPositive(n);
      if v.avoidanceCount >= 10 {
        ScaleMono(w.competence, v.competence * DECAY, Power(DECAY, n));
        DecayOnce(v.competence, n);
        assert Decays(v.avoidanceCount, |tasks|) == n + 1;
      } else {
        ScaleMono(w.competence, v.competence, Power(DECAY, n));
        assert Decays(v.avoidanceCount, |tasks|) == n;
      }
    }
  }

  lemma AvoidanceStep(v: Vector, t: Task)
    requires t.difficulty < 3.0
    ensures Updated(v, t.difficulty, t.outcome, t.expected).avoidanceCount == v.avoidanceCount + 1
  {
  }

  // ---- The same law for the engine, with other agents' operations in between ----

  /** All that happens to this agent are finished tasks below difficulty 3. */
  predicate OnlyAvoids(ops: seq<Op>, agent: string) {
    forall op | op in ops && Target(op) == agent :: op.Update? && op.difficulty < 3.0
  }

  function TasksOf(ops: seq<Op>, agent: string): seq<Task> {
    if ops == [] then []
    else
      var op := ops[0];
      (if op.Update? && op.agent == agent then [Task(op.difficulty, op.outcome, op.expected)] else [])
      + TasksOf(ops[1..], agent)
  }

  /** The engine replays an agent's tasks on its row, whatever it does to other rows in between. */
  lemma {:induction false} RunReplaysTasks(rows: map<string, Vector>, ops: seq<Op>, agent: string)
    requires OnlyAvoids(ops, agent)
    ensures RowOf(Run(rows, ops), agent) == UpdatedAll(RowOf(rows, agent), TasksOf(ops, agent))
    decreases |ops|
  {
    hide Step, RowOf, Updated;
    if ops == [] {
    } else {
      var op, rest := ops[0], TasksOf(ops[1..], agent);
      assert op in ops && OnlyAvoids(ops[1..], agent);
      RunReplaysTasks(Step(rows, op), ops[1..], agent);
      if Target(op) == agent {
        TaskStep(rows, op);
        var task := Task(op.difficulty, op.outcome, op.expected);
        assert ([task] + rest)[1..] == rest;
      } else {
        OnlyTargetMoves(rows, op, agent);
        assert [] + rest == rest;
      }
    }
  }

  lemma TaskStep(rows: map<string, Vector>, op: Op)
    requires op.Update?
    ensures RowOf(Step(rows, op), op.agent)
         == Updated(RowOf(rows, op.agent), op.difficulty, op.outcome, op.expected)
  {
    hide Updated;
  }

  lemma {:induction false} TasksAvoid(ops: seq<Op>, agent: string)
    requires OnlyAvoids(ops, agent)
    ensures forall t | t in TasksOf(ops, agent) :: t.difficulty < 3.0
    ensures (forall op | op in ops && Target(op) == agent :: op.Update? && op.outcome <= op.expected) ==>
      forall t | t in TasksOf(ops, agent) :: t.outcome <= t.expected
    decreases |ops|
  {
    if ops == [] {
    } else {
      assert ops[0] in ops && OnlyAvoids(ops[1..], agent);
      TasksAvoid(ops[1..], agent);
    }
  }

  /** In every such run honesty is multiplied by exactly 0.95 ^ max(0, min(k, a + k - 10)) for k tasks after a. */
  lemma RunDecaysHonesty(rows: map<string, Vector>, ops: seq<Op>, agent: string)
    requires OnlyAvoids(ops, agent)
    ensures var k, v, w := |TasksOf(ops, agent)|, RowOf(rows, agent), RowOf(Run(rows, ops), agent);
      && w.honesty == v.honesty * Power(DECAY, Decays(v.avoidanceCount, k))
      && w.avoidanceCount == v.avoidanceCount + k
  {
    hide Run, RowOf, UpdatedAll, Power, Decays;
    RunReplaysTasks(rows, ops, agent);
    TasksAvoid(ops, agent);
    HonestyDecays(RowOf(rows, agent), TasksOf(ops, agent));
  }

  /** ... and competence is bounded by the same factor, when no outcome beats its expectation. */
  lemma RunDecaysCompetence(rows: map<string, Vector>, ops: seq<Op>, agent: string)
    requires OnlyAvoids(ops, agent) && 0.0 <= RowOf(rows, agent).competence <= 1.0
    requires forall op | op in ops && Target(op) == agent :: op.Update? && op.outcome <= op.expected
    ensures var k, v, w := |TasksOf(ops, agent)|, RowOf(rows, agent), RowOf(Run(rows, ops), agent);
      w.competence <= v.competence * Power(DECAY, Decays(v.avoidanceCount, k))
  {
    hide Run, RowOf, UpdatedAll, Power, Decays;
    RunReplaysTasks(rows, ops, agent);
    TasksAvoid(ops, agent);
    CompetenceDecays(RowOf(rows, agent), TasksOf(ops, agent));
  }
}
