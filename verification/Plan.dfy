/**
 Execution plans: routing (crates/coevo-router/src/pcdt.rs) and revision
 (crates/coevo-router/src/revision.rs). `Digest` stands for the lowercase hex SHA-256 of a text;
 a new plan's own hash covers a timestamp or the serialised plan and is a parameter.
 */
module Plan {
  import opened Prelude
  import opened Text

  datatype SlotConfig = SlotConfig(
    agentId: string,
    role: string,
    stepIndex: nat,
    inputKeys: seq<string>,
    outputKeys: seq<string>,
    timeoutMs: nat)

  datatype Plan = Plan(
    planHash: string,
    parentPlanHash: string,
    primaryPath: seq<string>,
    configs: seq<SlotConfig>,
    failbackAgents: seq<string>,
    maxHops: nat,
    maxPlanDurationMs: nat)

  /** The parts of the contract that routing reads. */
  datatype Contract = Contract(institutionPolicyHash: string, rootGoalId: string, maxHops: nat, maxLatencyMs: nat)

  datatype Request = Request(
    affectedAgents: seq<string>,
    completedSteps: seq<nat>,
    availableAgents: seq<string>,
    newHash: string)

  datatype RoutingError = NoAgentsRegistered | EmptyPath | NoAgentsAvailable

  type Digest = string -> string

  const SCOPE_LENGTH: nat := 16

  /** A digest is long enough to cut a scope id from. */
  ghost predicate IsDigest(digest: Digest) {
    forall s :: |digest(s)| >= SCOPE_LENGTH
  }

  /** `format!("{scope}:step-{step}-output")` */
  function Key(scope: string, step: nat): string {
    scope + (":step-" + (Decimal(step) + "-output"))
  }

  function ScopeId(digest: Digest, planHash: string): string {
    var full := digest(planHash);
    if |full| >= SCOPE_LENGTH then full[..SCOPE_LENGTH] else full
  }

  function AgentList(agents: seq<string>): string {
    if agents == [] then "" else agents[0] + ("," + AgentList(agents[1..]))
  }

  /** What the scope id of a routed plan is meant to depend on. */
  datatype ScopeInput = ScopeInput(policy: string, goal: string, parent: string, path: seq<string>)

  /** The text that is digested. */
  function ScopeText(x: ScopeInput): string {
    x.policy + ("|" + (x.goal + ("|" + (x.parent + ("|" + AgentList(x.path))))))
  }

  function PlanScopeId(digest: Digest, contract: Contract, path: seq<string>, parent: string): string {
    ScopeId(digest, ScopeText(ScopeInput(contract.institutionPolicyHash, contract.rootGoalId, parent, path)))
  }

  // ---- Routing ----

  const NO_PARENT: string := "0000000000000000000000000000000000000000000000000000000000000000"

  function PathOf(agents: seq<string>, maxHops: nat): seq<string> {
    if |agents| <= maxHops then agents else agents[..maxHops]
  }

  function Role(i: nat, length: nat): string {
    if i == 0 then "Proposer" else if i == length - 1 then "Synthesizer" else "Critic"
  }

  function RoutedConfig(path: seq<string>, scope: string, i: nat): SlotConfig
    requires i < |path|
  {
    SlotConfig(path[i], Role(i, |path|), i, if i == 0 then [] else [Key(scope, i - 1)], [Key(scope, i)], 30_000)
  }

  function Compute(contract: Contract, agents: seq<string>, parentHash: Option<string>, digest: Digest,
                   planHash: string)
    : Result<Plan, RoutingError>
  {
    if agents == [] then Err(NoAgentsRegistered)
    else
      var path := PathOf(agents, contract.maxHops);
      if path == [] then Err(EmptyPath)
      else
        var parent := OrElse(parentHash, NO_PARENT);
        var scope := PlanScopeId(digest, contract, path, parent);
        Ok(Plan(
          planHash,
          parent,
          path,
          seq(|path|, i requires 0 <= i < |path| => RoutedConfig(path, scope, i)),
          path,
          contract.maxHops,
          contract.maxLatencyMs))
  }

  // ---- Revision ----

  /** The configs whose step is listed as completed, in order. */
  function Kept(configs: seq<SlotConfig>, completed: seq<nat>): seq<SlotConfig> {
    if configs == [] then []
    else
      var last := configs[|configs| - 1];
      Kept(configs[..|configs| - 1], completed) + if last.stepIndex in completed then [last] else []
  }

  function Without(agents: seq<string>, affected: seq<string>): seq<string> {
    if agents == [] then []
    else
      var last := agents[|agents| - 1];
      Without(agents[..|agents| - 1], affected) + if last in affected then [] else [last]
  }

  function FirstKey(c: SlotConfig): seq<string> {
    if c.outputKeys == [] then [] else [c.outputKeys[0]]
  }

  /** The keys the `i`-th rebuilt step reads: the last kept output first, then its predecessor's. */
  function BridgeKeys(kept: seq<SlotConfig>, scope: string, i: nat): seq<string> {
    if i > 0 then [Key(scope, |kept| + i - 1)]
    else if kept == [] then []
    else FirstKey(kept[|kept| - 1])
  }

  function RebuiltConfig(kept: seq<SlotConfig>, agentId: string, scope: string, i: nat): SlotConfig {
    SlotConfig(agentId, "Synthesizer", |kept| + i, BridgeKeys(kept, scope, i), [Key(scope, |kept| + i)], 30_000)
  }

  function Rebuilt(kept: seq<SlotConfig>, agents: seq<string>, scope: string): seq<SlotConfig> {
    seq(|agents|, i requires 0 <= i < |agents| => RebuiltConfig(kept, agents[i], scope, i))
  }

  function Revise(current: Plan, request: Request, digest: Digest): Result<Plan, RoutingError> {
    var agents := Without(request.availableAgents, request.affectedAgents);
    if agents == [] then Err(NoAgentsAvailable)
    else
      var kept := Kept(current.configs, request.completedSteps);
      Ok(current.(
        planHash := request.newHash,
        parentPlanHash := current.planHash,
        primaryPath := agents,
        configs := kept + Rebuilt(kept, agents, ScopeId(digest, current.planHash))))
  }

  method ReviseInSteps(current: Plan, request: Request, digest: Digest) returns (r: Result<Plan, RoutingError>)
    ensures r == Revise(current, request, digest)
  {
    hide Key, ScopeId, Kept, Without;
    var remaining := Without(request.availableAgents, request.affectedAgents);
    if remaining == [] {
      return Err(NoAgentsAvailable);
    }
    var newConfigs := Kept(current.configs, request.completedSteps);
    ghost var kept := newConfigs;
    var scope := ScopeId(digest, current.planHash);
    var remainingStart := |newConfigs|;
    var boundary := if remainingStart == 0 then [] else FirstKey(newConfigs[remainingStart - 1]);
    for i := 0 to |remaining|
      invariant newConfigs == kept + Rebuilt(kept, remaining, scope)[..i]
    {
      var step := remainingStart + i;
      var inputKeys := if i == 0 then boundary else [Key(scope, step - 1)];
      newConfigs := newConfigs + [SlotConfig(remaining[i], "Synthesizer", step, inputKeys, [Key(scope, step)], 30_000)];
    }
    assert Rebuilt(kept, remaining, scope)[..|remaining|] == Rebuilt(kept, remaining, scope);
    r := Ok(current.(
      planHash := request.newHash,
      parentPlanHash := current.planHash,
      primaryPath := remaining,
      configs := newConfigs));
  }

  // ---- Wiring ----

  /** Config `i` is step `i`, has one output, and reads exactly the output of step `i - 1`. */
  predicate WiredAt(configs: seq<SlotConfig>, i: nat)
    requires i < |configs|
  {
    && configs[i].stepIndex == i
    && |configs[i].outputKeys| == 1
    && configs[i].inputKeys == if i == 0 then [] else configs[i - 1].outputKeys
  }

  predicate Wired(configs: seq<SlotConfig>) {
    forall i | 0 <= i < |configs| :: WiredAt(configs, i)
  }

  /** The output key belongs to one of the scopes and carries the step. */
  ghost predicate KeyedAt(c: SlotConfig, i: nat, scopes: set<string>) {
    exists s :: s in scopes && c.outputKeys == [Key(s, i)]
  }

  ghost predicate Keyed(configs: seq<SlotConfig>, scopes: set<string>) {
    forall i | 0 <= i < |configs| :: KeyedAt(configs[i], i, scopes)
  }

  predicate ScopeSized(scopes: set<string>) {
    forall s | s in scopes :: |s| == SCOPE_LENGTH
  }

  lemma KeyInjective(s: string, i: nat, t: string, j: nat)
    requires |s| == |t| && Key(s, i) == Key(t, j)
    ensures s == t && i == j
  {
    var a, b := ":step-" + (Decimal(i) + "-output"), ":step-" + (Decimal(j) + "-output");
    assert s == Key(s, i)[..|s|] && t == Key(t, j)[..|t|];
    assert a == Key(s, i)[|s|..] && b == Key(t, j)[|t|..];
    assert a[6..] == Decimal(i) + "-output" && b[6..] == Decimal(j) + "-output";
    var p, q := Decimal(i) + "-output", Decimal(j) + "-output";
    assert Decimal(i) == p[..|p| - 7] && Decimal(j) == q[..|q| - 7];
    DecimalInjective(i, j);
  }

  /** No two steps of a keyed plan write the same blackboard key. */
  lemma OutputsDistinct(configs: seq<SlotConfig>, scopes: set<string>, i: nat, j: nat)
    requires Keyed(configs, scopes) && ScopeSized(scopes) && i < j < |configs|
    ensures configs[i].outputKeys != configs[j].outputKeys
  {
    hide Key;
    assert KeyedAt(configs[i], i, scopes) && KeyedAt(configs[j], j, scopes);
    var s :| s in scopes && configs[i].outputKeys == [Key(s, i)];
    var t :| t in scopes && configs[j].outputKeys == [Key(t, j)];
    if Key(s, i) == Key(t, j) {
      KeyInjective(s, i, t, j);
      assert false;
    }
  }

  /** The digested text reads like this. */
  lemma ScopeTextReads()
    ensures ScopeText(ScopeInput("policy", "goal", "parent", ["a", "b"])) == "policy|goal|parent|a,b,"
  {
    hide AgentList;
    AgentListReads();
    assert "parent" + ("|" + "a,b,") == "parent|a,b,";
    assert "goal" + ("|" + "parent|a,b,") == "goal|parent|a,b,";
  }

  lemma AgentListReads()
    ensures AgentList(["a", "b"]) == "a,b,"
  {
    var path := ["a", "b"];
    assert path[1..] == ["b"] && path[1..][1..] == [];
    assert AgentList(path) == "a" + ("," + ("b" + ("," + "")));
  }

  /** The scope of a routed plan digests the policy, the goal, the parent and the agents, in this order. */
  lemma RoutedScopeExactly(contract: Contract, path: seq<string>, parent: string, digest: Digest)
    requires IsDigest(digest)
    ensures var x := ScopeInput(contract.institutionPolicyHash, contract.rootGoalId, parent, path);
      PlanScopeId(digest, contract, path, parent) == digest(ScopeText(x))[..SCOPE_LENGTH]
  {
    hide ScopeText;
  }

  /** A key on the blackboard reads like this. */
  lemma KeyReads()
    ensures Key("0123456789abcdef", 7) == "0123456789abcdef:step-7-output"
  {
    assert Decimal(7) == "7";
    assert ":step-" + ("7" + "-output") == ":step-7-output";
  }

  /** A routed plan follows the first `maxHops` agents, is wired, and uses one scope. */
  lemma ComputeWires(contract: Contract, agents: seq<string>, parentHash: Option<string>, digest: Digest,
                     planHash: string)
    requires IsDigest(digest)
    ensures var r := Compute(contract, agents, parentHash, digest, planHash);
      && (r.Ok? <==> agents != [] && contract.maxHops > 0)
      && (r.Ok? ==>
            var scope := PlanScopeId(digest, contract, r.value.primaryPath, r.value.parentPlanHash);
            && Wired(r.value.configs)
            && Keyed(r.value.configs, {scope}) && ScopeSized({scope})
            && 0 < |r.value.configs| == |r.value.primaryPath| <= contract.maxHops
            && (|r.value.primaryPath| == contract.maxHops || |r.value.primaryPath| == |agents|)
            && r.value.planHash == planHash && r.value.parentPlanHash == OrElse(parentHash, NO_PARENT)
            && r.value.failbackAgents == r.value.primaryPath
            && r.value.maxHops == contract.maxHops && r.value.maxPlanDurationMs == contract.maxLatencyMs
            && forall i | 0 <= i < |r.value.configs| ::
                 && r.value.configs[i].agentId == r.value.primaryPath[i] == agents[i]
                 && (r.value.configs[i].role == "Proposer" <==> i == 0)
                 && (r.value.configs[i].role == "Synthesizer" <==> 0 < i == |r.value.configs| - 1)
                 && (r.value.configs[i].role == "Critic" <==> 0 < i < |r.value.configs| - 1)
                 && r.value.configs[i].timeoutMs == 30_000)
      && (r.Err? ==> r.error == if agents == [] then NoAgentsRegistered else EmptyPath)
  {
    hide Key, ScopeText, ScopeId, Wired, Keyed, RoutedConfig, Role;
    var r := Compute(contract, agents, parentHash, digest, planHash);
    if r.Ok? {
      var path := r.value.primaryPath;
      var scope := PlanScopeId(digest, contract, path, r.value.parentPlanHash);
      RoutedWires(path, scope, r.value.configs);
      ScopeLength(digest,
        ScopeText(ScopeInput(contract.institutionPolicyHash, contract.rootGoalId, r.value.parentPlanHash, path)));
    }
  }

  lemma RoutedWires(path: seq<string>, scope: string, configs: seq<SlotConfig>)
    requires |configs| == |path| && forall i | 0 <= i < |path| :: configs[i] == RoutedConfig(path, scope, i)
    ensures Wired(configs) && Keyed(configs, {scope})
    ensures forall i | 0 <= i < |path| ::
      && configs[i].agentId == path[i]
      && (configs[i].role == "Proposer" <==> i == 0)
      && (configs[i].role == "Synthesizer" <==> 0 < i == |path| - 1)
      && (configs[i].role == "Critic" <==> 0 < i < |path| - 1)
      && configs[i].timeoutMs == 30_000
  {
  }

  // ---- When the scope text tells routings apart ----

  /** No separator occurs inside a field. */
  predicate SeparatorFree(x: ScopeInput) {
    && Free(x.policy, '|') && Free(x.goal, '|') && Free(x.parent, '|')
    && AgentsFree(x.path)
  }

  predicate AgentsFree(path: seq<string>) {
    forall i | 0 <= i < |path| :: Free(path[i], ',')
  }

  lemma {:induction false} AgentListIdentifies(path: seq<string>, path': seq<string>)
    requires AgentList(path) == AgentList(path')
    requires AgentsFree(path) && AgentsFree(path')
    ensures path == path'
    decreases |path|
  {
    if path != [] && path' != [] {
      CutAtSeparator(path[0], AgentList(path[1..]), path'[0], AgentList(path'[1..]), ',');
      AgentListIdentifies(path[1..], path'[1..]);
      assert path == [path[0]] + path[1..] && path' == [path'[0]] + path'[1..];
    }
  }

  /** Inputs whose fields before the agents are free of bars share them with every input of the same text. */
  lemma CutFields(x: ScopeInput, y: ScopeInput)
    requires Free(x.policy, '|') && Free(x.goal, '|') && Free(x.parent, '|')
    requires Free(y.policy, '|') && Free(y.goal, '|') && Free(y.parent, '|')
    requires ScopeText(x) == ScopeText(y)
    ensures x.policy == y.policy && x.goal == y.goal && x.parent == y.parent && AgentList(x.path) == AgentList(y.path)
  {
    hide AgentList, Free;
    CutAtSeparator(x.policy, x.goal + ("|" + (x.parent + ("|" + AgentList(x.path)))),
      y.policy, y.goal + ("|" + (y.parent + ("|" + AgentList(y.path)))), '|');
    CutAtSeparator(x.goal, x.parent + ("|" + AgentList(x.path)), y.goal, y.parent + ("|" + AgentList(y.path)), '|');
    CutAtSeparator(x.parent, AgentList(x.path), y.parent, AgentList(y.path), '|');
  }

  /** Separator-free inputs are told apart by the digested text. */
  lemma ScopeTextIdentifies(x: ScopeInput, y: ScopeInput)
    requires SeparatorFree(x) && SeparatorFree(y)
    ensures ScopeText(x) == ScopeText(y) <==> x == y
  {
    hide AgentList, Free, AgentsFree;
    if ScopeText(x) == ScopeText(y) {
      CutFields(x, y);
      AgentListIdentifies(x.path, y.path);
    }
  }

  lemma SeparatorWithin(s: string, i: nat, k: nat, c: char)
    requires i <= |s| && k < |s| && Free(s[..i], c) && s[k] == c
    ensures k >= i
  {
    forall j | 0 <= j < i
      ensures s[j] != c
    {
      assert s[..i][j] == s[j];
    }
  }

  /** The text before and after the first separator, for a text that has one. */
  lemma Cut(s: string, c: char) returns (field: string, rest: string)
    requires c in s
    ensures Free(field, c) && s == field + ([c] + rest)
    ensures forall a, x :: s == a + ([c] + x) ==> |x| <= |rest| && x == rest[|rest| - |x|..]
  {
    var i := FirstSeparator(s, c);
    field, rest := s[..i], s[i + 1..];
    forall a, x | s == a + ([c] + x)
      ensures |x| <= |rest| && x == rest[|rest| - |x|..]
    {
      assert s[|a|] == c;
      SeparatorWithin(s, i, |a|, c);
      assert x == s[|a| + 1..];
    }
  }

  /** Text that ends with a comma is an agent list in exactly one separator-free way. */
  lemma {:induction false} CutAgents(s: string) returns (path: seq<string>)
    requires s != "" ==> s[|s| - 1] == ','
    ensures AgentsFree(path) && AgentList(path) == s && (path == [] <==> s == "")
    decreases |s|
  {
    if s == "" {
      path := [];
    } else {
      assert s[|s| - 1] in s;
      var agent, rest := Cut(s, ',');
      if rest != "" {
        assert rest[|rest| - 1] == s[|s| - 1];
      }
      var more := CutAgents(rest);
      path := [agent] + more;
      assert path[1..] == more;
    }
  }

  lemma {:induction false} AgentListEnds(path: seq<string>)
    requires path != []
    ensures AgentList(path) != "" && AgentList(path)[|AgentList(path)| - 1] == ','
  {
    if |path| == 1 {
      assert AgentList(path) == path[0] + ("," + "");
    } else {
      AgentListEnds(path[1..]);
    }
  }

  /** Cutting the text at its first three bars and the rest at its commas gives a separator-free input. */
  lemma SeparatorFreeForm(x: ScopeInput) returns (y: ScopeInput)
    requires x.path != []
    ensures SeparatorFree(y) && y.path != [] && ScopeText(y) == ScopeText(x)
  {
    hide Free, AgentsFree, AgentList;
    var list := AgentList(x.path);
    AgentListEnds(x.path);
    var afterGoal := x.parent + ("|" + list);
    var afterPolicy := x.goal + ("|" + afterGoal);
    var s := ScopeText(x);
    BarIn(x.policy, afterPolicy);
    var policy, s1 := Cut(s, '|');
    SuffixBars(s1, afterPolicy, x.goal, afterGoal);
    var goal, s2 := Cut(s1, '|');
    SuffixBars(s2, afterGoal, x.parent, list);
    var parent, s3 := Cut(s2, '|');
    assert list == s3[|s3| - |list|..];
    assert s3[|s3| - 1] == list[|list| - 1];
    var path := CutAgents(s3);
    y := ScopeInput(policy, goal, parent, path);
  }

  lemma BarIn(a: string, x: string)
    ensures '|' in a + ("|" + x)
  {
    assert (a + ("|" + x))[|a|] == '|';
  }

  /** A text that ends with `a|x` has that bar, and is cut there at the latest. */
  lemma SuffixBars(s: string, end: string, a: string, x: string)
    requires |end| <= |s| && end == s[|s| - |end|..] && end == a + ("|" + x)
    ensures '|' in s
    ensures exists b :: s == b + ("|" + x)
  {
    var b := s[..|s| - |end|] + a;
    assert s == b + ("|" + x);
    assert s[|b|] == '|';
  }

  /** Among separator-free inputs, no other has the text of this one. */
  ghost predicate ToldApart(x: ScopeInput) {
    forall y | SeparatorFree(y) && ScopeText(y) == ScopeText(x) :: y == x
  }

  /**
   The digested text tells a routing apart from all separator-free ones if and only if it contains
   no separator in a field itself.
   */
  lemma ToldApartExactly(x: ScopeInput)
    requires x.path != []
    ensures SeparatorFree(x) <==> ToldApart(x)
  {
    hide SeparatorFree, ScopeText;
    if SeparatorFree(x) {
      forall y | SeparatorFree(y) && ScopeText(y) == ScopeText(x)
        ensures y == x
      {
        ScopeTextIdentifies(y, x);
      }
    } else {
      var y := SeparatorFreeForm(x);
    }
  }

  /** Fields joined by a separator read like separate fields: two agents, policy and goal, goal and parent. */
  lemma SeparatorsCollide(policy: string, goal: string, parent: string, a: string, b: string)
    ensures ScopeText(ScopeInput(policy, goal, parent, [a, b]))
      == ScopeText(ScopeInput(policy, goal, parent, [a + ("," + b)]))
    ensures ScopeText(ScopeInput(policy + ("|" + goal), parent, a, [b]))
         == ScopeText(ScopeInput(policy, goal, parent, [a + ("|" + b)]))
    ensures ScopeText(ScopeInput(policy, goal + ("|" + parent), a, [b]))
         == ScopeText(ScopeInput(policy, goal, parent, [a + ("|" + b)]))
  {
    SingleAgent(b);
    SingleAgent(a + ("," + b));
    SingleAgent(a + ("|" + b));
    var list := AgentList([b]);
    assert [a, b][1..] == [b];
    assert AgentList([a + ("," + b)]) == a + ("," + list);
    assert AgentList([a + ("|" + b)]) == a + ("|" + list);
    assert policy + ("|" + goal) + ("|" + (parent + ("|" + (a + ("|" + list)))))
        == policy + ("|" + (goal + ("|" + (parent + ("|" + (a + ("|" + list)))))));
    assert goal + ("|" + parent) + ("|" + (a + ("|" + list))) == goal + ("|" + (parent + ("|" + (a + ("|" + list)))));
  }

  lemma SingleAgent(agent: string)
    ensures AgentList([agent]) == agent + ","
  {
    assert [agent][1..] == [];
    assert "," + "" == ",";
  }

  /** No other input at all has the text of this one. */
  ghost predicate Alone(x: ScopeInput) {
    forall y | ScopeText(y) == ScopeText(x) :: y == x
  }

  lemma FreeCount(s: string, c: char)
    ensures Free(s, c) <==> multiset(s)[c] == 0
  {
    assert multiset(s)[c] == 0 <==> c !in s;
  }

  lemma BarsCounted(x: ScopeInput)
    ensures multiset(ScopeText(x))['|'] == 3 + multiset(x.policy)['|'] + multiset(x.goal)['|'] + multiset(x.parent)['|']
                                           + multiset(AgentList(x.path))['|']
  {
    hide AgentList;
    assert multiset("|")['|'] == 1;
  }

  lemma {:induction false} CommasCounted(path: seq<string>)
    ensures multiset(AgentList(path))[','] >= |path|
  {
    if path == [] {
    } else {
      CommasCounted(path[1..]);
      assert multiset(",")[','] == 1;
    }
  }

  /** A single agent without separators, and fields without bars, cannot be read in any other way. */
  lemma AloneIfPlain(x: ScopeInput, y: ScopeInput)
    requires SeparatorFree(x) && |x.path| == 1 && Free(x.path[0], '|') && ScopeText(y) == ScopeText(x)
    ensures y == x
  {
    hide Free, ScopeText;
    var agent := x.path[0];
    assert x.path == [agent];
    SingleAgent(agent);
    BarsCounted(x);
    BarsCounted(y);
    FreeCount(x.policy, '|');
    FreeCount(x.goal, '|');
    FreeCount(x.parent, '|');
    FreeCount(agent, '|');
    FreeCount(y.policy, '|');
    FreeCount(y.goal, '|');
    FreeCount(y.parent, '|');
    FreeCount(agent, ',');
    assert multiset(",")['|'] == 0 && multiset(",")[','] == 1;
    CutFields(x, y);
    CommasCounted(y.path);
    OneAgent(y.path, agent);
  }

  lemma OneAgent(path: seq<string>, agent: string)
    requires |path| <= 1 && AgentList(path) == agent + ","
    ensures path == [agent]
  {
    assert AgentList(path)[|agent|] == ',';
    SingleAgent(path[0]);
    assert path == [path[0]];
    assert path[0] == (path[0] + ",")[..|path[0]|] && agent == (agent + ",")[..|agent|];
  }

  /** Any other input with agents shares its text with a different one. */
  lemma OtherReading(x: ScopeInput) returns (y: ScopeInput)
    requires x.path != [] && !(SeparatorFree(x) && |x.path| == 1 && Free(x.path[0], '|'))
    ensures y != x && ScopeText(y) == ScopeText(x)
  {
    hide Free, ScopeText;
    if !SeparatorFree(x) {
      y := SeparatorFreeForm(x);
    } else if |x.path| > 1 {
      y := JoinedAgents(x);
    } else {
      y := SplitAgent(x);
    }
  }

  lemma JoinedAgents(x: ScopeInput) returns (y: ScopeInput)
    requires |x.path| > 1
    ensures y != x && ScopeText(y) == ScopeText(x)
  {
    var a, b, rest := x.path[0], x.path[1], x.path[2..];
    var joined := a + ("," + b);
    y := x.(path := [joined] + rest);
    assert |y.path| < |x.path|;
    assert x.path[1..][1..] == rest && y.path[1..] == rest;
    assert AgentList(x.path) == a + ("," + (b + ("," + AgentList(rest))));
    assert joined + ("," + AgentList(rest)) == a + ("," + (b + ("," + AgentList(rest))));
  }

  lemma SplitAgent(x: ScopeInput) returns (y: ScopeInput)
    requires |x.path| == 1 && !Free(x.path[0], '|')
    ensures y != x && ScopeText(y) == ScopeText(x)
  {
    hide ScopeText;
    assert '|' in x.path[0];
    var a, b := Cut(x.path[0], '|');
    y := ScopeInput(x.policy + ("|" + x.goal), x.parent, a, [b]);
    assert |y.policy| > |x.policy|;
    assert x == ScopeInput(x.policy, x.goal, x.parent, [a + ("|" + b)]);
    SeparatorsCollide(x.policy, x.goal, x.parent, a, b);
  }

  /**
   The digested text tells a routing apart from every other input if and only if there is one agent,
   no field contains a bar and the agent contains no comma.
   */
  lemma AloneExactly(x: ScopeInput)
    requires x.path != []
    ensures Alone(x) <==> SeparatorFree(x) && |x.path| == 1 && Free(x.path[0], '|')
  {
    hide SeparatorFree, ScopeText, Free;
    if SeparatorFree(x) && |x.path| == 1 && Free(x.path[0], '|') {
      forall y | ScopeText(y) == ScopeText(x)
        ensures y == x
      {
        AloneIfPlain(x, y);
      }
    } else {
      var y := OtherReading(x);
    }
  }

  // ---- When revision keeps the wiring ----

  /** The completed steps among the first `n` come before the others. */
  predicate CompletedFirst(completed: seq<nat>, n: nat) {
    forall i, j | 0 <= i < j < n && j in completed :: i in completed
  }

  lemma WiredPrefix(configs: seq<SlotConfig>, n: nat)
    requires Wired(configs) && n <= |configs|
    ensures Wired(configs[..n])
  {
    forall i | 0 <= i < n
      ensures WiredAt(configs[..n], i)
    {
      assert WiredAt(configs, i);
    }
  }

  /** With the completed steps first, the kept configs are a prefix of the plan. */
  lemma {:induction false} KeptPrefix(configs: seq<SlotConfig>, completed: seq<nat>)
    requires Wired(configs) && CompletedFirst(completed, |configs|)
    ensures Kept(configs, completed) <= configs
    ensures forall i | 0 <= i < |configs| :: i in completed <==> i < |Kept(configs, completed)|
  {
    if configs == [] {
    } else {
      var n := |configs| - 1;
      WiredPrefix(configs, n);
      KeptPrefix(configs[..n], completed);
      var kept := Kept(configs[..n], completed);
      assert WiredAt(configs, n);
      if n in completed && n > 0 {
        assert n - 1 in completed;
        assert kept == configs[..n];
      }
    }
  }

  /** Every completed step is kept somewhere. */
  lemma {:induction false} KeptHas(configs: seq<SlotConfig>, completed: seq<nat>, j: nat) returns (k: nat)
    requires j < |configs| && configs[j].stepIndex in completed
    ensures k < |Kept(configs, completed)| && Kept(configs, completed)[k] == configs[j]
  {
    var n := |configs| - 1;
    if j == n {
      k := |Kept(configs[..n], completed)|;
    } else {
      k := KeptHas(configs[..n], completed, j);
    }
  }

  lemma {:induction false} KeptCompleted(configs: seq<SlotConfig>, completed: seq<nat>, k: nat)
    requires k < |Kept(configs, completed)|
    ensures Kept(configs, completed)[k].stepIndex in completed
  {
    var n := |configs| - 1;
    if k < |Kept(configs[..n], completed)| {
      KeptCompleted(configs[..n], completed, k);
    }
  }

  lemma {:induction false} WithoutAffected(agents: seq<string>, affected: seq<string>)
    ensures forall a :: a in Without(agents, affected) <==> a in agents && a !in affected
  {
    if agents == [] {
    } else {
      var n := |agents| - 1;
      WithoutAffected(agents[..n], affected);
      assert agents == agents[..n] + [agents[n]];
    }
  }

  /** `at` lists, in order, exactly the positions that `keep` selects. */
  predicate SelectsExactly(at: seq<nat>, length: nat, keep: set<nat>) {
    && (forall i, j | 0 <= i < j < |at| :: at[i] < at[j])
    && (forall i | 0 <= i < |at| :: at[i] < length && at[i] in keep)
    && (forall p | p in keep && p < length :: p in at)
  }

  function Unaffected(agents: seq<string>, affected: seq<string>): set<nat> {
    set p: nat | p < |agents| && agents[p] !in affected
  }

  /** The remaining agents are the available ones minus the affected, in their order and as often. */
  lemma {:induction false} WithoutSelects(agents: seq<string>, affected: seq<string>) returns (at: seq<nat>)
    ensures SelectsExactly(at, |agents|, Unaffected(agents, affected))
    ensures |at| == |Without(agents, affected)|
    ensures forall i | 0 <= i < |at| :: Without(agents, affected)[i] == agents[at[i]]
  {
    if agents == [] {
      at := [];
    } else {
      var n := |agents| - 1;
      var before := WithoutSelects(agents[..n], affected);
      at := before + if agents[n] in affected then [] else [n];
      forall p | p in Unaffected(agents, affected)
        ensures p in at
      {
        if p < n {
          assert p in Unaffected(agents[..n], affected);
          assert p in before;
        } else {
          assert at[|before|] == n;
        }
      }
    }
  }

  lemma WiredJoin(kept: seq<SlotConfig>, agents: seq<string>, scope: string)
    ensures Wired(kept + Rebuilt(kept, agents, scope)) <==> Wired(kept)
  {
    hide Key;
    var all, tail := kept + Rebuilt(kept, agents, scope), Rebuilt(kept, agents, scope);
    if Wired(kept) {
      forall i | 0 <= i < |all|
        ensures WiredAt(all, i)
      {
        if i < |kept| {
          assert WiredAt(kept, i);
        } else {
          var n := i - |kept|;
          assert all[i] == RebuiltConfig(kept, agents[n], scope, n);
          if n > 0 {
            assert all[i - 1] == RebuiltConfig(kept, agents[n - 1], scope, n - 1);
          } else if i > 0 {
            assert WiredAt(kept, i - 1);
          }
        }
      }
    }
    if Wired(all) {
      WiredPrefix(all, |kept|);
      assert all[..|kept|] == kept;
    }
  }

  /** The revised plan is wired exactly when the completed steps come first. */
  lemma RevisionWiredExactly(current: Plan, request: Request, digest: Digest)
    requires Wired(current.configs) && Revise(current, request, digest).Ok?
    ensures Wired(Revise(current, request, digest).value.configs)
       <==> CompletedFirst(request.completedSteps, |current.configs|)
  {
    hide Rebuilt, ScopeId;
    var completed := request.completedSteps;
    var kept := Kept(current.configs, completed);
    WiredJoin(kept, Without(request.availableAgents, request.affectedAgents), ScopeId(digest, current.planHash));
    if CompletedFirst(completed, |current.configs|) {
      KeptPrefix(current.configs, completed);
      WiredPrefix(current.configs, |kept|);
      assert kept == current.configs[..|kept|];
    }
    if Wired(kept) {
      WiredKeptFirst(current.configs, completed);
    }
  }

  lemma WiredKeptFirst(configs: seq<SlotConfig>, completed: seq<nat>)
    requires Wired(configs) && Wired(Kept(configs, completed))
    ensures CompletedFirst(completed, |configs|)
  {
    hide Kept;
    forall i, j | 0 <= i < j < |configs| && j in completed
      ensures i in completed
    {
      assert WiredAt(configs, j);
      var k := KeptHas(configs, completed, j);
      assert WiredAt(Kept(configs, completed), k);
      KeptCompleted(configs, completed, i);
      assert WiredAt(Kept(configs, completed), i);
    }
  }

  /** A revision is the kept configs followed by one rebuilt step for each agent that is not affected. */
  lemma RevisionShape(current: Plan, request: Request, digest: Digest)
    requires Revise(current, request, digest).Ok?
    ensures var kept := Kept(current.configs, request.completedSteps);
      var all := Revise(current, request, digest).value.configs;
      var scope := ScopeId(digest, current.planHash);
      && kept < all
      && forall i | |kept| <= i < |all| ::
           && all[i].outputKeys == [Key(scope, i)]
           && all[i].agentId in request.availableAgents
           && all[i].agentId !in request.affectedAgents
  {
    hide Key, ScopeId, Kept, Without;
    WithoutAffected(request.availableAgents, request.affectedAgents);
    var agents := Without(request.availableAgents, request.affectedAgents);
    var kept := Kept(current.configs, request.completedSteps);
    var scope := ScopeId(digest, current.planHash);
    var all := Revise(current, request, digest).value.configs;
    assert all == kept + Rebuilt(kept, agents, scope);
    forall i | |kept| <= i < |all|
      ensures all[i].outputKeys == [Key(scope, i)] && all[i].agentId in agents
    {
      assert all[i] == RebuiltConfig(kept, agents[i - |kept|], scope, i - |kept|);
    }
  }

  /** These are the available agents minus the affected ones, in their order and as often. */
  ghost predicate Remaining(agents: seq<string>, request: Request) {
    exists at: seq<nat> ::
      && SelectsExactly(at, |request.availableAgents|, Unaffected(request.availableAgents, request.affectedAgents))
      && |at| == |agents|
      && forall i | 0 <= i < |at| :: agents[i] == request.availableAgents[at[i]]
  }

  /** The steps after the first `m` run the agents of the path, one each and in order. */
  predicate StepsFollowPath(plan: Plan, m: nat) {
    && |plan.configs| == m + |plan.primaryPath|
    && forall i | 0 <= i < |plan.primaryPath| ::
         && plan.configs[m + i].agentId == plan.primaryPath[i]
         && plan.configs[m + i].role == "Synthesizer"
         && plan.configs[m + i].timeoutMs == 30_000
  }

  /** A revision descends from its plan and keeps its ceilings and failback agents. */
  predicate Descends(before: Plan, request: Request, after: Plan) {
    && after.parentPlanHash == before.planHash && after.planHash == request.newHash
    && after.failbackAgents == before.failbackAgents
    && after.maxHops == before.maxHops && after.maxPlanDurationMs == before.maxPlanDurationMs
  }

  /** A revision runs exactly the remaining agents after the kept steps, and fails exactly when none remains. */
  lemma RevisionRunsRemaining(current: Plan, request: Request, digest: Digest)
    ensures Revise(current, request, digest).Err?
       <==> forall a | a in request.availableAgents :: a in request.affectedAgents
    ensures Revise(current, request, digest).Ok? ==>
      var revised := Revise(current, request, digest).value;
      && Remaining(revised.primaryPath, request)
      && StepsFollowPath(revised, |Kept(current.configs, request.completedSteps)|)
      && Descends(current, request, revised)
  {
    hide Key, ScopeId, Kept, Without, Rebuilt, Remaining, StepsFollowPath;
    var agents := Without(request.availableAgents, request.affectedAgents);
    NoneRemain(request);
    if agents != [] {
      RemainingAre(request);
      var kept := Kept(current.configs, request.completedSteps);
      RebuiltFollows(kept, agents, ScopeId(digest, current.planHash), Revise(current, request, digest).value);
    }
  }

  lemma NoneRemain(request: Request)
    ensures Without(request.availableAgents, request.affectedAgents) == []
       <==> forall a | a in request.availableAgents :: a in request.affectedAgents
  {
    hide Without;
    var agents := Without(request.availableAgents, request.affectedAgents);
    WithoutAffected(request.availableAgents, request.affectedAgents);
    if agents != [] {
      assert agents[0] in agents;
    }
  }

  lemma RemainingAre(request: Request)
    ensures Remaining(Without(request.availableAgents, request.affectedAgents), request)
  {
    hide Without, SelectsExactly, Unaffected;
    var at := WithoutSelects(request.availableAgents, request.affectedAgents);
  }

  lemma RebuiltFollows(kept: seq<SlotConfig>, agents: seq<string>, scope: string, plan: Plan)
    requires plan.configs == kept + Rebuilt(kept, agents, scope) && plan.primaryPath == agents
    ensures StepsFollowPath(plan, |kept|)
  {
    hide Key, BridgeKeys;
    forall i | 0 <= i < |agents|
      ensures plan.configs[|kept| + i] == RebuiltConfig(kept, agents[i], scope, i)
    {
      assert Rebuilt(kept, agents, scope)[i] == RebuiltConfig(kept, agents[i], scope, i);
    }
  }

  /** What a wiring revision keeps and rebuilds. */
  lemma RevisionKeeps(current: Plan, request: Request, digest: Digest, scopes: set<string>)
    requires IsDigest(digest) && Wired(current.configs) && Keyed(current.configs, scopes) && ScopeSized(scopes)
    requires CompletedFirst(request.completedSteps, |current.configs|)
    requires Revise(current, request, digest).Ok?
    ensures var revised := Revise(current, request, digest).value;
      var scope := ScopeId(digest, current.planHash);
      var m := |Kept(current.configs, request.completedSteps)|;
      && Wired(revised.configs)
      && Keyed(revised.configs, scopes + {scope}) && ScopeSized(scopes + {scope})
      && m <= |current.configs| && m < |revised.configs|
      && (forall i | 0 <= i < |current.configs| :: i in request.completedSteps <==> i < m)
      && revised.configs[..m] == current.configs[..m]
      && forall i | m <= i < |revised.configs| ::
           && revised.configs[i].outputKeys == [Key(scope, i)]
           && revised.configs[i].agentId in request.availableAgents
           && revised.configs[i].agentId !in request.affectedAgents
  {
    hide Key, ScopeId, Kept, Revise, Wired, CompletedFirst, Keyed, IsDigest;
    RevisionWiredExactly(current, request, digest);
    KeptPrefix(current.configs, request.completedSteps);
    RevisionShape(current, request, digest);
    var m := |Kept(current.configs, request.completedSteps)|;
    KeyedJoin(current.configs, Revise(current, request, digest).value.configs, m, scopes,
      ScopeId(digest, current.planHash));
    ScopeLength(digest, current.planHash);
  }

  lemma ScopeLength(digest: Digest, text: string)
    requires IsDigest(digest)
    ensures |ScopeId(digest, text)| == SCOPE_LENGTH && ScopeId(digest, text) <= digest(text)
  {
  }

  lemma KeyedJoin(before: seq<SlotConfig>, after: seq<SlotConfig>, m: nat, scopes: set<string>, scope: string)
    requires Keyed(before, scopes) && m <= |before| && m <= |after|
    requires forall i | 0 <= i < m :: after[i] == before[i]
    requires forall i | m <= i < |after| :: after[i].outputKeys == [Key(scope, i)]
    ensures Keyed(after, scopes + {scope})
  {
  }

  // ---- Chains of revisions ----

  /** Every revision in the chain succeeds, finds its completed steps first, and gets a new scope id. */
  predicate Orderly(plan: Plan, requests: seq<Request>, digest: Digest, scopes: set<string>)
    decreases |requests|
  {
    requests != [] ==>
      var scope := ScopeId(digest, plan.planHash);
      var r := Revise(plan, requests[0], digest);
      && CompletedFirst(requests[0].completedSteps, |plan.configs|)
      && scope !in scopes
      && r.Ok?
      && Orderly(r.value, requests[1..], digest, scopes + {scope})
  }

  /** The plan and its successors along the chain. */
  function Stages(plan: Plan, requests: seq<Request>, digest: Digest): (r: seq<Plan>)
    ensures r != [] && r[0] == plan
    decreases |requests|
  {
    if requests == [] || Revise(plan, requests[0], digest).Err? then [plan]
    else [plan] + Stages(Revise(plan, requests[0], digest).value, requests[1..], digest)
  }

  predicate DistinctOutputs(configs: seq<SlotConfig>) {
    forall i, j | 0 <= i < j < |configs| :: configs[i].outputKeys != configs[j].outputKeys
  }

  /**
   The completed steps stay as they were, all others run the remaining agents in order, and the rest
   of the plan is inherited.
   */
  ghost predicate StageKeeps(before: Plan, request: Request, after: Plan) {
    var m := |Kept(before.configs, request.completedSteps)|;
    && Remaining(after.primaryPath, request) && StepsFollowPath(after, m) && Descends(before, request, after)
    && m <= |before.configs| && m < |after.configs|
    && (forall i | 0 <= i < |before.configs| :: i in request.completedSteps <==> i < m)
    && (forall i | 0 <= i < m :: after.configs[i] == before.configs[i])
    && forall i | m <= i < |after.configs| ::
         after.configs[i].agentId in request.availableAgents && after.configs[i].agentId !in request.affectedAgents
  }

  /** The blackboard keys written by the plan's steps from `from` on, then by each revision's rebuilt steps. */
  function KeysWritten(plan: Plan, from: nat, requests: seq<Request>, digest: Digest): seq<seq<string>>
    decreases |requests|
  {
    [KeysFrom(plan.configs, from)] +
    if requests == [] || Revise(plan, requests[0], digest).Err? then []
    else
      KeysWritten(Revise(plan, requests[0], digest).value, |Kept(plan.configs, requests[0].completedSteps)|,
        requests[1..], digest)
  }

  function KeysFrom(configs: seq<SlotConfig>, from: nat): seq<string> {
    if from >= |configs| then []
    else seq(|configs| - from, i requires 0 <= i < |configs| - from => OutputKey(configs[from + i]))
  }

  function OutputKey(c: SlotConfig): string {
    if c.outputKeys == [] then "" else c.outputKeys[0]
  }

  /** Those are the output keys of exactly these steps. */
  lemma KeysFromExactly(configs: seq<SlotConfig>, from: nat, key: string)
    requires forall i | from <= i < |configs| :: |configs[i].outputKeys| == 1
    ensures key in KeysFrom(configs, from) <==> exists i :: from <= i < |configs| && configs[i].outputKeys == [key]
  {
    hide OutputKey;
    var keys := KeysFrom(configs, from);
    forall i: nat | from <= i < |configs|
      ensures i - from < |keys| && (keys[i - from] == key <==> configs[i].outputKeys == [key])
    {
      KeyAt(configs, from, i - from, key);
    }
    if key in keys {
      var n :| 0 <= n < |keys| && keys[n] == key;
      KeyAt(configs, from, n, key);
      assert configs[from + n].outputKeys == [key];
    }
  }

  lemma KeyAt(configs: seq<SlotConfig>, from: nat, n: nat, key: string)
    requires from + n < |configs| && |configs[from + n].outputKeys| == 1
    ensures n < |KeysFrom(configs, from)|
    ensures KeysFrom(configs, from)[n] == key <==> configs[from + n].outputKeys == [key]
  {
    var c := configs[from + n];
    assert KeysFrom(configs, from)[n] == OutputKey(c) == c.outputKeys[0];
    if c.outputKeys[0] == key {
      assert c.outputKeys == [key];
    }
  }

  /** Keys of the given scopes, for any step. */
  ghost predicate OfScopes(key: string, scopes: set<string>) {
    exists s, i: nat :: s in scopes && key == Key(s, i)
  }

  /** No key is written at two places of the chain. */
  predicate WrittenOnce(keys: seq<seq<string>>) {
    forall m, n, key | 0 <= m < n < |keys| && key in keys[m] :: key !in keys[n]
  }

  /** Every stage of an orderly chain is wired, with distinct outputs. */
  lemma {:induction false} ChainStaysWired(plan: Plan, requests: seq<Request>, digest: Digest, scopes: set<string>)
    requires IsDigest(digest) && Orderly(plan, requests, digest, scopes)
    requires Wired(plan.configs) && Keyed(plan.configs, scopes) && ScopeSized(scopes)
    ensures var stages := Stages(plan, requests, digest);
      && |stages| == |requests| + 1
      && (forall n | 0 <= n <= |requests| :: Wired(stages[n].configs) && DistinctOutputs(stages[n].configs))
      && (forall n | 0 <= n < |requests| :: StageKeeps(stages[n], requests[n], stages[n + 1]))
    decreases |requests|
  {
    hide Key, ScopeId, Wired, Revise, OfScopes, IsDigest, Kept, Keyed, ScopeSized, StageKeeps, DistinctOutputs,
      CompletedFirst;
    KeyedDistinct(plan.configs, scopes);
    if requests == [] {
    } else {
      var scope := ScopeId(digest, plan.planHash);
      var next := Revise(plan, requests[0], digest).value;
      RevisionStage(plan, requests[0], digest, scopes);
      ChainStaysWired(next, requests[1..], digest, scopes + {scope});
      var stages := Stages(plan, requests, digest);
      forall n | 0 <= n < |requests|
        ensures StageKeeps(stages[n], requests[n], stages[n + 1])
      {
        if n > 0 {
          assert stages[n] == Stages(next, requests[1..], digest)[n - 1] && requests[n] == requests[1..][n - 1];
        }
      }
    }
  }

  lemma KeyedDistinct(configs: seq<SlotConfig>, scopes: set<string>)
    requires Keyed(configs, scopes) && ScopeSized(scopes)
    ensures DistinctOutputs(configs)
  {
    hide Keyed, ScopeSized;
    forall i, j | 0 <= i < j < |configs|
      ensures configs[i].outputKeys != configs[j].outputKeys
    {
      OutputsDistinct(configs, scopes, i, j);
    }
  }

  lemma RevisionStage(plan: Plan, request: Request, digest: Digest, scopes: set<string>)
    requires IsDigest(digest) && Wired(plan.configs) && Keyed(plan.configs, scopes) && ScopeSized(scopes)
    requires CompletedFirst(request.completedSteps, |plan.configs|)
    requires Revise(plan, request, digest).Ok?
    ensures var next, scope := Revise(plan, request, digest).value, ScopeId(digest, plan.planHash);
      && Wired(next.configs) && Keyed(next.configs, scopes + {scope}) && ScopeSized(scopes + {scope})
      && StageKeeps(plan, request, next)
      && forall i | |Kept(plan.configs, request.completedSteps)| <= i < |next.configs| ::
           next.configs[i].outputKeys == [Key(scope, i)]
  {
    hide Key, ScopeId, Kept, Revise, Wired, Keyed, IsDigest, CompletedFirst, ScopeSized, Remaining, StepsFollowPath,
      Descends;
    RevisionKeeps(plan, request, digest, scopes);
    RevisionRunsRemaining(plan, request, digest);
    var m := |Kept(plan.configs, request.completedSteps)|;
    var next := Revise(plan, request, digest).value;
    forall i | 0 <= i < m
      ensures next.configs[i] == plan.configs[i]
    {
      assert next.configs[..m][i] == plan.configs[..m][i];
    }
  }

  /** Along an orderly chain no key is ever written twice, and revisions write no key of a scope in use before. */
  lemma {:induction false} ChainNeverOverwrites(plan: Plan, requests: seq<Request>, digest: Digest, scopes: set<string>,
                                                from: nat, earlier: set<string>, scope: string)
    requires IsDigest(digest) && Orderly(plan, requests, digest, scopes)
    requires Wired(plan.configs) && Keyed(plan.configs, scopes) && ScopeSized(scopes)
    requires scopes == earlier + {scope} && scope !in earlier
    requires forall i | from <= i < |plan.configs| :: plan.configs[i].outputKeys == [Key(scope, i)]
    ensures WrittenOnce(KeysWritten(plan, from, requests, digest))
    ensures forall n, key | 0 <= n < |KeysWritten(plan, from, requests, digest)|
                         && key in KeysWritten(plan, from, requests, digest)[n] :: !OfScopes(key, earlier)
    decreases |requests|
  {
    hide Key, ScopeId, Wired, Revise, OfScopes, IsDigest, Keyed, Kept, StageKeeps, KeysFrom, CompletedFirst;
    KeysFresh(plan.configs, from, scope, earlier);
    if requests == [] {
    } else {
      var next, newScope := Revise(plan, requests[0], digest).value, ScopeId(digest, plan.planHash);
      var kept := |Kept(plan.configs, requests[0].completedSteps)|;
      RevisionStage(plan, requests[0], digest, scopes);
      ChainNeverOverwrites(next, requests[1..], digest, scopes + {newScope}, kept, scopes, newScope);
      KeysStayFresh(KeysFrom(plan.configs, from), KeysWritten(next, kept, requests[1..], digest), scope, earlier);
    }
  }

  /**
   From routing through any orderly chain of revisions: every stage is wired with distinct outputs,
   completed configs are kept verbatim, rebuilt steps use available, unaffected agents, and no
   blackboard key is ever written twice, the routed plan's own keys included.
   */
  lemma RoutedChain(contract: Contract, agents: seq<string>, parentHash: Option<string>, digest: Digest,
                    planHash: string, requests: seq<Request>)
    requires IsDigest(digest) && Compute(contract, agents, parentHash, digest, planHash).Ok?
    requires var plan := Compute(contract, agents, parentHash, digest, planHash).value;
      Orderly(plan, requests, digest, {PlanScopeId(digest, contract, plan.primaryPath, plan.parentPlanHash)})
    ensures var plan := Compute(contract, agents, parentHash, digest, planHash).value;
      var stages := Stages(plan, requests, digest);
      && |stages| == |requests| + 1
      && (forall n | 0 <= n <= |requests| :: Wired(stages[n].configs) && DistinctOutputs(stages[n].configs))
      && (forall n | 0 <= n < |requests| :: StageKeeps(stages[n], requests[n], stages[n + 1]))
      && WrittenOnce(KeysWritten(plan, 0, requests, digest))
  {
    hide IsDigest, Orderly, Wired, Keyed, Key, ScopeSized, PlanScopeId, StageKeeps, DistinctOutputs, WrittenOnce,
      KeysWritten, Stages, RoutedConfig;
    ComputeWires(contract, agents, parentHash, digest, planHash);
    var plan := Compute(contract, agents, parentHash, digest, planHash).value;
    var scope := PlanScopeId(digest, contract, plan.primaryPath, plan.parentPlanHash);
    assert {} + {scope} == {scope};
    RoutedKeys(plan.primaryPath, scope, plan.configs);
    ChainStaysWired(plan, requests, digest, {scope});
    ChainNeverOverwrites(plan, requests, digest, {scope}, 0, {}, scope);
  }

  lemma RoutedKeys(path: seq<string>, scope: string, configs: seq<SlotConfig>)
    requires |configs| == |path| && forall i | 0 <= i < |path| :: configs[i] == RoutedConfig(path, scope, i)
    ensures forall i | 0 <= i < |configs| :: configs[i].outputKeys == [Key(scope, i)]
  {
  }

  /** A revision that lists only the second step of a wired plan as completed leaves it unwired. */
  lemma LaterStepAloneUnwires(current: Plan, request: Request, digest: Digest)
    requires Wired(current.configs) && |current.configs| == 2 && request.completedSteps == [1]
    requires Revise(current, request, digest).Ok?
    ensures !Wired(Revise(current, request, digest).value.configs)
  {
    hide Wired, Revise;
    RevisionWiredExactly(current, request, digest);
    assert 1 in request.completedSteps && 0 !in request.completedSteps;
  }

  lemma KeysStayFresh(first: seq<string>, rest: seq<seq<string>>, scope: string, scopes: set<string>)
    requires forall key | key in first :: !OfScopes(key, scopes) && OfScopes(key, scopes + {scope})
    requires forall n, key | 0 <= n < |rest| && key in rest[n] :: !OfScopes(key, scopes + {scope})
    requires WrittenOnce(rest)
    ensures var all := [first] + rest;
      && (forall n, key | 0 <= n < |all| && key in all[n] :: !OfScopes(key, scopes))
      && WrittenOnce(all)
  {
    hide OfScopes;
    var all := [first] + rest;
    forall n, key | 0 <= n < |all| && key in all[n]
      ensures !OfScopes(key, scopes)
    {
      if n > 0 {
        assert all[n] == rest[n - 1];
        MoreScopes(key, scopes, scope);
      }
    }
    forall m, n, key | 0 <= m < n < |all| && key in all[m]
      ensures key !in all[n]
    {
      assert all[n] == rest[n - 1];
      if m > 0 {
        assert all[m] == rest[m - 1];
      }
    }
  }

  lemma MoreScopes(key: string, scopes: set<string>, scope: string)
    ensures OfScopes(key, scopes) ==> OfScopes(key, scopes + {scope})
  {
  }

  lemma KeysFresh(configs: seq<SlotConfig>, from: nat, scope: string, scopes: set<string>)
    requires forall i | from <= i < |configs| :: configs[i].outputKeys == [Key(scope, i)]
    requires |scope| == SCOPE_LENGTH && ScopeSized(scopes) && scope !in scopes
    ensures forall key | key in KeysFrom(configs, from) :: !OfScopes(key, scopes) && OfScopes(key, scopes + {scope})
  {
    hide Key, OfScopes;
    forall key | key in KeysFrom(configs, from)
      ensures !OfScopes(key, scopes) && OfScopes(key, scopes + {scope})
    {
      var n :| 0 <= n < |configs| - from && key == KeysFrom(configs, from)[n];
      OutputKeyIs(configs[from + n], Key(scope, from + n));
      NewScopeKey(scope, from + n, scopes);
    }
  }

  lemma OutputKeyIs(c: SlotConfig, key: string)
    requires c.outputKeys == [key]
    ensures OutputKey(c) == key
  {
  }

  lemma NewScopeKey(scope: string, step: nat, scopes: set<string>)
    requires |scope| == SCOPE_LENGTH && ScopeSized(scopes) && scope !in scopes
    ensures !OfScopes(Key(scope, step), scopes) && OfScopes(Key(scope, step), scopes + {scope})
  {
    hide Key;
    assert scope in scopes + {scope};
    if OfScopes(Key(scope, step), scopes) {
      var s, i: nat :| s in scopes && Key(scope, step) == Key(s, i);
      KeyInjective(s, i, scope, step);
      assert false;
    }
  }
}
