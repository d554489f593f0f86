/**
 The intent compiler's bilingual keyword classifier (crates/coevo-mcl/src/compiler.rs, lines 138-619).
 `lowerChar` stands for the lowercase mapping of a single character.
 */
module Intent {
  import opened Prelude
  import opened Text

  // ---- Concepts ----

  datatype Concept =
    | Read | Write | Delete | Deploy | Production | Staging | Database | File
    | Payment | CustomerData | EmailNotify | Shell | ExternalApi

  function EnglishTerms(c: Concept): seq<string> {
    match c
    case Read => ["read", "readonly", "read-only", "query", "analyze", "analyse", "analysis", "summarize",
      "summarise", "summary", "retrieve", "search", "view", "inspect", "fetch", "list"]
    case Write => ["write", "create", "modify", "update", "edit", "generate", "add", "insert", "append", "patch"]
    case Delete => ["delete", "remove", "drop", "purge", "clear", "truncate", "wipe"]
    case Deploy => ["deploy", "release", "publish", "ship", "rollout", "roll out", "rollback", "roll back", "canary"]
    case Production => ["production", "prod", "live", "live env"]
    case Staging => ["staging", "stage", "test env", "test environment", "sandbox", "preprod", "pre-prod",
      "pre-release"]
    case Database => ["database", "db", "sql", "table", "schema"]
    case File => ["file", "directory", "folder", "storage", "filesystem"]
    case Payment => ["payment", "pay", "transfer", "refund", "billing", "invoice", "charge", "payout"]
    case CustomerData => ["customer data", "user data", "personal info", "personal information", "privacy", "pii"]
    case EmailNotify => ["email", "e-mail", "notify", "notification", "broadcast", "alert"]
    case Shell => ["shell", "command", "script", "terminal", "bash", "cmd", "run command"]
    case ExternalApi => ["call api", "external api", "api", "endpoint", "http request", "rest", "webhook"]
  }

  function ChineseTerms(c: Concept): seq<string> {
    match c
    case Read => ["读", "读取", "查看", "分析", "总结", "查询", "检索"]
    case Write => ["写", "写入", "修改", "创建", "新建", "编辑", "生成"]
    case Delete => ["删", "删除", "移除", "清空", "清除"]
    case Deploy => ["部署", "发布", "上线", "灰度"]
    case Production => ["生产", "线上", "正式环境"]
    case Staging => ["预发", "测试环境", "沙箱"]
    case Database => ["数据库", "库表", "sql"]
    case File => ["文件", "目录", "文件夹"]
    case Payment => ["支付", "付款", "转账", "退款", "账单"]
    case CustomerData => ["客户数据", "用户数据", "个人信息", "隐私"]
    case EmailNotify => ["邮件", "发邮件", "通知", "群发"]
    case Shell => ["命令", "脚本", "终端", "执行命令"]
    case ExternalApi => ["调用接口", "api", "请求"]
  }

  const HIGH_EN: seq<string> := ["high risk", "dangerous", "critical"]
  const HIGH_ZH: seq<string> := ["高风险", "危险", "严重", "紧急"]
  const MEDIUM_EN: seq<string> := ["medium risk", "moderate"]
  const MEDIUM_ZH: seq<string> := ["中风险", "谨慎"]

  function Lower(s: string, lowerChar: char -> string): string {
    if s == "" then "" else Lower(s[..|s| - 1], lowerChar) + lowerChar(s[|s| - 1])
  }

  predicate AnyTerm(terms: seq<string>, text: string) {
    exists i | 0 <= i < |terms| :: Find(text, terms[i]).Some?
  }

  /** A term of either language occurs: English in the lowercased text, Chinese in the raw text. */
  predicate Mentions(en: seq<string>, zh: seq<string>, lower: string, raw: string) {
    AnyTerm(en, lower) || AnyTerm(zh, raw)
  }

  predicate ConceptMatches(c: Concept, lower: string, raw: string) {
    Mentions(EnglishTerms(c), ChineseTerms(c), lower, raw)
  }

  // ---- Words ----

  predicate IsCjk(c: char) {
    var n := c as int;
    || 0x3400 <= n <= 0x4DBF || 0x4E00 <= n <= 0x9FFF || 0xF900 <= n <= 0xFAFF
    || 0x2_0000 <= n <= 0x2_A6DF || 0x2_A700 <= n <= 0x2_EBEF
  }

  function CjkCharCount(s: string): nat {
    if s == "" then 0 else CjkCharCount(s[..|s| - 1]) + if IsCjk(s[|s| - 1]) then 1 else 0
  }

  /** `split_whitespace`, one character at a time: a word grows until white space follows it. */
  function SplitWhitespace(s: string): (words: seq<string>)
    ensures s != "" && !IsWhite(s[|s| - 1]) ==> words != []
  {
    if s == "" then []
    else
      var init, c := s[..|s| - 1], s[|s| - 1];
      var words := SplitWhitespace(init);
      if IsWhite(c) then words
      else if init == "" || IsWhite(init[|init| - 1]) then words + [[c]]
      else words[..|words| - 1] + [words[|words| - 1] + [c]]
  }

  predicate NotPurelyCjk(word: string) {
    exists i | 0 <= i < |word| :: !IsCjk(word[i])
  }

  function CountOther(words: seq<string>): nat {
    if words == [] then 0
    else CountOther(words[..|words| - 1]) + if NotPurelyCjk(words[|words| - 1]) then 1 else 0
  }

  function EffectiveWordCount(intent: string): nat {
    CountOther(SplitWhitespace(intent)) + (CjkCharCount(intent) + 1) / 2
  }

  // ---- Parsing ----

  datatype ParsedIntent = ParsedIntent(
    objective: string,
    environment: string,
    riskLevel: string,
    ambiguity: real,
    actions: seq<string>,
    dataDomains: seq<string>)

  datatype CompileError = EmptyIntent | AmbiguityTooHigh(score: real)

  /** Which concepts and risk markers a text expresses. */
  datatype Findings = Findings(concepts: set<Concept>, explicitHigh: bool, explicitMedium: bool)

  function AllConcepts(): set<Concept> {
    {Read, Write, Delete, Deploy, Production, Staging, Database, File, Payment, CustomerData, EmailNotify, Shell,
      ExternalApi}
  }

  function Detect(lower: string, raw: string): Findings {
    Findings(
      (set c | c in AllConcepts() && ConceptMatches(c, lower, raw)),
      Mentions(HIGH_EN, HIGH_ZH, lower, raw),
      Mentions(MEDIUM_EN, MEDIUM_ZH, lower, raw))
  }

  function Environment(f: Findings): string {
    if Production in f.concepts then "production" else if Staging in f.concepts then "staging" else "development"
  }

  function RiskLevel(f: Findings): string {
    var mutating := Write in f.concepts || Deploy in f.concepts || Delete in f.concepts;
    if Delete in f.concepts || Payment in f.concepts || CustomerData in f.concepts
       || (mutating && Production in f.concepts) || f.explicitHigh then "high"
    else if Write in f.concepts || Deploy in f.concepts || Shell in f.concepts || Staging in f.concepts
            || f.explicitMedium then "medium"
    else "low"
  }

  predicate HasAction(f: Findings) {
    Read in f.concepts || Write in f.concepts || Delete in f.concepts || Deploy in f.concepts
  }

  function Ambiguity(f: Findings, words: nat): real {
    if !HasAction(f) then 0.8 else if words < 3 then 0.5 else if words < 8 then 0.35 else 0.2
  }

  /** `if condition { items.push(item) }` */
  function Push(items: seq<string>, condition: bool, item: string): seq<string> {
    if condition then items + [item] else items
  }

  function Actions(f: Findings): seq<string> {
    var read := Push([], Read in f.concepts, "DRAFT_ONLY");
    var write := Push(read, Write in f.concepts, "MUTABLE_WRITE");
    var found := Push(write, Deploy in f.concepts || Delete in f.concepts, "COMMIT_READY");
    if found == [] then ["DRAFT_ONLY"] else found
  }

  function DataDomains(f: Findings): seq<string> {
    var d0 := ["urn:coevo:data:default"];
    var d1 := Push(d0, Database in f.concepts, "urn:coevo:data:database");
    var d2 := Push(d1, File in f.concepts, "urn:coevo:data:filesystem");
    var d3 := Push(d2, Payment in f.concepts, "urn:coevo:data:payment");
    var d4 := Push(d3, CustomerData in f.concepts, "urn:coevo:data:customer");
    var d5 := Push(d4, EmailNotify in f.concepts || ExternalApi in f.concepts, "urn:coevo:data:network");
    Push(d5, Shell in f.concepts, "urn:coevo:data:shell")
  }

  function Classify(intent: string, f: Findings, words: nat): ParsedIntent {
    ParsedIntent(intent, Environment(f), RiskLevel(f), Ambiguity(f, words), Actions(f), DataDomains(f))
  }

  function Parse(intent: string, lowerChar: char -> string): Result<ParsedIntent, CompileError> {
    var raw := Trim(intent);
    if raw == "" then Err(EmptyIntent)
    else Ok(Classify(intent, Detect(Lower(raw, lowerChar), raw), EffectiveWordCount(raw)))
  }

  method ParseIntent(intent: string, lowerChar: char -> string) returns (r: Result<ParsedIntent, CompileError>)
    ensures r == Parse(intent, lowerChar)
  {
    hide Trim, Lower, Detect, EffectiveWordCount, Actions, DataDomains, RiskLevel, Ambiguity;
    var raw := Trim(intent);
    if raw == "" {
      return Err(EmptyIntent);
    }
    var f := Detect(Lower(raw, lowerChar), raw);
    var environment := Environment(f);
    var riskLevel := RiskLevel(f);
    var actions := PushActions(f);
    var dataDomains := PushDomains(f);
    var score := Ambiguity(f, EffectiveWordCount(raw));
    return Ok(ParsedIntent(intent, environment, riskLevel, score, actions, dataDomains));
  }

  method PushActions(f: Findings) returns (actions: seq<string>)
    ensures actions == Actions(f)
  {
    actions := [];
    if Read in f.concepts {
      actions := actions + ["DRAFT_ONLY"];
    }
    if Write in f.concepts {
      actions := actions + ["MUTABLE_WRITE"];
    }
    if Deploy in f.concepts || Delete in f.concepts {
      actions := actions + ["COMMIT_READY"];
    }
    if actions == [] {
      actions := ["DRAFT_ONLY"];
    }
  }

  method PushDomains(f: Findings) returns (dataDomains: seq<string>)
    ensures dataDomains == DataDomains(f)
  {
    var has := f.concepts;
    dataDomains := ["urn:coevo:data:default"];
    if Database in has {
      dataDomains := dataDomains + ["urn:coevo:data:database"];
    }
    if File in has {
      dataDomains := dataDomains + ["urn:coevo:data:filesystem"];
    }
    if Payment in has {
      dataDomains := dataDomains + ["urn:coevo:data:payment"];
    }
    if CustomerData in has {
      dataDomains := dataDomains + ["urn:coevo:data:customer"];
    }
    if EmailNotify in has || ExternalApi in has {
      dataDomains := dataDomains + ["urn:coevo:data:network"];
    }
    if Shell in has {
      dataDomains := dataDomains + ["urn:coevo:data:shell"];
    }
  }

  // ---- Compiling ----

  datatype ApprovalMode = ExplicitApproval | NegativeConsent

  datatype ActionMode = DraftOnly | MutableWrite | CommitReady

  datatype Contract = Contract(
    dataBoundary: seq<string>,
    actionModes: seq<ActionMode>,
    approvalMode: ApprovalMode,
    maxRiskScore: real,
    allowEmergencyLease: bool,
    ambiguity: real)

  function ActionModes(actions: seq<string>): seq<ActionMode> {
    if actions == [] then []
    else
      ActionModes(actions[..|actions| - 1]) +
      var last := actions[|actions| - 1];
      if last == "DRAFT_ONLY" then [DraftOnly]
      else if last == "MUTABLE_WRITE" then [MutableWrite]
      else if last == "COMMIT_READY" then [CommitReady]
      else []
  }

  function InferApproval(p: ParsedIntent): ApprovalMode {
    if p.riskLevel == "high" then ExplicitApproval else NegativeConsent
  }

  function InferMaxRisk(p: ParsedIntent): real {
    if p.riskLevel == "high" then 0.9 else if p.riskLevel == "medium" then 0.6 else 0.3
  }

  /** The compiler up to the optional policy engine. */
  function Compile(intent: string, lowerChar: char -> string): Result<Contract, CompileError> {
    match Parse(intent, lowerChar)
    case Err(e) => Err(e)
    case Ok(p) =>
      if p.ambiguity > 0.7 then Err(AmbiguityTooHigh(p.ambiguity))
      else Ok(Contract(p.dataDomains, ActionModes(p.actions), InferApproval(p), InferMaxRisk(p),
        p.riskLevel == "high", p.ambiguity))
  }

  // ---- Appending text ----

  lemma FindMono(s: string, t: string, p: string)
    requires s <= t && Find(s, p).Some?
    ensures Find(t, p).Some?
  {
    OccursInPrefix(s, t, p, Find(s, p).value);
    assert Contains(t, p);
  }

  lemma AnyTermMono(terms: seq<string>, s: string, t: string)
    requires s <= t && AnyTerm(terms, s)
    ensures AnyTerm(terms, t)
  {
    hide Find;
    var i :| 0 <= i < |terms| && Find(s, terms[i]).Some?;
    FindMono(s, t, terms[i]);
  }

  lemma MentionsMono(en: seq<string>, zh: seq<string>, lower: string, raw: string, lower': string, raw': string)
    requires lower <= lower' && raw <= raw' && Mentions(en, zh, lower, raw)
    ensures Mentions(en, zh, lower', raw')
  {
    hide AnyTerm;
    if AnyTerm(en, lower) {
      AnyTermMono(en, lower, lower');
    } else {
      AnyTermMono(zh, raw, raw');
    }
  }

  lemma {:induction false} LowerMono(s: string, t: string, lowerChar: char -> string)
    requires s <= t
    ensures Lower(s, lowerChar) <= Lower(t, lowerChar)
    decreases |t|
  {
    if |s| < |t| {
      LowerMono(s, t[..|t| - 1], lowerChar);
    } else {
      assert s == t;
    }
  }

  /** Everything found stays found. */
  ghost predicate Finds(f: Findings, g: Findings) {
    f.concepts <= g.concepts && (f.explicitHigh ==> g.explicitHigh) && (f.explicitMedium ==> g.explicitMedium)
  }

  lemma DetectMono(lower: string, raw: string, lower': string, raw': string)
    requires lower <= lower' && raw <= raw'
    ensures Finds(Detect(lower, raw), Detect(lower', raw'))
  {
    hide Mentions, EnglishTerms, ChineseTerms, AllConcepts;
    forall c | c in AllConcepts() && ConceptMatches(c, lower, raw)
      ensures ConceptMatches(c, lower', raw')
    {
      MentionsMono(EnglishTerms(c), ChineseTerms(c), lower, raw, lower', raw');
    }
    if Mentions(HIGH_EN, HIGH_ZH, lower, raw) {
      MentionsMono(HIGH_EN, HIGH_ZH, lower, raw, lower', raw');
    }
    if Mentions(MEDIUM_EN, MEDIUM_ZH, lower, raw) {
      MentionsMono(MEDIUM_EN, MEDIUM_ZH, lower, raw, lower', raw');
    }
  }

  lemma GrownWord(word: string, c: char)
    requires NotPurelyCjk(word)
    ensures NotPurelyCjk(word + [c])
  {
    var i :| 0 <= i < |word| && !IsCjk(word[i]);
    assert (word + [c])[i] == word[i];
  }

  /** One more character never lowers the count: it is ignored, starts a word, or grows the last word. */
  lemma CountStep(s: string, c: char)
    ensures CountOther(SplitWhitespace(s)) <= CountOther(SplitWhitespace(s + [c]))
  {
    hide IsWhite, IsCjk, NotPurelyCjk;
    var words, words' := SplitWhitespace(s), SplitWhitespace(s + [c]);
    assert (s + [c])[..|s|] == s;
    if IsWhite(c) {
    } else if s == "" || IsWhite(s[|s| - 1]) {
      assert words'[..|words|] == words;
    } else {
      var n := |words| - 1;
      assert words'[..n] == words[..n];
      if NotPurelyCjk(words[n]) {
        GrownWord(words[n], c);
      }
    }
  }

  lemma {:induction false} WordCountMono(s: string, t: string)
    requires s <= t
    ensures CountOther(SplitWhitespace(s)) <= CountOther(SplitWhitespace(t))
    ensures CjkCharCount(s) <= CjkCharCount(t)
    decreases |t|
  {
    hide IsWhite, IsCjk, SplitWhitespace;
    if |s| < |t| {
      var init := t[..|t| - 1];
      WordCountMono(s, init);
      CountStep(init, t[|t| - 1]);
      assert t == init + [t[|t| - 1]];
    } else {
      assert s == t;
    }
  }

  function RiskRank(riskLevel: string): nat {
    if riskLevel == "high" then 2 else if riskLevel == "medium" then 1 else 0
  }

  function EnvironmentRank(environment: string): nat {
    if environment == "production" then 2 else if environment == "staging" then 1 else 0
  }

  /** The ranks follow the order in which risk levels and environments grow stricter. */
  lemma RanksRise()
    ensures RiskRank("low") < RiskRank("medium") < RiskRank("high")
    ensures EnvironmentRank("development") < EnvironmentRank("staging") < EnvironmentRank("production")
  {
  }

  lemma ClassifyMono(intent: string, intent': string, f: Findings, g: Findings, words: nat, words': nat)
    requires Finds(f, g) && words <= words'
    ensures var p, q := Classify(intent, f, words), Classify(intent', g, words');
      && RiskRank(p.riskLevel) <= RiskRank(q.riskLevel)
      && EnvironmentRank(p.environment) <= EnvironmentRank(q.environment)
      && q.ambiguity <= p.ambiguity
      && (forall d | d in p.dataDomains :: d in q.dataDomains)
      && (HasAction(f) ==> forall a | a in p.actions :: a in q.actions)
  {
  }

  /** Appending text to an intent with content never lowers risk or environment and never raises the ambiguity. */
  lemma AppendingOnlyTightens(intent: string, suffix: string, lowerChar: char -> string)
    requires !Blank(intent)
    ensures Parse(intent, lowerChar).Ok? && Parse(intent + suffix, lowerChar).Ok?
    ensures var p, q := Parse(intent, lowerChar).value, Parse(intent + suffix, lowerChar).value;
      && RiskRank(p.riskLevel) <= RiskRank(q.riskLevel)
      && EnvironmentRank(p.environment) <= EnvironmentRank(q.environment)
      && q.ambiguity <= p.ambiguity
      && (forall d | d in p.dataDomains :: d in q.dataDomains)
      && (p.ambiguity <= 0.7 ==> forall a | a in p.actions :: a in q.actions)
  {
    hide Detect, Lower, Trim, SplitWhitespace, CountOther, CjkCharCount, Blank, IsWhite,
      Actions, DataDomains, RiskLevel, Environment;
    var raw, raw' := Trim(intent), Trim(intent + suffix);
    TrimEmpty(intent);
    TrimAppend(intent, suffix);
    LowerMono(raw, raw', lowerChar);
    DetectMono(Lower(raw, lowerChar), raw, Lower(raw', lowerChar), raw');
    WordCountMono(raw, raw');
    ClassifyMono(intent, intent + suffix,
      Detect(Lower(raw, lowerChar), raw), Detect(Lower(raw', lowerChar), raw'),
      EffectiveWordCount(raw), EffectiveWordCount(raw'));
  }

  lemma {:induction false} ActionModesMono(actions: seq<string>, actions': seq<string>, m: ActionMode)
    requires (forall a | a in actions :: a in actions') && m in ActionModes(actions)
    ensures m in ActionModes(actions')
    decreases |actions|
  {
    var n := |actions| - 1;
    if m in ActionModes(actions[..n]) {
      ActionModesMono(actions[..n], actions', m);
    } else {
      assert actions[n] in actions;
      var i :| 0 <= i < |actions'| && actions'[i] == actions[n];
      ActionModeOf(actions', i, m);
    }
  }

  lemma {:induction false} ActionModeOf(actions: seq<string>, i: nat, m: ActionMode)
    requires i < |actions|
    requires m == if actions[i] == "DRAFT_ONLY" then DraftOnly
                  else if actions[i] == "MUTABLE_WRITE" then MutableWrite else CommitReady
    requires actions[i] == "DRAFT_ONLY" || actions[i] == "MUTABLE_WRITE" || actions[i] == "COMMIT_READY"
    ensures m in ActionModes(actions)
    decreases |actions|
  {
    if i < |actions| - 1 {
      ActionModeOf(actions[..|actions| - 1], i, m);
    }
  }

  /**
   An intent that compiles still compiles with text appended, and the contract never gets looser on
   approval: explicit approval stays, the risk ceiling does not drop, no data domain is forgotten.
   */
  lemma CompiledStaysStrict(intent: string, suffix: string, lowerChar: char -> string)
    ensures Compile(intent, lowerChar).Ok? ==>
      && Compile(intent + suffix, lowerChar).Ok?
      && var c, d := Compile(intent, lowerChar).value, Compile(intent + suffix, lowerChar).value;
      && (c.approvalMode == ExplicitApproval ==> d.approvalMode == ExplicitApproval)
      && c.maxRiskScore <= d.maxRiskScore
      && (c.allowEmergencyLease ==> d.allowEmergencyLease)
      && d.ambiguity <= c.ambiguity
      && (forall b | b in c.dataBoundary :: b in d.dataBoundary)
      && (forall m | m in c.actionModes :: m in d.actionModes)
  {
    hide Trim, Classify, Detect, Lower, EffectiveWordCount, Blank, ActionModes;
    if Compile(intent, lowerChar).Ok? {
      TrimEmpty(intent);
      AppendingOnlyTightens(intent, suffix, lowerChar);
      var p, q := Parse(intent, lowerChar).value, Parse(intent + suffix, lowerChar).value;
      forall m | m in ActionModes(p.actions)
        ensures m in ActionModes(q.actions)
      {
        ActionModesMono(p.actions, q.actions, m);
      }
    }
  }

  /** Some concept that names an action is expressed. */
  ghost predicate NamesAction(lower: string, raw: string) {
    exists c :: c in {Read, Write, Delete, Deploy} && ConceptMatches(c, lower, raw)
  }

  lemma ActionDetected(lower: string, raw: string)
    ensures HasAction(Detect(lower, raw)) <==> NamesAction(lower, raw)
  {
    hide ConceptMatches, Mentions;
    var f := Detect(lower, raw);
    forall c | c in {Read, Write, Delete, Deploy}
      ensures c in f.concepts <==> ConceptMatches(c, lower, raw)
    {
      assert c in AllConcepts();
    }
    if HasAction(f) {
      var c := if Read in f.concepts then Read else if Write in f.concepts then Write
               else if Delete in f.concepts then Delete else Deploy;
      assert c in {Read, Write, Delete, Deploy} && ConceptMatches(c, lower, raw);
    }
    if NamesAction(lower, raw) {
      var c :| c in {Read, Write, Delete, Deploy} && ConceptMatches(c, lower, raw);
      assert c in f.concepts;
    }
  }

  lemma GateByAction(intent: string, lowerChar: char -> string)
    requires Trim(intent) != ""
    ensures Compile(intent, lowerChar).Ok? <==> HasAction(Detect(Lower(Trim(intent), lowerChar), Trim(intent)))
  {
    hide Trim, Lower, Detect, HasAction, EffectiveWordCount, Environment, RiskLevel, Actions, DataDomains, ActionModes,
      InferApproval, InferMaxRisk;
  }

  /** The ambiguity gate lets through exactly the non-blank intents that name an action. */
  lemma GateExactly(intent: string, lowerChar: char -> string)
    ensures Compile(intent, lowerChar).Ok? <==>
      !Blank(intent) && NamesAction(Lower(Trim(intent), lowerChar), Trim(intent))
  {
    hide Trim, Blank, Lower, Detect, HasAction, NamesAction, Classify;
    TrimEmpty(intent);
    var raw := Trim(intent);
    if raw != "" {
      GateByAction(intent, lowerChar);
      ActionDetected(Lower(raw, lowerChar), raw);
    }
  }
}
