/**
 Recovering a JSON value from model output (crates/coevo-models/src/openai.rs, lines 420-513):
 the whole text, else the last closed code fence holding valid JSON, else the first bracketed span.
 `parses` stands for `serde_json::from_str::<Value>(..).is_ok()`.
 */
module JsonExtraction {
  import opened Prelude
  import opened Text
  import opened Json

  // ---- The bracket scanner ----

  datatype Mode = Mode(depth: nat, inString: bool, escaping: bool)

  datatype Outcome = Closed(end: nat) | Underflow | Unclosed

  predicate Opens(c: char) { c == '{' || c == '[' }

  predicate Closes(c: char) { c == '}' || c == ']' }

  function Outside(depth: nat): Mode { Mode(depth, false, false) }

  function Inside(depth: nat): Mode { Mode(depth, true, false) }

  function Next(m: Mode, c: char): Mode {
    if m.inString then
      if m.escaping then m.(escaping := false)
      else if c == '\\' then m.(escaping := true)
      else if c == '"' then m.(inString := false)
      else m
    else if c == '"' then m.(inString := true)
    else if Opens(c) then m.(depth := m.depth + 1)
    else if Closes(c) && m.depth > 0 then m.(depth := m.depth - 1)
    else m
  }

  /** What the scanner makes of `rest`, `n` characters into the text; `end` is past the closing bracket. */
  function Scan(rest: string, n: nat, m: Mode): Outcome
    decreases |rest|
  {
    if rest == "" then Unclosed
    else if !m.inString && Closes(rest[0]) && m.depth <= 1 then
      if m.depth == 0 then Underflow else Closed(n + 1)
    else Scan(rest[1..], n + 1, Next(m, rest[0]))
  }

  /** `content.find(['{', '['])` */
  function FirstBracket(content: string, from: nat := 0): (r: Option<nat>)
    requires from <= |content|
    ensures r.Some? ==> from <= r.value < |content| && Opens(content[r.value])
    ensures r.Some? ==> forall i | from <= i < r.value :: !Opens(content[i])
    ensures r.None? ==> forall i | from <= i < |content| :: !Opens(content[i])
    decreases |content| - from
  {
    if from == |content| then None
    else if Opens(content[from]) then Some(from)
    else FirstBracket(content, from + 1)
  }

  /** The verdict on a closed span: its trimmed text when that parses. */
  function Candidate(content: string, begin: nat, end: nat, parses: string -> bool): Option<string>
    requires begin <= end <= |content|
  {
    var candidate := Trim(content[begin..end]);
    if parses(candidate) then Some(candidate) else None
  }

  function FirstJsonValue(content: string, parses: string -> bool): Option<string> {
    match FirstBracket(content)
    case None => None
    case Some(start) => Verdict(content, start, Scan(content[start..], start, Outside(0)), parses)
  }

  function Verdict(content: string, start: nat, outcome: Outcome, parses: string -> bool): Option<string> {
    if outcome.Closed? && start <= outcome.end <= |content| then
      Candidate(content, start, outcome.end, parses)
    else None
  }

  method ExtractFirstJsonValue(content: string, parses: string -> bool) returns (r: Option<string>)
    ensures r == FirstJsonValue(content, parses)
  {
    hide Candidate;
    var start := FirstBracket(content);
    if start.None? {
      return None;
    }
    var depth: nat := 0;
    var inString := false;
    var escaping := false;
    ghost var outcome := Scan(content[start.value..], start.value, Outside(0));
    for idx := start.value to |content|
      invariant outcome == Scan(content[idx..], idx, Mode(depth, inString, escaping))
    {
      var ch := content[idx];
      assert content[idx..][1..] == content[idx + 1..];
      if inString {
        if escaping {
          escaping := false;
          continue;
        }
        if ch == '\\' {
          escaping := true;
        } else if ch == '"' {
          inString := false;
        }
        continue;
      }
      if ch == '"' {
        inString := true;
      } else if Opens(ch) {
        depth := depth + 1;
      } else if Closes(ch) {
        if depth == 0 {
          return None;
        }
        depth := depth - 1;
        if depth == 0 {
          return Candidate(content, start.value, idx + 1, parses);
        }
      }
    }
    return None;
  }

  // ---- Bracketed text, independently of the scanner ----

  /**
   The bracket structure of a text: plain characters, quoted strings and bracketed groups.
   Every JSON text has one, whatever its white space and escapes.
   */
  datatype Node =
    | Plain(c: char)
    | Quoted(body: string)
    | Group(open: char, kids: seq<Node>, close: char)

  /** Between the quotes every backslash is followed by one more character, and no quote is bare. */
  predicate QuotedBody(body: string)
    decreases |body|
  {
    if body == "" then true
    else if body[0] == '\\' then |body| >= 2 && QuotedBody(body[2..])
    else body[0] != '"' && QuotedBody(body[1..])
  }

  predicate ValidNode(n: Node) {
    match n
    case Plain(c) => c != '"' && !Opens(c) && !Closes(c)
    case Quoted(body) => QuotedBody(body)
    case Group(open, kids, close) => Opens(open) && Closes(close) && forall k | k in kids :: ValidNode(k)
  }

  predicate ValidNodes(ns: seq<Node>) {
    forall k | k in ns :: ValidNode(k)
  }

  function TextOf(n: Node): string
    decreases n, 0
  {
    match n
    case Plain(c) => [c]
    case Quoted(body) => "\"" + (body + "\"")
    case Group(open, kids, close) => [open] + (TextOfAll(kids) + [close])
  }

  function TextOfAll(ns: seq<Node>): string
    decreases ns, 0
  {
    if ns == [] then "" else TextOf(ns[0]) + TextOfAll(ns[1..])
  }

  // ---- The scanner steps over bracketed text ----

  lemma ScanStep(c: char, rest: string, n: nat, m: Mode)
    requires m.inString || !Closes(c) || m.depth > 1
    ensures Scan([c] + rest, n, m) == Scan(rest, n + 1, Next(m, c))
  {
  }

  lemma {:induction false} ScanQuoted(body: string, rest: string, n: nat, d: nat)
    requires QuotedBody(body)
    ensures Scan(body + ("\"" + rest), n, Inside(d)) == Scan(rest, n + |body| + 1, Outside(d))
    decreases |body|
  {
    if body == "" {
      assert body + ("\"" + rest) == "\"" + rest;
      ScanStep('"', rest, n, Inside(d));
    } else {
      var tail := body[1..] + ("\"" + rest);
      assert body + ("\"" + rest) == [body[0]] + tail;
      ScanStep(body[0], tail, n, Inside(d));
      if body[0] == '\\' {
        var tail' := body[2..] + ("\"" + rest);
        assert tail == [body[1]] + tail';
        ScanStep(body[1], tail', n + 1, Mode(d, true, true));
        ScanQuoted(body[2..], rest, n + 2, d);
      } else {
        ScanQuoted(body[1..], rest, n + 1, d);
      }
    }
  }

  lemma {:induction false} ScanNode(node: Node, rest: string, n: nat, d: nat)
    requires ValidNode(node) && d >= 1
    ensures Scan(TextOf(node) + rest, n, Outside(d)) == Scan(rest, n + |TextOf(node)|, Outside(d))
    decreases node, 1
  {
    match node
    case Plain(c) =>
      ScanStep(c, rest, n, Outside(d));
    case Quoted(body) =>
      AssocInner("\"", body, "\"", rest);
      ScanStep('"', body + ("\"" + rest), n, Outside(d));
      ScanQuoted(body, rest, n + 1, d);
    case Group(_, _, _) =>
      ScanGroup(node, rest, n, d);
  }

  /** A group ends exactly at its own closing bracket: the depth inside never falls to `d`. */
  lemma {:induction false} ScanGroup(g: Node, rest: string, n: nat, d: nat)
    requires g.Group? && ValidNode(g)
    ensures Scan(TextOf(g) + rest, n, Outside(d)) ==
      if d == 0 then Closed(n + |TextOf(g)|) else Scan(rest, n + |TextOf(g)|, Outside(d))
    decreases g, 0
  {
    var inner := TextOfAll(g.kids);
    AssocInner([g.open], inner, [g.close], rest);
    ScanStep(g.open, inner + ([g.close] + rest), n, Outside(d));
    ScanNodes(g.kids, [g.close] + rest, n + 1, d + 1);
    if d > 0 {
      ScanStep(g.close, rest, n + 1 + |inner|, Outside(d + 1));
    }
  }

  lemma {:induction false} ScanNodes(ns: seq<Node>, rest: string, n: nat, d: nat)
    requires ValidNodes(ns) && d >= 1
    ensures Scan(TextOfAll(ns) + rest, n, Outside(d)) == Scan(rest, n + |TextOfAll(ns)|, Outside(d))
    decreases ns, 0
  {
    if ns == [] {
      assert TextOfAll(ns) + rest == rest;
    } else {
      assert ns[0] in ns;
      var tail := TextOfAll(ns[1..]);
      Assoc(TextOf(ns[0]), tail, rest);
      ScanNode(ns[0], tail + rest, n, d);
      ScanNodes(ns[1..], rest, n + |TextOf(ns[0])|, d);
    }
  }

  // ---- ... and whatever it closes is bracketed text ----

  lemma {:induction false} QuotedFrom(s: string, n: nat, d: nat) returns (body: string, rest: string)
    requires Scan(s, n, Inside(d)).Closed?
    ensures QuotedBody(body) && s == body + ("\"" + rest)
    decreases |s|
  {
    if s[0] == '"' {
      body, rest := "", s[1..];
    } else if s[0] == '\\' {
      assert s[1..] != "" && s[1..][1..] == s[2..];
      body, rest := QuotedFrom(s[2..], n + 2, d);
      assert [s[0], s[1]] + (body + ("\"" + rest)) == [s[0], s[1]] + body + ("\"" + rest);
      assert ([s[0], s[1]] + body)[2..] == body;
      body := [s[0], s[1]] + body;
    } else {
      body, rest := QuotedFrom(s[1..], n + 1, d);
      assert [s[0]] + (body + ("\"" + rest)) == [s[0]] + body + ("\"" + rest);
      assert ([s[0]] + body)[1..] == body;
      body := [s[0]] + body;
    }
  }

  /** Reads one node. */
  lemma {:induction false} NodeFrom(s: string, n: nat, d: nat) returns (first: Node, rest: string)
    requires s != "" && d >= 1 && Scan(s, n, Outside(d)).Closed? && !Closes(s[0])
    ensures ValidNode(first) && s == TextOf(first) + rest && |rest| < |s|
    decreases |s|, 0
  {
    var tail := s[1..];
    assert s == [s[0]] + tail;
    if s[0] == '"' {
      var body;
      body, rest := QuotedFrom(tail, n + 1, d);
      first := Quoted(body);
      AssocInner("\"", body, "\"", rest);
    } else if Opens(s[0]) {
      var inner, after := NodesFrom(tail, n + 1, d + 1);
      first, rest := Group(s[0], inner, after[0]), after[1..];
      assert after == [after[0]] + rest;
      AssocInner([s[0]], TextOfAll(inner), [after[0]], rest);
    } else {
      first, rest := Plain(s[0]), tail;
    }
  }

  /** Reads the content of an open group up to its closing bracket. */
  lemma {:induction false} NodesFrom(s: string, n: nat, d: nat) returns (kids: seq<Node>, rest: string)
    requires d >= 1 && Scan(s, n, Outside(d)).Closed?
    ensures ValidNodes(kids) && s == TextOfAll(kids) + rest
    ensures rest != "" && Closes(rest[0])
    decreases |s|, 1
  {
    if Closes(s[0]) {
      kids, rest := [], s;
      assert s == "" + s;
    } else {
      var first, tail := NodeFrom(s, n, d);
      ScanNode(first, tail, n, d);
      var others;
      others, rest := NodesFrom(tail, n + |TextOf(first)|, d);
      kids := [first] + others;
      assert kids[1..] == others;
      Assoc(TextOf(first), TextOfAll(others), rest);
    }
  }

  /** The text is one bracketed group. */
  ghost predicate IsGroupText(text: string) {
    exists g: Node :: g.Group? && ValidNode(g) && TextOf(g) == text
  }

  /**
   Exactness of the scanner: started on an opening bracket it never underflows, and it stops just
   past a closing bracket if and only if the text up to there is one bracketed group.
   */
  lemma ScannerFindsGroups(s: string, n: nat, end: nat)
    requires s != "" && Opens(s[0])
    ensures Scan(s, n, Outside(0)) != Underflow
    ensures Scan(s, n, Outside(0)) == Closed(end) <==> n <= end <= n + |s| && IsGroupText(s[..end - n])
  {
    NeverUnderflows(s[1..], n + 1, Outside(1));
    if Scan(s, n, Outside(0)) == Closed(end) {
      ClosedIsGroup(s, n, end);
    }
    if n <= end <= n + |s| && IsGroupText(s[..end - n]) {
      var g: Node :| g.Group? && ValidNode(g) && TextOf(g) == s[..end - n];
      assert s == s[..end - n] + s[end - n..];
      ScanGroup(g, s[end - n..], n, 0);
    }
  }

  lemma ClosedIsGroup(s: string, n: nat, end: nat)
    requires s != "" && Opens(s[0]) && Scan(s, n, Outside(0)) == Closed(end)
    ensures n <= end <= n + |s| && IsGroupText(s[..end - n])
  {
    var kids, after := NodesFrom(s[1..], n + 1, 1);
    var g := Group(s[0], kids, after[0]);
    assert s == [s[0]] + s[1..] && after == [after[0]] + after[1..];
    AssocInner([s[0]], TextOfAll(kids), [after[0]], after[1..]);
    assert s == TextOf(g) + after[1..];
    assert ValidNode(g);
    ScanGroup(g, after[1..], n, 0);
    assert s[..end - n] == TextOf(g);
  }

  lemma {:induction false} NeverUnderflows(rest: string, n: nat, m: Mode)
    requires m.depth >= 1
    ensures Scan(rest, n, m) != Underflow
    decreases |rest|
  {
    if rest != "" && (m.inString || !Closes(rest[0]) || m.depth > 1) {
      NeverUnderflows(rest[1..], n + 1, Next(m, rest[0]));
    }
  }

  // ---- Consequences for the extracted value ----

  lemma GroupTrimmed(text: string)
    requires IsGroupText(text)
    ensures text != "" && Opens(text[0]) && Trim(text) == text
  {
    var g: Node :| g.Group? && ValidNode(g) && TextOf(g) == text;
    GroupEnds(g.open, TextOfAll(g.kids), g.close);
    TrimOfTrimmed(text);
  }

  lemma GroupEnds(open: char, inner: string, close: char)
    requires Opens(open) && Closes(close)
    ensures var s := [open] + (inner + [close]); s[0] == open && s[|s| - 1] == close && Trimmed(s)
  {
  }

  lemma FirstBracketAfter(prefix: string, rest: string)
    requires forall i | 0 <= i < |prefix| :: !Opens(prefix[i])
    requires rest != "" && Opens(rest[0])
    ensures FirstBracket(prefix + rest) == Some(|prefix|)
  {
    var r := FirstBracket(prefix + rest);
    assert (prefix + rest)[|prefix|] == rest[0];
    assert forall i | 0 <= i < |prefix| :: (prefix + rest)[i] == prefix[i];
  }

  /** The extracted value is the group at the first bracket when it parses, and nothing otherwise. */
  lemma ExtractsFirstGroup(prefix: string, text: string, suffix: string, parses: string -> bool)
    requires IsGroupText(text)
    requires forall i | 0 <= i < |prefix| :: !Opens(prefix[i])
    ensures FirstJsonValue(prefix + (text + suffix), parses) == if parses(text) then Some(text) else None
  {
    hide Trim, FirstBracket;
    var content, start := prefix + (text + suffix), |prefix|;
    GroupTrimmed(text);
    assert (text + suffix)[0] == text[0];
    FirstBracketAfter(prefix, text + suffix);
    var g: Node :| g.Group? && ValidNode(g) && TextOf(g) == text;
    ScanGroup(g, suffix, start, 0);
    assert content[start..] == text + suffix;
    assert content[start..start + |text|] == text;
  }

  /** A result is always a valid group that begins at the first bracket of the text. */
  lemma ExtractedIsFirstGroup(content: string, parses: string -> bool) returns (prefix: string, suffix: string)
    ensures FirstJsonValue(content, parses).Some? ==>
      var x := FirstJsonValue(content, parses).value;
      && content == prefix + (x + suffix)
      && (forall i | 0 <= i < |prefix| :: !Opens(prefix[i]))
      && IsGroupText(x)
      && parses(x)
      && x != "" && Trim(x) == x
  {
    hide Trim;
    prefix, suffix := "", "";
    if FirstJsonValue(content, parses).Some? {
      var start := FirstBracket(content).value;
      var end := Scan(content[start..], start, Outside(0)).end;
      prefix, suffix := content[..start], content[end..];
      ScannerFindsGroups(content[start..], start, end);
      assert content[start..][..end - start] == content[start..end];
      GroupTrimmed(content[start..end]);
    }
  }

  // ---- Printed values are bracketed text ----

  function PlainNodes(s: string): (ns: seq<Node>)
    ensures |ns| == |s| && forall i | 0 <= i < |s| :: ns[i] == Plain(s[i])
  {
    seq(|s|, i requires 0 <= i < |s| => Plain(s[i]))
  }

  function Nodes(v: Json): seq<Node>
    decreases v, 2
  {
    match v
    case Str(s) => [Quoted(Escape(s))]
    case Arr(items) =>
      [Group('[', if items == [] then [] else Nodes(items[0]) + ItemNodes(items[1..]), ']')]
    case Obj(members) =>
      [Group('{', if members == [] then [] else NodesOfMember(members[0]) + MemberNodes(members[1..]), '}')]
    case _ => PlainNodes(Print(v))
  }

  function ItemNodes(items: seq<Json>): seq<Node>
    decreases items, 0
  {
    if items == [] then [] else [Plain(',')] + (Nodes(items[0]) + ItemNodes(items[1..]))
  }

  function NodesOfMember(m: Member): seq<Node>
    decreases m, 0
  {
    [Quoted(Escape(m.key))] + ([Plain(':')] + Nodes(m.value))
  }

  function MemberNodes(members: seq<Member>): seq<Node>
    decreases members, 0
  {
    if members == [] then [] else [Plain(',')] + (NodesOfMember(members[0]) + MemberNodes(members[1..]))
  }

  /** `ns` is valid bracket structure and spells `text`. */
  predicate Spells(ns: seq<Node>, text: string) {
    ValidNodes(ns) && TextOfAll(ns) == text
  }

  lemma {:induction false} SpellsConcat(a: seq<Node>, s: string, b: seq<Node>, t: string)
    requires Spells(a, s) && Spells(b, t)
    ensures Spells(a + b, s + t)
    decreases |a|
  {
    if a == [] {
      assert a + b == b && s + t == t;
    } else {
      SpellsConcat(a[1..], TextOfAll(a[1..]), b, t);
      assert (a + b)[1..] == a[1..] + b;
      Assoc(TextOf(a[0]), TextOfAll(a[1..]), t);
    }
  }

  lemma SpellsOne(n: Node)
    requires ValidNode(n)
    ensures Spells([n], TextOf(n))
  {
  }

  lemma {:induction false} SpellsPlain(s: string)
    requires forall i | 0 <= i < |s| :: ValidNode(Plain(s[i]))
    ensures Spells(PlainNodes(s), s)
  {
    if s != "" {
      SpellsPlain(s[1..]);
      assert PlainNodes(s)[1..] == PlainNodes(s[1..]);
      assert s == [s[0]] + s[1..];
    } else {
      assert PlainNodes(s) == [];
    }
  }

  lemma {:induction false} EscapeIsQuotedBody(s: string)
    ensures QuotedBody(Escape(s))
  {
    if s == "" {
    } else {
      EscapeIsQuotedBody(s[1..]);
      QuotedPrefix(s[0], Escape(s[1..]));
    }
  }

  lemma QuotedPrefix(c: char, rest: string)
    requires QuotedBody(rest)
    ensures QuotedBody(EscapeChar(c) + rest)
  {
    var e := EscapeChar(c);
    var t := e + rest;
    if |e| == 1 {
      assert t[1..] == rest;
    } else if |e| == 2 {
      assert t[2..] == rest;
    } else {
      assert e[0] == '\\';
      PlainPrefix(e[2..], rest);
      assert t[2..] == e[2..] + rest;
    }
  }

  lemma {:induction false} PlainPrefix(p: string, rest: string)
    requires QuotedBody(rest) && forall i | 0 <= i < |p| :: p[i] != '\\' && p[i] != '"'
    ensures QuotedBody(p + rest)
  {
    if p == "" {
      assert p + rest == rest;
    } else {
      PlainPrefix(p[1..], rest);
      assert (p + rest)[1..] == p[1..] + rest;
    }
  }

  lemma SpellsQuoted(s: string)
    ensures Spells([Quoted(Escape(s))], Quote(s))
  {
    EscapeIsQuotedBody(s);
    SpellsOne(Quoted(Escape(s)));
  }

  lemma {:induction false} PrintSpelled(v: Json)
    ensures Spells(Nodes(v), Print(v))
    decreases v, 2
  {
    match v
    case Str(s) => SpellsQuoted(s);
    case Arr(items) =>
      var kids := if items == [] then [] else Nodes(items[0]) + ItemNodes(items[1..]);
      if items != [] {
        PrintSpelled(items[0]);
        ItemsSpelled(items[1..]);
        var p, t := Print(items[0]), TextOfAll(ItemNodes(items[1..]));
        SpellsConcat(Nodes(items[0]), p, ItemNodes(items[1..]), t);
        Assoc(p, t, "]");
      }
      SpellsOne(Group('[', kids, ']'));
    case Obj(members) =>
      var kids := if members == [] then [] else NodesOfMember(members[0]) + MemberNodes(members[1..]);
      if members != [] {
        MemberSpelled(members[0]);
        MembersSpelled(members[1..]);
        var p, t := PrintMember(members[0]), TextOfAll(MemberNodes(members[1..]));
        SpellsConcat(NodesOfMember(members[0]), p, MemberNodes(members[1..]), t);
        Assoc(p, t, "}");
      }
      SpellsOne(Group('{', kids, '}'));
    case _ =>
      SpellsPlain(Print(v));
  }

  lemma {:induction false} ItemsSpelled(items: seq<Json>)
    ensures ValidNodes(ItemNodes(items)) && TextOfAll(ItemNodes(items)) + "]" == PrintItems(items)
    decreases items, 0
  {
    if items == [] {
    } else {
      PrintSpelled(items[0]);
      ItemsSpelled(items[1..]);
      var p, t := Print(items[0]), TextOfAll(ItemNodes(items[1..]));
      SpellsConcat(Nodes(items[0]), p, ItemNodes(items[1..]), t);
      SpellsOne(Plain(','));
      SpellsConcat([Plain(',')], ",", Nodes(items[0]) + ItemNodes(items[1..]), p + t);
      AssocInner(",", p, t, "]");
      Assoc(p, t, "]");
    }
  }

  lemma {:induction false} MemberSpelled(m: Member)
    ensures Spells(NodesOfMember(m), PrintMember(m))
    decreases m, 0
  {
    SpellsQuoted(m.key);
    PrintSpelled(m.value);
    SpellsOne(Plain(':'));
    SpellsConcat([Plain(':')], ":", Nodes(m.value), Print(m.value));
    SpellsConcat([Quoted(Escape(m.key))], Quote(m.key), [Plain(':')] + Nodes(m.value), ":" + Print(m.value));
  }

  lemma {:induction false} MembersSpelled(members: seq<Member>)
    ensures ValidNodes(MemberNodes(members)) && TextOfAll(MemberNodes(members)) + "}" == PrintMembers(members)
    decreases members, 0
  {
    if members == [] {
    } else {
      MemberSpelled(members[0]);
      MembersSpelled(members[1..]);
      var p, t := PrintMember(members[0]), TextOfAll(MemberNodes(members[1..]));
      SpellsConcat(NodesOfMember(members[0]), p, MemberNodes(members[1..]), t);
      SpellsOne(Plain(','));
      SpellsConcat([Plain(',')], ",", NodesOfMember(members[0]) + MemberNodes(members[1..]), p + t);
      AssocInner(",", p, t, "}");
      Assoc(p, t, "}");
    }
  }

  /**
   Whatever surrounds it, a printed object or array is recovered exactly: no bracket or quote
   inside its strings ends it early, and the text after it plays no part.
   */
  lemma ExtractsPrintedValue(prefix: string, v: Json, suffix: string, parses: string -> bool)
    requires v.Arr? || v.Obj?
    requires forall i | 0 <= i < |prefix| :: !Opens(prefix[i])
    ensures FirstJsonValue(prefix + (Print(v) + suffix), parses)
         == if parses(Print(v)) then Some(Print(v)) else None
  {
    PrintSpelled(v);
    var g := Nodes(v)[0];
    assert Nodes(v) == [g] && g in Nodes(v);
    SpellsOne(g);
    assert TextOf(g) == Print(v);
    ExtractsFirstGroup(prefix, Print(v), suffix, parses);
  }
}
