/**
 JSON values as `serde_json::Value` holds them, the compact printer behind
 `serde_json::to_vec` and `Value::to_string`, and the accessors the model gateways use.
 */
module Json {
  import opened Prelude

  datatype Json =
    | Null
    | Bool(b: bool)
    | Num(numeral: Numeral)
    | Str(s: string)
    | Arr(items: seq<Json>)
    | Obj(members: seq<Member>)

  datatype Member = Member(key: string, value: Json)

  /** A number is represented by the text it prints as. */
  type Numeral = s: string | IsNumeral(s) witness "0"

  /** Where a number in the grammar of section 6 of RFC 8259 stands after some characters. */
  datatype NumberState = Start | Minus | Zero | Whole | Point | Fraction | Exponent | Sign | Power | Wrong

  function NumberNext(st: NumberState, c: char): NumberState {
    match st
    case Start => if c == '-' then Minus else if c == '0' then Zero else if IsDigit(c) then Whole else Wrong
    case Minus => if c == '0' then Zero else if IsDigit(c) then Whole else Wrong
    case Zero => if c == '.' then Point else if c == 'e' || c == 'E' then Exponent else Wrong
    case Whole =>
      if IsDigit(c) then Whole else if c == '.' then Point else if c == 'e' || c == 'E' then Exponent else Wrong
    case Point => if IsDigit(c) then Fraction else Wrong
    case Fraction => if IsDigit(c) then Fraction else if c == 'e' || c == 'E' then Exponent else Wrong
    case Exponent => if c == '+' || c == '-' then Sign else if IsDigit(c) then Power else Wrong
    case Sign => if IsDigit(c) then Power else Wrong
    case Power => if IsDigit(c) then Power else Wrong
    case Wrong => Wrong
  }

  function NumberAfter(s: string): NumberState {
    if s == "" then Start else NumberNext(NumberAfter(s[..|s| - 1]), s[|s| - 1])
  }

  predicate IsNumber(s: string) {
    NumberAfter(s).Zero? || NumberAfter(s).Whole? || NumberAfter(s).Fraction? || NumberAfter(s).Power?
  }

  /** A number in that grammar, with what follows for its characters spelled out. */
  predicate IsNumeral(s: string) {
    && IsNumber(s)
    && s != "" && (s[0] == '-' || IsDigit(s[0])) && forall i | 0 <= i < |s| :: NumeralChar(s[i])
  }

  predicate IsDigit(c: char) {
    '0' <= c <= '9'
  }

  predicate NumeralChar(c: char) {
    IsDigit(c) || c == '-' || c == '+' || c == '.' || c == 'e' || c == 'E'
  }

  lemma {:induction false} NumberChars(s: string)
    requires !NumberAfter(s).Wrong?
    ensures NumberAfter(s).Start? <==> s == ""
    ensures s != "" ==> s[0] == '-' || IsDigit(s[0])
    ensures forall i | 0 <= i < |s| :: NumeralChar(s[i])
  {
    if s == "" {
    } else {
      NumberChars(s[..|s| - 1]);
    }
  }

  /** The numerals are exactly the numbers of the grammar. */
  lemma NumeralsAreNumbers(s: string)
    ensures IsNumeral(s) <==> IsNumber(s)
  {
    if IsNumber(s) {
      NumberChars(s);
    }
  }

  // ---- Invariant of `serde_json::Map`: keys are distinct at every level ----

  predicate DistinctKeys(members: seq<Member>) {
    forall i, j | 0 <= i < j < |members| :: members[i].key != members[j].key
  }

  predicate WellFormed(v: Json) {
    match v
    case Arr(items) => forall i | 0 <= i < |items| :: WellFormed(items[i])
    case Obj(members) =>
      && DistinctKeys(members)
      && forall i | 0 <= i < |members| :: WellFormed(members[i].value)
    case _ => true
  }

  // ---- Accessors ----

  function Lookup(members: seq<Member>, key: string): Option<Json> {
    if members == [] then None
    else if members[0].key == key then Some(members[0].value)
    else Lookup(members[1..], key)
  }

  /** `value.get("key")` */
  function Get(v: Json, key: string): Option<Json> {
    if v.Obj? then Lookup(v.members, key) else None
  }

  /** `opt.and_then(|v| v.get("key"))` */
  function Then(v: Option<Json>, key: string): Option<Json> {
    if v.Some? then Get(v.value, key) else None
  }

  /** `opt.and_then(|v| v.get(index))` */
  function At(v: Option<Json>, index: nat): Option<Json> {
    if v.Some? && v.value.Arr? && index < |v.value.items| then Some(v.value.items[index]) else None
  }

  function AsStr(v: Option<Json>): Option<string> {
    if v.Some? && v.value.Str? then Some(v.value.s) else None
  }

  function AsArray(v: Option<Json>): Option<seq<Json>> {
    if v.Some? && v.value.Arr? then Some(v.value.items) else None
  }

  const TWO_TO_THE_64: nat := 0x1_0000_0000_0000_0000

  function DigitsValue(s: string): nat
    requires forall i | 0 <= i < |s| :: IsDigit(s[i])
  {
    if s == "" then 0
    else
      assert IsDigit(s[|s| - 1]);
      10 * DigitsValue(s[..|s| - 1]) + (s[|s| - 1] as int - '0' as int)
  }

  /** `as_u64`: an unsigned integer numeral below 2^64; every other number is negative or a float. */
  function AsU64(v: Option<Json>): (r: Option<nat>)
    ensures r.Some? ==> r.value < TWO_TO_THE_64
  {
    if v.Some? && v.value.Num? && (forall i | 0 <= i < |v.value.numeral| :: IsDigit(v.value.numeral[i])) then
      var n := DigitsValue(v.value.numeral);
      if n < TWO_TO_THE_64 then Some(n) else None
    else None
  }

  // ---- Compact printing ----

  function Hex(n: nat): char
    requires n < 16
  {
    "0123456789abcdef"[n]
  }

  /** serde_json escapes the quote, the backslash and the controls below 0x20, nothing else. */
  function EscapeChar(c: char): string {
    var n := c as int;
    if c == '"' then "\\\""
    else if c == '\\' then "\\\\"
    else if n == 0x08 then "\\b"
    else if n == 0x09 then "\\t"
    else if n == 0x0A then "\\n"
    else if n == 0x0C then "\\f"
    else if n == 0x0D then "\\r"
    else if n < 0x20 then "\\u00" + [Hex(n / 16), Hex(n % 16)]
    else [c]
  }

  function Escape(s: string): string {
    if s == "" then "" else EscapeChar(s[0]) + Escape(s[1..])
  }

  function Quote(s: string): string {
    "\"" + (Escape(s) + "\"")
  }

  function Print(v: Json): string
    decreases v, 1
  {
    match v
    case Null => "null"
    case Bool(b) => if b then "true" else "false"
    case Num(numeral) => numeral
    case Str(s) => Quote(s)
    case Arr(items) =>
      if items == [] then "[]" else "[" + (Print(items[0]) + PrintItems(items[1..]))
    case Obj(members) =>
      if members == [] then "{}" else "{" + (PrintMember(members[0]) + PrintMembers(members[1..]))
  }

  /** The remaining items, each after a comma, and the closing bracket. */
  function PrintItems(items: seq<Json>): string
    decreases items, 0
  {
    if items == [] then "]" else "," + (Print(items[0]) + PrintItems(items[1..]))
  }

  function PrintMember(m: Member): string
    decreases m, 0
  {
    Quote(m.key) + (":" + Print(m.value))
  }

  function PrintMembers(members: seq<Member>): string
    decreases members, 0
  {
    if members == [] then "}" else "," + (PrintMember(members[0]) + PrintMembers(members[1..]))
  }

  // ---- The printed text determines the value ----

  lemma Cancel(p: string, x: string, y: string)
    requires p + x == p + y
    ensures x == y
  {
    assert (p + x)[|p|..] == x;
    assert (p + y)[|p|..] == y;
  }

  lemma Assoc(a: string, b: string, c: string)
    ensures (a + b) + c == a + (b + c)
  {
  }

  /** Only a quoted string, a number and a container can be longer than one reads off its start. */
  predicate Stops(s: string) {
    s == "" || !NumeralChar(s[0])
  }

  lemma EscapeCharInjective(c: char, d: char, x: string, y: string)
    requires EscapeChar(c) + x == EscapeChar(d) + y
    ensures c == d && x == y
  {
    var s, t := EscapeChar(c) + x, EscapeChar(d) + y;
    assert s[0] == EscapeChar(c)[0] && t[0] == EscapeChar(d)[0];
    if s[0] == '\\' {
      assert s[1] == EscapeChar(c)[1] && t[1] == EscapeChar(d)[1];
      if s[1] == 'u' {
        assert s[4] == EscapeChar(c)[4] && t[4] == EscapeChar(d)[4];
        assert s[5] == EscapeChar(c)[5] && t[5] == EscapeChar(d)[5];
        HexInjective(c as int / 16, d as int / 16);
        HexInjective(c as int % 16, d as int % 16);
      }
    }
    Cancel(EscapeChar(c), x, y);
  }

  lemma HexInjective(m: nat, n: nat)
    requires m < 16 && n < 16
    ensures Hex(m) == Hex(n) <==> m == n
  {
  }

  lemma EscapedHead(s: string, x: string)
    ensures (Escape(s) + ("\"" + x))[0] == '"' <==> s == ""
  {
  }

  lemma {:induction false} EscapeInjective(s: string, t: string, x: string, y: string)
    requires Escape(s) + ("\"" + x) == Escape(t) + ("\"" + y)
    ensures s == t && x == y
    decreases |s| + |t|
  {
    EscapedHead(s, x);
    EscapedHead(t, y);
    if s == "" || t == "" {
      assert s == "" && t == "";
      assert Escape(s) + ("\"" + x) == "\"" + x && Escape(t) + ("\"" + y) == "\"" + y;
      Cancel("\"", x, y);
    } else {
      Assoc(EscapeChar(s[0]), Escape(s[1..]), "\"" + x);
      Assoc(EscapeChar(t[0]), Escape(t[1..]), "\"" + y);
      EscapeCharInjective(s[0], t[0], Escape(s[1..]) + ("\"" + x), Escape(t[1..]) + ("\"" + y));
      EscapeInjective(s[1..], t[1..], x, y);
      assert s == [s[0]] + s[1..] && t == [t[0]] + t[1..];
    }
  }

  lemma QuoteInjective(s: string, t: string, x: string, y: string)
    requires Quote(s) + x == Quote(t) + y
    ensures s == t && x == y
  {
    AssocInner("\"", Escape(s), "\"", x);
    AssocInner("\"", Escape(t), "\"", y);
    Cancel("\"", Escape(s) + ("\"" + x), Escape(t) + ("\"" + y));
    EscapeInjective(s, t, x, y);
  }

  function NumeralRun(s: string): nat {
    if Stops(s) then 0 else 1 + NumeralRun(s[1..])
  }

  lemma {:induction false} RunOfNumeral(m: string, x: string)
    requires Stops(x) && forall i | 0 <= i < |m| :: NumeralChar(m[i])
    ensures NumeralRun(m + x) == |m|
  {
    if m == "" {
      assert m + x == x;
    } else {
      assert (m + x)[1..] == m[1..] + x;
      RunOfNumeral(m[1..], x);
    }
  }

  lemma NumeralInjective(m: Numeral, n: Numeral, x: string, y: string)
    requires m + x == n + y && Stops(x) && Stops(y)
    ensures m == n && x == y
  {
    RunOfNumeral(m, x);
    RunOfNumeral(n, y);
    assert (m + x)[..|m|] == m && (n + y)[..|n|] == n;
    Cancel(m, x, y);
  }

  /** The first character of a printed value tells its kind. */
  function Head(v: Json): char {
    match v
    case Null => 'n'
    case Bool(b) => if b then 't' else 'f'
    case Num(numeral) => numeral[0]
    case Str(_) => '"'
    case Arr(_) => '['
    case Obj(_) => '{'
  }

  lemma PrintHead(v: Json, x: string)
    ensures Print(v) != "" && (Print(v) + x)[0] == Print(v)[0] == Head(v)
  {
  }

  lemma HeadTellsKind(a: Json, b: Json)
    requires Head(a) == Head(b)
    ensures a.Null? == b.Null? && a.Bool? == b.Bool? && a.Num? == b.Num? && a.Str? == b.Str?
    ensures a.Arr? == b.Arr? && a.Obj? == b.Obj?
    ensures a.Bool? ==> a == b
  {
  }

  /**
   Unique decodability: when two printed values, each followed by text that cannot extend a
   number, give the same text, then the values and what follows them agree.
   */
  lemma {:induction false} PrintInjective(a: Json, b: Json, x: string, y: string)
    requires Print(a) + x == Print(b) + y && Stops(x) && Stops(y)
    ensures a == b && x == y
    decreases a, 1
  {
    PrintHead(a, x);
    PrintHead(b, y);
    HeadTellsKind(a, b);
    match a
    case Null => Cancel("null", x, y);
    case Bool(_) => Cancel(Print(a), x, y);
    case Num(m) => NumeralInjective(m, b.numeral, x, y);
    case Str(s) => QuoteInjective(s, b.s, x, y);
    case Arr(items) => ArrInjective(items, b.items, x, y);
    case Obj(members) => ObjInjective(members, b.members, x, y);
  }

  lemma SecondOfArr(items: seq<Json>, x: string)
    ensures var s := Print(Arr(items)) + x; |s| >= 2 && (s[1] == ']' <==> items == [])
  {
  }

  lemma SecondOfObj(members: seq<Member>, x: string)
    ensures var s := Print(Obj(members)) + x; |s| >= 2 && (s[1] == '}' <==> members == [])
  {
  }

  lemma {:induction false} ArrInjective(items: seq<Json>, others: seq<Json>, x: string, y: string)
    requires Print(Arr(items)) + x == Print(Arr(others)) + y && Stops(x) && Stops(y)
    ensures items == others && x == y
    decreases items, 2
  {
    SecondOfArr(items, x);
    SecondOfArr(others, y);
    if items == [] || others == [] {
      assert items == [] && others == [];
      Cancel("[]", x, y);
    } else {
      ItemsInjectiveStep("[", items, others, x, y);
    }
  }

  /** One item after its opening mark, and the rest. */
  lemma {:induction false} ItemsInjectiveStep(mark: string, items: seq<Json>, others: seq<Json>, x: string, y: string)
    requires items != [] && others != [] && Stops(x) && Stops(y)
    requires mark + (Print(items[0]) + PrintItems(items[1..])) + x
          == mark + (Print(others[0]) + PrintItems(others[1..])) + y
    ensures items == others && x == y
    decreases items, 1
  {
    var p, q := Print(items[0]), Print(others[0]);
    var s, t := PrintItems(items[1..]), PrintItems(others[1..]);
    AssocInner(mark, p, s, x);
    AssocInner(mark, q, t, y);
    Cancel(mark, p + (s + x), q + (t + y));
    PrintInjective(items[0], others[0], s + x, t + y);
    ItemsInjective(items[1..], others[1..], x, y);
    assert items == [items[0]] + items[1..] && others == [others[0]] + others[1..];
  }

  lemma AssocInner(a: string, b: string, c: string, d: string)
    ensures a + (b + c) + d == a + (b + (c + d))
  {
  }

  lemma {:induction false} ItemsInjective(items: seq<Json>, others: seq<Json>, x: string, y: string)
    requires PrintItems(items) + x == PrintItems(others) + y && Stops(x) && Stops(y)
    ensures items == others && x == y
    decreases items, 2
  {
    assert (PrintItems(items) + x)[0] == if items == [] then ']' else ',';
    assert (PrintItems(others) + y)[0] == if others == [] then ']' else ',';
    if items == [] {
      Cancel("]", x, y);
    } else {
      ItemsInjectiveStep(",", items, others, x, y);
    }
  }

  lemma {:induction false} MemberInjective(m: Member, n: Member, x: string, y: string)
    requires PrintMember(m) + x == PrintMember(n) + y && Stops(x) && Stops(y)
    ensures m == n && x == y
    decreases m, 0
  {
    var p, q := Print(m.value), Print(n.value);
    AssocInner(Quote(m.key), ":", p, x);
    AssocInner(Quote(n.key), ":", q, y);
    QuoteInjective(m.key, n.key, ":" + (p + x), ":" + (q + y));
    Cancel(":", p + x, q + y);
    PrintInjective(m.value, n.value, x, y);
  }

  lemma {:induction false} ObjInjective(members: seq<Member>, others: seq<Member>, x: string, y: string)
    requires Print(Obj(members)) + x == Print(Obj(others)) + y && Stops(x) && Stops(y)
    ensures members == others && x == y
    decreases members, 2
  {
    SecondOfObj(members, x);
    SecondOfObj(others, y);
    if members == [] || others == [] {
      assert members == [] && others == [];
      Cancel("{}", x, y);
    } else {
      MembersInjectiveStep("{", members, others, x, y);
    }
  }

  lemma {:induction false} MembersInjectiveStep(mark: string, members: seq<Member>, others: seq<Member>, x: string,
                                                y: string)
    requires members != [] && others != [] && Stops(x) && Stops(y)
    requires mark + (PrintMember(members[0]) + PrintMembers(members[1..])) + x
          == mark + (PrintMember(others[0]) + PrintMembers(others[1..])) + y
    ensures members == others && x == y
    decreases members, 1
  {
    var p, q := PrintMember(members[0]), PrintMember(others[0]);
    var s, t := PrintMembers(members[1..]), PrintMembers(others[1..]);
    AssocInner(mark, p, s, x);
    AssocInner(mark, q, t, y);
    Cancel(mark, p + (s + x), q + (t + y));
    MemberInjective(members[0], others[0], s + x, t + y);
    MembersInjective(members[1..], others[1..], x, y);
    assert members == [members[0]] + members[1..] && others == [others[0]] + others[1..];
  }

  lemma {:induction false} MembersInjective(members: seq<Member>, others: seq<Member>, x: string, y: string)
    requires PrintMembers(members) + x == PrintMembers(others) + y && Stops(x) && Stops(y)
    ensures members == others && x == y
    decreases members, 2
  {
    assert (PrintMembers(members) + x)[0] == if members == [] then '}' else ',';
    assert (PrintMembers(others) + y)[0] == if others == [] then '}' else ',';
    if members == [] {
      Cancel("}", x, y);
    } else {
      MembersInjectiveStep(",", members, others, x, y);
    }
  }
}
