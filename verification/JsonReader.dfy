/**
 A reader of JSON text after RFC 8259, written without the printer, and the proof that it reads
 every printed value back: what `serde_json` writes means the value that was written.
 */
module JsonReader {
  import opened Prelude
  import opened Json

  // ---- Section 2: white space ----

  predicate IsSpace(c: char) {
    c == ' ' || c == '\t' || c == '\n' || c == '\r'
  }

  function SkipSpace(s: string): (r: string)
    ensures |r| <= |s|
  {
    if s != "" && IsSpace(s[0]) then SkipSpace(s[1..]) else s
  }

  // ---- Section 7: strings ----

  function HexDigit(c: char): Option<nat> {
    var n := c as int;
    if '0' <= c <= '9' then Some(n - '0' as int)
    else if 'a' <= c <= 'f' then Some(n - 'a' as int + 10)
    else if 'A' <= c <= 'F' then Some(n - 'A' as int + 10)
    else None
  }

  /** The code unit of four hex digits. */
  function CodeUnit(s: string): (r: Option<nat>)
    ensures r.Some? ==> |s| >= 4 && r.value < 0x1_0000
  {
    if |s| < 4 then None
    else
      var a, b, c, d := HexDigit(s[0]), HexDigit(s[1]), HexDigit(s[2]), HexDigit(s[3]);
      if a.Some? && b.Some? && c.Some? && d.Some? then
        Some(0x1000 * a.value + 0x100 * b.value + 0x10 * c.value + d.value)
      else None
  }

  /** What follows `\u`: one code unit, or a surrogate pair of two. */
  function ReadUnicode(s: string): (r: Option<(char, string)>)
    ensures r.Some? ==> |r.value.1| < |s|
  {
    var first := CodeUnit(s);
    if first.None? || 0xDC00 <= first.value < 0xE000 then None
    else if first.value < 0xD800 || 0xE000 <= first.value then Some((first.value as char, s[4..]))
    else
      var second := if |s| >= 6 && s[4] == '\\' && s[5] == 'u' then CodeUnit(s[6..]) else None;
      if second.Some? && 0xDC00 <= second.value < 0xE000 then
        Some(((0x1_0000 + 0x400 * (first.value - 0xD800) + (second.value - 0xDC00)) as char, s[10..]))
      else None
  }

  /** What follows a backslash. */
  function ReadEscape(s: string): (r: Option<(char, string)>)
    ensures r.Some? ==> |r.value.1| < |s|
  {
    if s == "" then None
    else if s[0] == 'u' then ReadUnicode(s[1..])
    else if s[0] == '"' || s[0] == '\\' || s[0] == '/' then Some((s[0], s[1..]))
    else if s[0] == 'b' then Some((0x08 as char, s[1..]))
    else if s[0] == 'f' then Some((0x0C as char, s[1..]))
    else if s[0] == 'n' then Some((0x0A as char, s[1..]))
    else if s[0] == 'r' then Some((0x0D as char, s[1..]))
    else if s[0] == 't' then Some((0x09 as char, s[1..]))
    else None
  }

  /** One character of a string; a control character has to be escaped. */
  function ReadChar(s: string): (r: Option<(char, string)>)
    ensures r.Some? ==> |r.value.1| < |s|
  {
    if s == "" || s[0] as int < 0x20 then None
    else if s[0] == '\\' then ReadEscape(s[1..])
    else Some((s[0], s[1..]))
  }

  /** The characters up to the closing quote. */
  function ReadString(s: string): (r: Option<(string, string)>)
    ensures r.Some? ==> |r.value.1| < |s|
    decreases |s|
  {
    if s != "" && s[0] == '"' then Some(("", s[1..]))
    else
      match ReadChar(s)
      case None => None
      case Some((c, rest)) =>
        match ReadString(rest)
        case None => None
        case Some((more, rest')) => Some(([c] + more, rest'))
  }

  // ---- Section 6: numbers ----

  function ReadNumber(s: string): (r: Option<(Json, string)>)
    ensures r.Some? ==> |r.value.1| < |s|
  {
    var n := NumeralRun(s);
    NumeralRunFits(s);
    if IsNumeral(s[..n]) then Some((Num(s[..n]), s[n..])) else None
  }

  lemma NumeralRunFits(s: string)
    ensures NumeralRun(s) <= |s|
  {
  }

  // ---- Sections 3 to 5: values, arrays, objects ----

  function ReadLiteral(s: string, literal: string, v: Json): (r: Option<(Json, string)>)
    requires literal != ""
    ensures r.Some? ==> |r.value.1| < |s|
  {
    if literal <= s then Some((v, s[|literal|..])) else None
  }

  function ReadValue(s: string): (r: Option<(Json, string)>)
    ensures r.Some? ==> |r.value.1| < |s|
    decreases |s|, 2
  {
    var t := SkipSpace(s);
    if t == "" then None
    else if t[0] == '"' then
      match ReadString(t[1..])
      case None => None
      case Some((text, rest)) => Some((Str(text), rest))
    else if t[0] == '[' then
      var u := SkipSpace(t[1..]);
      if u != "" && u[0] == ']' then Some((Arr([]), u[1..]))
      else
        match ReadItems(t[1..])
        case None => None
        case Some((items, rest)) => Some((Arr(items), rest))
    else if t[0] == '{' then
      var u := SkipSpace(t[1..]);
      if u != "" && u[0] == '}' then Some((Obj([]), u[1..]))
      else
        match ReadMembers(t[1..])
        case None => None
        case Some((members, rest)) => Some((Obj(members), rest))
    else if t[0] == 'n' then ReadLiteral(t, "null", Null)
    else if t[0] == 't' then ReadLiteral(t, "true", Bool(true))
    else if t[0] == 'f' then ReadLiteral(t, "false", Bool(false))
    else ReadNumber(t)
  }

  /** One value or more, separated by commas, up to the closing bracket. */
  function ReadItems(s: string): (r: Option<(seq<Json>, string)>)
    ensures r.Some? ==> |r.value.1| < |s|
    decreases |s|, 3
  {
    match ReadValue(s)
    case None => None
    case Some((v, rest)) =>
      var t := SkipSpace(rest);
      if t == "" then None
      else if t[0] == ']' then Some(([v], t[1..]))
      else if t[0] == ',' then
        match ReadItems(t[1..])
        case None => None
        case Some((more, rest')) => Some(([v] + more, rest'))
      else None
  }

  /** A string, a colon and a value. */
  function ReadMember(s: string): (r: Option<(Member, string)>)
    ensures r.Some? ==> |r.value.1| < |s|
    decreases |s|, 3
  {
    var t := SkipSpace(s);
    if t == "" || t[0] != '"' then None
    else
      match ReadString(t[1..])
      case None => None
      case Some((key, rest)) =>
        var u := SkipSpace(rest);
        if u == "" || u[0] != ':' then None
        else
          match ReadValue(u[1..])
          case None => None
          case Some((v, rest')) => Some((Member(key, v), rest'))
  }

  function ReadMembers(s: string): (r: Option<(seq<Member>, string)>)
    ensures r.Some? ==> |r.value.1| < |s|
    decreases |s|, 4
  {
    match ReadMember(s)
    case None => None
    case Some((m, rest)) =>
      var t := SkipSpace(rest);
      if t == "" then None
      else if t[0] == '}' then Some(([m], t[1..]))
      else if t[0] == ',' then
        match ReadMembers(t[1..])
        case None => None
        case Some((more, rest')) => Some(([m] + more, rest'))
      else None
  }

  /** A whole text: one value and white space. */
  function Read(s: string): Option<Json> {
    match ReadValue(s)
    case None => None
    case Some((v, rest)) => if SkipSpace(rest) == "" then Some(v) else None
  }

  // ---- What is printed is read back ----

  lemma HexReads(n: nat)
    requires n < 16
    ensures HexDigit(Hex(n)) == Some(n)
  {
  }

  lemma EscapedCharReads(c: char, x: string)
    ensures EscapeChar(c)[0] != '"'
    ensures ReadChar(EscapeChar(c) + x) == Some((c, x))
  {
    var s := EscapeChar(c) + x;
    var n := c as int;
    if c == '"' || c == '\\' || n == 0x08 || n == 0x09 || n == 0x0A || n == 0x0C || n == 0x0D {
      assert s[1..][1..] == x;
    } else if n < 0x20 {
      ControlReads(c, x);
    } else {
      assert s[1..] == x;
    }
  }

  lemma ControlReads(c: char, x: string)
    requires c as int < 0x20 && EscapeChar(c) == "\\u00" + [Hex(c as int / 16), Hex(c as int % 16)]
    ensures ReadChar(EscapeChar(c) + x) == Some((c, x))
  {
    var n := c as int;
    var s := EscapeChar(c) + x;
    var digits := "00" + [Hex(n / 16), Hex(n % 16)];
    assert s == "\\u" + (digits + x);
    assert s[1..][0] == 'u' && s[1..][1..] == digits + x;
    HexReads(n / 16);
    HexReads(n % 16);
    assert (digits + x)[4..] == x;
    assert CodeUnit(digits + x) == Some(n);
  }

  lemma {:induction false} EscapedReads(s: string, x: string)
    ensures ReadString(Escape(s) + ("\"" + x)) == Some((s, x))
  {
    hide EscapeChar, ReadChar;
    if s == "" {
      assert Escape(s) + ("\"" + x) == "\"" + x;
    } else {
      var rest := Escape(s[1..]) + ("\"" + x);
      Assoc(EscapeChar(s[0]), Escape(s[1..]), "\"" + x);
      EscapedCharReads(s[0], rest);
      EscapedReads(s[1..], x);
      assert (EscapeChar(s[0]) + rest)[0] == EscapeChar(s[0])[0];
      assert [s[0]] + s[1..] == s;
    }
  }

  lemma QuotedReads(s: string, x: string)
    ensures (Quote(s) + x)[0] == '"' && ReadString((Quote(s) + x)[1..]) == Some((s, x))
  {
    hide Escape, ReadString;
    EscapedReads(s, x);
    assert (Quote(s) + x)[1..] == Escape(s) + ("\"" + x);
  }

  lemma NumeralStarts(m: Numeral)
    ensures m != "" && (m[0] == '-' || IsDigit(m[0]))
  {
  }

  lemma NumberReads(m: Numeral, x: string)
    requires Stops(x)
    ensures ReadNumber(m + x) == Some((Num(m), x))
  {
    RunOfNumeral(m, x);
    assert (m + x)[..|m|] == m && (m + x)[|m|..] == x;
  }

  lemma PrintedStarts(v: Json, x: string)
    ensures Print(v) + x != "" && !IsSpace((Print(v) + x)[0]) && (Print(v) + x)[0] != ']' && (Print(v) + x)[0] != '}'
    ensures SkipSpace(Print(v) + x) == Print(v) + x
  {
    PrintHead(v, x);
  }

  /** A printed value, followed by text that cannot extend a number, is read and what follows is left. */
  lemma {:induction false} PrintedReads(v: Json, x: string)
    requires Stops(x)
    ensures ReadValue(Print(v) + x) == Some((v, x))
    decreases v, 1
  {
    hide ReadNumber, IsNumeral, ReadString, Quote;
    PrintedStarts(v, x);
    PrintHead(v, x);
    match v
    case Null => assert ("null" + x)[4..] == x;
    case Bool(b) => assert (Print(v) + x)[|Print(v)|..] == x;
    case Num(m) =>
      NumeralStarts(m);
      NumberReads(m, x);
    case Str(s) => QuotedReads(s, x);
    case Arr(items) =>
      if items == [] {
        assert ("[]" + x)[1..][1..] == x;
      } else {
        ItemsRead(items, x);
        AssocInner("[", Print(items[0]), PrintItems(items[1..]), x);
        assert (Print(v) + x)[1..] == Print(items[0]) + (PrintItems(items[1..]) + x);
        PrintedStarts(items[0], PrintItems(items[1..]) + x);
      }
    case Obj(members) =>
      if members == [] {
        assert ("{}" + x)[1..][1..] == x;
      } else {
        MembersRead(members, x);
        AssocInner("{", PrintMember(members[0]), PrintMembers(members[1..]), x);
        assert (Print(v) + x)[1..] == PrintMember(members[0]) + (PrintMembers(members[1..]) + x);
        MemberStarts(members[0], PrintMembers(members[1..]) + x);
      }
  }

  lemma MemberStarts(m: Member, x: string)
    ensures PrintMember(m) + x != "" && (PrintMember(m) + x)[0] == '"'
    ensures SkipSpace(PrintMember(m) + x) == PrintMember(m) + x
  {
  }

  lemma MarkStays(mark: string, x: string)
    requires |mark| == 1 && !IsSpace(mark[0]) && !NumeralChar(mark[0])
    ensures SkipSpace(mark + x) == mark + x && (mark + x)[1..] == x && Stops(mark + x)
  {
  }

  lemma {:induction false} ItemsRead(items: seq<Json>, x: string)
    requires items != []
    ensures ReadItems(Print(items[0]) + (PrintItems(items[1..]) + x)) == Some((items, x))
    decreases items, 2
  {
    hide Print, ReadValue;
    var more := PrintItems(items[1..]) + x;
    if |items| == 1 {
      MarkStays("]", x);
      assert items[1..] == [] && more == "]" + x;
      PrintedReads(items[0], more);
      assert items == [items[0]];
    } else {
      var tail := Print(items[1..][0]) + (PrintItems(items[1..][1..]) + x);
      assert more == "," + tail;
      MarkStays(",", tail);
      PrintedReads(items[0], more);
      ItemsRead(items[1..], x);
      assert items == [items[0]] + items[1..];
    }
  }

  lemma {:induction false} MemberReads(m: Member, x: string)
    requires Stops(x)
    ensures ReadMember(PrintMember(m) + x) == Some((m, x))
    decreases m, 0
  {
    hide ReadString, Quote;
    var after := ":" + (Print(m.value) + x);
    AssocInner(Quote(m.key), ":", Print(m.value), x);
    assert PrintMember(m) + x == Quote(m.key) + after;
    MemberStarts(m, x);
    QuotedReads(m.key, after);
    MarkStays(":", Print(m.value) + x);
    PrintedReads(m.value, x);
  }

  lemma {:induction false} MembersRead(members: seq<Member>, x: string)
    requires members != []
    ensures ReadMembers(PrintMember(members[0]) + (PrintMembers(members[1..]) + x)) == Some((members, x))
    decreases members, 2
  {
    hide PrintMember, ReadMember;
    var more := PrintMembers(members[1..]) + x;
    if |members| == 1 {
      MarkStays("}", x);
      assert members[1..] == [] && more == "}" + x;
      MemberReads(members[0], more);
      assert members == [members[0]];
    } else {
      var tail := PrintMember(members[1..][0]) + (PrintMembers(members[1..][1..]) + x);
      assert more == "," + tail;
      MarkStays(",", tail);
      MemberReads(members[0], more);
      MembersRead(members[1..], x);
      assert members == [members[0]] + members[1..];
    }
  }

  /** Printing is writing JSON: the reader gives every printed value back. */
  lemma PrintReadsBack(v: Json)
    ensures Read(Print(v)) == Some(v)
  {
    hide ReadValue;
    PrintedReads(v, "");
    assert Print(v) + "" == Print(v);
  }
}
