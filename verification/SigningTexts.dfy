/**
 The texts that are signed, written out: the canonical JSON of a lease attestation
 (crates/coevo-risk/src/lease.rs, lines 53-61) and of a provenance envelope
 (crates/coevo-core/src/cognitive.rs, lines 100-113).
 */
module SigningTexts {
  import opened Json
  import opened Canonical
  import Utf8

  predicate PlainChar(c: char) {
    c as int >= 0x20 && c != '"' && c != '\\'
  }

  predicate IsPlain(s: string) {
    forall i | 0 <= i < |s| :: PlainChar(s[i])
  }

  lemma {:induction false} PlainUnescaped(s: string)
    requires IsPlain(s)
    ensures Escape(s) == s
  {
    if s == "" {
    } else {
      assert PlainChar(s[0]);
      PlainUnescaped(s[1..]);
      assert s == [s[0]] + s[1..];
    }
  }

  /** A key in quotes, a colon, and a value as printed. */
  function Field(key: string, printed: string): string {
    "\"" + key + "\":" + printed
  }

  /** A member whose key needs no escapes. */
  lemma PlainMember(key: string, v: Json)
    requires IsPlain(key)
    ensures PrintMember(Member(key, v)) == Field(key, Print(v))
  {
    hide Print;
    PlainUnescaped(key);
    assert "\"" + (key + "\"") + (":" + Print(v)) == "\"" + key + "\":" + Print(v);
  }

  lemma FourPrinted(a: Member, b: Member, c: Member, d: Member)
    ensures Print(Obj([a, b, c, d])) ==
      "{" + (PrintMember(a) + ("," + (PrintMember(b) + ("," + (PrintMember(c) + ("," + (PrintMember(d) + "}")))))))
  {
    hide PrintMember;
    var members := [a, b, c, d];
    assert members[1..] == [b, c, d] && [b, c, d][1..] == [c, d] && [c, d][1..] == [d] && [d][1..] == [];
    assert PrintMembers([d]) == "," + (PrintMember(d) + "}");
    assert PrintMembers([c, d]) == "," + (PrintMember(c) + PrintMembers([d]));
    assert PrintMembers([b, c, d]) == "," + (PrintMember(b) + PrintMembers([c, d]));
  }

  lemma FivePrinted(a: Member, b: Member, c: Member, d: Member, e: Member)
    ensures Print(Obj([a, b, c, d, e])) == "{" + (PrintMember(a) + ("," + (PrintMember(b) + ("," +
      (PrintMember(c) + ("," + (PrintMember(d) + ("," + (PrintMember(e) + "}")))))))))
  {
    hide PrintMember;
    var members := [a, b, c, d, e];
    assert members[1..] == [b, c, d, e] && [b, c, d, e][1..] == [c, d, e];
    assert [c, d, e][1..] == [d, e] && [d, e][1..] == [e] && [e][1..] == [];
    assert PrintMembers([e]) == "," + (PrintMember(e) + "}");
    assert PrintMembers([d, e]) == "," + (PrintMember(d) + PrintMembers([e]));
    assert PrintMembers([c, d, e]) == "," + (PrintMember(c) + PrintMembers([d, e]));
    assert PrintMembers([b, c, d, e]) == "," + (PrintMember(b) + PrintMembers([c, d, e]));
  }

  /** Values that hold no object are canonical as they are. */
  lemma {:induction false} StringsCanonical(ss: seq<string>)
    ensures Canon(Arr(Strs(ss))) == Arr(Strs(ss))
  {
    var items := Strs(ss);
    forall i | 0 <= i < |items|
      ensures CanonItems(items)[i] == items[i]
    {
      CanonItemsAt(items, i);
    }
    assert CanonItems(items) == items;
  }

  /** Members with the same keys and canonical values, in the order of the keys, are the canonical ones. */
  lemma OrderedIsCanonical(members: seq<Member>, ordered: seq<Member>)
    requires DistinctKeys(members) && Sorted(ordered) && KeySet(ordered) == KeySet(members)
    requires forall i | 0 <= i < |members| :: Canon(members[i].value) == members[i].value && members[i] in ordered
    ensures Canon(Obj(members)) == Obj(ordered)
  {
    hide Canon, ToMap, Sorted, KeySet;
    CanonMembersSorted(members);
    SortedDistinct(ordered);
    SortedDistinct(CanonMembers(members));
    ToMapKeys(ordered);
    ToMapKeys(members);
    var p, q := ToMap(CanonMembers(members)), ToMap(ordered);
    forall k | k in ToMap(members).Keys
      ensures k in p && k in q && p[k] == q[k]
    {
      var t := MemberWith(members, k);
      CanonMembersAt(members, t);
      var j :| 0 <= j < |ordered| && ordered[j] == members[t];
      ToMapAt(ordered, j);
    }
    assert p == q;
    SortedUnique(CanonMembers(members), ordered);
    CanonOfObject(members);
  }

  lemma CanonOfObject(members: seq<Member>)
    ensures Canon(Obj(members)) == Obj(CanonMembers(members))
  {
  }

  // ---- The lease attestation ----

  function LeaseMembers(agentId: string, scope: seq<string>, role: string): seq<Member> {
    [Member("agent_id", Str(agentId)), Member("lease_scope", Arr(Strs(scope))),
      Member("purpose", Str("coevo:emergency-lease:v1")), Member("role", Str(role))]
  }

  lemma LeaseSorted(agentId: string, scope: seq<string>, role: string)
    ensures Sorted(LeaseMembers(agentId, scope, role))
  {
    InitialsSort(LeaseMembers(agentId, scope, role));
  }

  /** Keys whose first characters rise are in order. */
  lemma InitialsSort(members: seq<Member>)
    requires forall i | 0 <= i < |members| :: members[i].key != ""
    requires forall i, j | 0 <= i < j < |members| :: members[i].key[0] < members[j].key[0]
    ensures Sorted(members)
  {
  }

  lemma LeaseCanonical(agentId: string, scope: seq<string>, role: string)
    ensures Canon(LeasePayload(agentId, scope, role)) == Obj(LeaseMembers(agentId, scope, role))
  {
    hide Canon, Sorted, Strs;
    var members, ordered := LeasePayload(agentId, scope, role).members, LeaseMembers(agentId, scope, role);
    LeasePayloadWellFormed(agentId, scope, role);
    LeaseSorted(agentId, scope, role);
    StringsCanonical(scope);
    StringCanonical("coevo:emergency-lease:v1");
    StringCanonical(agentId);
    StringCanonical(role);
    assert members[0] == ordered[2] && members[1] == ordered[0] && members[2] == ordered[1] && members[3] == ordered[3];
    SameKeys(members, ordered);
    OrderedIsCanonical(members, ordered);
  }

  lemma StringCanonical(s: string)
    ensures Canon(Str(s)) == Str(s)
  {
  }

  /** A rearrangement has the same keys. */
  lemma SameKeys(members: seq<Member>, ordered: seq<Member>)
    requires (forall m | m in members :: m in ordered) && (forall m | m in ordered :: m in members)
    ensures KeySet(ordered) == KeySet(members)
  {
    forall j | 0 <= j < |ordered|
      ensures ordered[j].key in KeySet(members)
    {
      assert ordered[j] in members;
    }
    forall i | 0 <= i < |members|
      ensures members[i].key in KeySet(ordered)
    {
      assert members[i] in ordered;
    }
  }

  /** The signed text of a lease attestation. */
  function LeaseText(agentId: string, scope: seq<string>, role: string): string {
    "{" + (Field("agent_id", Quote(agentId)) + ("," + (Field("lease_scope", Print(Arr(Strs(scope)))) + ("," +
      (Field("purpose", "\"" + "coevo:emergency-lease:v1" + "\"") + ("," + (Field("role", Quote(role)) + "}")))))))
  }

  /** What is signed for a lease is exactly this text in UTF-8: keys in order, no white space. */
  lemma LeaseSignedText(agentId: string, scope: seq<string>, role: string)
    ensures LeaseSigningPayload(agentId, scope, role) == Utf8.Encode(LeaseText(agentId, scope, role))
  {
    hide Canon, Quote, Field, Strs, PrintMember, PrintMembers, Utf8.Encode, LeasePayload;
    LeaseCanonical(agentId, scope, role);
    var m := LeaseMembers(agentId, scope, role);
    FourPrinted(m[0], m[1], m[2], m[3]);
    assert m == [m[0], m[1], m[2], m[3]];
    PlainMember("agent_id", m[0].value);
    PlainMember("lease_scope", m[1].value);
    PlainMember("purpose", m[2].value);
    PlainMember("role", m[3].value);
    PlainQuoted("coevo:emergency-lease:v1");
  }

  lemma PlainQuoted(s: string)
    requires IsPlain(s)
    ensures Quote(s) == "\"" + s + "\""
  {
    PlainUnescaped(s);
  }

  // ---- The provenance envelope ----

  function EnvelopeMembers(contentHash: string, agent: string, tool: string, at: string): seq<Member> {
    [Member("content_hash", Str(contentHash)), Member("created_at", Str(at)),
      Member("purpose", Str("coevo:provenance:v1")), Member("source_agent_id", Str(agent)),
      Member("verification_tool_urn", Str(tool))]
  }

  lemma EnvelopeSorted(contentHash: string, agent: string, tool: string, at: string)
    ensures Sorted(EnvelopeMembers(contentHash, agent, tool, at))
  {
    var m := EnvelopeMembers(contentHash, agent, tool, at);
    assert m[0].key[1..] == "ontent_hash" && m[1].key[1..] == "reated_at";
    assert Less("ontent_hash", "reated_at");
    assert Less(m[0].key, m[1].key);
  }

  lemma EnvelopeCanonical(contentHash: string, agent: string, tool: string, at: string)
    ensures Canon(EnvelopePayload(contentHash, agent, tool, at)) == Obj(EnvelopeMembers(contentHash, agent, tool, at))
  {
    hide Canon, Sorted;
    var members := EnvelopePayload(contentHash, agent, tool, at).members;
    var ordered := EnvelopeMembers(contentHash, agent, tool, at);
    EnvelopePayloadWellFormed(contentHash, agent, tool, at);
    EnvelopeSorted(contentHash, agent, tool, at);
    forall i | 0 <= i < |members|
      ensures Canon(members[i].value) == members[i].value
    {
      StringCanonical(members[i].value.s);
    }
    assert members[0] == ordered[2] && members[1] == ordered[0] && members[2] == ordered[3];
    assert members[3] == ordered[4] && members[4] == ordered[1];
    SameKeys(members, ordered);
    OrderedIsCanonical(members, ordered);
  }

  /** The signed text of a provenance envelope. */
  function EnvelopeText(contentHash: string, agent: string, tool: string, at: string): string {
    "{" + (Field("content_hash", Quote(contentHash)) + ("," + (Field("created_at", Quote(at)) + ("," +
      (Field("purpose", "\"" + "coevo:provenance:v1" + "\"") + ("," + (Field("source_agent_id", Quote(agent)) + ("," +
        (Field("verification_tool_urn", Quote(tool)) + "}")))))))))
  }

  lemma EnvelopeKeysPlain()
    ensures IsPlain("content_hash") && IsPlain("created_at") && IsPlain("purpose")
    ensures IsPlain("source_agent_id") && IsPlain("verification_tool_urn") && IsPlain("coevo:provenance:v1")
  {
  }

  /** What is signed for an envelope is exactly this text in UTF-8. */
  lemma EnvelopeSignedText(contentHash: string, agent: string, tool: string, at: string)
    ensures EnvelopeSigningBytes(contentHash, agent, tool, at)
      == Utf8.Encode(EnvelopeText(contentHash, agent, tool, at))
  {
    hide Canon, Quote, Field, PrintMember, PrintMembers, Utf8.Encode, EnvelopePayload, IsPlain;
    EnvelopeCanonical(contentHash, agent, tool, at);
    var m := EnvelopeMembers(contentHash, agent, tool, at);
    EnvelopeKeysPlain();
    PlainMember("content_hash", Str(contentHash));
    PlainMember("created_at", Str(at));
    PlainMember("purpose", Str("coevo:provenance:v1"));
    PlainMember("source_agent_id", Str(agent));
    PlainMember("verification_tool_urn", Str(tool));
    PlainQuoted("coevo:provenance:v1");
    FivePrinted(m[0], m[1], m[2], m[3], m[4]);
  }
}
