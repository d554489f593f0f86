/**
 Canonical signing bytes (crates/coevo-core/src/crypto.rs): rebuild a JSON value with sorted
 object keys, print it compactly and encode it. The result identifies the value up to the
 order of object keys, which is what the lease and provenance signatures rely on.
 */
module Canonical {
  import opened Prelude
  import opened Json
  import JsonReader
  import Utf8

  // ---- The ordered map behind `BTreeMap<String, Value>` ----

  /** Lexicographic order by code point, which is the byte order of the UTF-8 encodings. */
  predicate Less(s: string, t: string) {
    t != "" && (s == "" || s[0] < t[0] || (s[0] == t[0] && Less(s[1..], t[1..])))
  }

  predicate Sorted(tree: seq<Member>) {
    forall i, j | 0 <= i < j < |tree| :: Less(tree[i].key, tree[j].key)
  }

  function Insert(tree: seq<Member>, m: Member): seq<Member> {
    if tree == [] then [m]
    else if tree[0].key == m.key then [m] + tree[1..]
    else if Less(m.key, tree[0].key) then [m] + tree
    else [tree[0]] + Insert(tree[1..], m)
  }

  /** The members as a finite map; a later member overrides an earlier one with the same key. */
  function ToMap(members: seq<Member>): map<string, Json> {
    if members == [] then map[]
    else
      var last := members[|members| - 1];
      ToMap(members[..|members| - 1])[last.key := last.value]
  }

  // ---- Canonical form ----

  function Canon(v: Json): Json
    decreases v, 1
  {
    match v
    case Arr(items) => Arr(CanonItems(items))
    case Obj(members) => Obj(CanonMembers(members))
    case other => other
  }

  function CanonItems(items: seq<Json>): (r: seq<Json>)
    ensures |r| == |items|
    decreases items, 0
  {
    if items == [] then []
    else CanonItems(items[..|items| - 1]) + [Canon(items[|items| - 1])]
  }

  function CanonMembers(members: seq<Member>): seq<Member>
    decreases members, 0
  {
    if members == [] then []
    else
      var last := members[|members| - 1];
      Insert(CanonMembers(members[..|members| - 1]), Member(last.key, Canon(last.value)))
  }

  method Canonicalize(v: Json) returns (r: Json)
    ensures r == Canon(v)
    decreases v
  {
    match v {
      case Obj(members) =>
        var tree: seq<Member> := [];
        for n := 0 to |members|
          invariant tree == CanonMembers(members[..n])
        {
          var value := Canonicalize(members[n].value);
          tree := Insert(tree, Member(members[n].key, value));
          assert members[..n + 1][..n] == members[..n];
        }
        assert members[..|members|] == members;
        var out: seq<Member> := [];
        for n := 0 to |tree|
          invariant out == tree[..n]
        {
          out := out + [tree[n]];
        }
        r := Obj(out);
      case Arr(items) =>
        var out: seq<Json> := [];
        for n := 0 to |items|
          invariant out == CanonItems(items[..n])
        {
          var value := Canonicalize(items[n]);
          out := out + [value];
          assert items[..n + 1][..n] == items[..n];
        }
        assert items[..|items|] == items;
        r := Arr(out);
      case _ =>
        r := v;
    }
  }

  function CanonicalBytes(v: Json): seq<Utf8.Byte> {
    Utf8.Encode(Print(Canon(v)))
  }

  // ---- Equality up to the order of object keys, at every level ----

  predicate SameUpToKeyOrder(a: Json, b: Json)
    decreases a
  {
    match a
    case Arr(items) =>
      && b.Arr?
      && |items| == |b.items|
      && forall i | 0 <= i < |items| :: SameUpToKeyOrder(items[i], b.items[i])
    case Obj(members) =>
      && b.Obj?
      && KeySet(members) == KeySet(b.members)
      && forall i, j | 0 <= i < |members| && 0 <= j < |b.members| ::
           members[i].key == b.members[j].key ==> SameUpToKeyOrder(members[i].value, b.members[j].value)
    case _ => a == b
  }

  function KeySet(members: seq<Member>): set<string> {
    set i | 0 <= i < |members| :: members[i].key
  }

  // ---- The order ----

  lemma {:induction false} LessIrreflexive(s: string)
    ensures !Less(s, s)
  {
    if s == "" {
    } else {
      LessIrreflexive(s[1..]);
    }
  }

  lemma {:induction false} LessTransitive(s: string, t: string, u: string)
    requires Less(s, t) && Less(t, u)
    ensures Less(s, u)
  {
    if s != "" && s[0] == t[0] == u[0] {
      LessTransitive(s[1..], t[1..], u[1..]);
    }
  }

  lemma {:induction false} LessTotal(s: string, t: string)
    ensures Less(s, t) || s == t || Less(t, s)
  {
    if s != "" && t != "" && s[0] == t[0] {
      LessTotal(s[1..], t[1..]);
      assert s == [s[0]] + s[1..] && t == [t[0]] + t[1..];
    }
  }

  lemma {:induction false} LessEncodes(s: string, t: string)
    requires Less(s, t)
    ensures Utf8.Before(Utf8.Encode(s), Utf8.Encode(t))
  {
    hide Utf8.EncodeChar, Utf8.Before;
    if s == "" {
      NothingBefore(Utf8.EncodeChar(t[0]) + Utf8.Encode(t[1..]));
    } else if s[0] < t[0] {
      Utf8.CharsDecide(s[0], t[0], Utf8.Encode(s[1..]), Utf8.Encode(t[1..]));
    } else {
      LessEncodes(s[1..], t[1..]);
      Utf8.BehindPrefix(Utf8.EncodeChar(s[0]), Utf8.Encode(s[1..]), Utf8.Encode(t[1..]));
    }
  }

  lemma NothingBefore(bytes: seq<Utf8.Byte>)
    requires bytes != []
    ensures Utf8.Before([], bytes)
  {
    assert Utf8.DecidesAt([], bytes, 0);
  }

  /** Keys are ordered as their UTF-8 bytes are, which is the order of a `BTreeMap` of strings. */
  lemma KeyOrderIsByteOrder(s: string, t: string)
    ensures Less(s, t) <==> Utf8.Before(Utf8.Encode(s), Utf8.Encode(t))
  {
    hide Utf8.Encode, Utf8.Before;
    LessTotal(s, t);
    if Less(s, t) {
      LessEncodes(s, t);
    } else if Less(t, s) {
      LessEncodes(t, s);
      Utf8.BeforeExcludes(Utf8.Encode(t), Utf8.Encode(s));
    } else if Utf8.Before(Utf8.Encode(s), Utf8.Encode(t)) {
      Utf8.BeforeExcludes(Utf8.Encode(s), Utf8.Encode(t));
    }
  }

  // ---- Insertion keeps the tree sorted and updates the map ----

  lemma {:induction false} InsertSorted(tree: seq<Member>, m: Member)
    requires Sorted(tree)
    ensures Sorted(Insert(tree, m))
    ensures forall n | n in Insert(tree, m) :: n == m || n in tree
  {
    if tree != [] && tree[0].key != m.key {
      LessTotal(m.key, tree[0].key);
      if Less(m.key, tree[0].key) {
        forall j | 0 <= j < |tree|
          ensures Less(m.key, tree[j].key)
        {
          if j > 0 {
            LessTransitive(m.key, tree[0].key, tree[j].key);
          }
        }
      } else {
        InsertSorted(tree[1..], m);
        var rest := Insert(tree[1..], m);
        forall j | 0 <= j < |rest|
          ensures Less(tree[0].key, rest[j].key)
        {
          assert rest[j] in rest;
          assert rest[j] == m || rest[j] in tree[1..];
        }
      }
    }
  }

  lemma KeySetLast(members: seq<Member>)
    requires members != []
    ensures KeySet(members) == KeySet(members[..|members| - 1]) + {members[|members| - 1].key}
  {
  }

  lemma {:induction false} ToMapKeys(members: seq<Member>)
    ensures ToMap(members).Keys == KeySet(members)
  {
    if members == [] {
    } else {
      var n := |members| - 1;
      ToMapKeys(members[..n]);
      KeySetLast(members);
    }
  }

  lemma {:induction false} ToMapAt(members: seq<Member>, i: nat)
    requires DistinctKeys(members) && i < |members|
    ensures members[i].key in ToMap(members) && ToMap(members)[members[i].key] == members[i].value
  {
    var n := |members| - 1;
    if i < n {
      ToMapAt(members[..n], i);
    }
  }

  lemma SortedDistinct(tree: seq<Member>)
    requires Sorted(tree)
    ensures DistinctKeys(tree)
  {
    forall i, j | 0 <= i < j < |tree|
      ensures tree[i].key != tree[j].key
    {
      LessIrreflexive(tree[i].key);
    }
  }

  /** Two maps agree when they agree at every key; the head of a non-empty sequence may be split off. */
  lemma {:induction false} ToMapHead(members: seq<Member>)
    requires members != []
    ensures ToMap(members) == map[members[0].key := members[0].value] + ToMap(members[1..])
  {
    var n := |members| - 1;
    if n == 0 {
      assert members[..0] == [] && members[1..] == [];
    } else {
      ToMapHead(members[..n]);
      assert members[..n][1..] == members[1..][..n - 1];
      assert members[1..][n - 1] == members[n];
    }
  }

  lemma MapUpdates(t: map<string, Json>, h: string, w: Json, k: string, v: Json)
    ensures k !in t ==> map[k := v] + t == (map[k := w] + t)[k := v] == t[k := v]
    ensures h != k ==> map[h := w] + t[k := v] == (map[h := w] + t)[k := v]
  {
  }

  lemma BelowHead(tree: seq<Member>, k: string)
    requires Sorted(tree) && tree != [] && Less(k, tree[0].key)
    ensures k !in ToMap(tree)
  {
    ToMapKeys(tree);
    LessIrreflexive(k);
    forall j | 0 <= j < |tree|
      ensures tree[j].key != k
    {
      if j > 0 {
        LessTransitive(k, tree[0].key, tree[j].key);
      }
    }
  }

  lemma {:induction false} InsertMap(tree: seq<Member>, m: Member)
    requires Sorted(tree)
    ensures ToMap(Insert(tree, m)) == ToMap(tree)[m.key := m.value]
  {
    var r := Insert(tree, m);
    ToMapHead(r);
    if tree == [] {
    } else {
      ToMapHead(tree);
      MapUpdates(ToMap(tree[1..]), tree[0].key, tree[0].value, m.key, m.value);
      if tree[0].key == m.key {
        assert r[1..] == tree[1..];
        SortedDistinct(tree);
        TailMap(tree);
      } else if Less(m.key, tree[0].key) {
        assert r[1..] == tree;
        BelowHead(tree, m.key);
      } else {
        assert r[1..] == Insert(tree[1..], m);
        InsertMap(tree[1..], m);
      }
    }
  }

  /** A sorted tree is determined by the map it stands for. */
  lemma {:induction false} SortedUnique(s: seq<Member>, t: seq<Member>)
    requires Sorted(s) && Sorted(t) && ToMap(s) == ToMap(t)
    ensures s == t
  {
    hide ToMap, KeySet, Sorted, Less;
    ToMapKeys(s);
    ToMapKeys(t);
    EmptyKeySet(s);
    EmptyKeySet(t);
    if s != [] && t != [] {
      SameHead(s, t);
      SortedTail(s);
      SortedTail(t);
      SortedUnique(s[1..], t[1..]);
      assert s == [s[0]] + s[1..] && t == [t[0]] + t[1..];
    }
  }

  lemma SortedTail(s: seq<Member>)
    requires Sorted(s) && s != []
    ensures Sorted(s[1..]) && ToMap(s[1..]) == ToMap(s) - {s[0].key}
  {
    hide Less, ToMap;
    SortedDistinct(s);
    TailMap(s);
  }

  lemma SameHead(s: seq<Member>, t: seq<Member>)
    requires Sorted(s) && Sorted(t) && ToMap(s) == ToMap(t) && s != [] && t != []
    ensures s[0] == t[0]
  {
    hide ToMap, Less;
    ToMapKeys(s);
    ToMapKeys(t);
    HeadIsLeast(s, t);
    HeadIsLeast(t, s);
    LessTotal(s[0].key, t[0].key);
    SortedDistinct(s);
    SortedDistinct(t);
    ToMapAt(s, 0);
    ToMapAt(t, 0);
  }

  lemma EmptyKeySet(s: seq<Member>)
    ensures KeySet(s) == {} <==> s == []
  {
    if s != [] {
      assert s[0].key in KeySet(s);
    }
  }

  lemma HeadIsLeast(s: seq<Member>, t: seq<Member>)
    requires Sorted(s) && s != [] && t != [] && KeySet(t) == KeySet(s)
    ensures !Less(t[0].key, s[0].key)
  {
    assert t[0].key in KeySet(s);
    var i :| 0 <= i < |s| && s[i].key == t[0].key;
    if Less(t[0].key, s[0].key) {
      if i > 0 {
        LessTransitive(s[0].key, s[i].key, s[0].key);
      }
      LessIrreflexive(s[0].key);
      assert false;
    }
  }

  lemma TailMap(s: seq<Member>)
    requires s != [] && DistinctKeys(s)
    ensures ToMap(s[1..]) == ToMap(s) - {s[0].key}
  {
    ToMapHead(s);
    ToMapKeys(s[1..]);
    assert s[0].key !in ToMap(s[1..]);
  }

  // ---- Canonical members ----

  lemma {:induction false} CanonMembersSorted(members: seq<Member>)
    ensures Sorted(CanonMembers(members))
    ensures ToMap(CanonMembers(members)).Keys == KeySet(members)
  {
    if members == [] {
    } else {
      var n := |members| - 1;
      CanonMembersSorted(members[..n]);
      var tree := CanonMembers(members[..n]);
      var last := Member(members[n].key, Canon(members[n].value));
      InsertSorted(tree, last);
      InsertMap(tree, last);
      KeySetLast(members);
    }
  }

  lemma {:induction false} CanonMembersAt(members: seq<Member>, i: nat)
    requires DistinctKeys(members) && i < |members|
    ensures members[i].key in ToMap(CanonMembers(members))
    ensures ToMap(CanonMembers(members))[members[i].key] == Canon(members[i].value)
  {
    var n := |members| - 1;
    CanonMembersSorted(members[..n]);
    InsertMap(CanonMembers(members[..n]), Member(members[n].key, Canon(members[n].value)));
    if i < n {
      CanonMembersAt(members[..n], i);
    }
  }

  lemma CanonMembersFacts(members: seq<Member>)
    requires DistinctKeys(members)
    ensures Sorted(CanonMembers(members))
    ensures ToMap(CanonMembers(members)).Keys == KeySet(members)
    ensures forall i | 0 <= i < |members| ::
      ToMap(CanonMembers(members))[members[i].key] == Canon(members[i].value)
  {
    CanonMembersSorted(members);
    forall i | 0 <= i < |members|
      ensures ToMap(CanonMembers(members))[members[i].key] == Canon(members[i].value)
    {
      CanonMembersAt(members, i);
    }
  }

  lemma {:induction false} CanonItemsAt(items: seq<Json>, i: nat)
    requires i < |items|
    ensures CanonItems(items)[i] == Canon(items[i])
  {
    if i < |items| - 1 {
      CanonItemsAt(items[..|items| - 1], i);
    }
  }

  // ---- Canonical forms are equal exactly for values that are the same up to key order ----

  lemma {:induction false} CanonSound(a: Json, b: Json)
    requires WellFormed(a) && WellFormed(b) && Canon(a) == Canon(b)
    ensures SameUpToKeyOrder(a, b)
    decreases a
  {
    match a
    case Arr(items) =>
      forall i | 0 <= i < |items|
        ensures |items| == |b.items| && SameUpToKeyOrder(items[i], b.items[i])
      {
        CanonItemsAt(items, i);
        CanonItemsAt(b.items, i);
        CanonSound(items[i], b.items[i]);
      }
    case Obj(members) =>
      CanonMembersFacts(members);
      CanonMembersFacts(b.members);
      forall i, j | 0 <= i < |members| && 0 <= j < |b.members| && members[i].key == b.members[j].key
        ensures SameUpToKeyOrder(members[i].value, b.members[j].value)
      {
        CanonSound(members[i].value, b.members[j].value);
      }
    case _ =>
  }

  lemma CommonKey(ms: seq<Member>, ns: seq<Member>, k: string) returns (i: nat, j: nat)
    requires k in KeySet(ms) && k in KeySet(ns)
    ensures i < |ms| && j < |ns| && ms[i].key == k == ns[j].key
  {
    i :| 0 <= i < |ms| && ms[i].key == k;
    j :| 0 <= j < |ns| && ns[j].key == k;
  }

  lemma {:induction false} CanonComplete(a: Json, b: Json)
    requires WellFormed(a) && WellFormed(b) && SameUpToKeyOrder(a, b)
    ensures Canon(a) == Canon(b)
    decreases a
  {
    match a
    case Arr(items) =>
      var p, q := CanonItems(items), CanonItems(b.items);
      forall i | 0 <= i < |items|
        ensures p[i] == q[i]
      {
        CanonItemsAt(items, i);
        CanonItemsAt(b.items, i);
        CanonComplete(items[i], b.items[i]);
      }
      assert p == q;
    case Obj(members) =>
      CanonMembersFacts(members);
      CanonMembersFacts(b.members);
      var p, q := ToMap(CanonMembers(members)), ToMap(CanonMembers(b.members));
      forall k | k in KeySet(members)
        ensures p[k] == q[k]
      {
        var i, j := CommonKey(members, b.members, k);
        CanonComplete(members[i].value, b.members[j].value);
      }
      assert p == q;
      SortedUnique(CanonMembers(members), CanonMembers(b.members));
    case _ =>
  }

  /**
   The canonical bytes of two values are equal exactly when the values are the same up to the
   order of object keys, at every level.
   */
  lemma CanonicalBytesIdentify(a: Json, b: Json)
    requires WellFormed(a) && WellFormed(b)
    ensures CanonicalBytes(a) == CanonicalBytes(b) <==> SameUpToKeyOrder(a, b)
  {
    if CanonicalBytes(a) == CanonicalBytes(b) {
      Utf8.EncodeInjective(Print(Canon(a)), Print(Canon(b)));
      PrintInjective(Canon(a), Canon(b), "", "");
      CanonSound(a, b);
    }
    if SameUpToKeyOrder(a, b) {
      CanonComplete(a, b);
    }
  }

  // ---- Canonicalising keeps the value and is idempotent ----

  lemma {:induction false} CanonWellFormed(v: Json)
    requires WellFormed(v)
    ensures WellFormed(Canon(v))
    decreases v
  {
    match v
    case Arr(items) =>
      forall i | 0 <= i < |items|
        ensures WellFormed(CanonItems(items)[i])
      {
        CanonItemsAt(items, i);
        CanonWellFormed(items[i]);
      }
    case Obj(members) =>
      CanonMembersFacts(members);
      var tree := CanonMembers(members);
      SortedDistinct(tree);
      forall t | 0 <= t < |tree|
        ensures WellFormed(tree[t].value)
      {
        var i := SourceOf(members, t);
        CanonWellFormed(members[i].value);
      }
    case _ =>
  }

  /** Every member of the canonical object comes from a member of the original. */
  lemma SourceOf(members: seq<Member>, t: nat) returns (i: nat)
    requires DistinctKeys(members) && t < |CanonMembers(members)|
    ensures i < |members|
    ensures CanonMembers(members)[t] == Member(members[i].key, Canon(members[i].value))
  {
    CanonMembersFacts(members);
    var tree := CanonMembers(members);
    SortedDistinct(tree);
    ToMapAt(tree, t);
    assert tree[t].key in KeySet(members);
    i :| 0 <= i < |members| && members[i].key == tree[t].key;
  }

  lemma {:induction false} CanonIdempotent(v: Json)
    requires WellFormed(v)
    ensures Canon(Canon(v)) == Canon(v)
    decreases v
  {
    match v
    case Arr(items) =>
      var once := CanonItems(items);
      var twice := CanonItems(once);
      forall i | 0 <= i < |items|
        ensures twice[i] == once[i]
      {
        CanonItemsAt(items, i);
        CanonItemsAt(once, i);
        CanonIdempotent(items[i]);
      }
      assert twice == once;
    case Obj(members) =>
      var once := CanonMembers(members);
      forall t | 0 <= t < |once|
        ensures Canon(once[t].value) == once[t].value
      {
        var i := SourceOf(members, t);
        CanonIdempotent(members[i].value);
      }
      CanonOfCanonical(members);
    case _ =>
  }

  /** Sorting members that are sorted already and whose values are canonical gives them back. */
  lemma CanonOfCanonical(members: seq<Member>)
    requires DistinctKeys(members)
    requires var once := CanonMembers(members); forall t | 0 <= t < |once| :: Canon(once[t].value) == once[t].value
    ensures CanonMembers(CanonMembers(members)) == CanonMembers(members)
  {
    hide Canon, ToMap, CanonMembers, Sorted, KeySet;
    var once := CanonMembers(members);
    CanonMembersSorted(members);
    SortedDistinct(once);
    CanonMembersSorted(once);
    ToMapKeys(once);
    var twice := CanonMembers(once);
    forall k | k in ToMap(once).Keys
      ensures ToMap(twice)[k] == ToMap(once)[k]
    {
      var t := MemberWith(once, k);
      ToMapAt(once, t);
      CanonMembersAt(once, t);
    }
    assert ToMap(twice) == ToMap(once);
    SortedUnique(twice, once);
  }

  lemma MemberWith(members: seq<Member>, k: string) returns (t: nat)
    requires k in ToMap(members).Keys
    ensures t < |members| && members[t].key == k
  {
    hide ToMap;
    ToMapKeys(members);
    t :| 0 <= t < |members| && members[t].key == k;
  }

  /** Every object in the value, at any depth, lists its keys in order. */
  predicate SortedEverywhere(v: Json)
    decreases v
  {
    match v
    case Arr(items) => forall i | 0 <= i < |items| :: SortedEverywhere(items[i])
    case Obj(members) => Sorted(members) && forall i | 0 <= i < |members| :: SortedEverywhere(members[i].value)
    case _ => true
  }

  lemma {:induction false} CanonSortsEverywhere(v: Json)
    requires WellFormed(v)
    ensures SortedEverywhere(Canon(v))
    decreases v
  {
    match v
    case Arr(items) =>
      forall i | 0 <= i < |items|
        ensures SortedEverywhere(CanonItems(items)[i])
      {
        CanonItemsAt(items, i);
        CanonSortsEverywhere(items[i]);
      }
    case Obj(members) =>
      CanonMembersFacts(members);
      var tree := CanonMembers(members);
      forall t | 0 <= t < |tree|
        ensures SortedEverywhere(tree[t].value)
      {
        var i := SourceOf(members, t);
        CanonSortsEverywhere(members[i].value);
      }
    case _ =>
  }

  /** Canonicalisation changes nothing but the order of keys, and leaves them sorted at every level. */
  lemma CanonKeepsMeaning(v: Json)
    requires WellFormed(v)
    ensures SameUpToKeyOrder(v, Canon(v))
    ensures CanonicalBytes(Canon(v)) == CanonicalBytes(v)
    ensures SortedEverywhere(Canon(v))
  {
    hide SortedEverywhere;
    CanonWellFormed(v);
    CanonIdempotent(v);
    CanonSound(v, Canon(v));
    CanonSortsEverywhere(v);
  }

  /** What is signed is JSON text in UTF-8: decoded and read, the bytes are the canonical value again. */
  lemma CanonicalBytesReadBack(v: Json)
    ensures var text := Utf8.Decode(CanonicalBytes(v));
      text.Some? && JsonReader.Read(text.value) == Some(Canon(v))
  {
    hide Canon, Print, Utf8.Encode, Utf8.Decode, JsonReader.Read;
    Utf8.EncodeDecodes(Print(Canon(v)));
    JsonReader.PrintReadsBack(Canon(v));
  }

  // ---- Signing payloads ----

  function Strs(ss: seq<string>): (r: seq<Json>)
    ensures |r| == |ss| && forall i | 0 <= i < |ss| :: r[i] == Str(ss[i])
  {
    seq(|ss|, i requires 0 <= i < |ss| => Str(ss[i]))
  }

  function LeasePayload(agentId: string, leaseScope: seq<string>, role: string): Json {
    Obj([
      Member("purpose", Str("coevo:emergency-lease:v1")),
      Member("agent_id", Str(agentId)),
      Member("lease_scope", Arr(Strs(leaseScope))),
      Member("role", Str(role))
    ])
  }

  function LeaseSigningPayload(agentId: string, leaseScope: seq<string>, role: string): seq<Utf8.Byte> {
    CanonicalBytes(LeasePayload(agentId, leaseScope, role))
  }

  function EnvelopePayload(contentHash: string, sourceAgentId: string, toolUrn: string, createdAt: string): Json {
    Obj([
      Member("purpose", Str("coevo:provenance:v1")),
      Member("content_hash", Str(contentHash)),
      Member("source_agent_id", Str(sourceAgentId)),
      Member("verification_tool_urn", Str(toolUrn)),
      Member("created_at", Str(createdAt))
    ])
  }

  function EnvelopeSigningBytes(contentHash: string, sourceAgentId: string, toolUrn: string, createdAt: string)
    : seq<Utf8.Byte>
  {
    CanonicalBytes(EnvelopePayload(contentHash, sourceAgentId, toolUrn, createdAt))
  }

  /** Objects built from the same distinct keys in the same places are the same member by member. */
  lemma SameMembers(ms: seq<Member>, ns: seq<Member>, i: nat)
    requires WellFormed(Obj(ms)) && WellFormed(Obj(ns)) && |ms| == |ns| && i < |ms|
    requires ms[i].key == ns[i].key
    requires CanonicalBytes(Obj(ms)) == CanonicalBytes(Obj(ns))
    ensures SameUpToKeyOrder(ms[i].value, ns[i].value)
  {
    hide CanonicalBytes, WellFormed;
    CanonicalBytesIdentify(Obj(ms), Obj(ns));
  }

  lemma SameStrs(ss: seq<string>, ts: seq<string>)
    requires SameUpToKeyOrder(Arr(Strs(ss)), Arr(Strs(ts)))
    ensures ss == ts
  {
  }

  lemma LeasePayloadWellFormed(agent: string, scope: seq<string>, role: string)
    ensures WellFormed(LeasePayload(agent, scope, role))
  {
  }

  lemma EnvelopePayloadWellFormed(hash: string, agent: string, tool: string, at: string)
    ensures WellFormed(EnvelopePayload(hash, agent, tool, at))
  {
  }

  lemma LeasePayloadIdentifies(agent: string, scope: seq<string>, role: string, agent': string, scope': seq<string>,
                               role': string)
    ensures LeaseSigningPayload(agent, scope, role) == LeaseSigningPayload(agent', scope', role')
       <==> agent == agent' && scope == scope' && role == role'
  {
    hide CanonicalBytes, WellFormed;
    if LeaseSigningPayload(agent, scope, role) == LeaseSigningPayload(agent', scope', role') {
      var p, q := LeasePayload(agent, scope, role).members, LeasePayload(agent', scope', role').members;
      LeasePayloadWellFormed(agent, scope, role);
      LeasePayloadWellFormed(agent', scope', role');
      SameMembers(p, q, 1);
      SameMembers(p, q, 2);
      SameMembers(p, q, 3);
      SameStrs(scope, scope');
    }
  }

  lemma EnvelopeBytesIdentify(hash: string, agent: string, tool: string, at: string, hash': string, agent': string,
                              tool': string, at': string)
    ensures EnvelopeSigningBytes(hash, agent, tool, at) == EnvelopeSigningBytes(hash', agent', tool', at')
       <==> hash == hash' && agent == agent' && tool == tool' && at == at'
  {
    hide CanonicalBytes, WellFormed;
    if EnvelopeSigningBytes(hash, agent, tool, at) == EnvelopeSigningBytes(hash', agent', tool', at') {
      var p, q := EnvelopePayload(hash, agent, tool, at).members, EnvelopePayload(hash', agent', tool', at').members;
      EnvelopePayloadWellFormed(hash, agent, tool, at);
      EnvelopePayloadWellFormed(hash', agent', tool', at');
      SameMembers(p, q, 1);
      SameMembers(p, q, 2);
      SameMembers(p, q, 3);
      SameMembers(p, q, 4);
    }
  }

  /** A lease vouch never doubles as a provenance signature: the signed bytes differ. */
  lemma PayloadKindsDisjoint(agent: string, scope: seq<string>, role: string, hash: string, source: string,
                             tool: string, at: string)
    ensures LeaseSigningPayload(agent, scope, role) != EnvelopeSigningBytes(hash, source, tool, at)
  {
    hide CanonicalBytes, WellFormed;
    var p, q := LeasePayload(agent, scope, role), EnvelopePayload(hash, source, tool, at);
    LeasePayloadWellFormed(agent, scope, role);
    EnvelopePayloadWellFormed(hash, source, tool, at);
    CanonicalBytesIdentify(p, q);
    assert p.members[0].key == q.members[0].key && p.members[0].value != q.members[0].value;
  }
}
