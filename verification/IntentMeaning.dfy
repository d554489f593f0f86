/**
 What the intent compiler makes of a text, in terms of the words and terms the text contains
 (crates/coevo-mcl/src/compiler.rs), independently of how the classifier computes it.
 */
module IntentMeaning {
  import opened Prelude
  import opened Text
  import opened Intent

  // ---- Expressing a concept ----

  /** A term of the list occurs in the text. */
  ghost predicate Has(text: string, terms: seq<string>) {
    exists i | 0 <= i < |terms| :: Contains(text, terms[i])
  }

  lemma AnyTermExactly(terms: seq<string>, text: string)
    ensures AnyTerm(terms, text) <==> Has(text, terms)
  {
    hide Find, Contains;
    if Has(text, terms) {
      var i :| 0 <= i < |terms| && Contains(text, terms[i]);
      assert Find(text, terms[i]).Some?;
    }
  }

  /** Every character is lowercased in its place. */
  lemma {:induction false} LowerAt(s: string, lowerChar: char -> string, single: char -> char)
    requires forall c | c in s :: lowerChar(c) == [single(c)]
    ensures |Lower(s, lowerChar)| == |s|
    ensures forall i | 0 <= i < |s| :: Lower(s, lowerChar)[i] == single(s[i])
  {
    if s == "" {
    } else {
      LowerAt(s[..|s| - 1], lowerChar, single);
    }
  }

  /** An English term occurs in the lowercased text, or a Chinese one in the text, both trimmed. */
  ghost predicate Says(intent: string, lowerChar: char -> string, en: seq<string>, zh: seq<string>) {
    Has(Lower(Trim(intent), lowerChar), en) || Has(Trim(intent), zh)
  }

  ghost predicate Expresses(intent: string, lowerChar: char -> string, c: Concept) {
    Says(intent, lowerChar, EnglishTerms(c), ChineseTerms(c))
  }

  lemma IsAConcept(c: Concept)
    ensures c in AllConcepts()
  {
  }

  lemma DetectedExactly(intent: string, lowerChar: char -> string)
    ensures var f := Detect(Lower(Trim(intent), lowerChar), Trim(intent));
      && (forall c :: c in f.concepts <==> Expresses(intent, lowerChar, c))
      && (f.explicitHigh <==> Says(intent, lowerChar, HIGH_EN, HIGH_ZH))
      && (f.explicitMedium <==> Says(intent, lowerChar, MEDIUM_EN, MEDIUM_ZH))
  {
    hide Trim, Lower, AnyTerm, Has, EnglishTerms, ChineseTerms, AllConcepts;
    var raw := Trim(intent);
    var lower := Lower(raw, lowerChar);
    forall c
      ensures c in AllConcepts() && (ConceptMatches(c, lower, raw) <==> Expresses(intent, lowerChar, c))
    {
      IsAConcept(c);
      AnyTermExactly(EnglishTerms(c), lower);
      AnyTermExactly(ChineseTerms(c), raw);
    }
    AnyTermExactly(HIGH_EN, lower);
    AnyTermExactly(HIGH_ZH, raw);
    AnyTermExactly(MEDIUM_EN, lower);
    AnyTermExactly(MEDIUM_ZH, raw);
  }

  // ---- Words ----

  predicate IsWord(w: string) {
    w != "" && forall i | 0 <= i < |w| :: !IsWhite(w[i])
  }

  /** The words with the gaps around them. */
  function Woven(gaps: seq<string>, words: seq<string>): string
    requires |gaps| == |words| + 1
  {
    if words == [] then gaps[0]
    else Woven(gaps[..|words|], words[..|words| - 1]) + (words[|words| - 1] + gaps[|words|])
  }

  /** White gaps around the words, never empty between two of them. */
  predicate AreGaps(gaps: seq<string>, words: seq<string>) {
    && |gaps| == |words| + 1
    && (forall i | 0 <= i < |gaps| :: Blank(gaps[i]))
    && (forall i | 0 < i < |words| :: gaps[i] != "")
  }

  /** Splitting finds the words of a text: with the white gaps around them they make up the text. */
  lemma {:induction false} WordsCoverText(s: string) returns (gaps: seq<string>)
    ensures AreGaps(gaps, SplitWhitespace(s)) && Woven(gaps, SplitWhitespace(s)) == s
    ensures forall w | w in SplitWhitespace(s) :: IsWord(w)
    ensures s != "" ==> (gaps[|SplitWhitespace(s)|] == "" <==> !IsWhite(s[|s| - 1]))
  {
    hide IsWhite, AreGaps, Woven, IsWord;
    if s == "" {
      gaps := [""];
      NoWords();
    } else {
      var init, c := s[..|s| - 1], s[|s| - 1];
      var words := SplitWhitespace(init);
      var before := WordsCoverText(init);
      GapsFit(before, words);
      assert s == init + [c];
      if IsWhite(c) {
        gaps := before[|words| := before[|words|] + [c]];
        WidenGap(before, words, c);
      } else if init == "" || IsWhite(init[|init| - 1]) {
        gaps := before + [""];
        NewWord(before, words, c);
      } else {
        gaps := before;
        GrowWord(before, words, c);
      }
    }
  }

  lemma NoWords()
    ensures AreGaps([""], []) && Woven([""], []) == ""
  {
  }

  lemma GapsFit(gaps: seq<string>, words: seq<string>)
    requires AreGaps(gaps, words)
    ensures |gaps| == |words| + 1
  {
  }

  lemma NewWord(gaps: seq<string>, words: seq<string>, c: char)
    requires AreGaps(gaps, words) && !IsWhite(c) && (words != [] ==> gaps[|words|] != "")
    ensures var more, wider := words + [[c]], gaps + [""];
      && AreGaps(wider, more) && Woven(wider, more) == Woven(gaps, words) + [c]
      && IsWord([c])
  {
    hide IsWhite;
    var more, wider := words + [[c]], gaps + [""];
    assert wider[..|more|] == gaps && more[..|more| - 1] == words;
    assert [c] + "" == [c];
  }

  lemma GrowWord(gaps: seq<string>, words: seq<string>, c: char)
    requires AreGaps(gaps, words) && words != [] && gaps[|words|] == "" && !IsWhite(c)
    requires forall w | w in words :: IsWord(w)
    ensures var n := |words| - 1;
      var grown := words[..n] + [words[n] + [c]];
      && AreGaps(gaps, grown) && Woven(gaps, grown) == Woven(gaps, words) + [c]
      && forall w | w in grown :: IsWord(w)
  {
    hide IsWhite;
    var n := |words| - 1;
    var grown := words[..n] + [words[n] + [c]];
    assert words[n] in words;
    assert grown[..n] == words[..n];
    assert words[n] + [c] + "" == words[n] + [c] && words[n] + "" == words[n];
    var front := Woven(gaps[..n + 1], words[..n]);
    assert front + (words[n] + [c]) == (front + words[n]) + [c];
  }

  lemma WidenGap(gaps: seq<string>, words: seq<string>, c: char)
    requires AreGaps(gaps, words) && IsWhite(c)
    ensures var wider := gaps[|words| := gaps[|words|] + [c]];
      AreGaps(wider, words) && Woven(wider, words) == Woven(gaps, words) + [c]
  {
    hide IsWhite;
    var n := |words|;
    var wider := gaps[n := gaps[n] + [c]];
    if n > 0 {
      assert wider[..n] == gaps[..n];
      var front, last := Woven(gaps[..n], words[..n - 1]), words[n - 1];
      assert front + (last + (gaps[n] + [c])) == front + (last + gaps[n]) + [c];
    }
  }

  lemma CardinalityGrows(a: set<nat>, n: nat, added: bool)
    requires n !in a
    ensures |a + if added then {n} else {}| == |a| + if added then 1 else 0
  {
  }

  function CjkPlaces(s: string): set<nat> {
    set i: nat | i < |s| && IsCjk(s[i])
  }

  lemma {:induction false} CjkCounted(s: string)
    ensures CjkCharCount(s) == |CjkPlaces(s)|
  {
    hide IsCjk;
    if s == "" {
      assert CjkPlaces(s) == {};
    } else {
      var n := |s| - 1;
      CjkCounted(s[..n]);
      CjkPlacesLast(s);
    }
  }

  lemma CjkPlacesLast(s: string)
    requires s != ""
    ensures |CjkPlaces(s)| == |CjkPlaces(s[..|s| - 1])| + if IsCjk(s[|s| - 1]) then 1 else 0
  {
    hide IsCjk;
    var n := |s| - 1;
    CardinalityGrows(CjkPlaces(s[..n]), n, IsCjk(s[n]));
    assert CjkPlaces(s) == CjkPlaces(s[..n]) + if IsCjk(s[n]) then {n} else {};
  }

  /** The places of the words that are not Chinese characters only. */
  function OtherPlaces(words: seq<string>): set<nat> {
    set i: nat | i < |words| && exists j :: 0 <= j < |words[i]| && !IsCjk(words[i][j])
  }

  lemma {:induction false} OthersCounted(words: seq<string>)
    ensures CountOther(words) == |OtherPlaces(words)|
  {
    hide IsCjk;
    if words == [] {
      assert OtherPlaces(words) == {};
    } else {
      var n := |words| - 1;
      OthersCounted(words[..n]);
      OtherPlacesLast(words);
    }
  }

  lemma OtherPlacesLast(words: seq<string>)
    requires words != []
    ensures |OtherPlaces(words)|
         == |OtherPlaces(words[..|words| - 1])| + if NotPurelyCjk(words[|words| - 1]) then 1 else 0
  {
    hide IsCjk;
    var n := |words| - 1;
    CardinalityGrows(OtherPlaces(words[..n]), n, NotPurelyCjk(words[n]));
    assert OtherPlaces(words) == OtherPlaces(words[..n]) + if NotPurelyCjk(words[n]) then {n} else {};
  }

  /** Every other word counts once, and Chinese characters count one for each two, rounded up. */
  lemma WordsCounted(s: string)
    ensures var other, cjk := |OtherPlaces(SplitWhitespace(s))|, |CjkPlaces(s)|;
      2 * (EffectiveWordCount(s) - other) - 1 <= cjk <= 2 * (EffectiveWordCount(s) - other)
  {
    CjkCounted(s);
    OthersCounted(SplitWhitespace(s));
  }

  // ---- What is compiled ----

  ghost predicate IsHigh(intent: string, lowerChar: char -> string) {
    || Expresses(intent, lowerChar, Delete)
    || Expresses(intent, lowerChar, Payment)
    || Expresses(intent, lowerChar, CustomerData)
    || (Expresses(intent, lowerChar, Production)
        && (Expresses(intent, lowerChar, Write) || Expresses(intent, lowerChar, Deploy)))
    || Says(intent, lowerChar, HIGH_EN, HIGH_ZH)
  }

  ghost predicate IsMedium(intent: string, lowerChar: char -> string) {
    || Expresses(intent, lowerChar, Write)
    || Expresses(intent, lowerChar, Deploy)
    || Expresses(intent, lowerChar, Shell)
    || Expresses(intent, lowerChar, Staging)
    || Says(intent, lowerChar, MEDIUM_EN, MEDIUM_ZH)
  }

  ghost predicate NamesAnAction(intent: string, lowerChar: char -> string) {
    exists c :: c in {Read, Write, Delete, Deploy} && Expresses(intent, lowerChar, c)
  }

  /** The risk level, the environment and the ambiguity of a text follow from what it expresses. */
  lemma ParsedExactly(intent: string, lowerChar: char -> string)
    requires !Blank(intent)
    ensures Parse(intent, lowerChar).Ok?
    ensures var p, words := Parse(intent, lowerChar).value, EffectiveWordCount(Trim(intent));
      && p.objective == intent
      && p.riskLevel
        == (if IsHigh(intent, lowerChar) then "high" else if IsMedium(intent, lowerChar) then "medium" else "low")
      && p.environment == (if Expresses(intent, lowerChar, Production) then "production"
                           else if Expresses(intent, lowerChar, Staging) then "staging" else "development")
      && (p.ambiguity == 0.8 <==> !NamesAnAction(intent, lowerChar))
      && (p.ambiguity == 0.5 <==> NamesAnAction(intent, lowerChar) && words < 3)
      && (p.ambiguity == 0.35 <==> NamesAnAction(intent, lowerChar) && 3 <= words < 8)
      && (p.ambiguity == 0.2 <==> NamesAnAction(intent, lowerChar) && words >= 8)
      && (!NamesAnAction(intent, lowerChar) ==> p.actions == ["DRAFT_ONLY"])
  {
    hide Trim, Blank, Lower, Detect, Expresses, Says, EffectiveWordCount, DataDomains;
    TrimEmpty(intent);
    DetectedExactly(intent, lowerChar);
    var f := Detect(Lower(Trim(intent), lowerChar), Trim(intent));
    assert HasAction(f) <==> NamesAnAction(intent, lowerChar) by {
      if HasAction(f) {
        var c := if Read in f.concepts then Read else if Write in f.concepts then Write
                 else if Delete in f.concepts then Delete else Deploy;
        assert c in {Read, Write, Delete, Deploy} && Expresses(intent, lowerChar, c);
      }
    }
  }

  lemma ActionsExactly(f: Findings)
    requires HasAction(f)
    ensures DraftOnly in ActionModes(Actions(f)) <==> Read in f.concepts
    ensures MutableWrite in ActionModes(Actions(f)) <==> Write in f.concepts
    ensures CommitReady in ActionModes(Actions(f)) <==> Deploy in f.concepts || Delete in f.concepts
  {
    hide Push, ActionModes;
    NoModes();
    var read := Push([], Read in f.concepts, "DRAFT_ONLY");
    var write := Push(read, Write in f.concepts, "MUTABLE_WRITE");
    PushedMode([], Read in f.concepts, "DRAFT_ONLY");
    PushedMode(read, Write in f.concepts, "MUTABLE_WRITE");
    PushedMode(write, Deploy in f.concepts || Delete in f.concepts, "COMMIT_READY");
  }

  lemma NoModes()
    ensures ActionModes([]) == []
  {
  }

  lemma PushedMode(actions: seq<string>, condition: bool, action: string)
    requires action == "DRAFT_ONLY" || action == "MUTABLE_WRITE" || action == "COMMIT_READY"
    ensures ActionModes(Push(actions, condition, action)) == ActionModes(actions) +
      if !condition then []
      else if action == "DRAFT_ONLY" then [DraftOnly]
      else if action == "MUTABLE_WRITE" then [MutableWrite]
      else [CommitReady]
  {
    var pushed := actions + [action];
    assert pushed[..|pushed| - 1] == actions;
  }

  /** The concepts that ask for a data domain; the default one is always there. */
  predicate AsksFor(concepts: set<Concept>, domain: string) {
    || domain == "urn:coevo:data:default"
    || (domain == "urn:coevo:data:database" && Database in concepts)
    || (domain == "urn:coevo:data:filesystem" && File in concepts)
    || (domain == "urn:coevo:data:payment" && Payment in concepts)
    || (domain == "urn:coevo:data:customer" && CustomerData in concepts)
    || (domain == "urn:coevo:data:network" && (EmailNotify in concepts || ExternalApi in concepts))
    || (domain == "urn:coevo:data:shell" && Shell in concepts)
  }

  lemma PushedItem(items: seq<string>, condition: bool, item: string, x: string)
    ensures x in Push(items, condition, item) <==> x in items || (condition && x == item)
  {
  }

  lemma DomainsExactly(f: Findings, domain: string)
    ensures domain in DataDomains(f) <==> AsksFor(f.concepts, domain)
  {
    hide Push;
    var d0 := ["urn:coevo:data:default"];
    var d1 := Push(d0, Database in f.concepts, "urn:coevo:data:database");
    var d2 := Push(d1, File in f.concepts, "urn:coevo:data:filesystem");
    var d3 := Push(d2, Payment in f.concepts, "urn:coevo:data:payment");
    var d4 := Push(d3, CustomerData in f.concepts, "urn:coevo:data:customer");
    var d5 := Push(d4, EmailNotify in f.concepts || ExternalApi in f.concepts, "urn:coevo:data:network");
    PushedItem(d0, Database in f.concepts, "urn:coevo:data:database", domain);
    PushedItem(d1, File in f.concepts, "urn:coevo:data:filesystem", domain);
    PushedItem(d2, Payment in f.concepts, "urn:coevo:data:payment", domain);
    PushedItem(d3, CustomerData in f.concepts, "urn:coevo:data:customer", domain);
    PushedItem(d4, EmailNotify in f.concepts || ExternalApi in f.concepts, "urn:coevo:data:network", domain);
    PushedItem(d5, Shell in f.concepts, "urn:coevo:data:shell", domain);
  }

  ghost function Expressed(intent: string, lowerChar: char -> string): set<Concept> {
    set c | c in AllConcepts() && Expresses(intent, lowerChar, c)
  }

  /**
   The contract of a compiled text: explicit approval, the highest risk ceiling and emergency leases
   exactly for high risk, a data domain and an action mode exactly for the concepts that ask for it.
   */
  lemma ContractExactly(intent: string, lowerChar: char -> string)
    requires Compile(intent, lowerChar).Ok?
    ensures var c := Compile(intent, lowerChar).value;
      && (c.approvalMode == ExplicitApproval <==> IsHigh(intent, lowerChar))
      && (c.allowEmergencyLease <==> IsHigh(intent, lowerChar))
      && c.maxRiskScore == (if IsHigh(intent, lowerChar) then 0.9 else if IsMedium(intent, lowerChar) then 0.6 else 0.3)
      && (forall d :: d in c.dataBoundary <==> AsksFor(Expressed(intent, lowerChar), d))
      && (DraftOnly in c.actionModes <==> Expresses(intent, lowerChar, Read))
      && (MutableWrite in c.actionModes <==> Expresses(intent, lowerChar, Write))
      && (CommitReady in c.actionModes
          <==> Expresses(intent, lowerChar, Deploy) || Expresses(intent, lowerChar, Delete))
  {
    hide Trim, Blank, Lower, Detect, Expresses, Says, EffectiveWordCount, Actions, DataDomains, ActionModes,
      IsHigh, IsMedium, NamesAnAction, AsksFor, AllConcepts;
    TrimEmpty(intent);
    DetectedExactly(intent, lowerChar);
    ParsedExactly(intent, lowerChar);
    var f := Detect(Lower(Trim(intent), lowerChar), Trim(intent));
    ActionsExactly(f);
    forall c
      ensures c in f.concepts <==> c in Expressed(intent, lowerChar)
    {
      IsAConcept(c);
    }
    assert f.concepts == Expressed(intent, lowerChar);
    forall d: string
      ensures d in DataDomains(f) <==> AsksFor(f.concepts, d)
    {
      DomainsExactly(f, d);
    }
  }
}
