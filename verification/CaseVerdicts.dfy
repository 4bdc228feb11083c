/** When each fault of a case list is reported, said about the cases themselves and not about the checks. */
module CaseVerdicts {
  import opened CaseCounts
  import opened CaseList
  import opened CasePairing
  import opened Texts

  // ---- one case

  /** A letter or digit, then letters, digits, dots, underscores and hyphens, and nothing behind them. */
  predicate IsPlainId(s: string) {
    s != "" && forall i :: 0 <= i < |s| ==>
      '0' <= s[i] <= '9' || 'A' <= s[i] <= 'Z' || 'a' <= s[i] <= 'z'
      || (i > 0 && (s[i] == '.' || s[i] == '_' || s[i] == '-'))
  }

  /** A pair may end in one line feed, which the pattern's `$` lets pass. */
  predicate IsPairId(s: string) {
    IsPlainId(s) || (s != "" && s[|s| - 1] == '\n' && IsPlainId(s[..|s| - 1]))
  }

  /** Not a list of strings, or one with a blank entry. */
  predicate Unusable(list: Strings) {
    list.NotAList? || exists i :: 0 <= i < |list.items| && IsBlank(list.items[i])
  }

  /** The list is usable and has an entry that strips to the token. */
  predicate Names(list: Strings, token: string) {
    !Unusable(list) && exists i :: 0 <= i < |list.items| && Strip(list.items[i]) == token
  }

  predicate MentionsLock(s: string) { exists i :: 0 <= i <= |s| && "ASM-001" <= s[i..] }

  predicate NoneMentionsLock(entries: seq<string>) { forall k :: 0 <= k < |entries| ==> !MentionsLock(entries[k]) }

  function Entries(list: Strings): seq<string> { if list.Items? then list.items else [] }

  /** What the case check has to report about the case at an index. */
  predicate CaseDeserves(c: Case, at: nat, inv: Inventory, f: Fault) {
    match f
    case BadId(i) => i == at && !(c.id.Text? && IsPlainId(c.id.value))
    case BadLayer(i) => i == at && c.layer !in {Text("unit"), Text("integration"), Text("e2e"), Text("governance")}
    case BadEnvironment(i) => i == at && c.environment !in {Text("offline"), Text("live")}
    case BadList(i, field) =>
      && i == at
      && ((field == "requirements" && Unusable(c.requirements)) || (field == "facets" && Unusable(c.facets))
          || (field == "prerequisites" && Unusable(c.prerequisites)))
    case UnknownToken(i, token) =>
      && i == at
      && ((Names(c.requirements, token) && !inv.isRequirement(token))
          || (Names(c.facets, token) && !inv.isFacet(token)))
    case NoPrerequisites(i) =>
      i == at && c.environment == Text("live") && (Unusable(c.prerequisites) || Entries(c.prerequisites) == [])
    case NoLock(i) =>
      && i == at && c.environment == Text("live") && !Unusable(c.prerequisites) && Entries(c.prerequisites) != []
      && forall k :: 0 <= k < |c.prerequisites.items| ==> !MentionsLock(Strip(c.prerequisites.items[k]))
    case NoPair(i) => i == at && c.layer == Text("e2e") && !(c.pair.Text? && !IsBlank(c.pair.value))
    case BadPair(i) =>
      i == at && c.pair != Absent && !(c.pair.Text? && (c.pair.value == "" || IsPairId(c.pair.value)))
    case Elsewhere(i) => i == at && c.otherFaults > 0
    case _ => false
  }

  lemma PunctuationExactly(c: char)
    ensures c in "._-" <==> c == '.' || c == '_' || c == '-'
  {
    assert "._-"[0] == '.' && "._-"[1] == '_' && "._-"[2] == '-';
  }

  /** Without the line feed, the pattern is what it says. */
  lemma PatternExactly(s: string)
    ensures IsPlainId(s) <==> MatchesIdPattern(s)
  {
    forall i | 0 <= i < |s| ensures s[i] in "._-" <==> s[i] == '.' || s[i] == '_' || s[i] == '-' {
      PunctuationExactly(s[i]);
    }
  }

  lemma PlainIdHasNoSpace(s: string, i: nat)
    requires IsPlainId(s) && i < |s|
    ensures !IsSpace(s[i])
  {
  }

  lemma CaseIdExactly(s: string)
    ensures IsCaseId(s) <==> IsPlainId(if s != "" && s[|s| - 1] == '\n' then s[..|s| - 1] else s)
  {
    PatternExactly(if s != "" && s[|s| - 1] == '\n' then s[..|s| - 1] else s);
  }

  lemma {:induction false} PlainIdExactly(s: string)
    ensures s != "" && s == Strip(s) && IsCaseId(s) <==> IsPlainId(s)
  {
    StripExactly(s);
    CaseIdExactly(s);
    assert IsSpace('\n');
    if IsPlainId(s) {
      PlainIdHasNoSpace(s, 0);
      PlainIdHasNoSpace(s, |s| - 1);
    }
  }

  lemma PairIdExactly(s: string)
    ensures IsCaseId(s) <==> IsPairId(s)
  {
    CaseIdExactly(s);
    assert IsSpace('\n');
    if IsPlainId(s) {
      PlainIdHasNoSpace(s, |s| - 1);
    }
  }

  lemma {:induction false} UnusableExactly(list: Strings)
    ensures CleanList(list) <==> !Unusable(list)
  {
    if list.Items? {
      forall i | 0 <= i < |list.items| ensures Strip(list.items[i]) == "" <==> IsBlank(list.items[i]) {
        StripExactly(list.items[i]);
      }
    }
  }

  lemma {:induction false} UnknownExactly(items: seq<string>, known: string -> bool, at: nat, f: Fault)
    ensures f in UnknownTokens(items, known, at) <==>
            f.UnknownToken? && f.at == at && !known(f.token)
            && exists i :: 0 <= i < |items| && Strip(items[i]) == f.token
  {
    if items != [] {
      UnknownExactly(items[..|items| - 1], known, at, f);
      assert items == items[..|items| - 1] + [items[|items| - 1]];
    }
  }

  lemma {:induction false} TokenFaultsExactly(list: Strings, known: string -> bool, field: string, at: nat, f: Fault)
    ensures f in TokenFaults(list, known, field, at) <==>
            || (f == BadList(at, field) && Unusable(list))
            || (f.UnknownToken? && f.at == at && Names(list, f.token) && !known(f.token))
  {
    UnusableExactly(list);
    if list.Items? {
      UnknownExactly(list.items, known, at, f);
    }
  }

  lemma {:induction false} FieldFaultsExactly(c: Case, at: nat, inv: Inventory, f: Fault)
    ensures f in FieldFaults(c, at) <==> (f.BadId? || f.BadLayer? || f.BadEnvironment?) && CaseDeserves(c, at, inv, f)
  {
    if c.id.Text? {
      PlainIdExactly(c.id.value);
      assert Strip("") == "";
    }
  }

  lemma {:induction false} ListFaultsExactly(c: Case, at: nat, inv: Inventory, f: Fault)
    ensures f in ListFaults(c, at, inv) <==> (f.BadList? || f.UnknownToken?) && CaseDeserves(c, at, inv, f)
  {
    TokenFaultsExactly(c.requirements, inv.isRequirement, "requirements", at, f);
    TokenFaultsExactly(c.facets, inv.isFacet, "facets", at, f);
    UnusableExactly(c.prerequisites);
  }

  lemma {:induction false} LiveFaultsExactly(c: Case, at: nat, inv: Inventory, f: Fault)
    ensures f in LiveFaults(c, at) <==> (f.NoPrerequisites? || f.NoLock?) && CaseDeserves(c, at, inv, f)
  {
    UnusableExactly(c.prerequisites);
    if c.prerequisites.Items? {
      forall k | 0 <= k < |c.prerequisites.items|
        ensures Includes(Strip(c.prerequisites.items[k]), CONNECTOR_LOCK)
                <==> MentionsLock(Strip(c.prerequisites.items[k])) {
      }
    }
  }

  lemma {:induction false} PairFieldFaultsExactly(c: Case, at: nat, inv: Inventory, f: Fault)
    ensures f in PairFieldFaults(c, at) <==> (f.NoPair? || f.BadPair?) && CaseDeserves(c, at, inv, f)
  {
    if c.pair.Text? {
      StripExactly(c.pair.value);
      PairIdExactly(c.pair.value);
    }
  }

  lemma {:induction false} RuleFaultsExactly(c: Case, at: nat, inv: Inventory, f: Fault)
    ensures f in RuleFaults(c, at) <==>
            (f.NoPrerequisites? || f.NoLock? || f.NoPair? || f.BadPair? || f.Elsewhere?) && CaseDeserves(c, at, inv, f)
  {
    LiveFaultsExactly(c, at, inv, f);
    PairFieldFaultsExactly(c, at, inv, f);
    var others := seq(c.otherFaults, _ => Elsewhere(at));
    if c.otherFaults > 0 {
      assert others[0] == Elsewhere(at);
    }
    assert f in others <==> f == Elsewhere(at) && c.otherFaults > 0;
  }

  /** The case check reports exactly the faults the case deserves. */
  lemma CaseFaultsExactly(c: Case, at: nat, inv: Inventory, f: Fault)
    ensures f in CaseFaults(c, at, inv) <==> CaseDeserves(c, at, inv, f)
  {
    FieldFaultsExactly(c, at, inv, f);
    ListFaultsExactly(c, at, inv, f);
    RuleFaultsExactly(c, at, inv, f);
  }

  lemma {:induction false} CollectedExactly(item: nat -> seq<Fault>, n: nat, f: Fault)
    ensures f in Collected(item, n) <==> exists at: nat :: at < n && f in item(at)
  {
    if n > 0 {
      CollectedExactly(item, n - 1, f);
      if at: nat :| at < n && f in item(at) {
        assert at < n - 1 || f in item(n - 1);
      }
    }
  }

  ghost predicate SomeCaseDeserves(cases: seq<Case>, inv: Inventory, f: Fault) {
    exists at: nat :: at < |cases| && CaseDeserves(cases[at], at, inv, f)
  }

  lemma {:induction false} EachCaseExactly(cases: seq<Case>, inv: Inventory, f: Fault)
    ensures f in Collected(CaseFaultsAt(cases, inv), |cases|) <==> SomeCaseDeserves(cases, inv, f)
  {
    var item := CaseFaultsAt(cases, inv);
    CollectedExactly(item, |cases|, f);
    forall at: nat | at < |cases| ensures f in item(at) <==> CaseDeserves(cases[at], at, inv, f) {
      CaseFaultsExactly(cases[at], at, inv, f);
    }
  }

  /** A case without faults declares known tokens only. */
  lemma CleanCaseDeclaresKnownTokens(c: Case, at: nat, inv: Inventory)
    requires CaseFaults(c, at, inv) == []
    ensures c.requirements.Items? && c.facets.Items?
    ensures forall i :: 0 <= i < |c.requirements.items| ==> inv.isRequirement(Strip(c.requirements.items[i]))
    ensures forall i :: 0 <= i < |c.facets.items| ==> inv.isFacet(Strip(c.facets.items[i]))
  {
    CaseFaultsExactly(c, at, inv, BadList(at, "requirements"));
    CaseFaultsExactly(c, at, inv, BadList(at, "facets"));
    forall i | 0 <= i < |c.requirements.items| ensures inv.isRequirement(Strip(c.requirements.items[i])) {
      CaseFaultsExactly(c, at, inv, UnknownToken(at, Strip(c.requirements.items[i])));
    }
    forall i | 0 <= i < |c.facets.items| ensures inv.isFacet(Strip(c.facets.items[i])) {
      CaseFaultsExactly(c, at, inv, UnknownToken(at, Strip(c.facets.items[i])));
    }
  }

  // ---- identifiers

  /** The first case with an identifier. */
  predicate IsFirstWith(cases: seq<Case>, id: Field, first: nat) {
    first < |cases| && cases[first].id == id && forall k :: 0 <= k < first ==> cases[k].id != id
  }

  /** A named case whose identifier an earlier case has is reported with the first such case. */
  predicate IsDuplicate(cases: seq<Case>, f: Fault) {
    && f.DuplicateId? && f.first < f.at < |cases|
    && cases[f.at].id.Text? && cases[f.at].id.value != "" && IsFirstWith(cases, cases[f.at].id, f.first)
  }

  lemma {:induction false} ByIdExactly(cases: seq<Case>, id: string, first: nat)
    requires id != ""
    ensures id in ById(cases) && ById(cases)[id] == first <==> IsFirstWith(cases, Text(id), first)
  {
    ByIdFindsTheFirst(cases);
    if IsFirstWith(cases, Text(id), first) {
      assert Named(cases[first]);
      assert cases[ById(cases)[id]].id == Text(id);
    }
    if id in ById(cases) {
      forall k | 0 <= k < ById(cases)[id] ensures cases[k].id != Text(id) {
        assert cases[k].id == Text(id) ==> Named(cases[k]);
      }
    }
  }

  lemma FirstInFront(front: seq<Case>, last: Case, id: Field, first: nat)
    requires first < |front|
    ensures IsFirstWith(front + [last], id, first) <==> IsFirstWith(front, id, first)
  {
    assert forall k :: 0 <= k < |front| ==> (front + [last])[k] == front[k];
  }

  lemma {:induction false} DuplicatesExactly(cases: seq<Case>, f: Fault)
    ensures f in DuplicateFaults(cases) <==> IsDuplicate(cases, f)
  {
    if cases != [] {
      var at := |cases| - 1;
      var front, last := cases[..at], cases[at];
      DuplicatesExactly(front, f);
      assert cases == front + [last];
      if f.DuplicateId? && f.first < |front| {
        FirstInFront(front, last, if f.at < |cases| then cases[f.at].id else Absent, f.first);
        if Named(last) {
          ByIdExactly(front, last.id.value, f.first);
        }
      }
      ByIdFindsTheFirst(front);
    }
  }

  // ---- pairs

  /** Two lists have the same entries. */
  predicate SameEntries(a: Strings, b: Strings) {
    (forall i :: 0 <= i < |Entries(a)| ==> Entries(a)[i] in Entries(b))
    && (forall i :: 0 <= i < |Entries(b)| ==> Entries(b)[i] in Entries(a))
  }

  /** What a case's link to its partner has to be reported for; of the two, the live one needs the lock. */
  predicate LinkDeserves(c: Case, partner: Case, at: nat, f: Fault) {
    var live := if c.environment == Text("live") then c else partner;
    match f
    case PairNotE2e(i) => i == at && partner.layer != Text("e2e")
    case SameEnvironment(i) => i == at && partner.layer == Text("e2e") && partner.environment == c.environment
    case NotSymmetric(i) => i == at && partner.layer == Text("e2e") && partner.pair != c.id
    case RequirementsDiffer(i) =>
      i == at && partner.layer == Text("e2e") && !SameEntries(c.requirements, partner.requirements)
    case FacetsDiffer(i) => i == at && partner.layer == Text("e2e") && !SameEntries(c.facets, partner.facets)
    case LiveHalfWithoutPrerequisites(i) =>
      i == at && partner.layer == Text("e2e") && Entries(live.prerequisites) == []
    case LiveHalfWithoutLock(i) =>
      && i == at && partner.layer == Text("e2e") && Entries(live.prerequisites) != []
      && NoneMentionsLock(Entries(live.prerequisites))
    case _ => false
  }

  /** What the pair check has to report about an end-to-end case that names a partner. */
  ghost predicate PairDeserves(cases: seq<Case>, at: nat, f: Fault)
    requires at < |cases|
  {
    var c := cases[at];
    && c.layer == Text("e2e") && c.pair.Text? && c.pair.value != ""
    && if c.pair == c.id then f == SelfPair(at)
       else if forall k :: 0 <= k < |cases| ==> cases[k].id != c.pair then f == UnknownPair(at)
       else exists j: nat :: IsFirstWith(cases, c.pair, j) && LinkDeserves(c, cases[j], at, f)
  }

  lemma SameEntriesExactly(a: Strings, b: Strings)
    ensures Declared(a) == Declared(b) <==> SameEntries(a, b)
  {
    assert forall t :: t in Declared(a) <==> t in Entries(a);
    assert forall t :: t in Declared(b) <==> t in Entries(b);
  }

  lemma LiveHalfExactly(half: Case, at: nat, f: Fault)
    ensures f in LiveHalfFaults(half, at) <==>
            || (f == LiveHalfWithoutPrerequisites(at) && Entries(half.prerequisites) == [])
            || (f == LiveHalfWithoutLock(at) && Entries(half.prerequisites) != []
                && NoneMentionsLock(Entries(half.prerequisites)))
  {
    var items := Entries(half.prerequisites);
    forall k | 0 <= k < |items| ensures Includes(items[k], CONNECTOR_LOCK) <==> MentionsLock(items[k]) {
    }
  }

  lemma RelationExactly(c: Case, partner: Case, at: nat, f: Fault)
    requires partner.layer == E2E
    ensures f in RelationFaults(c, partner, at) <==>
            (f.SameEnvironment? || f.NotSymmetric?) && LinkDeserves(c, partner, at, f)
  {
  }

  lemma DeclarationExactly(c: Case, partner: Case, at: nat, f: Fault)
    requires partner.layer == E2E
    ensures f in DeclarationFaults(c, partner, at) <==>
            (f.RequirementsDiffer? || f.FacetsDiffer?) && LinkDeserves(c, partner, at, f)
  {
    SameEntriesExactly(c.requirements, partner.requirements);
    SameEntriesExactly(c.facets, partner.facets);
  }

  lemma LinkExactly(c: Case, partner: Case, at: nat, f: Fault)
    ensures f in LinkFaults(c, partner, at) <==> LinkDeserves(c, partner, at, f)
  {
    if partner.layer == E2E {
      var live := if c.environment == LIVE then c else partner;
      RelationExactly(c, partner, at, f);
      DeclarationExactly(c, partner, at, f);
      LiveHalfExactly(live, at, f);
      assert f in LinkFaults(c, partner, at) <==>
             f in RelationFaults(c, partner, at) || f in DeclarationFaults(c, partner, at)
               || f in LiveHalfFaults(live, at);
    }
  }

  lemma OneFirst(cases: seq<Case>, id: Field, i: nat, j: nat)
    requires IsFirstWith(cases, id, i) && IsFirstWith(cases, id, j)
    ensures i == j
  {
  }

  lemma {:induction false} PairExactly(cases: seq<Case>, at: nat, f: Fault)
    requires at < |cases| && Within(ById(cases), |cases|)
    ensures f in PairFaults(cases, ById(cases), at) <==> PairDeserves(cases, at, f)
  {
    var c := cases[at];
    if c.layer == E2E && c.pair.Text? && c.pair.value != "" && c.pair != c.id {
      ByIdFindsTheFirst(cases);
      if c.pair.value in ById(cases) {
        var first := ById(cases)[c.pair.value];
        ByIdExactly(cases, c.pair.value, first);
        LinkExactly(c, cases[first], at, f);
        forall j: nat | IsFirstWith(cases, c.pair, j) ensures j == first {
          OneFirst(cases, c.pair, j, first);
        }
      } else {
        forall k | 0 <= k < |cases| ensures cases[k].id != c.pair {
          assert cases[k].id == c.pair ==> Named(cases[k]);
        }
      }
    }
  }

  ghost predicate SomePairDeserves(cases: seq<Case>, f: Fault) {
    exists at: nat :: at < |cases| && PairDeserves(cases, at, f)
  }

  lemma {:induction false} AllPairsExactly(cases: seq<Case>, f: Fault)
    requires Within(ById(cases), |cases|)
    ensures f in AllPairFaults(cases, ById(cases)) <==> SomePairDeserves(cases, f)
  {
    var item := PairFaultsAt(cases, ById(cases));
    CollectedExactly(item, |cases|, f);
    forall at: nat | at < |cases| ensures f in item(at) <==> PairDeserves(cases, at, f) {
      PairExactly(cases, at, f);
    }
  }

  // ---- environments

  /** The acceptance criteria and pilots every inventory must have, and what it has beyond them. */
  predicate IsCriterion(token: string) {
    token in {"TC-E2E-001", "TC-E2E-002", "TC-E2E-003", "TC-E2E-004", "TC-E2E-005", "TC-E2E-006", "TC-E2E-007",
              "TC-E2E-008", "TC-E2E-009", "PILOT-01", "PILOT-02", "PILOT-03", "PILOT-04"}
  }

  predicate InMatrix(inv: Inventory, token: string) {
    IsCriterion(token) || (token in inv.requirements && ("TC-E2E-" <= token || "PILOT-" <= token))
  }

  predicate ClaimedIn(cases: seq<Case>, environment: Field, token: string) {
    exists i :: 0 <= i < |cases| && cases[i].layer == Text("e2e") && cases[i].environment == environment
                && token in Entries(cases[i].requirements)
  }

  predicate EnvironmentDeserves(cases: seq<Case>, inv: Inventory, f: Fault) {
    match f
    case UndeclaredCriterion(token) => IsCriterion(token) && !inv.isRequirement(token)
    case NoCaseFor(token, environment) =>
      InMatrix(inv, token) && environment in {"offline", "live"} && !ClaimedIn(cases, Text(environment), token)
    case _ => false
  }

  lemma RequiredExactly(token: string)
    ensures token in RequiredTokens() <==> IsCriterion(token)
  {
    assert token in RequiredTokens() <==> token in E2E_CRITERIA || token in PILOT_CRITERIA;
    assert E2E_CRITERIA == ["TC-E2E-001", "TC-E2E-002", "TC-E2E-003", "TC-E2E-004", "TC-E2E-005", "TC-E2E-006"]
                           + ["TC-E2E-007", "TC-E2E-008", "TC-E2E-009"];
  }

  lemma {:induction false} MatrixTokensExactly(inv: Inventory, token: string)
    ensures token in MatrixTokens(inv) <==> InMatrix(inv, token)
  {
    Selected(inv.requirements, IsAcceptanceToken);
    var all := Select(inv.requirements, IsAcceptanceToken) + RequiredTokens();
    DistinctKeeps(all);
    SortMember(Distinct(all), token);
    RequiredExactly(token);
  }

  lemma {:induction false} CriteriaExactly(tokens: seq<string>, known: string -> bool, f: Fault)
    ensures f in CriterionFaults(tokens, known) <==> f.UndeclaredCriterion? && f.token in tokens && !known(f.token)
  {
    if tokens != [] {
      CriteriaExactly(tokens[..|tokens| - 1], known, f);
      assert tokens == tokens[..|tokens| - 1] + [tokens[|tokens| - 1]];
    }
  }

  lemma {:induction false} ClaimantsExactly(cases: seq<Case>, environment: Field, token: string)
    ensures Claimants(cases, environment, {token}) != [] <==> ClaimedIn(cases, environment, token)
  {
    if cases != [] {
      var front, last := cases[..|cases| - 1], cases[|cases| - 1];
      ClaimantsExactly(front, environment, token);
      assert cases == front + [last];
      assert Claims(last, environment, {token}) <==>
             last.layer == E2E && last.environment == environment && token in Entries(last.requirements);
    }
  }

  lemma {:induction false} SidesExactly(cases: seq<Case>, token: string)
    ensures SidesOf(cases, token).offline == [] <==> !ClaimedIn(cases, Text("offline"), token)
    ensures SidesOf(cases, token).live == [] <==> !ClaimedIn(cases, Text("live"), token)
  {
    ClaimantsExactly(cases, OFFLINE, token);
    ClaimantsExactly(cases, LIVE, token);
    SortSorts(Claimants(cases, OFFLINE, {token}));
    SortSorts(Claimants(cases, LIVE, {token}));
  }

  /** A case-less side of one of the tokens. */
  predicate IsOpenSide(cases: seq<Case>, tokens: seq<string>, f: Fault) {
    && f.NoCaseFor? && f.token in tokens && f.environment in {"offline", "live"}
    && !ClaimedIn(cases, Text(f.environment), f.token)
  }

  lemma {:induction false} CoverExactly(cases: seq<Case>, tokens: seq<string>, f: Fault)
    ensures f in CoverFaults(cases, tokens) <==> IsOpenSide(cases, tokens, f)
  {
    if tokens != [] {
      var front, last := tokens[..|tokens| - 1], tokens[|tokens| - 1];
      CoverExactly(cases, front, f);
      SideExactly(cases, last, f);
      OpenSideStep(cases, front, last, f);
      assert tokens == front + [last];
    }
  }

  lemma OpenSideStep(cases: seq<Case>, front: seq<string>, last: string, f: Fault)
    ensures IsOpenSide(cases, front + [last], f) <==> IsOpenSide(cases, front, f) || IsOpenSide(cases, [last], f)
  {
  }

  lemma SideExactly(cases: seq<Case>, token: string, f: Fault)
    ensures f in SideFaults(token, SidesOf(cases, token)) <==> IsOpenSide(cases, [token], f)
  {
    SidesExactly(cases, token);
  }

  lemma {:induction false} EnvironmentsExactly(cases: seq<Case>, inv: Inventory, f: Fault)
    ensures f in CriterionFaults(RequiredTokens(), inv.isRequirement) + CoverFaults(cases, MatrixTokens(inv))
            <==> EnvironmentDeserves(cases, inv, f)
  {
    CriteriaExactly(RequiredTokens(), inv.isRequirement, f);
    CoverExactly(cases, MatrixTokens(inv), f);
    if f.UndeclaredCriterion? {
      RequiredExactly(f.token);
    }
    if f.NoCaseFor? {
      MatrixTokensExactly(inv, f.token);
    }
  }

  // ---- baseline

  predicate ProducedTwice(cases: seq<Case>, id: string) {
    exists i, j :: 0 <= i < j < |cases| && cases[i].id == Text(id) && cases[j].id == Text(id)
  }

  /** How many baseline entries repeat an earlier one. */
  function Surplus(baseline: seq<string>): nat { |Repeating(baseline)| }

  function Repeating(baseline: seq<string>): set<nat> {
    set i: nat | i < |baseline| && exists j :: 0 <= j < i && baseline[j] == baseline[i]
  }

  predicate BaselineDeserves(cases: seq<Case>, baseline: seq<string>, f: Fault) {
    match f
    case RepeatedBaseline(surplus) => surplus == Surplus(baseline) > 0
    case MissingBaseline(id) => id in baseline && forall i :: 0 <= i < |cases| ==> cases[i].id != Text(id)
    case DuplicatedBaseline(id) => id in baseline && ProducedTwice(cases, id)
    case _ => false
  }

  lemma {:induction false} ProducedOften(cases: seq<Case>, id: string)
    ensures multiset(Produced(cases))[id] > 0 <==> exists i :: 0 <= i < |cases| && cases[i].id == Text(id)
    ensures multiset(Produced(cases))[id] > 1 <==> ProducedTwice(cases, id)
  {
    if cases != [] {
      var front, last := cases[..|cases| - 1], cases[|cases| - 1];
      ProducedOften(front, id);
      assert cases == front + [last];
      TwiceStep(front, last, id);
    }
  }

  lemma TwiceStep(front: seq<Case>, last: Case, id: string)
    ensures ProducedTwice(front + [last], id) <==>
            ProducedTwice(front, id)
            || (last.id == Text(id) && exists i :: 0 <= i < |front| && front[i].id == Text(id))
  {
    var all := front + [last];
    assert forall i :: 0 <= i < |front| ==> all[i] == front[i];
    assert all[|front|] == last;
    if ProducedTwice(front, id) {
      var i, j :| 0 <= i < j < |front| && front[i].id == Text(id) && front[j].id == Text(id);
      assert all[i].id == Text(id) && all[j].id == Text(id);
    }
  }

  lemma RepeatingStep(front: seq<string>, last: string)
    ensures Repeating(front + [last]) == Repeating(front) + if last in front then {|front|} else {}
  {
    var all := front + [last];
    forall i: nat | i < |front| ensures i in Repeating(all) <==> i in Repeating(front) {
      if j :| 0 <= j < i && front[j] == front[i] {
        assert all[j] == all[i];
      }
      if j :| 0 <= j < i && all[j] == all[i] {
        assert front[j] == front[i];
      }
    }
    if last in front {
      var j :| 0 <= j < |front| && front[j] == last;
      assert all[j] == all[|front|];
    }
  }

  lemma {:induction false} SurplusExactly(baseline: seq<string>)
    ensures |Distinct(baseline)| + Surplus(baseline) == |baseline|
  {
    if baseline != [] {
      var front, last := baseline[..|baseline| - 1], baseline[|baseline| - 1];
      SurplusExactly(front);
      DistinctKeeps(front);
      RepeatingStep(front, last);
      assert baseline == front + [last];
    }
  }

  lemma MissingMember(ids: seq<string>, f: Fault)
    ensures f in MissingFaults(ids) <==> f.MissingBaseline? && f.id in ids
  {
    if f.MissingBaseline? && f.id in ids {
      var i :| 0 <= i < |ids| && ids[i] == f.id;
      assert MissingFaults(ids)[i] == f;
    }
  }

  lemma DuplicatedFaultMember(ids: seq<string>, f: Fault)
    ensures f in DuplicatedFaults(ids) <==> f.DuplicatedBaseline? && f.id in ids
  {
    if f.DuplicatedBaseline? && f.id in ids {
      var i :| 0 <= i < |ids| && ids[i] == f.id;
      assert DuplicatedFaults(ids)[i] == f;
    }
  }

  lemma {:induction false} BaselineExactly(cases: seq<Case>, baseline: seq<string>, f: Fault)
    ensures f in BaselineFaults(baseline, Produced(cases)) <==> BaselineDeserves(cases, baseline, f)
  {
    var produced := Produced(cases);
    var missing, duplicated := Missing(baseline, multiset(produced)), Duplicated(baseline, produced);
    SurplusExactly(baseline);
    MissingMember(missing, f);
    DuplicatedFaultMember(duplicated, f);
    if f.MissingBaseline? || f.DuplicatedBaseline? {
      BaselineIsPartitioned(baseline, produced, f.id);
      ProducedOften(cases, f.id);
    }
  }

  // ---- what the reports hold

  /** A matrix row names the cases of one environment that declare the token, in code-point order. */
  lemma {:induction false} SideHolds(cases: seq<Case>, environment: Field, token: string, id: string)
    ensures var side := Sort(Claimants(cases, environment, {token}));
            && Ordered(side)
            && (id in side <==>
                exists i :: 0 <= i < |cases| && cases[i].layer == Text("e2e") && cases[i].environment == environment
                            && token in Entries(cases[i].requirements) && IdText(cases[i]) == id)
  {
    SortSorts(Claimants(cases, environment, {token}));
    SortMember(Claimants(cases, environment, {token}), id);
    ClaimantMember(cases, environment, token, id);
  }

  lemma {:induction false} ClaimantMember(cases: seq<Case>, environment: Field, token: string, id: string)
    ensures id in Claimants(cases, environment, {token}) <==>
            exists i :: 0 <= i < |cases| && cases[i].layer == Text("e2e") && cases[i].environment == environment
                        && token in Entries(cases[i].requirements) && IdText(cases[i]) == id
  {
    if cases != [] {
      var front, last := cases[..|cases| - 1], cases[|cases| - 1];
      ClaimantMember(front, environment, token, id);
      assert cases == front + [last];
      assert Claims(last, environment, {token}) <==>
             last.layer == E2E && last.environment == environment && token in Entries(last.requirements);
    }
  }

  /** The report's new identifiers are those produced but not in the baseline, each once and in order. */
  lemma {:induction false} NewIdsExactly(cases: seq<Case>, baseline: seq<string>, id: string)
    ensures var report := BaselineOf(baseline, Produced(cases)); var newIds := report.newIds;
            && report.count == |baseline| && Ordered(newIds) && NoRepeats(newIds)
            && (id in newIds <==> id !in baseline && exists i :: 0 <= i < |cases| && cases[i].id == Text(id))
  {
    var produced := Produced(cases);
    var isNew := (id: string) => id !in baseline;
    DistinctKeeps(produced);
    Selected(Distinct(produced), isNew);
    SelectedHasNoRepeats(Distinct(produced), isNew);
    SortKeepsNoRepeats(Select(Distinct(produced), isNew));
    SortSorts(Select(Distinct(produced), isNew));
    SortMember(Select(Distinct(produced), isNew), id);
    ProducedOften(cases, id);
    assert id in produced <==> multiset(produced)[id] > 0;
  }

  /** An end-to-end case that names another case's identifier. */
  predicate NamesAnother(cases: seq<Case>, at: nat)
    requires at < |cases|
  {
    var c := cases[at];
    c.layer == Text("e2e") && c.pair.Text? && c.pair.value != "" && c.pair != c.id
    && exists k :: 0 <= k < |cases| && cases[k].id == c.pair
  }

  /** The last case with an identifier that names another, and what it names. */
  ghost predicate IsLastNaming(cases: seq<Case>, key: Field, value: string, i: nat) {
    && i < |cases| && cases[i].id == key && cases[i].pair == Text(value) && NamesAnother(cases, i)
    && forall k: nat :: i < k < |cases| && cases[k].id == key ==> !NamesAnother(cases, k)
  }

  /** The reported relation holds what the last such case of an identifier names, and nothing else. */
  lemma {:induction false} RelationsExactly(cases: seq<Case>, key: Field, value: string)
    ensures key in Relations(cases, ById(cases)) && Relations(cases, ById(cases))[key] == value <==>
            exists i: nat :: IsLastNaming(cases, key, value, i)
  {
    forall i: nat | i < |cases| ensures Linked(cases[i], ById(cases)) <==> NamesAnother(cases, i) {
      if cases[i].pair.Text? && cases[i].pair.value != "" {
        FoundExactlyWhenNamed(cases, cases[i].pair.value);
      }
    }
    LastLinkCounts(cases, ById(cases), key, value);
    forall i: nat ensures IsLastLink(cases, ById(cases), key, value, i) <==> IsLastNaming(cases, key, value, i) {
    }
  }

  lemma {:induction false} FoundExactlyWhenNamed(cases: seq<Case>, id: string)
    requires id != ""
    ensures id in ById(cases) <==> exists k :: 0 <= k < |cases| && cases[k].id == Text(id)
  {
    ByIdFindsTheFirst(cases);
    if k :| 0 <= k < |cases| && cases[k].id == Text(id) {
      assert Named(cases[k]);
    }
  }

  ghost predicate IsLastLink(cases: seq<Case>, byId: map<string, nat>, key: Field, value: string, i: nat) {
    && i < |cases| && cases[i].id == key && cases[i].pair == Text(value) && Linked(cases[i], byId)
    && forall k: nat :: i < k < |cases| && cases[k].id == key ==> !Linked(cases[k], byId)
  }

  lemma {:induction false} LastLinkCounts(cases: seq<Case>, byId: map<string, nat>, key: Field, value: string)
    ensures key in Relations(cases, byId) && Relations(cases, byId)[key] == value <==>
            exists i: nat :: IsLastLink(cases, byId, key, value, i)
  {
    if cases != [] {
      var front, last := cases[..|cases| - 1], cases[|cases| - 1];
      LastLinkCounts(front, byId, key, value);
      assert cases == front + [last];
      if Linked(last, byId) && last.id == key {
        assert IsLastLink(cases, byId, key, last.pair.value, |front|);
      } else {
        forall i: nat ensures IsLastLink(cases, byId, key, value, i) <==> IsLastLink(front, byId, key, value, i) {
          LinkBehind(front, last, byId, key, value, i);
        }
      }
    }
  }

  lemma LinkBehind(front: seq<Case>, last: Case, byId: map<string, nat>, key: Field, value: string, i: nat)
    requires !(Linked(last, byId) && last.id == key)
    ensures IsLastLink(front + [last], byId, key, value, i) <==> IsLastLink(front, byId, key, value, i)
  {
    var all := front + [last];
    assert all[|front|] == last && forall k: nat :: k < |front| ==> all[k] == front[k];
    assert i == |front| ==> !IsLastLink(all, byId, key, value, i);
    if IsLastLink(all, byId, key, value, i) {
      forall k: nat | i < k < |front| && front[k].id == key ensures !Linked(front[k], byId) {
        assert all[k] == front[k];
      }
    }
  }
}
