/**
 The checks the acceptance-specification generator runs over its case list: one case at a time, then
 identifiers, pairs and environments. A check reports faults and never stops the run.
 */
module CaseList {
  import opened Texts

  /** A field that should hold a string: missing or None, a string, or some other value. */
  datatype Field = Absent | Text(value: string) | Other(tag: nat)

  /** A field that should hold a list of strings. */
  datatype Strings = NotAList | Items(items: seq<string>)

  /** `otherFaults` counts what the field checks that are not modelled report about the case. */
  datatype Case = Case(id: Field, layer: Field, environment: Field, requirements: Strings, facets: Strings,
                       prerequisites: Strings, pair: Field, otherFaults: nat)

  /** The declared requirement tokens, and which requirement and facet tokens have metadata. */
  datatype Inventory = Inventory(requirements: seq<string>, isRequirement: string -> bool, isFacet: string -> bool)

  datatype Fault =
    | BadId(at: nat) | BadLayer(at: nat) | BadEnvironment(at: nat) | BadList(at: nat, field: string)
    | UnknownToken(at: nat, token: string) | NoPrerequisites(at: nat) | NoLock(at: nat)
    | NoPair(at: nat) | BadPair(at: nat) | Elsewhere(at: nat)
    | DuplicateId(at: nat, first: nat)
    | SelfPair(at: nat) | UnknownPair(at: nat) | PairNotE2e(at: nat) | SameEnvironment(at: nat) | NotSymmetric(at: nat)
    | RequirementsDiffer(at: nat) | FacetsDiffer(at: nat)
    | LiveHalfWithoutPrerequisites(at: nat) | LiveHalfWithoutLock(at: nat)
    | UndeclaredCriterion(token: string) | NoCaseFor(token: string, environment: string)
    | UncoveredFacet(token: string)
    | RepeatedBaseline(surplus: nat) | MissingBaseline(id: string) | DuplicatedBaseline(id: string)

  const E2E := Text("e2e")
  const OFFLINE := Text("offline")
  const LIVE := Text("live")
  const LAYERS := [Text("unit"), Text("integration"), E2E, Text("governance")]
  const ENVIRONMENTS := [OFFLINE, LIVE]
  const CONNECTOR_LOCK := "ASM-001"
  const E2E_CRITERIA := ["TC-E2E-001", "TC-E2E-002", "TC-E2E-003", "TC-E2E-004", "TC-E2E-005", "TC-E2E-006",
                         "TC-E2E-007",
                         "TC-E2E-008", "TC-E2E-009"]
  const PILOT_CRITERIA := ["PILOT-01", "PILOT-02", "PILOT-03", "PILOT-04"]

  /** Collected findings; errors block generation. */
  class Problems {
    var errors: seq<Fault>

    constructor ()
      ensures errors == []
    {
      errors := [];
    }

    method Error(fault: Fault)
      modifies this
      ensures errors == old(errors) + [fault]
    {
      errors := errors + [fault];
    }

    method ErrorWhen(condition: bool, fault: Fault)
      modifies this
      ensures errors == old(errors) + When(condition, fault)
    {
      if condition {
        Error(fault);
      }
    }
  }

  function When(condition: bool, fault: Fault): seq<Fault> { if condition then [fault] else [] }

  lemma Join(a: seq<Fault>, b: seq<Fault>, c: seq<Fault>)
    ensures (a + b) + c == a + (b + c)
  {
  }

  lemma JoinThree(a: seq<Fault>, b: seq<Fault>, c: seq<Fault>, d: seq<Fault>)
    ensures ((a + b) + c) + d == a + (b + (c + d))
  {
    Join(a + b, c, d);
    Join(a, b, c + d);
  }

  /** The faults of the first n items, in order. */
  function Collected(item: nat -> seq<Fault>, n: nat): seq<Fault> {
    if n == 0 then [] else Collected(item, n - 1) + item(n - 1)
  }

  lemma {:induction false} NoneCollectedExactly(item: nat -> seq<Fault>, n: nat)
    ensures Collected(item, n) == [] <==> forall i: nat :: i < n ==> item(i) == []
  {
    if n > 0 {
      NoneCollectedExactly(item, n - 1);
    }
  }

  // ---- one case

  predicate IsAlphanumeric(c: char) { '0' <= c <= '9' || 'A' <= c <= 'Z' || 'a' <= c <= 'z' }

  /** A letter or digit, then letters, digits, dots, underscores and hyphens. */
  predicate MatchesIdPattern(s: string) {
    s != "" && IsAlphanumeric(s[0]) && forall i :: 0 <= i < |s| ==> IsAlphanumeric(s[i]) || s[i] in "._-"
  }

  /** The pattern's `$` also lets one final line feed pass. */
  predicate IsCaseId(s: string) {
    MatchesIdPattern(if s != "" && s[|s| - 1] == '\n' then s[..|s| - 1] else s)
  }

  function Declared(list: Strings): set<string> {
    if list.Items? then set t | t in list.items else {}
  }

  /** The list check refuses anything but a list of strings none of which is blank. */
  predicate CleanList(list: Strings) {
    list.Items? && forall i :: 0 <= i < |list.items| ==> Strip(list.items[i]) != ""
  }

  function UnknownTokens(items: seq<string>, known: string -> bool, at: nat): seq<Fault> {
    if items == [] then []
    else
      var token := Strip(items[|items| - 1]);
      UnknownTokens(items[..|items| - 1], known, at) + When(!known(token), UnknownToken(at, token))
  }

  function TokenFaults(list: Strings, known: string -> bool, field: string, at: nat): seq<Fault> {
    if CleanList(list) then UnknownTokens(list.items, known, at) else [BadList(at, field)]
  }

  function IdFaults(c: Case, at: nat): seq<Fault> {
    When(!c.id.Text? || Strip(c.id.value) == "" || c.id.value != Strip(c.id.value) || !IsCaseId(c.id.value), BadId(at))
  }

  predicate NamesLock(items: seq<string>) {
    exists i :: 0 <= i < |items| && Includes(items[i], CONNECTOR_LOCK)
  }

  /** A live case must list prerequisites, the connector lock among them; the check reads the stripped entries. */
  function LiveFaults(c: Case, at: nat): seq<Fault> {
    if c.environment != LIVE then []
    else if !CleanList(c.prerequisites) || c.prerequisites.items == [] then [NoPrerequisites(at)]
    else
      When(!exists i :: 0 <= i < |c.prerequisites.items| && Includes(Strip(c.prerequisites.items[i]), CONNECTOR_LOCK),
           NoLock(at))
  }

  function PairFieldFaults(c: Case, at: nat): seq<Fault> {
    When(c.layer == E2E && (!c.pair.Text? || Strip(c.pair.value) == ""), NoPair(at))
    + When(c.pair.Other? || (c.pair.Text? && c.pair.value != "" && !IsCaseId(c.pair.value)), BadPair(at))
  }

  function FieldFaults(c: Case, at: nat): seq<Fault> {
    IdFaults(c, at) + (When(c.layer !in LAYERS, BadLayer(at))
                       + When(c.environment !in ENVIRONMENTS, BadEnvironment(at)))
  }

  function ListFaults(c: Case, at: nat, inv: Inventory): seq<Fault> {
    TokenFaults(c.requirements, inv.isRequirement, "requirements", at)
    + (TokenFaults(c.facets, inv.isFacet, "facets", at)
       + When(!CleanList(c.prerequisites), BadList(at, "prerequisites")))
  }

  function RuleFaults(c: Case, at: nat): seq<Fault> {
    LiveFaults(c, at) + (PairFieldFaults(c, at) + seq(c.otherFaults, _ => Elsewhere(at)))
  }

  function CaseFaults(c: Case, at: nat, inv: Inventory): seq<Fault> {
    FieldFaults(c, at) + (ListFaults(c, at, inv) + RuleFaults(c, at))
  }

  function CaseFaultsAt(cases: seq<Case>, inv: Inventory): nat -> seq<Fault> {
    (at: nat) => if at < |cases| then CaseFaults(cases[at], at, inv) else []
  }

  method ValidateTokens(list: Strings, known: string -> bool, field: string, at: nat, problems: Problems)
    modifies problems
    ensures problems.errors == old(problems.errors) + TokenFaults(list, known, field, at)
  {
    if !CleanList(list) {
      problems.Error(BadList(at, field));
      return;
    }
    ghost var start := problems.errors;
    for i := 0 to |list.items|
      invariant problems.errors == start + UnknownTokens(list.items[..i], known, at)
    {
      var token := Strip(list.items[i]);
      assert list.items[..i + 1][..i] == list.items[..i];
      problems.ErrorWhen(!known(token), UnknownToken(at, token));
      Join(start, UnknownTokens(list.items[..i], known, at), When(!known(token), UnknownToken(at, token)));
    }
    assert list.items[..|list.items|] == list.items;
  }

  method ValidateFields(c: Case, at: nat, problems: Problems)
    modifies problems
    ensures problems.errors == old(problems.errors) + FieldFaults(c, at)
  {
    ghost var start := problems.errors;
    if !c.id.Text? || Strip(c.id.value) == "" {
      problems.Error(BadId(at));
    } else if c.id.value != Strip(c.id.value) {
      problems.Error(BadId(at));
    } else if !IsCaseId(c.id.value) {
      problems.Error(BadId(at));
    }
    problems.ErrorWhen(c.layer !in LAYERS, BadLayer(at));
    problems.ErrorWhen(c.environment !in ENVIRONMENTS, BadEnvironment(at));
    JoinThree(start, IdFaults(c, at), When(c.layer !in LAYERS, BadLayer(at)),
              When(c.environment !in ENVIRONMENTS, BadEnvironment(at)));
  }

  method ValidateLists(c: Case, at: nat, inv: Inventory, problems: Problems)
    modifies problems
    ensures problems.errors == old(problems.errors) + ListFaults(c, at, inv)
  {
    ghost var start := problems.errors;
    ValidateTokens(c.requirements, inv.isRequirement, "requirements", at, problems);
    ValidateTokens(c.facets, inv.isFacet, "facets", at, problems);
    problems.ErrorWhen(!CleanList(c.prerequisites), BadList(at, "prerequisites"));
    JoinThree(start, TokenFaults(c.requirements, inv.isRequirement, "requirements", at),
              TokenFaults(c.facets, inv.isFacet, "facets", at),
              When(!CleanList(c.prerequisites), BadList(at, "prerequisites")));
  }

  method ValidatePairField(c: Case, at: nat, problems: Problems)
    modifies problems
    ensures problems.errors == old(problems.errors) + PairFieldFaults(c, at)
  {
    ghost var start := problems.errors;
    var missing := c.layer == E2E && (!c.pair.Text? || Strip(c.pair.value) == "");
    var malformed := c.pair.Other? || (c.pair.Text? && c.pair.value != "" && !IsCaseId(c.pair.value));
    problems.ErrorWhen(missing, NoPair(at));
    problems.ErrorWhen(malformed, BadPair(at));
    Join(start, When(missing, NoPair(at)), When(malformed, BadPair(at)));
  }

  method ValidateLive(c: Case, at: nat, problems: Problems)
    modifies problems
    ensures problems.errors == old(problems.errors) + LiveFaults(c, at)
  {
    if c.environment == LIVE {
      if !CleanList(c.prerequisites) || |c.prerequisites.items| == 0 {
        problems.Error(NoPrerequisites(at));
      } else if !exists i ::
                  0 <= i < |c.prerequisites.items| && Includes(Strip(c.prerequisites.items[i]), CONNECTOR_LOCK) {
        problems.Error(NoLock(at));
      }
    }
  }

  method ValidateCase(c: Case, at: nat, inv: Inventory, problems: Problems)
    modifies problems
    ensures problems.errors == old(problems.errors) + CaseFaults(c, at, inv)
  {
    ghost var start := problems.errors;
    ValidateFields(c, at, problems);
    ValidateLists(c, at, inv, problems);
    ValidateRules(c, at, problems);
    JoinThree(start, FieldFaults(c, at), ListFaults(c, at, inv), RuleFaults(c, at));
  }

  method ValidateCaseAt(cases: seq<Case>, at: nat, inv: Inventory, problems: Problems)
    requires at < |cases|
    modifies problems
    ensures problems.errors == old(problems.errors) + CaseFaultsAt(cases, inv)(at)
  {
    ValidateCase(cases[at], at, inv, problems);
  }

  method ValidateRules(c: Case, at: nat, problems: Problems)
    modifies problems
    ensures problems.errors == old(problems.errors) + RuleFaults(c, at)
  {
    ghost var start := problems.errors;
    ValidateLive(c, at, problems);
    ValidatePairField(c, at, problems);
    var others := seq(c.otherFaults, _ => Elsewhere(at));
    problems.errors := problems.errors + others;
    JoinThree(start, LiveFaults(c, at), PairFieldFaults(c, at), others);
  }

  // ---- identifiers

  /** A case `validate_ids` looks at. */
  predicate Named(c: Case) { c.id.Text? && c.id.value != "" }

  function ById(cases: seq<Case>): map<string, nat> {
    if cases == [] then map[]
    else
      var at := |cases| - 1; var before := ById(cases[..at]);
      if Named(cases[at]) && cases[at].id.value !in before then before[cases[at].id.value := at] else before
  }

  function DuplicateFaults(cases: seq<Case>): seq<Fault> {
    if cases == [] then []
    else
      var at := |cases| - 1; var before := ById(cases[..at]);
      DuplicateFaults(cases[..at])
      + if Named(cases[at]) && cases[at].id.value in before then [DuplicateId(at, before[cases[at].id.value])] else []
  }

  method ValidateIds(cases: seq<Case>, problems: Problems) returns (byId: map<string, nat>)
    modifies problems
    ensures byId == ById(cases)
    ensures problems.errors == old(problems.errors) + DuplicateFaults(cases)
  {
    byId := map[];
    for at := 0 to |cases|
      invariant byId == ById(cases[..at])
      invariant problems.errors == old(problems.errors) + DuplicateFaults(cases[..at])
    {
      var c := cases[at];
      assert cases[..at + 1][..at] == cases[..at];
      if !c.id.Text? || c.id.value == "" {
        continue;
      }
      if c.id.value in byId {
        problems.Error(DuplicateId(at, byId[c.id.value]));
        continue;
      }
      byId := byId[c.id.value := at];
    }
    assert cases[..|cases|] == cases;
  }

  // ---- pairs

  predicate Within(byId: map<string, nat>, n: nat) { forall k :: k in byId ==> byId[k] < n }

  /** The case names a partner that exists and is not itself. */
  predicate Linked(c: Case, byId: map<string, nat>) {
    c.layer == E2E && c.pair.Text? && c.pair.value != "" && c.pair != c.id && c.pair.value in byId
  }

  /** The live half's own check, on the entries as written. */
  function LiveHalfFaults(half: Case, at: nat): seq<Fault> {
    var listed := if half.prerequisites.Items? then half.prerequisites.items else [];
    if listed == [] then [LiveHalfWithoutPrerequisites(at)] else When(!NamesLock(listed), LiveHalfWithoutLock(at))
  }

  function RelationFaults(c: Case, partner: Case, at: nat): seq<Fault> {
    When(partner.environment == c.environment, SameEnvironment(at)) + When(partner.pair != c.id, NotSymmetric(at))
  }

  function DeclarationFaults(c: Case, partner: Case, at: nat): seq<Fault> {
    When(Declared(c.requirements) != Declared(partner.requirements), RequirementsDiffer(at))
    + When(Declared(c.facets) != Declared(partner.facets), FacetsDiffer(at))
  }

  function LinkFaults(c: Case, partner: Case, at: nat): seq<Fault> {
    if partner.layer != E2E then [PairNotE2e(at)]
    else RelationFaults(c, partner, at) + (DeclarationFaults(c, partner, at)
                                           + LiveHalfFaults(if c.environment == LIVE then c else partner, at))
  }

  function PairFaults(cases: seq<Case>, byId: map<string, nat>, at: nat): seq<Fault>
    requires at < |cases| && Within(byId, |cases|)
  {
    var c := cases[at];
    if c.layer != E2E || !c.pair.Text? || c.pair.value == "" then []
    else if c.pair == c.id then [SelfPair(at)]
    else if c.pair.value !in byId then [UnknownPair(at)]
    else LinkFaults(c, cases[byId[c.pair.value]], at)
  }

  function PairFaultsAt(cases: seq<Case>, byId: map<string, nat>): nat -> seq<Fault>
    requires Within(byId, |cases|)
  {
    (at: nat) => if at < |cases| then PairFaults(cases, byId, at) else []
  }

  function AllPairFaults(cases: seq<Case>, byId: map<string, nat>): seq<Fault>
    requires Within(byId, |cases|)
  {
    Collected(PairFaultsAt(cases, byId), |cases|)
  }

  /** The reported relation: every linked case, by its identifier; a repeated identifier keeps its last pair. */
  function Relations(cases: seq<Case>, byId: map<string, nat>): map<Field, string> {
    if cases == [] then map[]
    else
      var c := cases[|cases| - 1]; var before := Relations(cases[..|cases| - 1], byId);
      if Linked(c, byId) then before[c.id := c.pair.value] else before
  }

  method ValidateRelation(c: Case, partner: Case, at: nat, problems: Problems)
    modifies problems
    ensures problems.errors == old(problems.errors) + RelationFaults(c, partner, at)
  {
    problems.ErrorWhen(partner.environment == c.environment, SameEnvironment(at));
    problems.ErrorWhen(partner.pair != c.id, NotSymmetric(at));
  }

  method ValidateDeclarations(c: Case, partner: Case, at: nat, problems: Problems)
    modifies problems
    ensures problems.errors == old(problems.errors) + DeclarationFaults(c, partner, at)
  {
    problems.ErrorWhen(Declared(c.requirements) != Declared(partner.requirements), RequirementsDiffer(at));
    problems.ErrorWhen(Declared(c.facets) != Declared(partner.facets), FacetsDiffer(at));
  }

  method ValidatePair(c: Case, partner: Case, at: nat, problems: Problems)
    modifies problems
    ensures problems.errors == old(problems.errors) + LinkFaults(c, partner, at)
  {
    if partner.layer != E2E {
      problems.Error(PairNotE2e(at));
      return;
    }
    ghost var start := problems.errors;
    ValidateRelation(c, partner, at, problems);
    ValidateDeclarations(c, partner, at, problems);
    var half := if c.environment == LIVE then c else partner;
    var listed := if half.prerequisites.Items? then half.prerequisites.items else [];
    if |listed| == 0 {
      problems.Error(LiveHalfWithoutPrerequisites(at));
    } else if !NamesLock(listed) {
      problems.Error(LiveHalfWithoutLock(at));
    }
    JoinThree(start, RelationFaults(c, partner, at), DeclarationFaults(c, partner, at), LiveHalfFaults(half, at));
  }

  /** One end-to-end case's turn in the pair check. */
  method ValidatePairAt(cases: seq<Case>, byId: map<string, nat>, at: nat, relations: map<Field, string>,
                        problems: Problems)
    returns (after: map<Field, string>)
    requires at < |cases| && Within(byId, |cases|)
    modifies problems
    ensures problems.errors == old(problems.errors) + PairFaultsAt(cases, byId)(at)
    ensures after == if Linked(cases[at], byId) then relations[cases[at].id := cases[at].pair.value] else relations
  {
    var c := cases[at];
    after := relations;
    if c.layer != E2E || !c.pair.Text? || c.pair.value == "" {
      return;
    }
    if c.pair == c.id {
      problems.Error(SelfPair(at));
      return;
    }
    if c.pair.value !in byId {
      problems.Error(UnknownPair(at));
      return;
    }
    after := relations[c.id := c.pair.value];
    ValidatePair(c, cases[byId[c.pair.value]], at, problems);
  }

  lemma CollectedStep(start: seq<Fault>, item: nat -> seq<Fault>, n: nat)
    ensures (start + Collected(item, n)) + item(n) == start + Collected(item, n + 1)
  {
    Join(start, Collected(item, n), item(n));
  }

  method ValidatePairs(cases: seq<Case>, byId: map<string, nat>, problems: Problems)
    returns (relations: map<Field, string>)
    requires Within(byId, |cases|)
    modifies problems
    ensures problems.errors == old(problems.errors) + AllPairFaults(cases, byId)
    ensures relations == Relations(cases, byId)
  {
    ghost var start := problems.errors;
    relations := map[];
    for at := 0 to |cases|
      invariant problems.errors == start + Collected(PairFaultsAt(cases, byId), at)
      invariant relations == Relations(cases[..at], byId)
    {
      assert cases[..at + 1][..at] == cases[..at];
      relations := ValidatePairAt(cases, byId, at, relations, problems);
      CollectedStep(start, PairFaultsAt(cases, byId), at);
    }
    assert cases[..|cases|] == cases;
  }

  // ---- environments

  function IdText(c: Case): string { if c.id.Text? then c.id.value else "" }

  /** An end-to-end case of one environment that declares all the given tokens. */
  predicate Claims(c: Case, environment: Field, tokens: set<string>) {
    c.layer == E2E && c.environment == environment && tokens <= Declared(c.requirements)
  }

  function Claimants(cases: seq<Case>, environment: Field, tokens: set<string>): seq<string> {
    if cases == [] then []
    else
      var c := cases[|cases| - 1];
      Claimants(cases[..|cases| - 1], environment, tokens) + if Claims(c, environment, tokens) then [IdText(c)] else []
  }

  datatype Sides = Sides(offline: seq<string>, live: seq<string>)

  function SidesOf(cases: seq<Case>, token: string): Sides {
    Sides(Sort(Claimants(cases, OFFLINE, {token})), Sort(Claimants(cases, LIVE, {token})))
  }

  predicate IsAcceptanceToken(token: string) { "TC-E2E-" <= token || "PILOT-" <= token }

  function RequiredTokens(): seq<string> { E2E_CRITERIA + PILOT_CRITERIA }

  function MatrixTokens(inv: Inventory): seq<string> {
    Sort(Distinct(Select(inv.requirements, IsAcceptanceToken) + RequiredTokens()))
  }

  function CriterionFaults(tokens: seq<string>, known: string -> bool): seq<Fault> {
    if tokens == [] then []
    else CriterionFaults(tokens[..|tokens| - 1], known)
         + When(!known(tokens[|tokens| - 1]), UndeclaredCriterion(tokens[|tokens| - 1]))
  }

  function SideFaults(token: string, sides: Sides): seq<Fault> {
    When(sides.offline == [], NoCaseFor(token, "offline")) + When(sides.live == [], NoCaseFor(token, "live"))
  }

  function CoverFaults(cases: seq<Case>, tokens: seq<string>): seq<Fault> {
    if tokens == [] then []
    else
      var token := tokens[|tokens| - 1];
      CoverFaults(cases, tokens[..|tokens| - 1]) + SideFaults(token, SidesOf(cases, token))
  }

  method CollectClaimants(cases: seq<Case>, environment: Field, token: string) returns (ids: seq<string>)
    ensures ids == Claimants(cases, environment, {token})
  {
    ids := [];
    for i := 0 to |cases|
      invariant ids == Claimants(cases[..i], environment, {token})
    {
      assert cases[..i + 1][..i] == cases[..i];
      if cases[i].layer == E2E && cases[i].environment == environment && token in Declared(cases[i].requirements) {
        ids := ids + [IdText(cases[i])];
      }
    }
    assert cases[..|cases|] == cases;
  }

  method ValidateCriteria(required: seq<string>, known: string -> bool, problems: Problems)
    modifies problems
    ensures problems.errors == old(problems.errors) + CriterionFaults(required, known)
  {
    for i := 0 to |required|
      invariant problems.errors == old(problems.errors) + CriterionFaults(required[..i], known)
    {
      assert required[..i + 1][..i] == required[..i];
      problems.ErrorWhen(!known(required[i]), UndeclaredCriterion(required[i]));
    }
    assert required[..|required|] == required;
  }

  method CollectSides(cases: seq<Case>, token: string, problems: Problems) returns (sides: Sides)
    modifies problems
    ensures sides == SidesOf(cases, token)
    ensures problems.errors == old(problems.errors) + SideFaults(token, sides)
  {
    var offline := CollectClaimants(cases, OFFLINE, token);
    var live := CollectClaimants(cases, LIVE, token);
    sides := Sides(Sort(offline), Sort(live));
    problems.ErrorWhen(|sides.offline| == 0, NoCaseFor(token, "offline"));
    problems.ErrorWhen(|sides.live| == 0, NoCaseFor(token, "live"));
  }

  function MatrixOf(cases: seq<Case>, tokens: seq<string>): map<string, Sides> {
    map t | t in tokens :: SidesOf(cases, t)
  }

  lemma MatrixStep(cases: seq<Case>, tokens: seq<string>, token: string)
    ensures MatrixOf(cases, tokens + [token]) == MatrixOf(cases, tokens)[token := SidesOf(cases, token)]
  {
  }

  lemma {:induction false} CoverStep(cases: seq<Case>, tokens: seq<string>, i: nat)
    requires i < |tokens|
    ensures CoverFaults(cases, tokens[..i + 1])
            == CoverFaults(cases, tokens[..i]) + SideFaults(tokens[i], SidesOf(cases, tokens[i]))
    ensures MatrixOf(cases, tokens[..i + 1]) == MatrixOf(cases, tokens[..i])[tokens[i] := SidesOf(cases, tokens[i])]
  {
    assert tokens[..i + 1][..i] == tokens[..i];
    assert tokens[..i + 1] == tokens[..i] + [tokens[i]];
    MatrixStep(cases, tokens[..i], tokens[i]);
  }

  method CollectMatrix(cases: seq<Case>, tokens: seq<string>, problems: Problems) returns (matrix: map<string, Sides>)
    modifies problems
    ensures problems.errors == old(problems.errors) + CoverFaults(cases, tokens)
    ensures matrix == MatrixOf(cases, tokens)
  {
    ghost var start := problems.errors;
    matrix := map[];
    for i := 0 to |tokens|
      invariant problems.errors == start + CoverFaults(cases, tokens[..i])
      invariant matrix == MatrixOf(cases, tokens[..i])
    {
      CoverStep(cases, tokens, i);
      var sides := CollectSides(cases, tokens[i], problems);
      matrix := matrix[tokens[i] := sides];
      Join(start, CoverFaults(cases, tokens[..i]), SideFaults(tokens[i], sides));
    }
    assert tokens[..|tokens|] == tokens;
  }

  method ValidateBothEnvironments(cases: seq<Case>, inv: Inventory, problems: Problems)
    returns (matrix: map<string, Sides>)
    modifies problems
    ensures problems.errors == old(problems.errors)
            + (CriterionFaults(RequiredTokens(), inv.isRequirement) + CoverFaults(cases, MatrixTokens(inv)))
    ensures matrix == MatrixOf(cases, MatrixTokens(inv))
  {
    ghost var start := problems.errors;
    var required, tokens := RequiredTokens(), MatrixTokens(inv);
    ValidateCriteria(required, inv.isRequirement, problems);
    matrix := CollectMatrix(cases, tokens, problems);
    Join(start, CriterionFaults(required, inv.isRequirement), CoverFaults(cases, tokens));
  }
}
