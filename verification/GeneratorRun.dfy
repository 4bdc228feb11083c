/** One validation run of the generator: every check in order, and what a run without errors guarantees. */
module GeneratorRun {
  import opened CaseCounts
  import opened CaseList
  import opened CasePairing
  import opened CaseVerdicts
  import opened Texts

  /** What the run takes from its input files, besides the cases. */
  datatype Sources = Sources(inv: Inventory, baseline: seq<string>, requirementTokens: seq<string>,
                             facetTokens: seq<string>,
                             mandatoryFacets: seq<string>)

  function EachCaseFaults(cases: seq<Case>, inv: Inventory): seq<Fault> { Collected(CaseFaultsAt(cases, inv), |cases|) }

  function FacetGapFaults(gaps: seq<string>): seq<Fault> {
    if gaps == [] then [] else FacetGapFaults(gaps[..|gaps| - 1]) + [UncoveredFacet(gaps[|gaps| - 1])]
  }

  function FacetGaps(cases: seq<Case>, from: Sources): seq<string> {
    Gaps(CoverageOf(cases, FacetsOf, from.facetTokens), from.mandatoryFacets)
  }

  function EnvironmentFaults(cases: seq<Case>, inv: Inventory): seq<Fault> {
    CriterionFaults(RequiredTokens(), inv.isRequirement) + CoverFaults(cases, MatrixTokens(inv))
  }

  function IdAndBaselineFaults(cases: seq<Case>, from: Sources): seq<Fault> {
    EachCaseFaults(cases, from.inv) + (DuplicateFaults(cases) + BaselineFaults(from.baseline, Produced(cases)))
  }

  function PairAndCoverFaults(cases: seq<Case>, from: Sources): seq<Fault>
    requires Within(ById(cases), |cases|)
  {
    AllPairFaults(cases, ById(cases)) + (EnvironmentFaults(cases, from.inv) + FacetGapFaults(FacetGaps(cases, from)))
  }

  // ---- what is reported

  /** A mandatory facet that has no metadata, or that no case with an identifier declares. */
  predicate IsOpenFacet(cases: seq<Case>, from: Sources, token: string) {
    && token in from.mandatoryFacets
    && (token in from.facetTokens ==>
          forall i :: 0 <= i < |cases| && cases[i].id.Text? ==> token !in Entries(cases[i].facets))
  }

  /** What a run has to report, said of the cases and the sources alone. */
  ghost predicate Deserves(cases: seq<Case>, from: Sources, f: Fault) {
    || SomeCaseDeserves(cases, from.inv, f)
    || IsDuplicate(cases, f)
    || BaselineDeserves(cases, from.baseline, f)
    || SomePairDeserves(cases, f)
    || EnvironmentDeserves(cases, from.inv, f)
    || (f.UncoveredFacet? && IsOpenFacet(cases, from, f.token))
  }

  lemma {:induction false} FacetFaultsExactly(gaps: seq<string>, f: Fault)
    ensures f in FacetGapFaults(gaps) <==> f.UncoveredFacet? && f.token in gaps
  {
    if gaps != [] {
      FacetFaultsExactly(gaps[..|gaps| - 1], f);
      assert gaps == gaps[..|gaps| - 1] + [gaps[|gaps| - 1]];
    }
  }

  lemma {:induction false} FacetGapsExactly(cases: seq<Case>, from: Sources, f: Fault)
    ensures f in FacetGapFaults(FacetGaps(cases, from)) <==> f.UncoveredFacet? && IsOpenFacet(cases, from, f.token)
  {
    FacetFaultsExactly(FacetGaps(cases, from), f);
    if f.UncoveredFacet? {
      GapsExactly(cases, FacetsOf, from.facetTokens, from.mandatoryFacets, f.token);
      assert forall i :: 0 <= i < |cases| ==> (f.token in Declared(FacetsOf(cases[i]))
                                               <==> f.token in Entries(cases[i].facets));
    }
  }

  /** A run reports exactly the faults its input deserves. */
  lemma {:induction false} RunReportsExactly(cases: seq<Case>, from: Sources, f: Fault)
    requires Within(ById(cases), |cases|)
    ensures f in IdAndBaselineFaults(cases, from) + PairAndCoverFaults(cases, from) <==> Deserves(cases, from, f)
  {
    EachCaseExactly(cases, from.inv, f);
    DuplicatesExactly(cases, f);
    BaselineExactly(cases, from.baseline, f);
    AllPairsExactly(cases, f);
    EnvironmentsExactly(cases, from.inv, f);
    FacetGapsExactly(cases, from, f);
    assert f in IdAndBaselineFaults(cases, from) <==>
           f in EachCaseFaults(cases, from.inv) || f in DuplicateFaults(cases)
           || f in BaselineFaults(from.baseline, Produced(cases));
    assert f in PairAndCoverFaults(cases, from) <==>
           f in AllPairFaults(cases, ById(cases)) || f in EnvironmentFaults(cases, from.inv)
           || f in FacetGapFaults(FacetGaps(cases, from));
  }

  method ValidateEach(cases: seq<Case>, inv: Inventory, problems: Problems)
    modifies problems
    ensures problems.errors == old(problems.errors) + EachCaseFaults(cases, inv)
  {
    ghost var start := problems.errors;
    for i := 0 to |cases|
      invariant problems.errors == start + Collected(CaseFaultsAt(cases, inv), i)
    {
      ValidateCaseAt(cases, i, inv, problems);
      CollectedStep(start, CaseFaultsAt(cases, inv), i);
    }
  }

  method ReportFacetGaps(gaps: seq<string>, problems: Problems)
    modifies problems
    ensures problems.errors == old(problems.errors) + FacetGapFaults(gaps)
  {
    for i := 0 to |gaps|
      invariant problems.errors == old(problems.errors) + FacetGapFaults(gaps[..i])
    {
      assert gaps[..i + 1][..i] == gaps[..i];
      problems.Error(UncoveredFacet(gaps[i]));
    }
    assert gaps[..|gaps|] == gaps;
  }

  method ValidateIdsAndBaseline(cases: seq<Case>, from: Sources, problems: Problems) returns (byId: map<string, nat>)
    modifies problems
    ensures byId == ById(cases)
    ensures problems.errors == old(problems.errors) + IdAndBaselineFaults(cases, from)
  {
    ghost var start := problems.errors;
    ValidateEach(cases, from.inv, problems);
    byId := ValidateIds(cases, problems);
    var _ := ValidateBaseline(cases, from.baseline, problems);
    JoinThree(start, EachCaseFaults(cases, from.inv), DuplicateFaults(cases),
              BaselineFaults(from.baseline, Produced(cases)));
  }

  /** The whole run, in the generator's order. */
  method Validate(cases: seq<Case>, from: Sources, problems: Problems) returns (matrix: map<string, Sides>)
    modifies problems
    ensures Within(ById(cases), |cases|)
    ensures problems.errors == old(problems.errors)
            + (IdAndBaselineFaults(cases, from) + PairAndCoverFaults(cases, from))
    ensures forall f :: f in problems.errors <==> f in old(problems.errors) || Deserves(cases, from, f)
    ensures matrix == MatrixOf(cases, MatrixTokens(from.inv))
  {
    ghost var start := problems.errors;
    ByIdFindsTheFirst(cases);
    forall f ensures f in IdAndBaselineFaults(cases, from) + PairAndCoverFaults(cases, from)
                     <==> Deserves(cases, from, f) {
      RunReportsExactly(cases, from, f);
    }
    var byId := ValidateIdsAndBaseline(cases, from, problems);
    matrix := ValidatePairsAndCover(cases, byId, from, problems);
    Join(start, IdAndBaselineFaults(cases, from), PairAndCoverFaults(cases, from));
  }

  method ValidatePairsAndCover(cases: seq<Case>, byId: map<string, nat>, from: Sources, problems: Problems)
    returns (matrix: map<string, Sides>)
    requires Within(ById(cases), |cases|) && byId == ById(cases)
    modifies problems
    ensures problems.errors == old(problems.errors) + PairAndCoverFaults(cases, from)
    ensures matrix == MatrixOf(cases, MatrixTokens(from.inv))
  {
    ghost var start := problems.errors;
    var _ := ValidatePairs(cases, byId, problems);
    matrix := ValidateBothEnvironments(cases, from.inv, problems);
    var _, facetCases, _, facetGaps := BuildCoverage(cases, from.requirementTokens, from.facetTokens,
                                                     from.mandatoryFacets);
    ReportFacetGaps(facetGaps, problems);
    JoinThree(start, AllPairFaults(cases, byId), EnvironmentFaults(cases, from.inv),
              FacetGapFaults(FacetGaps(cases, from)));
  }

  // ---- what no error means

  lemma {:induction false} CoveredTokens(cases: seq<Case>, tokens: seq<string>, token: string)
    requires CoverFaults(cases, tokens) == [] && token in tokens
    ensures SidesOf(cases, token).offline != [] && SidesOf(cases, token).live != []
  {
    var last := tokens[|tokens| - 1];
    assert SideFaults(last, SidesOf(cases, last)) == [] && CoverFaults(cases, tokens[..|tokens| - 1]) == [];
    if token != last {
      assert token in tokens[..|tokens| - 1];
      CoveredTokens(cases, tokens[..|tokens| - 1], token);
    }
  }

  lemma {:induction false} NoGapFaults(gaps: seq<string>)
    requires FacetGapFaults(gaps) == []
    ensures gaps == []
  {
  }

  ghost predicate ErrorFree(cases: seq<Case>, from: Sources) {
    Within(ById(cases), |cases|) && IdAndBaselineFaults(cases, from) + PairAndCoverFaults(cases, from) == []
  }

  lemma {:induction false} ErrorFreeParts(cases: seq<Case>, from: Sources)
    ensures ErrorFree(cases, from) ==>
              && EachCaseFaults(cases, from.inv) == [] && DuplicateFaults(cases) == []
                 && BaselineFaults(from.baseline, Produced(cases)) == []
              && AllPairFaults(cases, ById(cases)) == [] && CoverFaults(cases, MatrixTokens(from.inv)) == []
                 && FacetGaps(cases, from) == []
  {
    if ErrorFree(cases, from) {
      assert IdAndBaselineFaults(cases, from) == [] && PairAndCoverFaults(cases, from) == [];
      assert EnvironmentFaults(cases, from.inv) == [] && FacetGapFaults(FacetGaps(cases, from)) == [];
      NoGapFaults(FacetGaps(cases, from));
    }
  }

  /** Every requirement and facet a case declares has metadata, its entries stripped. */
  predicate DeclaresKnownTokens(c: Case, inv: Inventory) {
    && c.requirements.Items? && c.facets.Items?
    && (forall i :: 0 <= i < |c.requirements.items| ==> inv.isRequirement(Strip(c.requirements.items[i])))
    && (forall i :: 0 <= i < |c.facets.items| ==> inv.isFacet(Strip(c.facets.items[i])))
  }

  /** A run is free of errors exactly when its input deserves none. */
  lemma {:induction false} ErrorFreeExactly(cases: seq<Case>, from: Sources)
    ensures ErrorFree(cases, from) <==> forall f :: !Deserves(cases, from, f)
  {
    ByIdFindsTheFirst(cases);
    if ErrorFree(cases, from) {
      forall f ensures !Deserves(cases, from, f) {
        RunReportsExactly(cases, from, f);
      }
    } else {
      var faults := IdAndBaselineFaults(cases, from) + PairAndCoverFaults(cases, from);
      RunReportsExactly(cases, from, faults[0]);
      assert Deserves(cases, from, faults[0]);
    }
  }

  lemma {:induction false} ErrorFreeRunClosesFacets(cases: seq<Case>, from: Sources, token: string)
    requires ErrorFree(cases, from)
    ensures !IsOpenFacet(cases, from, token)
  {
    ByIdFindsTheFirst(cases);
    RunReportsExactly(cases, from, UncoveredFacet(token));
  }

  lemma AcceptedTokensAreKnown(cases: seq<Case>, inv: Inventory, i: nat)
    requires Clean(cases, inv) && i < |cases|
    ensures DeclaresKnownTokens(cases[i], inv)
  {
    assert CaseFaultsAt(cases, inv)(i) == [];
    CleanCaseDeclaresKnownTokens(cases[i], i, inv);
  }

  /**
   A run without errors accepts the pairing and the declared tokens, preserves the baseline one for one and leaves
   no mandatory facet open.
   */
  lemma {:induction false} ErrorFreeRunIsSound(cases: seq<Case>, from: Sources)
    ensures ErrorFree(cases, from) ==>
              && Accepted(cases, from.inv)
              && (forall i :: 0 <= i < |cases| ==> DeclaresKnownTokens(cases[i], from.inv))
              && NoRepeats(from.baseline) && (forall id :: id in from.baseline ==> multiset(Produced(cases))[id] == 1)
              && (forall token :: !IsOpenFacet(cases, from, token))
  {
    if ErrorFree(cases, from) {
      ErrorFreeParts(cases, from);
      NoneCollectedExactly(CaseFaultsAt(cases, from.inv), |cases|);
      BaselineAcceptedExactly(from.baseline, Produced(cases));
      forall i | 0 <= i < |cases| ensures DeclaresKnownTokens(cases[i], from.inv) {
        AcceptedTokensAreKnown(cases, from.inv, i);
      }
      forall token ensures !IsOpenFacet(cases, from, token) {
        ErrorFreeRunClosesFacets(cases, from, token);
      }
    }
  }

  /** And every acceptance criterion is claimed in both environments, equally often and at least once. */
  lemma {:induction false} ErrorFreeRunBalancesEveryCriterion(cases: seq<Case>, from: Sources, token: string)
    ensures ErrorFree(cases, from)
            && (token in RequiredTokens() || (token in from.inv.requirements && IsAcceptanceToken(token))) ==>
              |SidesOf(cases, token).offline| == |SidesOf(cases, token).live| >= 1
  {
    if ErrorFree(cases, from) && (token in RequiredTokens()
                                  || (token in from.inv.requirements && IsAcceptanceToken(token))) {
      ErrorFreeRunIsSound(cases, from);
      ErrorFreeParts(cases, from);
      MatrixTokensInclude(from.inv, token);
      CoveredTokens(cases, MatrixTokens(from.inv), token);
      MatrixRowsBalance(cases, from.inv, token);
    }
  }

  lemma MatrixTokensInclude(inv: Inventory, token: string)
    requires token in RequiredTokens() || (token in inv.requirements && IsAcceptanceToken(token))
    ensures token in MatrixTokens(inv)
  {
    Selected(inv.requirements, IsAcceptanceToken);
    var all := Select(inv.requirements, IsAcceptanceToken) + RequiredTokens();
    assert token in all;
    DistinctKeeps(all);
    SortMember(Distinct(all), token);
  }
}
