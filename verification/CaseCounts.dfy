/** The generator's bookkeeping: the baseline identifiers a case list preserves, and what it covers. */
module CaseCounts {
  import opened CaseList
  import opened Sums
  import opened Texts

  lemma {:induction false} SelectedHasNoRepeats(s: seq<string>, wanted: string -> bool)
    requires NoRepeats(s)
    ensures NoRepeats(Select(s, wanted))
  {
    if s != [] {
      var front, last := s[..|s| - 1], s[|s| - 1];
      SelectedHasNoRepeats(front, wanted);
      Selected(front, wanted);
      assert last !in front;
      AppendNoRepeat(Select(front, wanted), last);
    }
  }

  lemma AppendNoRepeat(s: seq<string>, x: string)
    requires NoRepeats(s) && x !in s
    ensures NoRepeats(s + [x])
  {
  }

  lemma {:induction false} AllSelected(s: seq<string>, wanted: string -> bool)
    requires forall x :: x in s ==> wanted(x)
    ensures Select(s, wanted) == s
  {
    if s != [] {
      AllSelected(s[..|s| - 1], wanted);
      assert s == s[..|s| - 1] + [s[|s| - 1]];
    }
  }

  // ---- baseline

  /** The identifiers the cases produce, repetitions included. */
  function Produced(cases: seq<Case>): seq<string> {
    if cases == [] then []
    else
      var c := cases[|cases| - 1];
      Produced(cases[..|cases| - 1]) + if c.id.Text? then [c.id.value] else []
  }

  datatype Baseline = Baseline(count: nat, preserved: int, preservedIds: seq<string>, missing: seq<string>,
                               duplicated: seq<string>,
                               newIds: seq<string>)

  function Missing(baseline: seq<string>, counts: multiset<string>): seq<string> {
    Sort(Select(baseline, id => counts[id] == 0))
  }

  function Duplicated(baseline: seq<string>, produced: seq<string>): seq<string> {
    Sort(Select(Distinct(produced), id => multiset(produced)[id] > 1 && id in baseline))
  }

  function BaselineOf(baseline: seq<string>, produced: seq<string>): Baseline {
    var counts := multiset(produced);
    var missing, duplicated := Missing(baseline, counts), Duplicated(baseline, produced);
    Baseline(|baseline|, |baseline| - |missing| - |duplicated|, Select(baseline, id => counts[id] == 1), missing,
             duplicated,
             Sort(Select(Distinct(produced), id => id !in baseline)))
  }

  function MissingFaults(ids: seq<string>): seq<Fault> {
    seq(|ids|, i requires 0 <= i < |ids| => MissingBaseline(ids[i]))
  }
  function DuplicatedFaults(ids: seq<string>): seq<Fault> {
    seq(|ids|, i requires 0 <= i < |ids| => DuplicatedBaseline(ids[i]))
  }

  function BaselineFaults(baseline: seq<string>, produced: seq<string>): seq<Fault> {
    RepeatFaults(baseline)
    + (MissingFaults(Missing(baseline, multiset(produced))) + DuplicatedFaults(Duplicated(baseline, produced)))
  }

  function RepeatFaults(baseline: seq<string>): seq<Fault> {
    var surplus := |baseline| - |Distinct(baseline)|;
    if surplus > 0 then [RepeatedBaseline(surplus)] else []
  }

  method ReportRepeats(baseline: seq<string>, problems: Problems)
    modifies problems
    ensures problems.errors == old(problems.errors) + RepeatFaults(baseline)
  {
    var distinct := Distinct(baseline);
    DistinctKeeps(baseline);
    if |distinct| != |baseline| {
      problems.Error(RepeatedBaseline(|baseline| - |distinct|));
    }
  }

  method ValidateBaseline(cases: seq<Case>, baseline: seq<string>, problems: Problems) returns (report: Baseline)
    modifies problems
    ensures report == BaselineOf(baseline, Produced(cases))
    ensures problems.errors == old(problems.errors) + BaselineFaults(baseline, Produced(cases))
  {
    ghost var start := problems.errors;
    var produced := CollectProduced(cases);
    ReportRepeats(baseline, problems);
    var missing := Missing(baseline, multiset(produced));
    var duplicated := Duplicated(baseline, produced);
    ReportEach(missing, duplicated, problems);
    report := BaselineOf(baseline, produced);
    Join(start, RepeatFaults(baseline), MissingFaults(missing) + DuplicatedFaults(duplicated));
  }

  method CollectProduced(cases: seq<Case>) returns (produced: seq<string>)
    ensures produced == Produced(cases)
  {
    produced := [];
    for i := 0 to |cases|
      invariant produced == Produced(cases[..i])
    {
      assert cases[..i + 1][..i] == cases[..i];
      if cases[i].id.Text? {
        produced := produced + [cases[i].id.value];
      }
    }
    assert cases[..|cases|] == cases;
  }

  method ReportEach(missing: seq<string>, duplicated: seq<string>, problems: Problems)
    modifies problems
    ensures problems.errors == old(problems.errors) + (MissingFaults(missing) + DuplicatedFaults(duplicated))
  {
    ghost var start := problems.errors;
    for i := 0 to |missing|
      invariant problems.errors == start + MissingFaults(missing)[..i]
    {
      problems.Error(MissingBaseline(missing[i]));
    }
    ghost var between := problems.errors;
    for i := 0 to |duplicated|
      invariant problems.errors == between + DuplicatedFaults(duplicated)[..i]
    {
      problems.Error(DuplicatedBaseline(duplicated[i]));
    }
    Join(start, MissingFaults(missing), DuplicatedFaults(duplicated));
  }

  /** Exactly one of the three lists holds a baseline identifier, and they hold nothing else. */
  lemma BaselineIsPartitioned(baseline: seq<string>, produced: seq<string>, id: string)
    ensures var report := BaselineOf(baseline, produced); var n := multiset(produced)[id];
            && (id in report.missing <==> id in baseline && n == 0)
            && (id in report.preservedIds <==> id in baseline && n == 1)
            && (id in report.duplicated <==> id in baseline && n > 1)
  {
    var counts := multiset(produced);
    Selected(baseline, id => counts[id] == 0);
    Selected(baseline, id => counts[id] == 1);
    SortMember(Select(baseline, id => counts[id] == 0), id);
    DuplicatedMember(baseline, produced, id);
  }

  lemma DuplicatedMember(baseline: seq<string>, produced: seq<string>, id: string)
    ensures id in Duplicated(baseline, produced) <==> id in baseline && multiset(produced)[id] > 1
  {
    var wanted := (id: string) => multiset(produced)[id] > 1 && id in baseline;
    Selected(Distinct(produced), wanted);
    DistinctKeeps(produced);
    SortMember(Select(Distinct(produced), wanted), id);
    assert multiset(produced)[id] > 1 ==> id in produced;
  }

  /** Every baseline identifier is produced never, once, or more often. */
  lemma {:induction false} SelectPartition(baseline: seq<string>, counts: multiset<string>)
    ensures |baseline| == |Select(baseline, id => counts[id] == 0)| + |Select(baseline, id => counts[id] == 1)|
                        + |Select(baseline, id => counts[id] > 1)|
  {
    if baseline != [] {
      SelectPartition(baseline[..|baseline| - 1], counts);
    }
  }

  lemma {:induction false} DuplicatedSize(baseline: seq<string>, produced: seq<string>)
    ensures var repeated := Select(baseline, id => multiset(produced)[id] > 1);
            |Duplicated(baseline, produced)| <= |repeated|
              && (|Duplicated(baseline, produced)| == |repeated| <==> NoRepeats(repeated))
  {
    var repeated := Select(baseline, id => multiset(produced)[id] > 1);
    var duplicated := Duplicated(baseline, produced);
    Selected(baseline, id => multiset(produced)[id] > 1);
    DuplicatedHasNoRepeats(baseline, produced);
    NoRepeatsSize(duplicated);
    DistinctKeeps(repeated);
    NoRepeatsSize(Distinct(repeated));
    forall id ensures id in duplicated <==> id in Distinct(repeated) {
      DuplicatedMember(baseline, produced, id);
    }
    assert Elements(duplicated) == Elements(Distinct(repeated));
  }

  lemma DuplicatedHasNoRepeats(baseline: seq<string>, produced: seq<string>)
    ensures NoRepeats(Duplicated(baseline, produced))
  {
    var wanted := (id: string) => multiset(produced)[id] > 1 && id in baseline;
    DistinctKeeps(produced);
    SelectedHasNoRepeats(Distinct(produced), wanted);
    SortKeepsNoRepeats(Select(Distinct(produced), wanted));
  }

  /**
   The reported number is the length of the preserved list exactly when no identifier that is produced
   more than once is repeated in the baseline; in particular for every baseline without repetitions.
   */
  lemma PreservedCountsExactly(baseline: seq<string>, produced: seq<string>)
    ensures var report := BaselineOf(baseline, produced);
            report.preserved == |report.preservedIds| <==> NoRepeats(Select(baseline, id => multiset(produced)[id] > 1))
    ensures NoRepeats(baseline) ==>
              BaselineOf(baseline, produced).preserved == |BaselineOf(baseline, produced).preservedIds|
  {
    var counts := multiset(produced);
    SelectPartition(baseline, counts);
    SortSorts(Select(baseline, id => counts[id] == 0));
    DuplicatedSize(baseline, produced);
    if NoRepeats(baseline) {
      SelectedHasNoRepeats(baseline, id => multiset(produced)[id] > 1);
    }
  }

  /**
   The check passes exactly when the baseline repeats nothing and each of its identifiers is produced exactly once.
   */
  lemma BaselineAcceptedExactly(baseline: seq<string>, produced: seq<string>)
    ensures BaselineFaults(baseline, produced) == [] <==>
            (NoRepeats(baseline) && forall id :: id in baseline ==> multiset(produced)[id] == 1)
    ensures BaselineFaults(baseline, produced) == [] ==> BaselineOf(baseline, produced).preservedIds == baseline
  {
    var missing, duplicated := Missing(baseline, multiset(produced)), Duplicated(baseline, produced);
    DistinctKeeps(baseline);
    assert BaselineFaults(baseline, produced) == [] <==> (NoRepeats(baseline) && missing == [] && duplicated == []) by {
      assert |MissingFaults(missing)| == |missing| && |DuplicatedFaults(duplicated)| == |duplicated|;
    }
    assert BaselineOf(baseline, produced).missing == missing && BaselineOf(baseline, produced).duplicated == duplicated;
    forall id ensures id in missing <==> id in baseline && multiset(produced)[id] == 0 {
      BaselineIsPartitioned(baseline, produced, id);
    }
    forall id ensures id in duplicated <==> id in baseline && multiset(produced)[id] > 1 {
      DuplicatedMember(baseline, produced, id);
    }
    EmptyExactly(missing);
    EmptyExactly(duplicated);
    if BaselineFaults(baseline, produced) == [] {
      AllSelected(baseline, id => multiset(produced)[id] == 1);
    }
  }

  lemma EmptyExactly(s: seq<string>)
    ensures s == [] <==> forall x :: x !in s
  {
    if s != [] { assert s[0] in s; }
  }

  // ---- coverage

  function RequirementsOf(c: Case): Strings { c.requirements }
  function FacetsOf(c: Case): Strings { c.facets }

  /** The identifiers of the cases that declare a token, in case order. */
  function Covering(cases: seq<Case>, field: Case -> Strings, token: string): seq<string> {
    if cases == [] then []
    else
      var c := cases[|cases| - 1];
      Covering(cases[..|cases| - 1], field, token)
      + if c.id.Text? && token in Declared(field(c)) then [c.id.value] else []
  }

  function CoverageOf(cases: seq<Case>, field: Case -> Strings, tokens: seq<string>): map<string, seq<string>> {
    map t | t in tokens :: Covering(cases, field, t)
  }

  /** The tokens asked for that a listing does not have, or has without a case. */
  function Gaps(listing: map<string, seq<string>>, wanted: seq<string>): seq<string> {
    Sort(Select(wanted, t => t !in listing || listing[t] == []))
  }

  /** A listing with one identifier appended to some of its tokens. */
  function Appended(listing: map<string, seq<string>>, tokens: set<string>, id: string): map<string, seq<string>> {
    map t | t in listing :: listing[t] + if t in tokens then [id] else []
  }

  lemma AppendedNone(listing: map<string, seq<string>>, id: string)
    ensures Appended(listing, {}, id) == listing
  {
    assert forall t :: t in listing ==> Appended(listing, {}, id)[t] == listing[t];
  }

  lemma AppendedOne(listing: map<string, seq<string>>, tokens: set<string>, token: string, id: string)
    requires token !in tokens
    ensures var before := Appended(listing, tokens, id);
            Appended(listing, tokens + {token}, id) ==
              if token in listing then before[token := before[token] + [id]] else before
  {
    var before, after := Appended(listing, tokens, id), Appended(listing, tokens + {token}, id);
    forall t | t in listing ensures after[t] == if t == token then before[t] + [id] else before[t] {
      assert t == token ==> before[t] == listing[t];
    }
  }

  /** One case's tokens, each once, in sorted order: the known ones get the case appended. */
  method Record(listing: map<string, seq<string>>, list: Strings, id: string) returns (after: map<string, seq<string>>)
    ensures after == Appended(listing, Declared(list), id)
  {
    var items := if list.Items? then list.items else [];
    var tokens := Sort(Distinct(items));
    SortedDistinct(items);
    AppendedNone(listing, id);
    after := listing;
    for i := 0 to |tokens|
      invariant after == Appended(listing, Elements(tokens[..i]), id)
    {
      AppendedOne(listing, Elements(tokens[..i]), tokens[i], id);
      assert Elements(tokens[..i + 1]) == Elements(tokens[..i]) + {tokens[i]};
      if tokens[i] in after {
        after := after[tokens[i] := after[tokens[i]] + [id]];
      }
    }
    assert Elements(tokens[..|tokens|]) == Declared(list);
  }

  lemma {:induction false} SortedDistinct(items: seq<string>)
    ensures NoRepeats(Sort(Distinct(items))) && Elements(Sort(Distinct(items))) == Elements(items)
  {
    DistinctKeeps(items);
    SortKeepsNoRepeats(Distinct(items));
    forall t ensures t in Sort(Distinct(items)) <==> t in items {
      SortMember(Distinct(items), t);
    }
  }

  lemma CoverageStep(cases: seq<Case>, field: Case -> Strings, tokens: seq<string>, i: nat)
    requires i < |cases|
    ensures CoverageOf(cases[..i + 1], field, tokens)
            == CoveredBy(CoverageOf(cases[..i], field, tokens), field, cases[i])
  {
    var after := CoveredBy(CoverageOf(cases[..i], field, tokens), field, cases[i]);
    assert cases[..i + 1][..i] == cases[..i];
    forall t | t in tokens ensures Covering(cases[..i + 1], field, t) == after[t] {
      assert Covering(cases[..i], field, t) == CoverageOf(cases[..i], field, tokens)[t];
    }
  }

  function CoveredBy(listing: map<string, seq<string>>, field: Case -> Strings, c: Case): map<string, seq<string>> {
    if c.id.Text? then Appended(listing, Declared(field(c)), c.id.value) else listing
  }

  method BuildCoverage(cases: seq<Case>, requirementTokens: seq<string>, facetTokens: seq<string>,
                       mandatoryFacets: seq<string>)
    returns (requirementCases: map<string, seq<string>>, facetCases: map<string, seq<string>>,
             requirementGaps: seq<string>, facetGaps: seq<string>)
    ensures requirementCases == CoverageOf(cases, RequirementsOf, requirementTokens)
    ensures facetCases == CoverageOf(cases, FacetsOf, facetTokens)
    ensures requirementGaps == Gaps(requirementCases, Distinct(requirementTokens))
    ensures facetGaps == Gaps(facetCases, mandatoryFacets)
  {
    requirementCases := map t | t in requirementTokens :: [];
    facetCases := map t | t in facetTokens :: [];
    for i := 0 to |cases|
      invariant requirementCases == CoverageOf(cases[..i], RequirementsOf, requirementTokens)
      invariant facetCases == CoverageOf(cases[..i], FacetsOf, facetTokens)
    {
      CoverageStep(cases, RequirementsOf, requirementTokens, i);
      CoverageStep(cases, FacetsOf, facetTokens, i);
      if !cases[i].id.Text? {
        continue;
      }
      requirementCases := Record(requirementCases, cases[i].requirements, cases[i].id.value);
      facetCases := Record(facetCases, cases[i].facets, cases[i].id.value);
    }
    assert cases[..|cases|] == cases;
    requirementGaps := Gaps(requirementCases, Distinct(requirementTokens));
    facetGaps := Gaps(facetCases, mandatoryFacets);
  }

  /**
   Coverage inverts declaration: a token lists an identifier
   exactly when a case of that identifier declares the token.
   */
  lemma {:induction false} CoverageInvertsDeclaration(cases: seq<Case>, field: Case -> Strings, token: string,
                                                      id: string)
    ensures id in Covering(cases, field, token) <==>
            exists i :: 0 <= i < |cases| && cases[i].id == Text(id) && token in Declared(field(cases[i]))
  {
    if cases != [] {
      var front, last := cases[..|cases| - 1], cases[|cases| - 1];
      CoverageInvertsDeclaration(front, field, token, id);
      assert cases == front + [last];
      if i :| 0 <= i < |cases| && cases[i].id == Text(id) && token in Declared(field(cases[i])) {
        assert i < |front| ==> front[i] == cases[i];
      }
    }
  }

  /** A token is reported as a gap exactly when it is asked for and unknown, or declared by no identified case. */
  lemma GapsExactly(cases: seq<Case>, field: Case -> Strings, known: seq<string>, wanted: seq<string>, token: string)
    ensures token in Gaps(CoverageOf(cases, field, known), wanted) <==>
            token in wanted &&
            (token in known ==>
               forall i :: 0 <= i < |cases| && cases[i].id.Text? ==> token !in Declared(field(cases[i])))
  {
    var listing := CoverageOf(cases, field, known);
    var open := (t: string) => t !in listing || listing[t] == [];
    Selected(wanted, open);
    SortMember(Select(wanted, open), token);
    NotCoveredExactly(cases, field, token);
  }

  lemma {:induction false} NotCoveredExactly(cases: seq<Case>, field: Case -> Strings, token: string)
    ensures Covering(cases, field, token) == [] <==>
            forall i :: 0 <= i < |cases| && cases[i].id.Text? ==> token !in Declared(field(cases[i]))
  {
    EmptyExactly(Covering(cases, field, token));
    forall id ensures id in Covering(cases, field, token) <==>
                      exists i :: 0 <= i < |cases| && cases[i].id == Text(id) && token in Declared(field(cases[i])) {
      CoverageInvertsDeclaration(cases, field, token, id);
    }
    if i :| 0 <= i < |cases| && cases[i].id.Text? && token in Declared(field(cases[i])) {
      assert cases[i].id == Text(cases[i].id.value);
    }
  }

  /** How many known tokens an identified case declares. */
  function DeclaredCount(field: Case -> Strings, known: set<string>): Case -> nat {
    (c: Case) => if c.id.Text? then |Declared(field(c)) * known| else 0
  }

  function Lengths(cases: seq<Case>, field: Case -> Strings, known: set<string>): map<string, int> {
    map t | t in known :: |Covering(cases, field, t)|
  }

  lemma {:induction false} TotalBump(m: map<string, int>, bumped: map<string, int>, d: set<string>)
    requires bumped.Keys == m.Keys && forall t :: t in m ==> bumped[t] == m[t] + if t in d then 1 else 0
    ensures Total(bumped) == Total(m) + |d * m.Keys|
    decreases |m|
  {
    if m.Keys == {} {
      assert d * m.Keys == {};
    } else {
      var t :| t in m.Keys;
      TotalRemove(m, t);
      TotalRemove(bumped, t);
      assert |m - {t}| < |m|;
      TotalBump(m - {t}, bumped - {t}, d);
      CommonWithout(d, m.Keys, t);
    }
  }

  lemma CommonWithout(d: set<string>, keys: set<string>, t: string)
    requires t in keys
    ensures |d * keys| == |d * (keys - {t})| + if t in d then 1 else 0
  {
    assert d * keys == d * (keys - {t}) + if t in d then {t} else {};
  }

  /** Counted by token or by case, the declarations of known tokens are the same number. */
  lemma {:induction false} CoverageCountsDeclarations(cases: seq<Case>, field: Case -> Strings, known: set<string>)
    ensures Total(Lengths(cases, field, known)) == Sum(cases, DeclaredCount(field, known))
  {
    if cases == [] {
      ZeroLengths(Lengths(cases, field, known));
    } else {
      var front, last := cases[..|cases| - 1], cases[|cases| - 1];
      CoverageCountsDeclarations(front, field, known);
      var d := if last.id.Text? then Declared(field(last)) else {};
      TotalBump(Lengths(front, field, known), Lengths(cases, field, known), d);
      assert Lengths(front, field, known).Keys == known;
    }
  }

  lemma {:induction false} ZeroLengths(m: map<string, int>)
    requires forall t :: t in m ==> m[t] == 0
    ensures Total(m) == 0
    decreases |m|
  {
    if m.Keys != {} {
      var t :| t in m.Keys;
      TotalRemove(m, t);
      assert |m - {t}| < |m|;
      ZeroLengths(m - {t});
    }
  }
}
