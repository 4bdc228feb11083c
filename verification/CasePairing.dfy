/**
 What an accepted case list is: its end-to-end cases fall into offline and live halves that name each
 other and declare the same things, so both environments claim every criterion equally often.
 */
module CasePairing {
  import opened CaseList
  import opened Texts

  // ---- identifiers

  /** Each named case is found under its identifier at its first occurrence, and nothing else is found. */
  lemma {:induction false} ByIdFindsTheFirst(cases: seq<Case>)
    ensures Within(ById(cases), |cases|)
    ensures forall k :: k in ById(cases) ==> Named(cases[ById(cases)[k]]) && cases[ById(cases)[k]].id.value == k
    ensures forall i :: 0 <= i < |cases| && Named(cases[i]) ==>
              cases[i].id.value in ById(cases) && ById(cases)[cases[i].id.value] <= i
  {
    if cases != [] {
      ByIdFindsTheFirst(cases[..|cases| - 1]);
    }
  }

  predicate DistinctIds(cases: seq<Case>) {
    forall i, j :: 0 <= i < j < |cases| && Named(cases[i]) && Named(cases[j]) ==> cases[i].id != cases[j].id
  }

  predicate Repeats(cases: seq<Case>, c: Case) {
    Named(c) && exists i :: 0 <= i < |cases| && cases[i].id == c.id
  }

  lemma {:induction false} FoundExactlyWhenRepeated(cases: seq<Case>, c: Case)
    ensures Repeats(cases, c) <==> Named(c) && c.id.value in ById(cases)
  {
    ByIdFindsTheFirst(cases);
    if Named(c) && c.id.value in ById(cases) {
      assert cases[ById(cases)[c.id.value]].id == c.id;
    }
  }

  lemma DistinctStep(front: seq<Case>, c: Case)
    ensures DistinctIds(front + [c]) <==> DistinctIds(front) && !Repeats(front, c)
  {
    var all := front + [c];
    if DistinctIds(all) {
      forall i, j | 0 <= i < j < |front| && Named(front[i]) && Named(front[j]) ensures front[i].id != front[j].id {
        assert all[i] == front[i] && all[j] == front[j];
      }
      forall i | 0 <= i < |front| && Named(c) ensures front[i].id != c.id {
        assert all[i] == front[i] && all[|front|] == c;
      }
    }
  }

  /** The identifier check passes exactly the lists in which no identifier is declared twice. */
  lemma {:induction false} DuplicatesReportedExactly(cases: seq<Case>)
    ensures DuplicateFaults(cases) == [] <==> DistinctIds(cases)
  {
    if cases != [] {
      var front, last := cases[..|cases| - 1], cases[|cases| - 1];
      DuplicatesReportedExactly(front);
      FoundExactlyWhenRepeated(front, last);
      DistinctStep(front, last);
      assert cases == front + [last];
    }
  }

  // ---- what a clean case is

  predicate Clean(cases: seq<Case>, inv: Inventory) {
    forall i: nat :: i < |cases| ==> CaseFaultsAt(cases, inv)(i) == []
  }

  /** What the later checks may rely on in a case that `validate_case` finds nothing wrong with. */
  predicate WellFormed(c: Case) {
    && Named(c)
    && c.environment in ENVIRONMENTS
    && (c.layer == E2E ==> c.pair.Text? && c.pair.value != "")
    && (c.environment == LIVE ==>
         c.prerequisites.Items? && c.prerequisites.items != [] && NamesLock(c.prerequisites.items))
  }

  lemma PairFieldFilled(c: Case, at: nat)
    requires PairFieldFaults(c, at) == [] && c.layer == E2E
    ensures c.pair.Text? && c.pair.value != ""
  {
    assert Strip("") == "";
  }

  lemma LiveNamesLock(c: Case, at: nat)
    requires LiveFaults(c, at) == [] && c.environment == LIVE
    ensures c.prerequisites.Items? && c.prerequisites.items != [] && NamesLock(c.prerequisites.items)
  {
    var items := c.prerequisites.items;
    var i :| 0 <= i < |items| && Includes(Strip(items[i]), CONNECTOR_LOCK);
    StripKeepsMentions(items[i], CONNECTOR_LOCK);
  }

  lemma CleanIsWellFormed(c: Case, at: nat, inv: Inventory)
    requires CaseFaults(c, at, inv) == []
    ensures WellFormed(c)
  {
    assert FieldFaults(c, at) == [] && RuleFaults(c, at) == [];
    assert IdFaults(c, at) == [] && LiveFaults(c, at) == [] && PairFieldFaults(c, at) == [];
    if c.layer == E2E {
      PairFieldFilled(c, at);
    }
    if c.environment == LIVE {
      LiveNamesLock(c, at);
    }
    assert Strip("") == "";
  }

  // ---- pairs

  /** Two end-to-end cases of opposite environments that name each other and declare the same tokens. */
  predicate Halves(cases: seq<Case>, i: nat, j: nat) {
    && i < |cases| && j < |cases| && i != j
    && cases[i].layer == E2E && cases[j].layer == E2E
    && cases[i].pair == cases[j].id && cases[j].pair == cases[i].id
    && cases[i].environment != cases[j].environment
    && Declared(cases[i].requirements) == Declared(cases[j].requirements)
    && Declared(cases[i].facets) == Declared(cases[j].facets)
  }

  ghost predicate WellPaired(cases: seq<Case>) {
    forall i: nat :: i < |cases| && cases[i].layer == E2E ==> exists j: nat :: Halves(cases, i, j)
  }

  /** In a list whose cases are well formed, the live-half check of a link across environments never fires. */
  lemma LiveHalfIsFine(c: Case, partner: Case, at: nat)
    requires WellFormed(c) && WellFormed(partner) && c.environment != partner.environment
    ensures LiveHalfFaults(if c.environment == LIVE then c else partner, at) == []
  {
  }

  lemma LinkIsFineExactly(c: Case, partner: Case, at: nat)
    requires WellFormed(c) && WellFormed(partner) && c.layer == E2E
    ensures LinkFaults(c, partner, at) == [] <==>
            (partner.layer == E2E && partner.environment != c.environment && partner.pair == c.id
             && Declared(c.requirements) == Declared(partner.requirements)
                && Declared(c.facets) == Declared(partner.facets))
  {
    if c.environment != partner.environment {
      LiveHalfIsFine(c, partner, at);
    }
  }

  predicate AllWellFormed(cases: seq<Case>) { forall k :: 0 <= k < |cases| ==> WellFormed(cases[k]) }

  lemma HalvesSwap(cases: seq<Case>, i: nat, j: nat)
    requires Halves(cases, i, j)
    ensures Halves(cases, j, i)
  {
  }

  lemma {:induction false} FoundAt(cases: seq<Case>, j: nat)
    requires j < |cases| && Named(cases[j]) && DistinctIds(cases)
    ensures cases[j].id.value in ById(cases) && ById(cases)[cases[j].id.value] == j
  {
    ByIdFindsTheFirst(cases);
    var first := ById(cases)[cases[j].id.value];
    assert cases[first].id == cases[j].id;
  }

  /** The case a case's `pair` names. */
  function Partner(cases: seq<Case>, i: nat): nat
    requires i < |cases|
  {
    if cases[i].pair.Text? && cases[i].pair.value in ById(cases) then ById(cases)[cases[i].pair.value] else i
  }

  /** A half's other half is the case its `pair` names. */
  lemma {:induction false} HalfIsPartner(cases: seq<Case>, i: nat, j: nat)
    requires AllWellFormed(cases) && DistinctIds(cases) && Halves(cases, i, j)
    ensures Partner(cases, i) == j && Linked(cases[i], ById(cases))
  {
    FoundAt(cases, j);
    assert cases[i].pair == cases[j].id;
    assert WellFormed(cases[i]) && WellFormed(cases[j]);
    if cases[i].pair == cases[i].id {
      FoundAt(cases, i);
      assert false;
    }
  }

  /** One case's pair is accepted exactly when the case and the one it names are halves of a pair. */
  lemma {:induction false} PairIsFineExactly(cases: seq<Case>, i: nat)
    requires i < |cases| && cases[i].layer == E2E && Within(ById(cases), |cases|)
    requires AllWellFormed(cases) && DistinctIds(cases)
    ensures PairFaults(cases, ById(cases), i) == []
            <==> Partner(cases, i) < |cases| && Halves(cases, i, Partner(cases, i))
  {
    var c := cases[i];
    ByIdFindsTheFirst(cases);
    assert WellFormed(c);
    if c.pair.value in ById(cases) {
      var j := Partner(cases, i);
      assert WellFormed(cases[j]) && cases[j].id == c.pair;
      LinkIsFineExactly(c, cases[j], i);
    }
  }

  predicate PairedUp(cases: seq<Case>, i: nat)
    requires i < |cases|
  {
    Partner(cases, i) < |cases| && Halves(cases, i, Partner(cases, i))
  }

  lemma PairedExactlyWithSomeHalf(cases: seq<Case>, i: nat)
    requires AllWellFormed(cases) && DistinctIds(cases) && i < |cases|
    ensures PairedUp(cases, i) <==> exists j: nat :: Halves(cases, i, j)
  {
    if j: nat :| Halves(cases, i, j) {
      HalfIsPartner(cases, i, j);
    }
  }

  /** Once single cases and identifiers are clean, the pair check passes exactly the well-paired lists. */
  lemma {:induction false} PairsAcceptedExactlyWhenWellPaired(cases: seq<Case>, inv: Inventory)
    requires Clean(cases, inv) && DuplicateFaults(cases) == [] && Within(ById(cases), |cases|)
    ensures AllPairFaults(cases, ById(cases)) == [] <==> WellPaired(cases)
  {
    CleanListIsWellFormed(cases, inv);
    DuplicatesReportedExactly(cases);
    FineExactlyWhenWellPaired(cases);
  }

  lemma {:induction false} FineExactlyWhenWellPaired(cases: seq<Case>)
    requires AllWellFormed(cases) && DistinctIds(cases) && Within(ById(cases), |cases|)
    ensures AllPairFaults(cases, ById(cases)) == [] <==> WellPaired(cases)
  {
    var item := PairFaultsAt(cases, ById(cases));
    NoneCollectedExactly(item, |cases|);
    forall i: nat | i < |cases|
      ensures item(i) == [] <==> cases[i].layer != E2E || exists j: nat :: Halves(cases, i, j)
    {
      if cases[i].layer == E2E {
        PairIsFineExactly(cases, i);
        PairedExactlyWithSomeHalf(cases, i);
      }
    }
  }

  lemma CleanListIsWellFormed(cases: seq<Case>, inv: Inventory)
    requires Clean(cases, inv)
    ensures AllWellFormed(cases)
  {
    forall i | 0 <= i < |cases| ensures WellFormed(cases[i]) {
      assert CaseFaultsAt(cases, inv)(i) == [];
      CleanIsWellFormed(cases[i], i, inv);
    }
  }

  /** A list the three checks find nothing wrong with. */
  ghost predicate Accepted(cases: seq<Case>, inv: Inventory) {
    && Clean(cases, inv)
    && DuplicateFaults(cases) == []
    && Within(ById(cases), |cases|)
    && AllPairFaults(cases, ById(cases)) == []
  }

  lemma AcceptedMeans(cases: seq<Case>, inv: Inventory)
    requires Accepted(cases, inv)
    ensures AllWellFormed(cases) && DistinctIds(cases) && WellPaired(cases)
  {
    CleanListIsWellFormed(cases, inv);
    DuplicatesReportedExactly(cases);
    PairsAcceptedExactlyWhenWellPaired(cases, inv);
  }

  lemma {:induction false} WellPairedPartner(cases: seq<Case>, i: nat)
    requires AllWellFormed(cases) && DistinctIds(cases) && WellPaired(cases) && i < |cases| && cases[i].layer == E2E
    ensures var j := Partner(cases, i);
            && Halves(cases, i, j) && Partner(cases, j) == i && Linked(cases[i], ById(cases))
            && {cases[i].environment, cases[j].environment} == {OFFLINE, LIVE}
  {
    var j: nat :| Halves(cases, i, j);
    HalfIsPartner(cases, i, j);
    HalvesSwap(cases, i, j);
    HalfIsPartner(cases, j, i);
    assert WellFormed(cases[i]) && WellFormed(cases[j]);
  }

  /**
   The pairing of an accepted list is an involution without fixed points that swaps the offline and the
   live end-to-end cases and keeps their requirement and facet sets.
   */
  lemma AcceptedPairingIsAnInvolution(cases: seq<Case>, inv: Inventory, i: nat)
    requires Accepted(cases, inv) && i < |cases| && cases[i].layer == E2E
    ensures var j := Partner(cases, i);
            && Halves(cases, i, j) && Partner(cases, j) == i
            && {cases[i].environment, cases[j].environment} == {OFFLINE, LIVE}
  {
    AcceptedMeans(cases, inv);
    WellPairedPartner(cases, i);
  }

  lemma {:induction false} RelationsList(cases: seq<Case>, byId: map<string, nat>, i: nat)
    requires i < |cases| && Linked(cases[i], byId)
    requires forall k :: i < k < |cases| ==> cases[k].id != cases[i].id
    ensures cases[i].id in Relations(cases, byId) && Relations(cases, byId)[cases[i].id] == cases[i].pair.value
  {
    if i < |cases| - 1 {
      RelationsList(cases[..|cases| - 1], byId, i);
    }
  }

  /** And the reported relation is that pairing. */
  lemma {:induction false} ReportedRelationIsThePairing(cases: seq<Case>, inv: Inventory, i: nat)
    requires Accepted(cases, inv) && i < |cases| && cases[i].layer == E2E
    ensures cases[i].id in Relations(cases, ById(cases))
    ensures Text(Relations(cases, ById(cases))[cases[i].id]) == cases[Partner(cases, i)].id
  {
    AcceptedMeans(cases, inv);
    WellPairedPartner(cases, i);
    LastOfItsId(cases, i);
    RelationsList(cases, ById(cases), i);
  }

  lemma LastOfItsId(cases: seq<Case>, i: nat)
    requires AllWellFormed(cases) && DistinctIds(cases) && i < |cases|
    ensures forall k :: i < k < |cases| ==> cases[k].id != cases[i].id
  {
    assert WellFormed(cases[i]);
    forall k | i < k < |cases| ensures cases[k].id != cases[i].id {
      assert WellFormed(cases[k]);
    }
  }

  // ---- counting

  /** The positions of the claiming cases. */
  function ClaimantSet(cases: seq<Case>, environment: Field, tokens: set<string>): set<nat> {
    set i: nat | i < |cases| && Claims(cases[i], environment, tokens)
  }

  lemma {:induction false} ClaimantsCounted(cases: seq<Case>, environment: Field, tokens: set<string>)
    ensures |Claimants(cases, environment, tokens)| == |ClaimantSet(cases, environment, tokens)|
  {
    if cases != [] {
      ClaimantsCounted(cases[..|cases| - 1], environment, tokens);
      ClaimantSetStep(cases, environment, tokens);
    }
  }

  lemma ClaimantSetStep(cases: seq<Case>, environment: Field, tokens: set<string>)
    requires cases != []
    ensures var at := |cases| - 1; var before := ClaimantSet(cases[..at], environment, tokens);
            at !in before && ClaimantSet(cases, environment, tokens) ==
              if Claims(cases[at], environment, tokens) then before + {at} else before
  {
  }

  /** A map that takes `a` into `b` without collisions bounds the size of `a`. */
  lemma {:induction false} InjectionBound(a: set<nat>, b: set<nat>, f: map<nat, nat>)
    requires forall x :: x in a ==> x in f && f[x] in b
    requires forall x, y :: x in a && y in a && f[x] == f[y] ==> x == y
    ensures |a| <= |b|
    decreases |a|
  {
    if a != {} {
      var x :| x in a;
      InjectionBound(a - {x}, b - {f[x]}, f);
    }
  }

  /** Every claimant on one side has its partner among the claimants on the other. */
  ghost predicate CrossesBack(cases: seq<Case>, here: Field, there: Field, tokens: set<string>) {
    forall i: nat :: i in ClaimantSet(cases, here, tokens) ==>
      var j := Partner(cases, i);
      j < |cases| && j in ClaimantSet(cases, there, tokens) && Partner(cases, j) == i
  }

  lemma OneSideFits(cases: seq<Case>, here: Field, there: Field, tokens: set<string>)
    requires CrossesBack(cases, here, there, tokens)
    ensures |ClaimantSet(cases, here, tokens)| <= |ClaimantSet(cases, there, tokens)|
  {
    var f := map i: nat | i in ClaimantSet(cases, here, tokens) :: Partner(cases, i);
    InjectionBound(ClaimantSet(cases, here, tokens), ClaimantSet(cases, there, tokens), f);
  }

  lemma AllCrossBack(cases: seq<Case>, here: Field, there: Field, tokens: set<string>)
    requires AllWellFormed(cases) && DistinctIds(cases) && WellPaired(cases)
    requires (here == OFFLINE && there == LIVE) || (here == LIVE && there == OFFLINE)
    ensures CrossesBack(cases, here, there, tokens)
  {
    forall i: nat | i in ClaimantSet(cases, here, tokens)
      ensures var j := Partner(cases, i);
             j < |cases| && j in ClaimantSet(cases, there, tokens) && Partner(cases, j) == i
    {
      PartnerClaims(cases, i, here, there, tokens);
    }
  }

  lemma PartnerClaims(cases: seq<Case>, i: nat, here: Field, there: Field, tokens: set<string>)
    requires AllWellFormed(cases) && DistinctIds(cases) && WellPaired(cases)
    requires (here == OFFLINE && there == LIVE) || (here == LIVE && there == OFFLINE)
    requires i in ClaimantSet(cases, here, tokens)
    ensures var j := Partner(cases, i); j < |cases| && j in ClaimantSet(cases, there, tokens) && Partner(cases, j) == i
  {
    WellPairedPartner(cases, i);
    CrossesOver(cases, i, Partner(cases, i), here, there, tokens);
  }

  lemma CrossesOver(cases: seq<Case>, i: nat, j: nat, here: Field, there: Field, tokens: set<string>)
    requires Halves(cases, i, j) && {cases[i].environment, cases[j].environment} == {OFFLINE, LIVE}
    requires Claims(cases[i], here, tokens) && ((here == OFFLINE && there == LIVE)
                                                || (here == LIVE && there == OFFLINE))
    ensures Claims(cases[j], there, tokens)
  {
    assert cases[j].environment in {OFFLINE, LIVE};
  }

  /** Of an accepted list, offline and live cases that declare any given set of tokens are equal in number. */
  lemma {:induction false} BothEnvironmentsClaimEquallyOften(cases: seq<Case>, inv: Inventory, tokens: set<string>)
    requires Accepted(cases, inv)
    ensures |Claimants(cases, OFFLINE, tokens)| == |Claimants(cases, LIVE, tokens)|
  {
    AcceptedMeans(cases, inv);
    AllCrossBack(cases, OFFLINE, LIVE, tokens);
    AllCrossBack(cases, LIVE, OFFLINE, tokens);
    OneSideFits(cases, OFFLINE, LIVE, tokens);
    OneSideFits(cases, LIVE, OFFLINE, tokens);
    ClaimantsCounted(cases, OFFLINE, tokens);
    ClaimantsCounted(cases, LIVE, tokens);
  }

  /** So both columns of every matrix row have the same length, and no token lacks only one environment. */
  lemma MatrixRowsBalance(cases: seq<Case>, inv: Inventory, token: string)
    requires Accepted(cases, inv)
    ensures |SidesOf(cases, token).offline| == |SidesOf(cases, token).live|
    ensures NoCaseFor(token, "offline") in SideFaults(token, SidesOf(cases, token))
            <==> NoCaseFor(token, "live") in SideFaults(token, SidesOf(cases, token))
  {
    BothEnvironmentsClaimEquallyOften(cases, inv, {token});
    SideLengths(cases, token);
    SideFaultsMean(token, SidesOf(cases, token));
  }

  lemma SideFaultsMean(token: string, sides: Sides)
    ensures NoCaseFor(token, "offline") in SideFaults(token, sides) <==> sides.offline == []
    ensures NoCaseFor(token, "live") in SideFaults(token, sides) <==> sides.live == []
  {
    assert "offline"[0] != "live"[0];
  }

  lemma {:induction false} SideLengths(cases: seq<Case>, token: string)
    ensures |SidesOf(cases, token).offline| == |Claimants(cases, OFFLINE, {token})|
    ensures |SidesOf(cases, token).live| == |Claimants(cases, LIVE, {token})|
  {
    SortSorts(Claimants(cases, OFFLINE, {token}));
    SortSorts(Claimants(cases, LIVE, {token}));
  }
}
