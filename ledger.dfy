/**
 * The ledger side shared by the two analysis pages: account codes at the
 * head of a P&L concept, the first-match lookup of a concept's cost
 * classification (one variant per page), the classified cost record and
 * its centre × nature buckets.
 */
module Ledger {
  import opened Wrappers
  import opened Text
  import opened Collections
  import opened Domain

  /** `extractAccountCode`: the digits the concept starts with when there are at least 8, else "". */
  function ExtractAccountCode(concept: string): (code: string)
    ensures code != "" <==> StartsWithDigits(concept, 8)
    ensures code != "" ==> code <= concept && AllDigits(code) && |code| >= 8
    ensures code != "" ==> |code| == |concept| || !IsDigit(concept[|code|])
  {
    var n := LeadingDigits(concept);
    if n >= 8 then concept[..n] else ""
  }

  /** `isAccountCode`: a text cell whose trimmed text starts with at least 8 digits. */
  predicate IsAccountCode(concept: Cell) {
    concept.Text? && StartsWithDigits(Trim(concept.s), 8)
  }

  /** Without leading whitespace, a concept is an account iff it has a code. */
  lemma AccountCodeAgrees(s: string)
    requires s == [] || !IsSpace(s[0])
    ensures IsAccountCode(Text(s)) <==> ExtractAccountCode(s) != ""
  {
    TrimStartNoSpace(s);
    var t := Trim(s);
    assert t == TrimEnd(s) && t <= s;
    if StartsWithDigits(s, 8) {
      LeadingDigitsIff(s, 8);
      TrimEndKeeps(s, 8);
      assert forall i :: 0 <= i < 8 ==> t[i] == s[i];
      LeadingDigitsIff(t, 8);
    }
    if StartsWithDigits(t, 8) {
      LeadingDigitsIff(t, 8);
      assert forall i :: 0 <= i < 8 ==> s[i] == t[i];
      LeadingDigitsIff(s, 8);
    }
  }

  /**
   * A concept with leading whitespace before its code passes `isAccountCode`
   * (which trims) but has no extracted code (no trim).
   */
  lemma LeadingSpaceHasNoCode(c: char, s: string)
    requires IsSpace(c) && StartsWithDigits(s, 8)
    ensures ExtractAccountCode([c] + s) == ""
    ensures IsAccountCode(Text([c] + s)) == IsAccountCode(Text(s))
  {
    assert !IsDigit(c);
    assert ([c] + s)[0] == c;
    assert LeadingDigits([c] + s) == 0;
    TrimLeadingSpace(c, s);
  }

  /** The lookup test of the cost analysis page: equal codes, or the cost type contains the code (even ""). */
  predicate MatchesCostAnalysis(c: Classification, code: string) {
    var classCode := ExtractAccountCode(c.costType);
    (classCode != "" && code != "" && classCode == code)
    || (c.costType != "" && Contains(c.costType, code))
  }

  /** The lookup test of the vehicle analysis page: as above but never with an empty code. */
  predicate MatchesVehicleAnalysis(c: Classification, code: string) {
    var classCode := ExtractAccountCode(c.costType);
    (classCode != "" && code != "" && classCode == code)
    || (c.costType != "" && code != "" && Contains(c.costType, code))
  }

  /** `findClassification` of the cost analysis page: the first classification that matches. */
  function FindClassificationCA(cs: seq<Classification>, concept: string): (r: Option<Classification>)
    ensures r.Some? <==> exists i :: 0 <= i < |cs| && MatchesCostAnalysis(cs[i], ExtractAccountCode(concept))
    ensures r.Some? ==> exists i :: (0 <= i < |cs| && r.value == cs[i]
      && MatchesCostAnalysis(cs[i], ExtractAccountCode(concept))
      && forall j :: 0 <= j < i ==> !MatchesCostAnalysis(cs[j], ExtractAccountCode(concept)))
  {
    var code := ExtractAccountCode(concept);
    Find(cs, c => MatchesCostAnalysis(c, code))
  }

  /** `findClassification` of the vehicle analysis page. */
  function FindClassificationVA(cs: seq<Classification>, concept: string): (r: Option<Classification>)
    ensures r.Some? <==> exists i :: 0 <= i < |cs| && MatchesVehicleAnalysis(cs[i], ExtractAccountCode(concept))
    ensures r.Some? ==> exists i :: (0 <= i < |cs| && r.value == cs[i]
      && MatchesVehicleAnalysis(cs[i], ExtractAccountCode(concept))
      && forall j :: 0 <= j < i ==> !MatchesVehicleAnalysis(cs[j], ExtractAccountCode(concept)))
  {
    var code := ExtractAccountCode(concept);
    Find(cs, c => MatchesVehicleAnalysis(c, code))
  }

  /** The vehicle analysis page never classifies a concept that has no code. */
  lemma EmptyCodeUnclassifiedVA(cs: seq<Classification>, concept: string)
    requires !StartsWithDigits(concept, 8)
    ensures FindClassificationVA(cs, concept) == None
  {
  }

  /**
   * The cost analysis page gives a concept without a code the first
   * classification that has any cost type at all.
   */
  lemma {:induction false} EmptyCodeMatchesFirstCA(cs: seq<Classification>, concept: string)
    requires !StartsWithDigits(concept, 8)
    ensures FindClassificationCA(cs, concept) == Find(cs, (c: Classification) => c.costType != "")
  {
    var code := ExtractAccountCode(concept);
    assert code == "";
    forall c: Classification
      ensures MatchesCostAnalysis(c, code) == (c.costType != "")
    {
      ContainsEmpty(c.costType);
    }
    FindCongruent(cs, c => MatchesCostAnalysis(c, code), (c: Classification) => c.costType != "");
  }

  lemma {:induction false} FindCongruent(cs: seq<Classification>, p: Classification -> bool, q: Classification -> bool)
    requires forall c :: p(c) == q(c)
    ensures Find(cs, p) == Find(cs, q)
    ensures FindIndex(cs, p) == FindIndex(cs, q)
    decreases |cs|
  {
    if cs != [] {
      FindCongruent(cs[1..], p, q);
    }
  }

  /** With a code, the two pages pick the same classification. */
  lemma VariantsAgree(cs: seq<Classification>, concept: string)
    requires StartsWithDigits(concept, 8)
    ensures FindClassificationCA(cs, concept) == FindClassificationVA(cs, concept)
  {
    var code := ExtractAccountCode(concept);
    FindCongruent(cs, c => MatchesCostAnalysis(c, code), c => MatchesVehicleAnalysis(c, code));
  }

  /** A P&L line with its classification resolved (absolute amount). */
  datatype Cost = Cost(
    year: Option<int>,
    month: real,
    concept: string,
    amount: real,
    costCenter: CostCenter,
    nature: Nature,
    distribution: string,
    basis: DistributionBasis,
    classified: bool)

  /**
   * `classification?.field || default` for each field: INDIRECTO, FIJO,
   * "General" (also for an empty distribution) and Meses.
   */
  function Classify(year: Option<int>, month: real, concept: string, amount: real, o: Option<Classification>): (r: Cost)
    ensures r.year == year && r.month == month && r.concept == concept && r.amount == amount
    ensures r.classified <==> o.Some?
    ensures o.None? ==> r.costCenter == Indirecto && r.nature == Fijo && r.distribution == "General" && r.basis == Meses
    ensures o.Some? ==> r.costCenter == o.value.costCenter && r.nature == o.value.nature && r.basis == o.value.basis
    ensures o.Some? && o.value.distribution != "" ==> r.distribution == o.value.distribution
    ensures o.Some? && o.value.distribution == "" ==> r.distribution == "General"
  {
    match o
    case None => Cost(year, month, concept, amount, Indirecto, Fijo, "General", Meses, false)
    case Some(c) =>
      Cost(year, month, concept, amount, c.costCenter, c.nature,
           if c.distribution != "" then c.distribution else "General", c.basis, true)
  }

  function Amount(c: Cost): real {
    c.amount
  }

  /** The costs of one year. */
  function OfYear(costs: seq<Cost>, year: int): (r: seq<Cost>)
    ensures forall i :: 0 <= i < |r| ==> r[i].year == Some(year)
  {
    Filter(costs, (c: Cost) => c.year == Some(year))
  }

  /** `costs.filter(c => c.costCenter === center && c.nature === nature).reduce(+amount)`. */
  function Bucket(costs: seq<Cost>, center: CostCenter, nature: Nature): real {
    SumBy(Filter(costs, (c: Cost) => c.costCenter == center && c.nature == nature), Amount)
  }

  /** The sum of amounts of the costs with a given centre. */
  function CenterTotal(costs: seq<Cost>, center: CostCenter): real {
    SumBy(Filter(costs, (c: Cost) => c.costCenter == center), Amount)
  }

  /** Splitting a centre's costs by nature loses nothing. */
  lemma CenterSplits(costs: seq<Cost>, center: CostCenter)
    ensures CenterTotal(costs, center) == Bucket(costs, center, Fijo) + Bucket(costs, center, Variable)
  {
    var p := (c: Cost) => c.costCenter == center;
    var pf := (c: Cost) => c.costCenter == center && c.nature == Fijo;
    var pv := (c: Cost) => c.costCenter == center && c.nature == Variable;
    var g := (c: Cost) => if p(c) then c.amount else 0.0;
    var gf := (c: Cost) => if pf(c) then c.amount else 0.0;
    var gv := (c: Cost) => if pv(c) then c.amount else 0.0;
    SumByFilterAsMask(costs, Amount, p, g);
    SumByFilterAsMask(costs, Amount, pf, gf);
    SumByFilterAsMask(costs, Amount, pv, gv);
    SumByAdd(costs, gf, gv, g);
  }

  /** The four centre × nature buckets split the total cost: every cost lands in exactly one. */
  lemma BucketsPartition(costs: seq<Cost>)
    ensures Bucket(costs, Directo, Fijo) + Bucket(costs, Directo, Variable)
          + Bucket(costs, Indirecto, Fijo) + Bucket(costs, Indirecto, Variable)
         == SumBy(costs, Amount)
  {
    CenterSplits(costs, Directo);
    CenterSplits(costs, Indirecto);
    SumByFilterSplit(costs, Amount, (c: Cost) => c.costCenter == Directo, (c: Cost) => c.costCenter == Indirecto);
  }

  /** A row of the P&L sheet (`documentType === 'PyG'`). */
  predicate IsPyG(row: SheetRow) {
    Field(row, "documentType") == Text("PyG")
  }

  /** The year of a P&L row, `Number(d.year)`. */
  function RowYear(row: SheetRow): Option<int> {
    YearOf(Field(row, "year"))
  }

  /**
   * `availableYears` of both analysis pages: the selected year, the years
   * of the income records and of the P&L rows, each once, after 2000,
   * latest first.
   */
  function StudyYears(selected: int, incomeData: seq<YearlyIncome>, financial: seq<SheetRow>): (r: seq<int>)
    ensures StrictlyDescending(r)
    ensures forall y :: y in r <==> (y > 2000 && (y == selected
      || (exists i :: 0 <= i < |incomeData| && incomeData[i].year == y)
      || (exists i :: 0 <= i < |financial| && IsPyG(financial[i]) && RowYear(financial[i]) == Some(y))))
  {
    var fromIncome := set i | 0 <= i < |incomeData| :: incomeData[i].year;
    var fromLedger := set i | 0 <= i < |financial| && IsPyG(financial[i]) && RowYear(financial[i]).Some?
                        :: RowYear(financial[i]).value;
    var years := {selected} + fromIncome + fromLedger;
    SortDescending(set y | y in years && y > 2000)
  }
}
