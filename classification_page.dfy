/**
 * The cost classification page (src/pages/CostClassification.tsx): which
 * P&L expense accounts still lack a classification, and the list edits
 * of the page (add, quick add, update, delete) with the pending queue
 * they keep in step.
 *
 * The sheet requests are outside the model: what they answer (the loaded
 * lists, whether a write succeeded, the user's confirmation) is a
 * parameter.
 */
module ClassificationPage {
  import opened Wrappers
  import opened Text
  import opened Collections
  import opened Domain
  import Ledger

  // ---------------------------------------------------------------------
  // Unclassified accounts

  /**
   * `isExpenseAccountCode`: a text whose trimmed form starts with at least
   * eight digits and not with `7` (the income accounts).
   */
  predicate IsExpenseAccountCode(concept: Cell) {
    concept.Text? && concept.s != "" &&
    var trimmed := Trim(concept.s);
    StartsWithDigits(trimmed, 8) && !StartsWith(trimmed, "7")
  }

  /** An expense account is exactly an account code (as the ledger reads it) that does not start with 7. */
  lemma ExpenseIsAccount(concept: Cell)
    ensures IsExpenseAccountCode(concept) <==>
      Ledger.IsAccountCode(concept) && !StartsWith(Trim(concept.s), "7")
  {
    if concept.Text? && concept.s == "" {
      assert Trim(concept.s) == "";
    }
  }

  /** A P&L row whose concept is an expense account. */
  predicate IsPyGExpense(row: SheetRow) {
    Ledger.IsPyG(row) && IsExpenseAccountCode(Field(row, "concept"))
  }

  /** The concept of an expense row (always a text). */
  function ConceptText(row: SheetRow): string {
    var c := Field(row, "concept");
    if c.Text? then c.s else ""
  }

  /** `classifiedCodes`: the extracted code of every classification, "" for a cost type without one. */
  function ClassifiedCodes(cs: seq<Classification>): (codes: set<string>)
    ensures forall i :: 0 <= i < |cs| ==> Ledger.ExtractAccountCode(cs[i].costType) in codes
    ensures forall code :: code in codes ==> exists i :: 0 <= i < |cs| && Ledger.ExtractAccountCode(cs[i].costType) == code
  {
    set i | 0 <= i < |cs| :: Ledger.ExtractAccountCode(cs[i].costType)
  }

  /** The account is still to be classified: its code is not among the classified codes. */
  predicate Pending(cs: seq<Classification>, account: string) {
    Ledger.ExtractAccountCode(account) !in ClassifiedCodes(cs)
  }

  /** `[...new Set(unclassified)]`: the pending expense concepts of the P&L, each once. */
  function Unclassified(financial: seq<SheetRow>, cs: seq<Classification>): seq<string> {
    var pyg := MapSeq(Filter(financial, IsPyGExpense), ConceptText);
    Dedup(Filter(pyg, (acc: string) => Pending(cs, acc)))
  }

  /** An element of `s.filter(p).map(f).filter(q)` is the image of an element that passes `p`, and passes `q`. */
  lemma FilterMapFilter<T, U>(s: seq<T>, p: T -> bool, f: T -> U, q: U -> bool, x: U)
    ensures x in Filter(MapSeq(Filter(s, p), f), q) <==> (exists i :: 0 <= i < |s| && p(s[i]) && f(s[i]) == x) && q(x)
  {
    var rows := Filter(s, p);
    var images := MapSeq(rows, f);
    if x in Filter(images, q) {
      var k :| 0 <= k < |images| && images[k] == x;
      assert rows[k] in s;
      var i :| 0 <= i < |s| && s[i] == rows[k];
    }
    if (exists i :: 0 <= i < |s| && p(s[i]) && f(s[i]) == x) && q(x) {
      var i :| 0 <= i < |s| && p(s[i]) && f(s[i]) == x;
      assert s[i] in rows;
      var k :| 0 <= k < |rows| && rows[k] == s[i];
      assert images[k] == x;
    }
  }

  /**
   * A concept is listed iff some P&L expense row carries it and no
   * classification has its code; and it is listed once.
   */
  lemma UnclassifiedSpec(financial: seq<SheetRow>, cs: seq<Classification>, account: string)
    ensures account in Unclassified(financial, cs) <==>
      (exists i :: 0 <= i < |financial| && IsPyGExpense(financial[i]) && ConceptText(financial[i]) == account)
      && Pending(cs, account)
    ensures NoDuplicates(Unclassified(financial, cs))
  {
    FilterMapFilter(financial, IsPyGExpense, ConceptText, (acc: string) => Pending(cs, acc), account);
  }

  /**
   * A concept with whitespace before its code passes the expense test
   * (which trims) but has the code "" (no trim): once any classification
   * has a cost type without a code, such a concept is never listed.
   */
  lemma LeadingSpaceHidden(cs: seq<Classification>, c: char, s: string, k: nat)
    requires IsSpace(c) && StartsWithDigits(s, 8)
    requires k < |cs| && !StartsWithDigits(cs[k].costType, 8)
    ensures IsExpenseAccountCode(Text([c] + s)) == IsExpenseAccountCode(Text(s))
    ensures !Pending(cs, [c] + s)
  {
    Ledger.LeadingSpaceHasNoCode(c, s);
    TrimLeadingSpace(c, s);
    assert Ledger.ExtractAccountCode(cs[k].costType) == "";
  }

  // ---------------------------------------------------------------------
  // The list edits

  /** `costs.reduce((max, c) => Math.max(max, c.id), 0)`. */
  function MaxId(cs: seq<Classification>): (m: int)
    ensures m >= 0
    ensures forall i :: 0 <= i < |cs| ==> cs[i].id <= m
    ensures m == 0 || exists i :: 0 <= i < |cs| && cs[i].id == m
    decreases |cs|
  {
    if cs == [] then 0
    else
      var prev := MaxId(cs[..|cs| - 1]);
      var id := cs[|cs| - 1].id;
      if id > prev then id else prev
  }

  /** The id of a new classification: one more than the largest, so used by no other. */
  function NewId(cs: seq<Classification>): (id: int)
    ensures id >= 1
    ensures forall i :: 0 <= i < |cs| ==> cs[i].id != id
  {
    MaxId(cs) + 1
  }

  /** The classification `handleQuickAdd` files an account under. */
  function QuickItem(account: string): (c: Classification)
    ensures c.costType == account && c.amount == 0.0
    ensures c.costCenter == Indirecto && c.nature == Fijo
    ensures c.distribution == "General" && c.basis == Meses
  {
    Classification(0, account, 0.0, Indirecto, Fijo, "General", Meses)
  }

  /** One field of a classification, as `handleUpdate` receives it. */
  datatype FieldEdit =
    | SetCostType(costType: string)
    | SetAmount(amount: real)
    | SetCostCenter(center: CostCenter)
    | SetNature(nature: Nature)
    | SetDistribution(distribution: string)
    | SetBasis(basis: DistributionBasis)

  /** `{ ...cost, [field]: value }`: the named field replaced, the id and the rest kept. */
  function ApplyEdit(c: Classification, e: FieldEdit): (r: Classification)
    ensures r.id == c.id
    ensures !e.SetCostType? ==> r.costType == c.costType
    ensures !e.SetAmount? ==> r.amount == c.amount
    ensures !e.SetCostCenter? ==> r.costCenter == c.costCenter
    ensures !e.SetNature? ==> r.nature == c.nature
    ensures !e.SetDistribution? ==> r.distribution == c.distribution
    ensures !e.SetBasis? ==> r.basis == c.basis
  {
    match e
    case SetCostType(t) => c.(costType := t)
    case SetAmount(a) => c.(amount := a)
    case SetCostCenter(x) => c.(costCenter := x)
    case SetNature(n) => c.(nature := n)
    case SetDistribution(d) => c.(distribution := d)
    case SetBasis(b) => c.(basis := b)
  }

  /** `costs.map(cost => cost.id === id ? { ...cost, [field]: value } : cost)`. */
  function Updated(cs: seq<Classification>, id: int, e: FieldEdit): (r: seq<Classification>)
    ensures |r| == |cs|
    ensures forall i :: 0 <= i < |cs| ==> r[i] == (if cs[i].id == id then ApplyEdit(cs[i], e) else cs[i])
  {
    MapSeq(cs, (c: Classification) => if c.id == id then ApplyEdit(c, e) else c)
  }

  /** `handleDelete` puts a cost type back in the queue: 8 leading digits, not 7, and no trim. */
  predicate Requeued(costType: string) {
    StartsWithDigits(costType, 8) && !StartsWith(costType, "7")
  }

  /** Without surrounding whitespace, the re-queue test is the expense test. */
  lemma RequeuedIsExpense(costType: string)
    requires costType == [] || !IsSpace(costType[0])
    ensures Requeued(costType) <==> IsExpenseAccountCode(Text(costType))
  {
    TrimStartNoSpace(costType);
    var t := Trim(costType);
    assert t == TrimEnd(costType) && t <= costType;
    if StartsWithDigits(costType, 8) {
      LeadingDigitsIff(costType, 8);
      TrimEndKeeps(costType, 8);
      assert forall i :: 0 <= i < 8 ==> t[i] == costType[i];
      LeadingDigitsIff(t, 8);
      assert StartsWith(t, "7") <==> StartsWith(costType, "7");
    }
    if StartsWithDigits(t, 8) {
      LeadingDigitsIff(t, 8);
      assert forall i :: 0 <= i < 8 ==> costType[i] == t[i];
      LeadingDigitsIff(costType, 8);
    }
  }

  /** The three labels every cost can be distributed to, before the vehicles. */
  const StaticDistributions: seq<string> := ["General", "otras empresas", "amortización"]

  /** `distributionOptions`: the static labels, then each vehicle's plate in fleet order. */
  function DistributionOptions(vehicles: seq<Vehicle>): (r: seq<string>)
    ensures |r| == |StaticDistributions| + |vehicles|
    ensures r[..|StaticDistributions|] == StaticDistributions
    ensures forall i :: 0 <= i < |vehicles| ==> r[|StaticDistributions| + i] == vehicles[i].licensePlate
  {
    StaticDistributions + MapSeq(vehicles, (v: Vehicle) => v.licensePlate)
  }

  /** The page's state: the classifications, the vehicles and the pending accounts. */
  class Page {
    var costs: seq<Classification>
    var vehicles: seq<Vehicle>
    var unclassified: seq<string>

    /**
     * The loading effect: the two lists as loaded and, when the P&L could
     * be read, its unclassified accounts.
     */
    constructor(costsData: seq<Classification>, vehiclesData: seq<Vehicle>, financial: Option<seq<SheetRow>>)
      ensures costs == costsData && vehicles == vehiclesData
      ensures financial.Some? ==> unclassified == Unclassified(financial.value, costsData)
      ensures financial.None? ==> unclassified == []
    {
      costs := costsData;
      vehicles := vehiclesData;
      unclassified := if financial.Some? then Unclassified(financial.value, costsData) else [];
    }

    /**
     * `handleAddNewCost`: on a successful insert the item is appended with
     * a fresh id and every pending entry equal to its cost type is
     * dropped; on an error nothing changes.
     */
    method AddNewCost(newCost: Classification, insertOk: bool)
      modifies this
      ensures vehicles == old(vehicles)
      ensures insertOk ==> costs == old(costs) + [newCost.(id := NewId(old(costs)))]
      ensures insertOk ==> unclassified == Filter(old(unclassified), (acc: string) => acc != newCost.costType)
      ensures !insertOk ==> costs == old(costs) && unclassified == old(unclassified)
    {
      var maxId := MaxId(costs);
      var costWithId := newCost.(id := maxId + 1);
      if insertOk {
        costs := costs + [costWithId];
        unclassified := Filter(unclassified, (acc: string) => acc != newCost.costType);
      }
    }

    /** `handleQuickAdd`: the account filed as indirect, fixed, general, by months, amount 0. */
    method QuickAdd(account: string, insertOk: bool)
      modifies this
      ensures vehicles == old(vehicles)
      ensures insertOk ==> costs == old(costs) + [QuickItem(account).(id := NewId(old(costs)))]
      ensures insertOk ==> account !in unclassified
      ensures insertOk ==> forall acc :: acc in unclassified <==> acc in old(unclassified) && acc != account
      ensures !insertOk ==> costs == old(costs) && unclassified == old(unclassified)
    {
      AddNewCost(QuickItem(account), insertOk);
    }

    /**
     * `handleUpdate`: the edit is applied to the item with that id at once
     * and undone when the write fails.
     */
    method Update(id: int, e: FieldEdit, updateOk: bool)
      modifies this
      ensures vehicles == old(vehicles) && unclassified == old(unclassified)
      ensures updateOk ==> costs == Updated(old(costs), id, e)
      ensures !updateOk ==> costs == old(costs)
    {
      var originalCosts := costs;
      costs := Updated(costs, id, e);
      if !updateOk {
        costs := originalCosts;
      }
    }

    /**
     * `handleDelete`: after confirmation and a successful delete, the items
     * with that id go, and the cost type rejoins the queue when it reads
     * as an expense account without trimming.
     */
    method Delete(cost: Classification, confirmed: bool, deleteOk: bool)
      modifies this
      ensures vehicles == old(vehicles)
      ensures confirmed && deleteOk ==> costs == Filter(old(costs), (c: Classification) => c.id != cost.id)
      ensures confirmed && deleteOk && Requeued(cost.costType) ==> unclassified == old(unclassified) + [cost.costType]
      ensures !(confirmed && deleteOk && Requeued(cost.costType)) ==> unclassified == old(unclassified)
      ensures !(confirmed && deleteOk) ==> costs == old(costs)
    {
      if !confirmed {
        return;
      }
      if deleteOk {
        costs := Filter(costs, (c: Classification) => c.id != cost.id);
        if Requeued(cost.costType) {
          unclassified := unclassified + [cost.costType];
        }
      }
    }
  }

  /** A freshly added item is the only one with its id, so deleting it restores the list. */
  lemma {:induction false} AddThenDelete(cs: seq<Classification>, c: Classification)
    ensures Filter(cs + [c.(id := NewId(cs))], (x: Classification) => x.id != NewId(cs)) == cs
  {
    var id := NewId(cs);
    var p := (x: Classification) => x.id != id;
    FilterAppend(cs, [c.(id := id)], p);
    FilterAll(cs, p);
    assert Filter([c.(id := id)], p) == [];
  }
}
