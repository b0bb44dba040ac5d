/**
 * Economics.costs_by_category: the per-unit repair cost and labour time of a
 * row, discounted by the amount ordered and by the archive quantity.
 */
module Collection {
  import opened Wrappers
  import opened Records

  /** The TypeError Python raises on a value of the wrong type. */
  datatype CostError =
    | NotComparable     // a string or None compared with a number
    | NotMultipliable   // None in a product, or a repeated string divided

  /** `math.ceil`: the least integer not below `x`. */
  function Ceil(x: real): (c: int)
    ensures x <= c as real < x + 1.0
  {
    -((-x).Floor)
  }

  /** The archive factor: 0.75 once the archives hold more than 100 pieces, else 1. */
  function ArchiveFactor(qty: Value): (r: Result<real, CostError>)
    ensures r.Failure? <==> qty.VText? && qty.text != ""
    ensures r == Success(0.75) <==> qty.VNum? && qty.num > 100.0
    ensures r.Success? ==> r.value == 0.75 || r.value == 1.0
  {
    if !Truthy(qty) then Success(1.0)
    else if qty.VText? then Failure(NotComparable)
    else if qty.num > 100.0 then Success(0.75)
    else Success(1.0)
  }

  /** The amount factor: 0.5 above 20 pieces, 0.2 above 10, else 1. */
  function AmountFactor(a: real): real {
    if a > 20.0 then 0.5 else if a > 10.0 then 0.2 else 1.0
  }

  /**
   * `n * v` followed by a division by `n`, or no division when `n` is 0:
   * a number always works, and a string only as `0 * s`, which is "".
   */
  predicate Multipliable(v: Value, a: real) {
    v.VNum? || (v.VText? && a == 0.0)
  }

  /** The total repair: at most 10 pieces are paid up to 20, and the discount applies above 20. */
  function RepairTotal(a: real, repairOne: real, low: real): real {
    (if a <= 20.0 then (if a < 10.0 then a else 10.0) else a) * repairOne * (if a > 20.0 then low else 1.0)
  }

  /** The total labour: every piece counts, and the discount applies above 10. */
  function WorkTotal(a: real, workOne: real, low: real): real {
    a * workOne * (if a > 10.0 then low else 1.0)
  }

  /** The two unit values of a row whose inputs have the right types. */
  function UnitCostsOf(a: real, repairOne: real, workOne: real, archive: real): (int, int) {
    if a == 0.0 then (0, 0)
    else
      var low := archive * AmountFactor(a);
      (Ceil(RepairTotal(a, repairOne, low) / a), Ceil(WorkTotal(a, workOne, low) / a))
  }

  /** The unit repair cost and unit labour time costs_by_category computes for a row. */
  function UnitCosts(cells: Cells): Result<(int, int), CostError> {
    var archive := ArchiveFactor(Get(cells, ArchiveQtyKey));
    var amount := Get(cells, AmountKey);
    var repairOne := Get(cells, RepairKey);
    var workOne := Get(cells, LaborKey);
    if archive.Failure? then Failure(archive.error)
    else if !amount.VNum? then Failure(NotComparable)
    else if !Multipliable(repairOne, amount.num) || !Multipliable(workOne, amount.num) then Failure(NotMultipliable)
    else if amount.num == 0.0 then Success((0, 0))
    else Success(UnitCostsOf(amount.num, repairOne.num, workOne.num, archive.value))
  }

  /** The row after `item.update(costs)`. */
  function WithCosts(cells: Cells): Result<Cells, CostError> {
    var u := UnitCosts(cells);
    if u.Failure? then Failure(u.error)
    else Success(cells[UnitRepairKey := VNum(u.value.0 as real)][UnitLaborKey := VNum(u.value.1 as real)])
  }

  /** The calculation fails exactly on the inputs whose types make Python raise. */
  lemma UnitCostsFailsIff(cells: Cells)
    ensures UnitCosts(cells).Failure? <==>
      (Get(cells, ArchiveQtyKey).VText? && Get(cells, ArchiveQtyKey).text != "")
      || !Get(cells, AmountKey).VNum?
      || !Multipliable(Get(cells, RepairKey), Get(cells, AmountKey).num)
      || !Multipliable(Get(cells, LaborKey), Get(cells, AmountKey).num)
  {
  }

  /** Inputs that pass the type checks: a number of pieces and numeric (or, for 0 pieces, text) costs. */
  predicate WellTyped(cells: Cells) {
    UnitCosts(cells).Success?
  }

  /** Zero pieces give zero unit costs. */
  lemma AmountZero(cells: Cells)
    requires WellTyped(cells) && Get(cells, AmountKey) == VNum(0.0)
    ensures UnitCosts(cells).value == (0, 0)
  {
  }

  lemma Cancel(a: real, x: real)
    requires a != 0.0
    ensures (a * x) / a == x
  {
  }

  lemma SmallUnits(a: real, r: real, w: real, f: real)
    requires a != 0.0 && a <= 10.0
    ensures UnitCostsOf(a, r, w, f) == (Ceil(r), Ceil(w))
  {
    var low := f * AmountFactor(a);
    assert RepairTotal(a, r, low) == a * r;
    assert WorkTotal(a, w, low) == a * w;
    Cancel(a, r);
    Cancel(a, w);
  }

  /** Up to 10 pieces there is no discount: the unit values are the rounded-up catalog values. */
  lemma SmallAmount(cells: Cells)
    requires WellTyped(cells)
    requires Get(cells, AmountKey).num != 0.0 && Get(cells, AmountKey).num <= 10.0
    ensures UnitCosts(cells).value == (Ceil(Get(cells, RepairKey).num), Ceil(Get(cells, LaborKey).num))
  {
    SmallUnits(Get(cells, AmountKey).num, Get(cells, RepairKey).num, Get(cells, LaborKey).num,
      ArchiveFactor(Get(cells, ArchiveQtyKey)).value);
  }

  lemma MiddleUnits(a: real, r: real, w: real, f: real)
    requires 10.0 < a <= 20.0
    ensures UnitCostsOf(a, r, w, f) == (Ceil(10.0 * r / a), Ceil(w * (0.2 * f)))
  {
    var low := f * AmountFactor(a);
    assert low == 0.2 * f;
    assert RepairTotal(a, r, low) == 10.0 * r;
    var work := WorkTotal(a, w, low);
    assert work == a * (w * low);
    Cancel(a, w * low);
    assert work / a == w * (0.2 * f);
    assert UnitCostsOf(a, r, w, f) == (Ceil(RepairTotal(a, r, low) / a), Ceil(work / a));
  }

  /**
   * From 11 to 20 pieces the total repair is capped at that of 10 pieces,
   * and labour gets the factor 0.2 times the archive factor.
   */
  lemma MiddleAmount(cells: Cells)
    requires WellTyped(cells)
    requires 10.0 < Get(cells, AmountKey).num <= 20.0
    ensures UnitCosts(cells).value ==
      (Ceil(10.0 * Get(cells, RepairKey).num / Get(cells, AmountKey).num),
       Ceil(Get(cells, LaborKey).num * (0.2 * ArchiveFactor(Get(cells, ArchiveQtyKey)).value)))
  {
    MiddleUnits(Get(cells, AmountKey).num, Get(cells, RepairKey).num, Get(cells, LaborKey).num,
      ArchiveFactor(Get(cells, ArchiveQtyKey)).value);
  }

  lemma LargeUnits(a: real, r: real, w: real, f: real)
    requires a > 20.0
    ensures UnitCostsOf(a, r, w, f) == (Ceil(r * (0.5 * f)), Ceil(w * (0.5 * f)))
  {
    var low := f * AmountFactor(a);
    assert low == 0.5 * f;
    var repair := RepairTotal(a, r, low);
    var work := WorkTotal(a, w, low);
    assert repair == a * (r * low);
    assert work == a * (w * low);
    Cancel(a, r * low);
    Cancel(a, w * low);
    assert repair / a == r * (0.5 * f);
    assert work / a == w * (0.5 * f);
    assert UnitCostsOf(a, r, w, f) == (Ceil(repair / a), Ceil(work / a));
  }

  /** Above 20 pieces repair and labour both get the factor 0.5 times the archive factor. */
  lemma LargeAmount(cells: Cells)
    requires WellTyped(cells)
    requires Get(cells, AmountKey).num > 20.0
    ensures UnitCosts(cells).value ==
      (Ceil(Get(cells, RepairKey).num * (0.5 * ArchiveFactor(Get(cells, ArchiveQtyKey)).value)),
       Ceil(Get(cells, LaborKey).num * (0.5 * ArchiveFactor(Get(cells, ArchiveQtyKey)).value)))
  {
    LargeUnits(Get(cells, AmountKey).num, Get(cells, RepairKey).num, Get(cells, LaborKey).num,
      ArchiveFactor(Get(cells, ArchiveQtyKey)).value);
  }

  lemma CeilMonotone(x: real, y: real)
    requires x <= y
    ensures Ceil(x) <= Ceil(y)
  {
  }

  lemma DivAtMost(x: real, a: real, y: real)
    requires a > 0.0 && x <= a * y
    ensures x / a <= y
  {
    var q := x / a;
    assert q * a == x;
    if q > y {
      assert q * a > y * a;
    }
  }

  /** Scaling a non-negative value by a factor in [0, 1] never raises its ceiling. */
  lemma ScaledAtMost(v: real, k: real)
    requires v >= 0.0 && 0.0 <= k <= 1.0
    ensures Ceil(v * k) <= Ceil(v)
  {
    assert v * k <= v * 1.0;
    CeilMonotone(v * k, v);
  }

  /** The capped repair total of 10 pieces spread over more than 10 pieces. */
  lemma CappedAtMost(a: real, r: real)
    requires 10.0 < a && r >= 0.0
    ensures Ceil(10.0 * r / a) <= Ceil(r)
  {
    assert 10.0 * r <= a * r;
    DivAtMost(10.0 * r, a, r);
    CeilMonotone(10.0 * r / a, r);
  }

  lemma MiddleDiscount(a: real, r: real, w: real, f: real)
    requires 10.0 < a <= 20.0 && r >= 0.0 && w >= 0.0 && 0.0 <= f <= 1.0
    ensures UnitCostsOf(a, r, w, f).0 <= Ceil(r) && UnitCostsOf(a, r, w, f).1 <= Ceil(w)
  {
    MiddleUnits(a, r, w, f);
    CappedAtMost(a, r);
    ScaledAtMost(w, 0.2 * f);
  }

  lemma LargeDiscount(a: real, r: real, w: real, f: real)
    requires a > 20.0 && r >= 0.0 && w >= 0.0 && 0.0 <= f <= 1.0
    ensures UnitCostsOf(a, r, w, f).0 <= Ceil(r) && UnitCostsOf(a, r, w, f).1 <= Ceil(w)
  {
    LargeUnits(a, r, w, f);
    ScaledAtMost(r, 0.5 * f);
    ScaledAtMost(w, 0.5 * f);
  }

  lemma DiscountUnits(a: real, r: real, w: real, f: real)
    requires a > 0.0 && r >= 0.0 && w >= 0.0 && 0.0 <= f <= 1.0
    ensures UnitCostsOf(a, r, w, f).0 <= Ceil(r) && UnitCostsOf(a, r, w, f).1 <= Ceil(w)
  {
    if a <= 10.0 {
      SmallUnits(a, r, w, f);
    } else if a <= 20.0 {
      MiddleDiscount(a, r, w, f);
    } else {
      LargeDiscount(a, r, w, f);
    }
  }

  /**
   * For a positive number of pieces and non-negative catalog values the
   * discounts never raise a unit value above the undiscounted one.
   */
  lemma DiscountNeverRaises(cells: Cells)
    requires WellTyped(cells) && Get(cells, AmountKey).num > 0.0
    requires Get(cells, RepairKey).num >= 0.0 && Get(cells, LaborKey).num >= 0.0
    ensures UnitCosts(cells).value.0 <= Ceil(Get(cells, RepairKey).num)
    ensures UnitCosts(cells).value.1 <= Ceil(Get(cells, LaborKey).num)
  {
    DiscountUnits(Get(cells, AmountKey).num, Get(cells, RepairKey).num, Get(cells, LaborKey).num,
      ArchiveFactor(Get(cells, ArchiveQtyKey)).value);
  }

  /** Only the two unit columns are written; every other column is unchanged. */
  lemma CostsFrame(cells: Cells)
    requires WellTyped(cells)
    ensures WithCosts(cells).value.Keys == cells.Keys + {UnitRepairKey, UnitLaborKey}
    ensures forall k :: k in cells && k != UnitRepairKey && k != UnitLaborKey ==> WithCosts(cells).value[k] == cells[k]
  {
  }

  /**
   * costs_by_category: computes the unit values and updates the row in place;
   * on a TypeError the row is left as it was.
   */
  method CostsByCategory(item: Row) returns (o: Outcome<CostError>)
    modifies item
    ensures WithCosts(old(item.cells)).Failure? ==>
      o == Fail(WithCosts(old(item.cells)).error) && item.cells == old(item.cells)
    ensures WithCosts(old(item.cells)).Success? ==>
      o == Pass && item.cells == WithCosts(old(item.cells)).value
  {
    var units := UnitCosts(item.cells);
    if units.Failure? {
      return Fail(units.error);
    }
    var costs := map[UnitRepairKey := VNum(units.value.0 as real), UnitLaborKey := VNum(units.value.1 as real)];
    item.Update(costs);
    return Pass;
  }
}
