/**
 * The input record of one spreadsheet row (InputData) and the check a
 * sheet's records pass before they are validated (DataGenerate).
 */
module ValidateData {
  import opened Wrappers
  import opened Text
  import opened Eliminations
  import opened Records

  /** The Python values a raw cell can hold before validation. */
  datatype PyValue = PyNone | PyBool(b: bool) | PyInt(i: int) | PyFloat(f: real) | PyStr(s: string) | PyOther

  datatype ValidationError =
    | WrongAmountType     // neither a string, None, int nor float
    | FractionalAmount    // a number with a non-zero fractional part
    | EmptyPartNumber     // None or whitespace only
    | InvalidPartNumber   // no letter or digit at all
    | MissingColumns      // the first record lacks one of the five aliases
    | NoRecords           // `lists[0]` on an empty list

  /** Python's `x % 1 == 0` for a finite number. */
  predicate IsIntegral(x: real) { x == x.Floor as real }

  /**
   * validate_amount: strings and None count as 0, other non-numbers are
   * rejected, and a number must be whole; bool is an int subclass in Python.
   */
  function ValidateAmount(a: PyValue): (r: Result<int, ValidationError>)
    ensures a.PyStr? || a.PyNone? ==> r == Success(0)
    ensures r == Failure(WrongAmountType) <==> a.PyOther?
    ensures r == Failure(FractionalAmount) <==> a.PyFloat? && !IsIntegral(a.f)
    ensures a.PyInt? ==> r == Success(a.i)
    ensures a.PyFloat? && r.Success? ==> r.value as real == a.f
    ensures a.PyBool? ==> r == Success(if a.b then 1 else 0)
  {
    match a
    case PyStr(_) => Success(0)
    case PyNone => Success(0)
    case PyOther => Failure(WrongAmountType)
    case PyBool(b) => Success(if b then 1 else 0)
    case PyInt(i) => Success(i)
    case PyFloat(f) => if IsIntegral(f) then Success(f.Floor) else Failure(FractionalAmount)
  }

  /** The string has at least one letter or digit. */
  predicate HasAlnum(s: string) {
    exists i :: 0 <= i < |s| && IsAlnum(s[i])
  }

  /**
   * validate_part_number: None and blank strings are rejected, then the
   * letters and digits are kept and upper-cased, and an empty result is
   * rejected.
   */
  function ValidatePartNumber(pn: Option<string>): (r: Result<string, ValidationError>)
    ensures pn.None? || IsBlank(pn.value) ==> r == Failure(EmptyPartNumber)
    ensures r.Success? <==> pn.Some? && HasAlnum(pn.value)
    ensures r.Success? ==> r.value == Filter(pn.value) && r.value != ""
    ensures r.Success? ==> forall i :: 0 <= i < |r.value| ==> IsUpperAlnum(r.value[i])
  {
    match pn
    case None => Failure(EmptyPartNumber)
    case Some(s) =>
      FilterEmptyIff(s);
      if IsBlank(s) then Failure(EmptyPartNumber)
      else if Filter(s) == "" then Failure(InvalidPartNumber)
      else Success(Filter(s))
  }

  /** Re-validating an accepted part number returns it unchanged. */
  lemma ValidatePartNumberIdempotent(pn: Option<string>)
    requires ValidatePartNumber(pn).Success?
    ensures ValidatePartNumber(Some(ValidatePartNumber(pn).value)) == ValidatePartNumber(pn)
  {
    var v := ValidatePartNumber(pn).value;
    FilterIdempotent(pn.value);
    assert IsAlnum(v[0]);
  }

  /** One validated row. */
  datatype InputData = InputData(
    customer: Option<string>,
    partNumber: string,
    vendor: Option<string>,
    amount: int,
    description: Option<string>)

  /**
   * Building InputData runs the field validators in declaration order,
   * part number before amount; the error reported is the first field's.
   */
  function MakeInputData(customer: Option<string>, pn: Option<string>, vendor: Option<string>,
                         amount: PyValue, description: Option<string>): (r: Result<InputData, ValidationError>)
    ensures r.Success? <==> ValidateAmount(amount).Success? && ValidatePartNumber(pn).Success?
    ensures r.Success? ==>
      && r.value.partNumber == ValidatePartNumber(pn).value
      && r.value.amount == ValidateAmount(amount).value
      && r.value.customer == customer && r.value.vendor == vendor && r.value.description == description
  {
    var p := ValidatePartNumber(pn);
    if p.Failure? then Failure(p.error)
    else
      var a := ValidateAmount(amount);
      if a.Failure? then Failure(a.error)
      else Success(InputData(customer, p.value, vendor, a.value, description))
  }

  /** The five column aliases of InputData. */
  const Aliases: set<string> := {CustomerKey, PartNumberKey, VendorKey, AmountKey, DescriptionKey}

  lemma AliasesCount()
    ensures |Aliases| == 5
  {
    assert CustomerKey[0] != PartNumberKey[0] && CustomerKey[0] != VendorKey[0];
    assert CustomerKey[0] != AmountKey[0] && CustomerKey[0] != DescriptionKey[0];
    assert PartNumberKey[0] != VendorKey[0] && PartNumberKey[0] != AmountKey[0];
    assert PartNumberKey[0] != DescriptionKey[0] && VendorKey[0] != AmountKey[0];
    assert VendorKey[0] != DescriptionKey[0] && AmountKey[0] != DescriptionKey[0];
  }

  lemma {:induction false} SubsetCardinality(s: set<string>, t: set<string>)
    requires s <= t
    ensures |s| <= |t|
    decreases |t|
  {
    if s != {} {
      var y :| y in s;
      SubsetCardinality(s - {y}, t - {y});
    }
  }

  /** Intersecting `b` with `a` keeps all of `a` exactly when `a` is a subset of `b`. */
  lemma IntersectionCardinality(a: set<string>, b: set<string>)
    ensures |b * a| == |a| <==> a <= b
  {
    if !(a <= b) {
      var x :| x in a && x !in b;
      SubsetCardinality(b * a, a - {x});
    } else {
      assert b * a == a;
    }
  }

  /** The raw records of a sheet: column label to raw cell. */
  type Record = map<string, PyValue>

  /**
   * validate_input_data_before: only the first record's keys are compared
   * with the aliases, by the size of the intersection.
   */
  function ValidateInputDataBefore(lists: seq<Record>): (r: Result<seq<Record>, ValidationError>)
    ensures |lists| == 0 ==> r == Failure(NoRecords)
    ensures r.Success? <==> |lists| > 0 && Aliases <= lists[0].Keys
    ensures r.Success? ==> r.value == lists
  {
    if |lists| == 0 then Failure(NoRecords)
    else
      AliasesCount();
      IntersectionCardinality(Aliases, lists[0].Keys);
      if |lists[0].Keys * Aliases| != |Aliases| then Failure(MissingColumns)
      else Success(lists)
  }

  /** Extra keys and later records never affect acceptance. */
  lemma AcceptanceIgnoresRest(first: Record, extra: Record, rest: seq<Record>)
    requires ValidateInputDataBefore([first]).Success?
    ensures ValidateInputDataBefore([first + extra] + rest).Success?
  {
  }
}
