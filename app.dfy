/**
 * AppCoordinator._collection_data: every validated row of every sheet runs
 * through the stages in order, each stage updating the row dict in place.
 */
module App {
  import opened Wrappers
  import opened Text
  import opened Records
  import opened Eliminations
  import opened ValidateData
  import opened Exceptions
  import opened Catalog
  import opened Orm
  import opened Collection

  /** The exception that ends the processing of a file. */
  datatype PipelineError =
    | GenFailed(gen: GenError)
    | QueryFailed(query: QueryError)
    | CostFailed(cost: CostError)

  /** The marketplace search: the columns it writes for a row, its part number and vendor. */
  type Market = (Cells, string, Option<string>) -> Cells

  /** What the stages consult: the substitution table, the Huawei lookup, the database and the marketplace. */
  datatype Context = Context(table: seq<Rule>, lookup: string -> Option<seq<string>>, store: Store, market: Market)

  /** A validated sheet (DataGenerate) and the same sheet after processing. */
  datatype Sheet = Sheet(inputData: seq<InputData>, sheetName: string)
  datatype SheetOut = SheetOut(inputData: seq<Cells>, sheetName: string)

  /** `data.dict(by_alias=True)` of one validated row. */
  function InitialCells(d: InputData): (c: Cells)
    ensures c.Keys == Aliases
    ensures c[PartNumberKey] == VText(d.partNumber) && c[AmountKey] == VNum(d.amount as real)
  {
    map[CustomerKey := OptText(d.customer), PartNumberKey := VText(d.partNumber), VendorKey := OptText(d.vendor),
        AmountKey := VNum(d.amount as real), DescriptionKey := OptText(d.description)]
  }

  /** The categories for which no marketplace price is looked up. */
  predicate SkipsMarket(category: Value) {
    category == VText("LIC-1") || category == VText("SOFT-1") || category == VText("MSCL")
  }

  /** Stages 1 to 5: comment filter, aliases, catalogs, category and costs. */
  function BeforeMarket(ctx: Context, cells: Cells, pn: string, vendor: Option<string>,
                        description: Option<string>): Result<Cells, PipelineError>
  {
    var comment := Filter(Str(description));
    var (keys, c1) := Expand(ctx.table, ctx.lookup, cells, pn, vendor);
    if keys.Failure? then Failure(GenFailed(keys.error))
    else if |keys.value| == 0 then Failure(QueryFailed(NoKeys))
    else
      var found := DirectoryResult(ctx.store, keys.value);
      var c2 := if found.Some? then c1 + found.value else c1;
      var c3 := c2 + CategoryResult(ctx.store, pn, comment);
      var c4 := WithCosts(c3);
      if c4.Failure? then Failure(CostFailed(c4.error)) else Success(c4.value)
  }

  /** All the stages of one row, the marketplace search last. */
  function RowStages(ctx: Context, cells: Cells, pn: string, vendor: Option<string>,
                     description: Option<string>): Result<Cells, PipelineError>
  {
    var before := BeforeMarket(ctx, cells, pn, vendor, description);
    if before.Failure? then before
    else if SkipsMarket(Get(before.value, CategoryKey)) then before
    else Success(before.value + ctx.market(before.value, pn, vendor))
  }

  /** One validated row, from its dict to its final state. */
  function ProcessRow(ctx: Context, d: InputData): Result<Cells, PipelineError> {
    RowStages(ctx, InitialCells(d), d.partNumber, d.vendor, d.description)
  }

  function RowFn(ctx: Context): InputData -> Result<Cells, PipelineError> {
    d => ProcessRow(ctx, d)
  }

  /** Applies `f` in order and stops at the first failure. */
  function MapResults<A, B, E>(f: A -> Result<B, E>, xs: seq<A>): Result<seq<B>, E>
    decreases |xs|
  {
    if xs == [] then Success([])
    else
      var prefix := MapResults(f, xs[..|xs| - 1]);
      if prefix.Failure? then prefix
      else
        var last := f(xs[|xs| - 1]);
        if last.Failure? then Failure(last.error) else Success(prefix.value + [last.value])
  }

  /** A failure in a prefix is the failure of the whole sequence. */
  lemma {:induction false} MapResultsPrefixFails<A, B, E>(f: A -> Result<B, E>, xs: seq<A>, k: nat)
    requires k <= |xs| && MapResults(f, xs[..k]).Failure?
    ensures MapResults(f, xs) == MapResults(f, xs[..k])
    decreases |xs| - k
  {
    if k < |xs| {
      var ys := xs[..k + 1];
      assert ys[..|ys| - 1] == xs[..k];
      MapResultsPrefixFails(f, xs, k + 1);
    } else {
      assert xs[..k] == xs;
    }
  }

  /** Extending a successful prefix by one element that succeeds. */
  lemma MapResultsStep<A, B, E>(f: A -> Result<B, E>, xs: seq<A>, k: nat, done: seq<B>)
    requires k < |xs| && MapResults(f, xs[..k]) == Success(done) && f(xs[k]).Success?
    ensures MapResults(f, xs[..k + 1]) == Success(done + [f(xs[k]).value])
  {
    assert xs[..k + 1][..k] == xs[..k];
  }

  /** A successful prefix followed by a failing element fails the whole sequence with that error. */
  lemma MapResultsStepFails<A, B, E>(f: A -> Result<B, E>, xs: seq<A>, k: nat, done: seq<B>)
    requires k < |xs| && MapResults(f, xs[..k]) == Success(done) && f(xs[k]).Failure?
    ensures MapResults(f, xs) == Failure(f(xs[k]).error)
  {
    assert xs[..k + 1][..k] == xs[..k];
    MapResultsPrefixFails(f, xs, k + 1);
  }

  /**
   * MapResults succeeds exactly when every element does, and then holds the
   * results in order; otherwise it fails with the first element's error.
   */
  lemma {:induction false} MapResultsSpec<A, B, E>(f: A -> Result<B, E>, xs: seq<A>)
    ensures MapResults(f, xs).Success? <==> forall i :: 0 <= i < |xs| ==> f(xs[i]).Success?
    ensures MapResults(f, xs).Success? ==>
      |MapResults(f, xs).value| == |xs| && forall i :: 0 <= i < |xs| ==> MapResults(f, xs).value[i] == f(xs[i]).value
    ensures MapResults(f, xs).Failure? ==>
      exists i :: 0 <= i < |xs| && f(xs[i]) == Failure(MapResults(f, xs).error)
        && forall j :: 0 <= j < i ==> f(xs[j]).Success?
    decreases |xs|
  {
    if xs != [] {
      var n := |xs| - 1;
      var init := xs[..n];
      MapResultsSpec(f, init);
      assert forall i :: 0 <= i < n ==> xs[i] == init[i];
      if MapResults(f, init).Failure? {
        var i :| 0 <= i < |init| && f(init[i]) == Failure(MapResults(f, init).error)
          && forall j :: 0 <= j < i ==> f(init[j]).Success?;
        assert f(xs[i]) == Failure(MapResults(f, xs).error);
      } else if f(xs[n]).Failure? {
        assert f(xs[n]) == Failure(MapResults(f, xs).error);
      }
    }
  }

  /** One sheet: its rows in order, under the same sheet name. */
  function ProcessSheet(ctx: Context, s: Sheet): Result<SheetOut, PipelineError> {
    var rows := MapResults(RowFn(ctx), s.inputData);
    if rows.Failure? then Failure(rows.error) else Success(SheetOut(rows.value, s.sheetName))
  }

  function SheetFn(ctx: Context): Sheet -> Result<SheetOut, PipelineError> {
    s => ProcessSheet(ctx, s)
  }

  /** `_collection_data`: the sheets in order; the first exception ends it. */
  function CollectionOf(ctx: Context, sheets: seq<Sheet>): Result<seq<SheetOut>, PipelineError> {
    MapResults(SheetFn(ctx), sheets)
  }

  /**
   * A successful run returns one processed sheet per input sheet, with the
   * same name and one row result per input row, in order.
   */
  lemma CollectionShape(ctx: Context, sheets: seq<Sheet>, i: nat, j: nat)
    requires CollectionOf(ctx, sheets).Success?
    requires i < |sheets| && j < |sheets[i].inputData|
    ensures |CollectionOf(ctx, sheets).value| == |sheets|
    ensures CollectionOf(ctx, sheets).value[i].sheetName == sheets[i].sheetName
    ensures |CollectionOf(ctx, sheets).value[i].inputData| == |sheets[i].inputData|
    ensures ProcessRow(ctx, sheets[i].inputData[j]).Success?
    ensures CollectionOf(ctx, sheets).value[i].inputData[j] == ProcessRow(ctx, sheets[i].inputData[j]).value
  {
    MapResultsSpec(SheetFn(ctx), sheets);
    MapResultsSpec(RowFn(ctx), sheets[i].inputData);
    assert SheetFn(ctx)(sheets[i]).Success?;
  }

  /** The run fails exactly when some row of some sheet fails. */
  lemma CollectionFailsIff(ctx: Context, sheets: seq<Sheet>)
    ensures CollectionOf(ctx, sheets).Failure? <==>
      exists i, j :: 0 <= i < |sheets| && 0 <= j < |sheets[i].inputData| && ProcessRow(ctx, sheets[i].inputData[j]).Failure?
  {
    MapResultsSpec(SheetFn(ctx), sheets);
    forall i | 0 <= i < |sheets|
      ensures SheetFn(ctx)(sheets[i]).Failure? <==>
        exists j :: 0 <= j < |sheets[i].inputData| && ProcessRow(ctx, sheets[i].inputData[j]).Failure?
    {
      MapResultsSpec(RowFn(ctx), sheets[i].inputData);
    }
  }

  lemma {:induction false} ReplaceEachNonEmpty(t: seq<Rule>, pns: seq<string>)
    requires |pns| > 0
    ensures |ReplaceEach(t, pns)| > 0
  {
    assert |ReplaceKeyOf(t, pns[|pns| - 1])| >= 1;
  }

  /**
   * A fresh row has no MODEL/PN, so with a vendor the alias list is never
   * empty and the only exception left is a TypeError of the cost stage.
   */
  lemma RowFailures(ctx: Context, d: InputData)
    ensures d.vendor.None? ==> ProcessRow(ctx, d) == Failure(GenFailed(VendorIsNone))
    ensures d.vendor.Some? && ProcessRow(ctx, d).Failure? ==> ProcessRow(ctx, d).error.CostFailed?
  {
    if d.vendor.Some? {
      var cells := InitialCells(d);
      assert Get(cells, ModelPnKey) == VNone;
      var (keys, c1) := Expand(ctx.table, ctx.lookup, cells, d.partNumber, d.vendor);
      ExpandFailsIff(ctx.table, ctx.lookup, cells, d.partNumber, d.vendor);
      assert keys.Success?;
      if UpperStr(d.vendor.value) == Huawei {
        var pars := ctx.lookup(d.partNumber);
        var after := if pars.Some? && pars.value != [] then cells[ModelPnKey := VText(Join(", ", pars.value))] else cells;
        if Truthy(Get(after, ModelPnKey)) {
          ReplaceEachNonEmpty(ctx.table, pars.value);
        }
      }
      assert |keys.value| > 0;
    }
  }

  /**
   * The part number of a validated row is letters and digits only, so for
   * CISCO the "R-" strip never fires and the aliases are `_replace_key(pn)`.
   */
  lemma ValidatedCiscoKeys(ctx: Context, customer: Option<string>, pn: Option<string>, vendor: string,
                           amount: PyValue, description: Option<string>)
    requires MakeInputData(customer, pn, Some(vendor), amount, description).Success?
    requires UpperStr(vendor) == Cisco
    ensures var d := MakeInputData(customer, pn, Some(vendor), amount, description).value;
      Expand(ctx.table, ctx.lookup, InitialCells(d), d.partNumber, d.vendor)
        == (Success(ReplaceKeyOf(ctx.table, d.partNumber)), InitialCells(d))
  {
    var d := MakeInputData(customer, pn, Some(vendor), amount, description).value;
    CiscoStripNeedsHyphen(d.partNumber);
    assert Get(InitialCells(d), ModelPnKey) == VNone;
    ExpandOther(ctx.table, ctx.lookup, InitialCells(d), d.partNumber, vendor);
  }

  /**
   * A row without a description is filtered to "NONE", which is truthy:
   * the collision rules are consulted with "NONE" before the prefix rule.
   */
  lemma MissingDescriptionConsultsCollision(st: Store, key: string)
    ensures Filter(Str(None)) == "NONE"
    ensures CategoryResult(st, key, Filter(Str(None))) ==
      if Run(st, CollisionOf("NONE")).Some? then Run(st, CollisionOf("NONE")).value else CategoryResult(st, key, "")
  {
    FilterOfNone();
  }

  /**
   * A processed row keeps its input columns and always holds the category,
   * the repair count, the labour time and both unit values.
   */
  lemma RowResultColumns(ctx: Context, d: InputData)
    requires ProcessRow(ctx, d).Success?
    ensures Aliases + {CategoryKey, RepairKey, LaborKey, UnitRepairKey, UnitLaborKey} <= ProcessRow(ctx, d).value.Keys
  {
    var cells := InitialCells(d);
    var comment := Filter(Str(d.description));
    var (keys, c1) := Expand(ctx.table, ctx.lookup, cells, d.partNumber, d.vendor);
    ExpandFrame(ctx.table, ctx.lookup, cells, d.partNumber, d.vendor);
    assert Aliases <= c1.Keys;
    var found := DirectoryResult(ctx.store, keys.value);
    var c2 := if found.Some? then c1 + found.value else c1;
    CategoryKeysPresent(ctx.store, d.partNumber, comment);
    var c3 := c2 + CategoryResult(ctx.store, d.partNumber, comment);
    CostsFrame(c3);
  }

  /** For LIC-1, SOFT-1 and MSCL the marketplace is never consulted. */
  lemma MarketSkipped(ctx: Context, other: Market, d: InputData)
    requires BeforeMarket(ctx, InitialCells(d), d.partNumber, d.vendor, d.description).Success?
    requires SkipsMarket(Get(BeforeMarket(ctx, InitialCells(d), d.partNumber, d.vendor, d.description).value, CategoryKey))
    ensures ProcessRow(ctx, d) == ProcessRow(Context(ctx.table, ctx.lookup, ctx.store, other), d)
    ensures ProcessRow(ctx, d) == BeforeMarket(ctx, InitialCells(d), d.partNumber, d.vendor, d.description)
  {
  }

  class AppCoordinator {
    const generator: ExceptionGenerator
    const orm: OrmQuary
    const market: Market

    constructor (generator: ExceptionGenerator, orm: OrmQuary, market: Market)
      ensures this.generator == generator && this.orm == orm && this.market == market
    {
      this.generator := generator;
      this.orm := orm;
      this.market := market;
    }

    function ContextOf(): Context {
      Context(generator.exception, generator.lookup, orm.store, market)
    }

    /** The body of the row loop: the stages in order, on the row dict itself. */
    method ProcessItem(item: Row, pn: string, vendor: Option<string>, description: Option<string>)
      returns (o: Outcome<PipelineError>)
      modifies item
      ensures o.Pass? <==> RowStages(ContextOf(), old(item.cells), pn, vendor, description).Success?
      ensures o.Fail? ==> RowStages(ContextOf(), old(item.cells), pn, vendor, description) == Failure(o.error)
      ensures o.Pass? ==> item.cells == RowStages(ContextOf(), old(item.cells), pn, vendor, description).value
    {
      ghost var ctx, c0 := ContextOf(), item.cells;
      var filterComment := Filter(Str(description));
      var excPartNumbers := generator.GenerateExceptions(item, pn, vendor);
      if excPartNumbers.Failure? {
        return Fail(GenFailed(excPartNumbers.error));
      }
      ghost var c1 := item.cells;
      var directory := orm.DirectoryBooksQuery(item, excPartNumbers.value);
      if directory.Fail? {
        return Fail(QueryFailed(directory.error));
      }
      ghost var c2 := item.cells;
      orm.CategoryQuery(item, pn, filterComment);
      ghost var c3 := item.cells;
      assert c3 == c2 + CategoryResult(ctx.store, pn, Filter(Str(description)));
      var costs := CostsByCategory(item);
      if costs.Fail? {
        return Fail(CostFailed(costs.error));
      }
      assert BeforeMarket(ctx, c0, pn, vendor, description) == Success(item.cells);
      var category := Get(item.cells, CategoryKey);
      if !SkipsMarket(category) {
        item.Update(market(item.cells, pn, vendor));
      }
      return Pass;
    }

    /** The rows of one sheet, in order, each processed in a fresh dict. */
    method CollectSheet(mass: Sheet) returns (r: Result<SheetOut, PipelineError>)
      ensures r == ProcessSheet(ContextOf(), mass)
    {
      var ctx := ContextOf();
      var rows: seq<Cells> := [];
      var j := 0;
      while j < |mass.inputData|
        invariant 0 <= j <= |mass.inputData|
        invariant MapResults(RowFn(ctx), mass.inputData[..j]) == Success(rows)
      {
        var d := mass.inputData[j];
        var item := new Row(InitialCells(d));
        var o := ProcessItem(item, d.partNumber, d.vendor, d.description);
        if o.Fail? {
          MapResultsStepFails(RowFn(ctx), mass.inputData, j, rows);
          return Failure(o.error);
        }
        MapResultsStep(RowFn(ctx), mass.inputData, j, rows);
        rows := rows + [item.cells];
        j := j + 1;
      }
      assert mass.inputData[..j] == mass.inputData;
      return Success(SheetOut(rows, mass.sheetName));
    }

    /** `_collection_data`: sheet by sheet, row by row, each row a fresh dict. */
    method CollectionData(inputData: seq<Sheet>) returns (r: Result<seq<SheetOut>, PipelineError>)
      ensures r == CollectionOf(ContextOf(), inputData)
    {
      var ctx := ContextOf();
      var out: seq<SheetOut> := [];
      var i := 0;
      while i < |inputData|
        invariant 0 <= i <= |inputData|
        invariant MapResults(SheetFn(ctx), inputData[..i]) == Success(out)
      {
        var sheet := CollectSheet(inputData[i]);
        if sheet.Failure? {
          MapResultsStepFails(SheetFn(ctx), inputData, i, out);
          return Failure(sheet.error);
        }
        MapResultsStep(SheetFn(ctx), inputData, i, out);
        out := out + [sheet.value];
        i := i + 1;
      }
      assert inputData[..i] == inputData;
      return Success(out);
    }
  }
}
