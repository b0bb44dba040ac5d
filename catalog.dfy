/**
 * The catalog tables and the queries the repositories run on them
 * (AbstractQuaryORM and the *Repository classes). Each table is an
 * in-memory sequence of rows in table order, each SQL filter a predicate on
 * rows, and each query result a row dict of projected columns.
 */
module Catalog {
  import opened Wrappers
  import opened Text
  import opened Records
  import opened Eliminations

  // ---------------------------------------------------------------- tables

  datatype CodeBookRow = CodeBookRow(
    partNumber: string, appointment: Option<string>, logicalAccounting: Option<string>, costPrice: Option<string>)

  datatype PurchaseBuyRow = PurchaseBuyRow(partNumber: string, client: Option<string>, appointment: Option<string>)

  datatype PurchaseWantRow = PurchaseWantRow(
    partNumber: string, client: Option<string>, buyCustomized: Option<string>,
    amountOfPurchase: Option<string>, shop: Option<string>, assessedValue: Option<string>)

  /**
   * An archive row. `amount` is the quantity as the database sums it;
   * `zipLabel` is the value the query projects as ЗИП for this row.
   */
  datatype ArchiveRow = ArchiveRow(
    partNumber: string, costOfZip: Option<string>, zipValues: Option<string>, dtkService: Option<string>,
    appointment: Option<string>, amount: Option<real>, projectCode: Option<string>, zipLabel: Value)

  datatype StatusRow = StatusRow(requestNumber: string, status: Option<string>)

  datatype MainCategoryRow = MainCategoryRow(category: Option<string>, time: Option<real>, repair: Option<int>)

  datatype SecondCategoryRow = SecondCategoryRow(letters: string, category: Option<string>)

  datatype CollisionRow = CollisionRow(descriptionContent: Option<string>, category: Option<string>)

  datatype ChassisRow = ChassisRow(
    partNumber: string, powerUnit: Option<string>, fanUnit: Option<string>, comment: Option<string>)

  /** The repository calls; a call to a repository in `down` raises inside the session. */
  datatype Repo = CodeBookRepo | PurchaseBuyRepo | PurchaseWantRepo | ArchiveRepo | ArchiveQtyRepo
                | CollisionRepo | CategoryRepo | ChassisRepo

  datatype Store = Store(
    codeBook: seq<CodeBookRow>,
    purchaseBuy: seq<PurchaseBuyRow>,
    purchaseWant: seq<PurchaseWantRow>,
    archive: seq<ArchiveRow>,
    status: seq<StatusRow>,
    mainCategory: seq<MainCategoryRow>,
    secondCategory: seq<SecondCategoryRow>,
    collision: seq<CollisionRow>,
    chassis: seq<ChassisRow>,
    agreements: seq<string>,
    agreementsCollision: seq<string>,
    down: set<Repo>)

  // ------------------------------------------------------- generic choice

  /** The first element satisfying `p` (a query with no ORDER BY and `.first()`). */
  function FirstWhere<T>(xs: seq<T>, p: T -> bool): (r: Option<nat>)
    ensures r.None? <==> forall j :: 0 <= j < |xs| ==> !p(xs[j])
    ensures r.Some? ==> r.value < |xs| && p(xs[r.value]) && forall j :: 0 <= j < r.value ==> !p(xs[j])
    decreases |xs|
  {
    if xs == [] then None
    else if p(xs[0]) then Some(0)
    else
      var r := FirstWhere(xs[1..], p);
      if r.None? then None else Some(r.value + 1)
  }

  /** A SQL match condition on the ordering column of a row. */
  datatype Pattern =
    | Equals(key: string)       // `key == column`
    | Contains(key: string)     // `column LIKE '%key%'`
    | Within(key: string)       // `instr(key, column)` non-zero
    | PrefixOf(key: string)     // `instr(key, column) == 1`

  predicate Fits(pat: Pattern, x: string) {
    match pat
    case Equals(k) => x == k
    case Contains(k) => IsSubstring(k, x)
    case Within(k) => IsSubstring(x, k)
    case PrefixOf(k) => IsPrefix(x, k)
  }

  /** A query result row together with the column it is ordered by. */
  datatype Candidate = Candidate(sortKey: string, fields: Cells)

  /** Row `i` is what ORDER BY length(column) DESC LIMIT 1 returns, ties going to the earlier row. */
  predicate IsFirstLongest(cs: seq<Candidate>, pat: Pattern, i: nat) {
    && i < |cs|
    && Fits(pat, cs[i].sortKey)
    && (forall j :: 0 <= j < |cs| && Fits(pat, cs[j].sortKey) ==> |cs[j].sortKey| <= |cs[i].sortKey|)
    && (forall j :: 0 <= j < i && Fits(pat, cs[j].sortKey) ==> |cs[j].sortKey| < |cs[i].sortKey|)
  }

  predicate NoFit(cs: seq<Candidate>, pat: Pattern) {
    forall j :: 0 <= j < |cs| ==> !Fits(pat, cs[j].sortKey)
  }

  /** The filtered rows ordered by the length of their column, first one taken. */
  function FirstLongest(cs: seq<Candidate>, pat: Pattern): (r: Option<nat>)
    ensures r.None? <==> NoFit(cs, pat)
    ensures r.Some? ==> IsFirstLongest(cs, pat, r.value)
    decreases |cs|
  {
    if cs == [] then None
    else
      var init := cs[..|cs| - 1];
      var r := FirstLongest(init, pat);
      assert forall j :: 0 <= j < |init| ==> init[j] == cs[j];
      var last := |cs| - 1;
      if Fits(pat, cs[last].sortKey) && (r.None? || |cs[last].sortKey| > |cs[r.value].sortKey|) then Some(last)
      else r
  }

  /** At most one row is the first longest one. */
  lemma FirstLongestUnique(cs: seq<Candidate>, pat: Pattern, i: nat, k: nat)
    requires IsFirstLongest(cs, pat, i) && IsFirstLongest(cs, pat, k)
    ensures i == k
  {
  }

  // -------------------------------------------------- search_by_part_number

  /** `key` finds column value `x` by one of the strategies: equal, contained in `x`, or containing `x`. */
  predicate KeyFits(key: string, x: string) {
    x == key || IsSubstring(key, x) || IsSubstring(x, key)
  }

  /** The three strategies, tried in this order. */
  datatype Strategy = Exact | Partial | Reverse

  function PatternOf(s: Strategy, key: string): Pattern {
    match s
    case Exact => Equals(key)
    case Partial => Contains(key)
    case Reverse => Within(key)
  }

  /** The row dict a hit returns: contains and reverse hits are marked partial. */
  function Project(c: Candidate, s: Strategy): Cells {
    if s == Exact then c.fields else c.fields[MatchTypeKey := VText("partial")]
  }

  /** Every strategy tried before `s` found nothing. */
  predicate EarlierMissed(cs: seq<Candidate>, key: string, s: Strategy) {
    match s
    case Exact => true
    case Partial => NoFit(cs, Equals(key))
    case Reverse => NoFit(cs, Equals(key)) && NoFit(cs, Contains(key))
  }

  /** Row `i` is the hit of strategy `s` for `key`. */
  predicate Picked(cs: seq<Candidate>, key: string, s: Strategy, i: nat) {
    IsFirstLongest(cs, PatternOf(s, key), i) && EarlierMissed(cs, key, s)
  }

  /** search_by_part_number: exact, then contains, then reverse; the first strategy with a hit wins. */
  function Search(cs: seq<Candidate>, key: string): Option<Cells>
  {
    var e := FirstLongest(cs, Equals(key));
    if e.Some? then Some(Project(cs[e.value], Exact))
    else
      var c := FirstLongest(cs, Contains(key));
      if c.Some? then Some(Project(cs[c.value], Partial))
      else
        var w := FirstLongest(cs, Within(key));
        if w.Some? then Some(Project(cs[w.value], Reverse))
        else None
  }

  /**
   * The search finds nothing exactly when no strategy matches a row, and a
   * hit is the first longest row of the first strategy that matches one.
   */
  lemma SearchSpec(cs: seq<Candidate>, key: string) returns (s: Strategy, i: nat)
    ensures Search(cs, key).None? <==> NoFit(cs, Equals(key)) && NoFit(cs, Contains(key)) && NoFit(cs, Within(key))
    ensures Search(cs, key).Some? ==> Picked(cs, key, s, i) && Search(cs, key).value == Project(cs[i], s)
  {
    var e := FirstLongest(cs, Equals(key));
    var c := FirstLongest(cs, Contains(key));
    var w := FirstLongest(cs, Within(key));
    if e.Some? {
      s, i := Exact, e.value;
    } else if c.Some? {
      s, i := Partial, c.value;
    } else if w.Some? {
      s, i := Reverse, w.value;
    } else {
      s, i := Exact, 0;
    }
  }

  /** Exactly the contains and reverse hits carry match_type 'partial'. */
  lemma SearchMarksPartial(cs: seq<Candidate>, key: string)
    requires forall j :: 0 <= j < |cs| ==> MatchTypeKey !in cs[j].fields
    requires Search(cs, key).Some?
    ensures MatchTypeKey in Search(cs, key).value <==> NoFit(cs, Equals(key))
    ensures MatchTypeKey in Search(cs, key).value ==> Search(cs, key).value[MatchTypeKey] == VText("partial")
  {
    var s, i := SearchSpec(cs, key);
  }

  /** quaryes: the keys in list order; the first one with a hit gives the result. */
  function Quaryes(cs: seq<Candidate>, keys: seq<string>): Option<Cells>
    decreases |keys|
  {
    if keys == [] then None
    else
      var r := Search(cs, keys[0]);
      if r.Some? then r else Quaryes(cs, keys[1..])
  }

  /** The result is the search of the first key that finds something, or None if every key misses. */
  lemma {:induction false} QuaryesSpec(cs: seq<Candidate>, keys: seq<string>) returns (k: nat)
    ensures Quaryes(cs, keys).None? <==> forall j :: 0 <= j < |keys| ==> Search(cs, keys[j]).None?
    ensures Quaryes(cs, keys).Some? ==>
      && k < |keys| && Quaryes(cs, keys) == Search(cs, keys[k])
      && forall j :: 0 <= j < k ==> Search(cs, keys[j]).None?
    decreases |keys|
  {
    if keys == [] {
      k := 0;
    } else if Search(cs, keys[0]).Some? {
      k := 0;
    } else {
      var k' := QuaryesSpec(cs, keys[1..]);
      k := k' + 1;
      assert forall j :: 1 <= j < |keys| ==> keys[j] == keys[1..][j - 1];
    }
  }

  /** Every hit is the row dict of one candidate, marked partial or not. */
  lemma {:induction false} QuaryesHit(cs: seq<Candidate>, keys: seq<string>) returns (i: nat)
    requires Quaryes(cs, keys).Some?
    ensures i < |cs|
    ensures Quaryes(cs, keys).value == cs[i].fields
      || Quaryes(cs, keys).value == cs[i].fields[MatchTypeKey := VText("partial")]
    ensures exists k :: k in keys && KeyFits(k, cs[i].sortKey)
  {
    var k := QuaryesSpec(cs, keys);
    var s;
    s, i := SearchSpec(cs, keys[k]);
    assert Fits(PatternOf(s, keys[k]), cs[i].sortKey);
    assert keys[k] in keys && KeyFits(keys[k], cs[i].sortKey);
  }

  // ------------------------------------------------------------ repositories

  /** The present values added up from the last one back, NULLs counting as nothing. */
  function PresentTotal(xs: seq<Option<real>>): real
    decreases |xs|
  {
    if xs == [] then 0.0
    else PresentTotal(xs[..|xs| - 1]) + (if xs[|xs| - 1].Some? then xs[|xs| - 1].value else 0.0)
  }

  lemma {:induction false} PresentTotalCons(x: Option<real>, ys: seq<Option<real>>)
    ensures PresentTotal([x] + ys) == (if x.Some? then x.value else 0.0) + PresentTotal(ys)
    decreases |ys|
  {
    if ys != [] {
      var init := ys[..|ys| - 1];
      assert ([x] + ys)[..|ys|] == [x] + init;
      PresentTotalCons(x, init);
    }
  }

  /** SQL `sum(column)` over nullable numbers: NULL when no value is present, else the total of the present ones. */
  function SqlSum(xs: seq<Option<real>>): (v: Value)
    ensures v.VNone? <==> forall i :: 0 <= i < |xs| ==> xs[i].None?
    ensures !v.VNone? ==> v == VNum(PresentTotal(xs))
    decreases |xs|
  {
    if xs == [] then VNone
    else
      var rest := SqlSum(xs[1..]);
      assert forall i :: 1 <= i < |xs| ==> xs[i] == xs[1..][i - 1];
      assert !rest.VNone? || PresentTotal(xs[1..]) == 0.0 by {
        if rest.VNone? {
          AllNullTotal(xs[1..]);
        }
      }
      assert [xs[0]] + xs[1..] == xs;
      PresentTotalCons(xs[0], xs[1..]);
      match (xs[0], rest)
      case (None, _) => rest
      case (Some(x), VNum(n)) => VNum(x + n)
      case (Some(x), _) => VNum(x)
  }

  /** Only NULLs add up to nothing. */
  lemma {:induction false} AllNullTotal(xs: seq<Option<real>>)
    requires forall i :: 0 <= i < |xs| ==> xs[i].None?
    ensures PresentTotal(xs) == 0.0
    decreases |xs|
  {
    if xs != [] {
      AllNullTotal(xs[..|xs| - 1]);
    }
  }

  /** SQL string concatenation: NULL as soon as one operand is NULL, else the two strings joined. */
  function SqlConcat(a: Option<string>, b: Option<string>): (r: Option<string>)
    ensures r.Some? <==> a.Some? && b.Some?
    ensures r.Some? ==> IsPrefix(a.value, r.value) && r.value[|a.value|..] == b.value
  {
    if a.Some? && b.Some? then Some(a.value + b.value) else None
  }

  /** The appointment names a contract, and some exception activity differs from that contract's code. */
  predicate UnderAgreement(st: Store, appointment: Option<string>) {
    appointment.Some? &&
    exists a :: a in st.agreements && IsSubstring(a, appointment.value) &&
      exists ac :: ac in st.agreementsCollision && ac != a
  }

  function CodeBookFields(r: CodeBookRow): Cells {
    map[AppointmentKey := OptText(r.appointment),
        WarehouseKey := OptText(r.logicalAccounting),
        PurchaseCostKey := OptText(r.costPrice),
        WhereFoundKey := VText("Свод"),
        ZipKey := VText(r.partNumber)]
  }

  /**
   * The rows, in table order, whose appointment (read by `appointment`) is
   * under an agreement: the filter both agreement repositories apply.
   */
  function Agreed<R>(st: Store, rows: seq<R>, appointment: R -> Option<string>): (q: seq<R>)
    ensures forall i :: 0 <= i < |q| ==> q[i] in rows && UnderAgreement(st, appointment(q[i]))
    ensures forall r :: r in rows && UnderAgreement(st, appointment(r)) ==> r in q
    decreases |rows|
  {
    if rows == [] then []
    else
      var rest := Agreed(st, rows[1..], appointment);
      if UnderAgreement(st, appointment(rows[0])) then [rows[0]] + rest else rest
  }

  function CodeBookAppointment(r: CodeBookRow): Option<string> { r.appointment }

  /** The filter works row by row and keeps table order: filtering a concatenation filters its parts. */
  lemma {:induction false} AgreedAppend<R>(st: Store, a: seq<R>, b: seq<R>, appointment: R -> Option<string>)
    ensures Agreed(st, a + b, appointment) == Agreed(st, a, appointment) + Agreed(st, b, appointment)
    decreases |a|
  {
    if a == [] {
      assert a + b == b;
    } else {
      assert (a + b)[0] == a[0] && (a + b)[1..] == a[1..] + b;
      AgreedAppend(st, a[1..], b, appointment);
    }
  }

  /** One row is kept exactly when it is under an agreement. */
  lemma AgreedSingleton<R>(st: Store, r: R, appointment: R -> Option<string>)
    ensures Agreed(st, [r], appointment) == if UnderAgreement(st, appointment(r)) then [r] else []
  {
    assert [r][1..] == [];
  }

  /** CodeBookRepository: the code-book rows under an agreement. */
  function CodeBookCandidates(st: Store): (cs: seq<Candidate>)
    ensures |cs| == |Agreed(st, st.codeBook, CodeBookAppointment)|
    ensures forall i :: 0 <= i < |cs| ==> cs[i].sortKey == Agreed(st, st.codeBook, CodeBookAppointment)[i].partNumber
    ensures forall i :: 0 <= i < |cs| ==> cs[i].fields == CodeBookFields(Agreed(st, st.codeBook, CodeBookAppointment)[i])
  {
    var q := Agreed(st, st.codeBook, CodeBookAppointment);
    seq(|q|, i requires 0 <= i < |q| => Candidate(q[i].partNumber, CodeBookFields(q[i])))
  }

  function PurchaseBuyFields(r: PurchaseBuyRow): Cells {
    map[EngineersKey := OptText(r.client),
        AppointmentKey := OptText(r.appointment),
        WhereFoundKey := VText("Закупка Закупаем"),
        ZipKey := VText(r.partNumber)]
  }

  function PurchaseAppointment(r: PurchaseBuyRow): Option<string> { r.appointment }

  /** PurchaseBuyRepository: the purchases under an agreement. */
  function PurchaseBuyCandidates(st: Store): (cs: seq<Candidate>)
    ensures |cs| == |Agreed(st, st.purchaseBuy, PurchaseAppointment)|
    ensures forall i :: 0 <= i < |cs| ==> cs[i].sortKey == Agreed(st, st.purchaseBuy, PurchaseAppointment)[i].partNumber
    ensures forall i :: 0 <= i < |cs| ==> cs[i].fields == PurchaseBuyFields(Agreed(st, st.purchaseBuy, PurchaseAppointment)[i])
  {
    var q := Agreed(st, st.purchaseBuy, PurchaseAppointment);
    seq(|q|, i requires 0 <= i < |q| => Candidate(q[i].partNumber, PurchaseBuyFields(q[i])))
  }

  /** The label SQLAlchemy gives the unlabelled `max(...)` column. */
  const AnonymousMaxKey := "max_1"

  /** 'Хотим купить под ' + (buy_customized or client) + 'по цене' + assessed_value. */
  function WantComment(r: PurchaseWantRow): Option<string> {
    var who := if r.buyCustomized.Some? then r.buyCustomized else r.client;
    SqlConcat(SqlConcat(SqlConcat(Some("Хотим купить под "), who), Some("по цене")), r.assessedValue)
  }

  /**
   * The CASE of the engineers' comment: with buy_customized present it names
   * buy_customized, otherwise client; a NULL operand makes it NULL.
   */
  lemma WantCommentCase(r: PurchaseWantRow)
    ensures r.buyCustomized.Some? && r.assessedValue.Some? ==>
      WantComment(r) == Some("Хотим купить под " + r.buyCustomized.value + "по цене" + r.assessedValue.value)
    ensures r.buyCustomized.None? && r.client.Some? && r.assessedValue.Some? ==>
      WantComment(r) == Some("Хотим купить под " + r.client.value + "по цене" + r.assessedValue.value)
    ensures WantComment(r).None? <==> r.assessedValue.None? || (r.buyCustomized.None? && r.client.None?)
  {
    var who := if r.buyCustomized.Some? then r.buyCustomized else r.client;
    if who.Some? && r.assessedValue.Some? {
      var a := SqlConcat(Some("Хотим купить под "), who);
      ConcatValue("Хотим купить под ", who.value);
      var b := SqlConcat(a, Some("по цене"));
      ConcatValue(a.value, "по цене");
      ConcatValue(b.value, r.assessedValue.value);
    }
  }

  /** Two present strings concatenate to the first followed by the second. */
  lemma ConcatValue(a: string, b: string)
    ensures SqlConcat(Some(a), Some(b)) == Some(a + b)
  {
    var r := SqlConcat(Some(a), Some(b)).value;
    assert r == r[..|a|] + r[|a|..];
  }

  function PurchaseWantFields(r: PurchaseWantRow): Cells {
    map[AnonymousMaxKey := OptText(r.amountOfPurchase),
        AppointmentKey := OptText(r.shop),
        WhereFoundKey := VText("Закупка Хотим"),
        EngineersKey := OptText(WantComment(r)),
        ZipKey := VText(r.partNumber)]
  }

  /** PurchaseWantRepository: every row qualifies. */
  function PurchaseWantCandidates(st: Store): (cs: seq<Candidate>)
    ensures |cs| == |st.purchaseWant|
    ensures forall i :: 0 <= i < |cs| ==> cs[i].sortKey == st.purchaseWant[i].partNumber
    ensures forall i :: 0 <= i < |cs| ==> cs[i].fields == PurchaseWantFields(st.purchaseWant[i])
  {
    seq(|st.purchaseWant|, i requires 0 <= i < |st.purchaseWant| =>
      Candidate(st.purchaseWant[i].partNumber, PurchaseWantFields(st.purchaseWant[i])))
  }

  /** The status value the archive query accepts. */
  const Sent := "отправлено"

  /** SQLite's lower() leaves Cyrillic capitals alone, so a status written in capitals never reads as sent. */
  lemma CapitalStatusNotSent()
    ensures SqlLower("ОТПРАВЛЕНО") == "ОТПРАВЛЕНО"
    ensures SqlLower("ОТПРАВЛЕНО") != Sent
  {
    SqlLowerFixes("ОТПРАВЛЕНО");
    assert "ОТПРАВЛЕНО"[0] != Sent[0];
  }

  /**
   * ArchiveBookRepository's filters: a status row for the request says
   * 'отправлено', some exception activity is absent from the appointment,
   * and ЗИП is neither NULL, '-' nor '0'.
   */
  predicate ArchiveQualifies(st: Store, r: ArchiveRow) {
    && (exists s :: s in st.status && r.projectCode == Some(s.requestNumber) && s.status == Some(Sent))
    && r.appointment.Some?
    && (exists ac :: ac in st.agreementsCollision && !IsSubstring(ac, r.appointment.value))
    && r.zipValues.Some? && r.zipValues.value != "-" && r.zipValues.value != "0"
  }

  function QualifiedArchive(st: Store, rows: seq<ArchiveRow>): (q: seq<ArchiveRow>)
    ensures forall i :: 0 <= i < |q| ==> q[i] in rows && ArchiveQualifies(st, q[i])
    ensures forall r :: r in rows && ArchiveQualifies(st, r) ==> r in q
    decreases |rows|
  {
    if rows == [] then []
    else
      var rest := QualifiedArchive(st, rows[1..]);
      if ArchiveQualifies(st, rows[0]) then [rows[0]] + rest else rest
  }

  /** The archive filter works row by row and keeps table order. */
  lemma {:induction false} QualifiedArchiveAppend(st: Store, a: seq<ArchiveRow>, b: seq<ArchiveRow>)
    ensures QualifiedArchive(st, a + b) == QualifiedArchive(st, a) + QualifiedArchive(st, b)
    decreases |a|
  {
    if a == [] {
      assert a + b == b;
    } else {
      assert (a + b)[0] == a[0] && (a + b)[1..] == a[1..] + b;
      QualifiedArchiveAppend(st, a[1..], b);
    }
  }

  /** One archive row is kept exactly when it qualifies. */
  lemma QualifiedArchiveSingleton(st: Store, r: ArchiveRow)
    ensures QualifiedArchive(st, [r]) == if ArchiveQualifies(st, r) then [r] else []
  {
    assert [r][1..] == [];
  }

  /** The amounts of the rows of one part-number group, in table order. */
  function GroupAmounts(rows: seq<ArchiveRow>, pn: string): (xs: seq<Option<real>>)
    ensures |xs| <= |rows|
    decreases |rows|
  {
    if rows == [] then []
    else
      var rest := GroupAmounts(rows[1..], pn);
      if rows[0].partNumber == pn then [rows[0].amount] + rest else rest
  }

  /** Every amount of the group belongs to a row of that part number, and every such row contributes its amount. */
  lemma {:induction false} GroupAmountsMembers(rows: seq<ArchiveRow>, pn: string)
    ensures forall x :: x in GroupAmounts(rows, pn) ==> exists r :: r in rows && r.partNumber == pn && r.amount == x
    ensures forall r :: r in rows && r.partNumber == pn ==> r.amount in GroupAmounts(rows, pn)
    decreases |rows|
  {
    if rows != [] {
      GroupAmountsMembers(rows[1..], pn);
    }
  }

  /** Grouping works row by row: the group of a concatenation is the groups of its parts, in order. */
  lemma {:induction false} GroupAmountsAppend(a: seq<ArchiveRow>, b: seq<ArchiveRow>, pn: string)
    ensures GroupAmounts(a + b, pn) == GroupAmounts(a, pn) + GroupAmounts(b, pn)
    decreases |a|
  {
    if a == [] {
      assert a + b == b;
    } else {
      assert (a + b)[0] == a[0] && (a + b)[1..] == a[1..] + b;
      GroupAmountsAppend(a[1..], b, pn);
    }
  }

  /** The amount column of some rows. */
  function Amounts(rows: seq<ArchiveRow>): seq<Option<real>> {
    seq(|rows|, i requires 0 <= i < |rows| => rows[i].amount)
  }

  /** When every row has part number `pn`, the group is all of them. */
  lemma {:induction false} GroupAmountsOfGroup(rows: seq<ArchiveRow>, pn: string)
    requires forall i :: 0 <= i < |rows| ==> rows[i].partNumber == pn
    ensures GroupAmounts(rows, pn) == Amounts(rows)
    decreases |rows|
  {
    if rows != [] {
      GroupAmountsOfGroup(rows[1..], pn);
      assert Amounts(rows) == [rows[0].amount] + Amounts(rows[1..]);
    }
  }

  function ArchiveFields(r: ArchiveRow, qty: Value): Cells {
    map[PurchaseCostKey := OptText(r.costOfZip),
        ArchiveEngineersKey := OptText(r.dtkService),
        AppointmentKey := OptText(r.appointment),
        RequestKey := OptText(r.projectCode),
        ArchiveQtyKey := qty,
        WhereFoundKey := VText("Архив"),
        ZipKey := r.zipLabel]
  }

  /** One candidate per qualifying row; QTY ИЗ АРХИВОВ sums its whole part-number group. */
  function ArchiveCandidates(st: Store): (cs: seq<Candidate>)
    ensures |cs| == |QualifiedArchive(st, st.archive)|
    ensures forall i :: 0 <= i < |cs| ==> cs[i].sortKey == QualifiedArchive(st, st.archive)[i].partNumber
    ensures forall i :: 0 <= i < |cs| ==>
      ArchiveQtyKey in cs[i].fields
      && cs[i].fields[ArchiveQtyKey] == SqlSum(GroupAmounts(QualifiedArchive(st, st.archive), cs[i].sortKey))
  {
    var q := QualifiedArchive(st, st.archive);
    seq(|q|, i requires 0 <= i < |q| => Candidate(q[i].partNumber, ArchiveFields(q[i], SqlSum(GroupAmounts(q, q[i].partNumber)))))
  }

  /** select_qty's status test: spaces removed, ASCII lower-cased, equal to 'отправлено'. */
  predicate SentNormalized(st: Store, r: ArchiveRow) {
    exists s :: s in st.status && r.projectCode == Some(s.requestNumber) && s.status.Some?
      && SqlLower(ReplaceAll(s.status.value, " ", "")) == Sent
  }

  function QtyRows(st: Store, rows: seq<ArchiveRow>, key: string): (q: seq<ArchiveRow>)
    ensures forall i :: 0 <= i < |q| ==> q[i] in rows && q[i].partNumber == key && SentNormalized(st, q[i])
    ensures forall r :: r in rows && r.partNumber == key && SentNormalized(st, r) ==> r in q
    decreases |rows|
  {
    if rows == [] then []
    else
      var rest := QtyRows(st, rows[1..], key);
      if rows[0].partNumber == key && SentNormalized(st, rows[0]) then [rows[0]] + rest else rest
  }

  /** select_qty: the summed quantity and a request number of the archive rows of exactly `key`. */
  function ArchiveQty(st: Store, key: string): (r: Option<Cells>)
    ensures r.Some? <==> exists a :: a in st.archive && a.partNumber == key && SentNormalized(st, a)
    ensures r.Some? ==> r.value.Keys == {ArchiveQtyKey, RequestKey}
    ensures r.Some? ==> r.value[ArchiveQtyKey] == SqlSum(Amounts(QtyRows(st, st.archive, key)))
    ensures r.Some? ==> exists a :: a in QtyRows(st, st.archive, key) && r.value[RequestKey] == OptText(a.projectCode)
  {
    var q := QtyRows(st, st.archive, key);
    GroupAmountsOfGroup(q, key);
    if q == [] then None
    else Some(map[ArchiveQtyKey := SqlSum(GroupAmounts(q, key)), RequestKey := OptText(q[0].projectCode)])
  }

  function CategoryFields(m: MainCategoryRow): Cells {
    map[CategoryKey := OptText(m.category),
        RepairKey := if m.repair.Some? then VNum(m.repair.value as real) else VNone,
        LaborKey := if m.time.Some? then VNum(m.time.value) else VNone]
  }

  /** The comment, spaces removed and ASCII lower-cased, contains the rule's description treated alike. */
  predicate DescribedBy(c: CollisionRow, comment: string) {
    c.descriptionContent.Some? &&
    IsSubstring(SqlLower(ReplaceAll(c.descriptionContent.value, " ", "")), SqlLower(ReplaceAll(comment, " ", "")))
  }

  /** A main category with a collision rule of the same category that the comment triggers. */
  predicate CollisionHit(st: Store, comment: string, m: MainCategoryRow) {
    m.category.Some? && exists c :: c in st.collision && c.category == m.category && DescribedBy(c, comment)
  }

  /** CollisionRepository: the first main category a collision rule of the comment points to. */
  function CollisionAnswer(st: Store, comment: string): (r: Option<Cells>)
    ensures r.Some? <==> exists m :: m in st.mainCategory && CollisionHit(st, comment, m)
    ensures r.Some? ==> exists m :: m in st.mainCategory && CollisionHit(st, comment, m) && r.value == CategoryFields(m)
  {
    var i := FirstWhere(st.mainCategory, (m: MainCategoryRow) => CollisionHit(st, comment, m));
    if i.None? then None else Some(CategoryFields(st.mainCategory[i.value]))
  }

  /** The (main, second) category pairs with equal, non-NULL categories, main row major. */
  function CategoryPairs(ms: seq<MainCategoryRow>, ss: seq<SecondCategoryRow>): seq<Candidate>
    decreases |ms|
  {
    if ms == [] then []
    else (if ms[0].category.Some? then PairsWith(ms[0], ss) else []) + CategoryPairs(ms[1..], ss)
  }

  function PairsWith(m: MainCategoryRow, ss: seq<SecondCategoryRow>): seq<Candidate>
    decreases |ss|
  {
    if ss == [] then []
    else
      (if ss[0].category == m.category then [Candidate(ss[0].letters, CategoryFields(m))] else [])
      + PairsWith(m, ss[1..])
  }

  /** The pair of `m` and `s` is a row of the join. */
  predicate Joined(m: MainCategoryRow, s: SecondCategoryRow, c: Candidate) {
    m.category.Some? && s.category == m.category && c == Candidate(s.letters, CategoryFields(m))
  }

  lemma {:induction false} PairsWithMembers(m: MainCategoryRow, ss: seq<SecondCategoryRow>, c: Candidate)
    requires m.category.Some?
    ensures c in PairsWith(m, ss) <==> exists s :: s in ss && Joined(m, s, c)
    decreases |ss|
  {
    if ss != [] {
      PairsWithMembers(m, ss[1..], c);
      var head := if ss[0].category == m.category then [Candidate(ss[0].letters, CategoryFields(m))] else [];
      assert PairsWith(m, ss) == head + PairsWith(m, ss[1..]);
      if exists s :: s in ss && Joined(m, s, c) {
        var s :| s in ss && Joined(m, s, c);
        if s == ss[0] {
          assert c in head;
        } else {
          assert s in ss[1..];
        }
      }
      if c in head {
        assert Joined(m, ss[0], c);
      }
    }
  }

  /** The join holds every pair of rows with the same non-NULL category, and nothing else. */
  lemma {:induction false} CategoryPairsMembers(ms: seq<MainCategoryRow>, ss: seq<SecondCategoryRow>, c: Candidate)
    ensures c in CategoryPairs(ms, ss) <==> exists m, s :: m in ms && s in ss && Joined(m, s, c)
    decreases |ms|
  {
    if ms != [] {
      CategoryPairsMembers(ms[1..], ss, c);
      if ms[0].category.Some? {
        PairsWithMembers(ms[0], ss, c);
      }
      if exists m, s :: m in ms && s in ss && Joined(m, s, c) {
        var m, s :| m in ms && s in ss && Joined(m, s, c);
        if m != ms[0] {
          assert m in ms[1..];
        }
      }
    }
  }

  /** CategoryRepository: the longest `letters` that is a prefix of filter(key). */
  function CategoryAnswer(st: Store, key: string): (r: Option<Cells>)
    ensures r.None? <==> NoFit(CategoryPairs(st.mainCategory, st.secondCategory), PrefixOf(Filter(key)))
    ensures r.Some? ==> exists i: nat ::
      IsFirstLongest(CategoryPairs(st.mainCategory, st.secondCategory), PrefixOf(Filter(key)), i)
      && r.value == CategoryPairs(st.mainCategory, st.secondCategory)[i].fields
  {
    var cs := CategoryPairs(st.mainCategory, st.secondCategory);
    var i := FirstLongest(cs, PrefixOf(Filter(key)));
    if i.None? then None else Some(cs[i.value].fields)
  }

  /** The ШАССИ text; None values print as "None". */
  function ChassisText(r: ChassisRow): string {
    "Шасси! БП - " + Str(r.powerUnit) + ", FAN - " + Str(r.fanUnit) + ", Комментарий - " + Str(r.comment)
  }

  /** ChassisRepository: the first chassis whose part number starts with `key`. */
  function ChassisAnswer(st: Store, key: string): (r: Option<Cells>)
    ensures r.None? <==> forall c :: c in st.chassis ==> !IsPrefix(key, c.partNumber)
    ensures r.Some? ==> exists i :: (0 <= i < |st.chassis| && IsPrefix(key, st.chassis[i].partNumber)
      && (forall j :: 0 <= j < i ==> !IsPrefix(key, st.chassis[j].partNumber))
      && r.value == map[ChassisKey := VText(ChassisText(st.chassis[i]))])
  {
    var i := FirstWhere(st.chassis, (c: ChassisRow) => IsPrefix(key, c.partNumber));
    if i.None? then None else Some(map[ChassisKey := VText(ChassisText(st.chassis[i.value]))])
  }

  /** One repository call with its arguments. */
  datatype Query =
    | CodeBookOf(keys: seq<string>)
    | PurchaseBuyOf(keys: seq<string>)
    | PurchaseWantOf(keys: seq<string>)
    | ArchiveOf(keys: seq<string>)
    | ArchiveQtyOf(key: string)
    | CollisionOf(comment: string)
    | CategoryOf(key: string)
    | ChassisOf(key: string)

  function RepoOf(q: Query): Repo {
    match q
    case CodeBookOf(_) => CodeBookRepo
    case PurchaseBuyOf(_) => PurchaseBuyRepo
    case PurchaseWantOf(_) => PurchaseWantRepo
    case ArchiveOf(_) => ArchiveRepo
    case ArchiveQtyOf(_) => ArchiveQtyRepo
    case CollisionOf(_) => CollisionRepo
    case CategoryOf(_) => CategoryRepo
    case ChassisOf(_) => ChassisRepo
  }

  /** What the repository returns when its session works. */
  function Answer(st: Store, q: Query): Option<Cells> {
    match q
    case CodeBookOf(keys) => Quaryes(CodeBookCandidates(st), keys)
    case PurchaseBuyOf(keys) => Quaryes(PurchaseBuyCandidates(st), keys)
    case PurchaseWantOf(keys) => Quaryes(PurchaseWantCandidates(st), keys)
    case ArchiveOf(keys) => Quaryes(ArchiveCandidates(st), keys)
    case ArchiveQtyOf(key) => ArchiveQty(st, key)
    case CollisionOf(comment) => CollisionAnswer(st, comment)
    case CategoryOf(key) => CategoryAnswer(st, key)
    case ChassisOf(key) => ChassisAnswer(st, key)
  }

  /** `_execute_repository_query`: a failing call is logged and reads as "not found". */
  function Run(st: Store, q: Query): Option<Cells> {
    if RepoOf(q) in st.down then None else Answer(st, q)
  }

  /** A code-book hit comes from a row under an agreement and names it in ЗИП, found in 'Свод'. */
  lemma CodeBookHitAgreed(st: Store, keys: seq<string>)
    requires Answer(st, CodeBookOf(keys)).Some?
    ensures exists r :: (r in st.codeBook && UnderAgreement(st, r.appointment)
      && Get(Answer(st, CodeBookOf(keys)).value, ZipKey) == VText(r.partNumber)
      && Get(Answer(st, CodeBookOf(keys)).value, WhereFoundKey) == VText("Свод")
      && exists k :: k in keys && KeyFits(k, r.partNumber))
  {
    var i := QuaryesHit(CodeBookCandidates(st), keys);
    var r := Agreed(st, st.codeBook, CodeBookAppointment)[i];
  }

  /** A purchase hit comes from a purchase under an agreement, found in 'Закупка Закупаем'. */
  lemma PurchaseBuyHitAgreed(st: Store, keys: seq<string>)
    requires Answer(st, PurchaseBuyOf(keys)).Some?
    ensures exists r :: (r in st.purchaseBuy && UnderAgreement(st, r.appointment)
      && Get(Answer(st, PurchaseBuyOf(keys)).value, ZipKey) == VText(r.partNumber)
      && Get(Answer(st, PurchaseBuyOf(keys)).value, WhereFoundKey) == VText("Закупка Закупаем")
      && exists k :: k in keys && KeyFits(k, r.partNumber))
  {
    var i := QuaryesHit(PurchaseBuyCandidates(st), keys);
    var r := Agreed(st, st.purchaseBuy, PurchaseAppointment)[i];
  }

  /**
   * An archive hit comes from a row whose request was sent, under some
   * activity its appointment does not mention, and whose ЗИП is neither
   * NULL, '-' nor '0'.
   */
  lemma ArchiveHitQualifies(st: Store, keys: seq<string>)
    requires Answer(st, ArchiveOf(keys)).Some?
    ensures exists r :: (r in st.archive && ArchiveQualifies(st, r)
      && r.zipValues.Some? && r.zipValues.value != "-" && r.zipValues.value != "0"
      && Get(Answer(st, ArchiveOf(keys)).value, ZipKey) == r.zipLabel
      && Get(Answer(st, ArchiveOf(keys)).value, WhereFoundKey) == VText("Архив")
      && exists k :: k in keys && KeyFits(k, r.partNumber))
  {
    var r := ArchiveSearchHit(st, keys);
  }

  /**
   * A wanted-purchase hit names its row: ЗИП is its part number, it is found
   * in 'Закупка Хотим', НАЗНАЧЕНИЕ is its shop and the engineers' column is
   * its comment; some key finds its part number.
   */
  lemma PurchaseWantHit(st: Store, keys: seq<string>)
    requires Answer(st, PurchaseWantOf(keys)).Some?
    ensures exists r :: (r in st.purchaseWant
      && Get(Answer(st, PurchaseWantOf(keys)).value, ZipKey) == VText(r.partNumber)
      && Get(Answer(st, PurchaseWantOf(keys)).value, WhereFoundKey) == VText("Закупка Хотим")
      && Get(Answer(st, PurchaseWantOf(keys)).value, AppointmentKey) == OptText(r.shop)
      && Get(Answer(st, PurchaseWantOf(keys)).value, EngineersKey) == OptText(WantComment(r))
      && exists k :: k in keys && KeyFits(k, r.partNumber))
  {
    var r := PurchaseWantSearchHit(st, keys);
  }

  lemma PurchaseWantSearchHit(st: Store, keys: seq<string>) returns (r: PurchaseWantRow)
    requires Quaryes(PurchaseWantCandidates(st), keys).Some?
    ensures r in st.purchaseWant
    ensures Get(Quaryes(PurchaseWantCandidates(st), keys).value, ZipKey) == VText(r.partNumber)
    ensures Get(Quaryes(PurchaseWantCandidates(st), keys).value, WhereFoundKey) == VText("Закупка Хотим")
    ensures Get(Quaryes(PurchaseWantCandidates(st), keys).value, AppointmentKey) == OptText(r.shop)
    ensures Get(Quaryes(PurchaseWantCandidates(st), keys).value, EngineersKey) == OptText(WantComment(r))
    ensures exists k :: k in keys && KeyFits(k, r.partNumber)
  {
    var cs := PurchaseWantCandidates(st);
    var i := QuaryesHit(cs, keys);
    r := st.purchaseWant[i];
  }

  lemma ArchiveSearchHit(st: Store, keys: seq<string>) returns (r: ArchiveRow)
    requires Quaryes(ArchiveCandidates(st), keys).Some?
    ensures r in st.archive && ArchiveQualifies(st, r)
    ensures Get(Quaryes(ArchiveCandidates(st), keys).value, ZipKey) == r.zipLabel
    ensures Get(Quaryes(ArchiveCandidates(st), keys).value, WhereFoundKey) == VText("Архив")
    ensures exists k :: k in keys && KeyFits(k, r.partNumber)
  {
    var cs, q := ArchiveCandidates(st), QualifiedArchive(st, st.archive);
    var i := QuaryesHit(cs, keys);
    r := q[i];
    assert cs[i].fields == ArchiveFields(r, SqlSum(GroupAmounts(q, r.partNumber)));
  }
}
