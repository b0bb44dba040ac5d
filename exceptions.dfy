/**
 * ExceptionGenerator: the list of alias part numbers searched for one row.
 * A substitution table rewrites the part number, Cisco keys lose "R-", and
 * Huawei keys are replaced by the part and model found by a lookup service.
 */
module Exceptions {
  import opened Wrappers
  import opened Text
  import opened Records

  /** A table value: one replacement string, or a tuple of them. */
  datatype Replacement = One(s: string) | Many(ss: seq<string>)

  /** `repl if isinstance(repl, tuple) else (repl,)`. */
  function ReplValues(r: Replacement): (vs: seq<string>)
    ensures r.One? ==> vs == [r.s]
    ensures r.Many? ==> vs == r.ss
  {
    match r
    case One(s) => [s]
    case Many(ss) => ss
  }

  /** One entry of the table, in the dict's insertion order. */
  datatype Rule = Rule(trigger: string, repl: Replacement)

  /** The table used when none (or an empty one) is supplied. */
  const DefaultTable: seq<Rule> := [
    Rule("24", One("48")),
    Rule("48", One("24")),
    Rule("K7", Many(["K8", "K9"])),
    Rule("K8", Many(["K7", "K9"])),
    Rule("K9", Many(["K7", "K8"]))
  ]

  /** `exception or {...}`: None and the empty dict both select the default. */
  function EffectiveTable(table: Option<seq<Rule>>): (t: seq<Rule>)
    ensures table.Some? && table.value != [] ==> t == table.value
    ensures table.None? || table.value == [] ==> t == DefaultTable
  {
    if table.Some? && table.value != [] then table.value else DefaultTable
  }

  /**
   * The generator always works with a non-empty table, and choosing again
   * from the chosen table changes nothing.
   */
  lemma EffectiveTableChoice(table: Option<seq<Rule>>)
    ensures EffectiveTable(table) != []
    ensures EffectiveTable(Some(EffectiveTable(table))) == EffectiveTable(table)
    ensures table.Some? && table.value != [] ==> EffectiveTable(table) == table.value
  {
  }

  /** What one rule adds for `p`: `p.replace(trigger, r)` for each replacement value, in order. */
  function Fire(rule: Rule, p: string): (r: seq<string>)
    ensures !IsSubstring(rule.trigger, p) ==> r == []
    ensures IsSubstring(rule.trigger, p) ==> |r| == |ReplValues(rule.repl)|
    ensures forall k :: 0 <= k < |r| ==> r[k] == ReplaceAll(p, rule.trigger, ReplValues(rule.repl)[k])
  {
    var vs := ReplValues(rule.repl);
    if IsSubstring(rule.trigger, p) then seq(|vs|, k requires 0 <= k < |vs| => ReplaceAll(p, rule.trigger, vs[k]))
    else []
  }

  /** Everything the rules of `t` add for `p`, rule by rule in table order. */
  function Expansions(t: seq<Rule>, p: string): seq<string>
  {
    if t == [] then [] else Expansions(t[..|t| - 1], p) + Fire(t[|t| - 1], p)
  }

  /** `_replace_key(p)`: the part number itself, then its substitutions. */
  function ReplaceKeyOf(t: seq<Rule>, p: string): (r: seq<string>)
    ensures |r| >= 1 && r[0] == p
    ensures r[1..] == Expansions(t, p)
  {
    [p] + Expansions(t, p)
  }

  /** The substitutions of several part numbers, concatenated in order. */
  function ReplaceEach(t: seq<Rule>, pns: seq<string>): seq<string>
  {
    if pns == [] then [] else ReplaceEach(t, pns[..|pns| - 1]) + ReplaceKeyOf(t, pns[|pns| - 1])
  }

  lemma AppendAssociates<T>(a: seq<T>, b: seq<T>, c: seq<T>)
    ensures (a + b) + c == a + (b + c)
  {
  }

  lemma TakeDrop<T>(s: seq<T>, n: nat)
    requires n <= |s|
    ensures s[..n] + s[n..] == s
  {
  }

  /** Splitting the table splits the substitutions: rules are applied in table order. */
  lemma {:induction false} ExpansionsAppend(t1: seq<Rule>, t2: seq<Rule>, p: string)
    ensures Expansions(t1 + t2, p) == Expansions(t1, p) + Expansions(t2, p)
    decreases |t2|
  {
    if t2 == [] {
      assert t1 + t2 == t1;
    } else {
      var t, init := t1 + t2, t2[..|t2| - 1];
      assert t[..|t| - 1] == t1 + init;
      assert t[|t| - 1] == t2[|t2| - 1];
      ExpansionsAppend(t1, init, p);
      AppendAssociates(Expansions(t1, p), Expansions(init, p), Fire(t2[|t2| - 1], p));
    }
  }

  lemma ExpansionsStep(t: seq<Rule>, i: nat, p: string)
    requires i < |t|
    ensures Expansions(t[..i + 1], p) == Expansions(t[..i], p) + Fire(t[i], p)
  {
    assert t[..i + 1][..i] == t[..i];
  }

  /** When no trigger occurs in `p`, `_replace_key(p)` is exactly `[p]`. */
  lemma {:induction false} NoTriggerSingleton(t: seq<Rule>, p: string)
    requires forall i :: 0 <= i < |t| ==> !IsSubstring(t[i].trigger, p)
    ensures ReplaceKeyOf(t, p) == [p]
    decreases |t|
  {
    if t != [] {
      NoTriggerSingleton(t[..|t| - 1], p);
    }
  }

  /** `x` is one of the keys `rule` produces from `p`. */
  predicate FiredBy(rule: Rule, p: string, x: string) {
    IsSubstring(rule.trigger, p) &&
    exists k :: 0 <= k < |ReplValues(rule.repl)| && x == ReplaceAll(p, rule.trigger, ReplValues(rule.repl)[k])
  }

  lemma FireMembers(rule: Rule, p: string, x: string)
    ensures x in Fire(rule, p) <==> FiredBy(rule, p, x)
  {
    if x in Fire(rule, p) {
      var k :| 0 <= k < |Fire(rule, p)| && Fire(rule, p)[k] == x;
    }
    if FiredBy(rule, p, x) {
      var k :| 0 <= k < |ReplValues(rule.repl)| && x == ReplaceAll(p, rule.trigger, ReplValues(rule.repl)[k]);
      assert Fire(rule, p)[k] == x;
    }
  }

  /**
   * Substitutions are never chained: every added key is one replacement
   * applied to the original `p` by one rule whose trigger occurs in `p`,
   * and every such key is added.
   */
  lemma {:induction false} ExpansionsMembers(t: seq<Rule>, p: string, x: string)
    ensures x in Expansions(t, p) <==> exists i :: 0 <= i < |t| && FiredBy(t[i], p, x)
    decreases |t|
  {
    if t != [] {
      var init, last := t[..|t| - 1], t[|t| - 1];
      ExpansionsMembers(init, p, x);
      FireMembers(last, p, x);
      assert forall i :: 0 <= i < |init| ==> init[i] == t[i];
      if exists i :: 0 <= i < |t| && FiredBy(t[i], p, x) {
        var i :| 0 <= i < |t| && FiredBy(t[i], p, x);
        if i < |t| - 1 {
          assert FiredBy(init[i], p, x);
        }
      }
    }
  }

  /** The number of keys the rules of `t` add for `p`. */
  function FiredCount(t: seq<Rule>, p: string): nat
  {
    if t == [] then 0
    else FiredCount(t[..|t| - 1], p) + (if IsSubstring(t[|t| - 1].trigger, p) then |ReplValues(t[|t| - 1].repl)| else 0)
  }

  /** `_replace_key(p)` has one key plus one per replacement value of each firing rule. */
  lemma {:induction false} ReplaceKeyLength(t: seq<Rule>, p: string)
    ensures |ReplaceKeyOf(t, p)| == 1 + FiredCount(t, p)
    decreases |t|
  {
    if t != [] {
      ReplaceKeyLength(t[..|t| - 1], p);
    }
  }

  lemma Replace24In2448()
    ensures ReplaceAll("2448", "24", "48") == "4848"
  {
    assert "2448"[..2] == "24" && "2448"[2..] == "48";
    assert ReplaceAll("48", "24", "48") == "48" by {
      assert "48"[..2] != "24" && "48"[1..] == "8";
    }
  }

  lemma Replace48In2448()
    ensures ReplaceAll("2448", "48", "24") == "2424"
  {
    assert "2448"[..2] != "48" && "2448"[1..] == "448";
    assert "448"[..2] != "48" && "448"[1..] == "48";
    assert "48"[..2] == "48" && "48"[2..] == "";
  }

  lemma DefaultFires()
    ensures Fire(DefaultTable[0], "2448") == ["4848"] && Fire(DefaultTable[1], "2448") == ["2424"]
  {
    SubstringAt("24", "2448", 0);
    SubstringAt("48", "2448", 2);
    Replace24In2448();
    Replace48In2448();
  }

  lemma KRulesSilent(p: string)
    requires forall i :: 0 <= i < |p| ==> p[i] != 'K'
    ensures Fire(DefaultTable[2], p) == [] && Fire(DefaultTable[3], p) == [] && Fire(DefaultTable[4], p) == []
  {
    NoSubstringWithForeignChar("K7", p, 0);
    NoSubstringWithForeignChar("K8", p, 0);
    NoSubstringWithForeignChar("K9", p, 0);
  }

  /** No K rule of the default table fires on a key without a K. */
  lemma DefaultKRules(p: string)
    requires forall i :: 0 <= i < |p| ==> p[i] != 'K'
    ensures Expansions(DefaultTable, p) == Expansions(DefaultTable[..2], p)
  {
    var t := DefaultTable;
    KRulesSilent(p);
    ExpansionsStep(t, 2, p);
    ExpansionsStep(t, 3, p);
    ExpansionsStep(t, 4, p);
    TakeDrop(t, 5);
  }

  lemma DefaultSwapRules()
    ensures Expansions(DefaultTable[..2], "2448") == ["4848", "2424"]
  {
    var p, t := "2448", DefaultTable;
    DefaultFires();
    assert t[..0] == [];
    ExpansionsStep(t, 0, p);
    ExpansionsStep(t, 1, p);
  }

  /** In the default table 24 and 48 swap, and each substitution starts from the original key. */
  lemma DefaultSwapsNotChained()
    ensures ReplaceKeyOf(DefaultTable, "2448") == ["2448", "4848", "2424"]
  {
    DefaultSwapRules();
    DefaultKRules("2448");
  }

  /** The errors generate_exceptions raises. */
  datatype GenError =
    | VendorIsNone      // `vendor.upper()` on None
    | ParsUnbound       // MODEL/PN already set while no lookup was made
    | ParsNotIterable   // MODEL/PN already set while the lookup returned None

  /** The vendor names compared, as `vendor.upper()` gives them. */
  const Huawei := "HUAWEI"
  const Cisco := "CISCO"
  const CiscoMarker := "R-"

  /** The vendor tests ignore case: "cisco", "Cisco" and "cIsCo" all select the Cisco branch. */
  lemma CiscoVendorIgnoresCase(vendor: string)
    ensures UpperStr(vendor) == Cisco <==>
      |vendor| == 5 && forall i :: 0 <= i < 5 ==> CaseVariant(vendor[i], Cisco[i])
  {
    UpperStrMatchesIgnoringCase(vendor, Cisco);
  }

  lemma HuaweiVendorIgnoresCase(vendor: string)
    ensures UpperStr(vendor) == Huawei <==>
      |vendor| == 6 && forall i :: 0 <= i < 6 ==> CaseVariant(vendor[i], Huawei[i])
  {
    UpperStrMatchesIgnoringCase(vendor, Huawei);
  }

  /**
   * generate_exceptions, as a function of the row before the call: the
   * result and the row afterwards.
   */
  function Expand(t: seq<Rule>, lookup: string -> Option<seq<string>>, cells: Cells,
                  key: string, vendor: Option<string>): (Result<seq<string>, GenError>, Cells)
  {
    if vendor.None? then (Failure(VendorIsNone), cells)
    else if UpperStr(vendor.value) == Huawei then ExpandHuaweiCase(t, cells, key, lookup(key))
    else
      var head := if UpperStr(vendor.value) == Cisco && IsSubstring(CiscoMarker, key) then [ReplaceAll(key, CiscoMarker, "")] else [];
      ExpandOtherCase(t, cells, key, head)
  }

  /** The Huawei branch, given what the lookup returned. */
  function ExpandHuaweiCase(t: seq<Rule>, cells: Cells, key: string, pars: Option<seq<string>>): (Result<seq<string>, GenError>, Cells)
  {
    var after := if pars.Some? && pars.value != [] then cells[ModelPnKey := VText(Join(", ", pars.value))] else cells;
    if !Truthy(Get(after, ModelPnKey)) then (Success(ReplaceKeyOf(t, key)), after)
    else if pars.None? then (Failure(ParsNotIterable), after)
    else (Success(ReplaceEach(t, pars.value)), after)
  }

  /** Every other vendor, after the optional Cisco strip produced `head`. */
  function ExpandOtherCase(t: seq<Rule>, cells: Cells, key: string, head: seq<string>): (Result<seq<string>, GenError>, Cells)
  {
    if Truthy(Get(cells, ModelPnKey)) then (Failure(ParsUnbound), cells)
    else (Success(head + ReplaceKeyOf(t, key)), cells)
  }

  lemma {:induction false} JoinNonEmpty(sep: string, parts: seq<string>)
    requires sep != [] && (|parts| > 1 || (|parts| == 1 && parts[0] != ""))
    ensures Join(sep, parts) != ""
  {
    if |parts| > 1 {
      assert |Join(sep, parts)| >= |sep|;
    }
  }

  /**
   * Huawei with a lookup result that joins to a non-empty string: MODEL/PN
   * is set to the joined list and the keys are the substitutions of the
   * looked-up part numbers; the original key is not among the seeds.
   */
  lemma ExpandHuawei(t: seq<Rule>, lookup: string -> Option<seq<string>>, cells: Cells,
                     key: string, vendor: string, pars: seq<string>)
    requires UpperStr(vendor) == Huawei
    requires lookup(key) == Some(pars)
    requires |pars| > 1 || (|pars| == 1 && pars[0] != "")
    ensures Expand(t, lookup, cells, key, Some(vendor))
      == (Success(ReplaceEach(t, pars)), cells[ModelPnKey := VText(Join(", ", pars))])
  {
    JoinNonEmpty(", ", pars);
    var after := cells[ModelPnKey := VText(Join(", ", pars))];
    assert Truthy(Get(after, ModelPnKey));
  }

  /** Cisco with "R-" in the key: the stripped key comes first, then `_replace_key(key)`. */
  lemma ExpandCisco(t: seq<Rule>, lookup: string -> Option<seq<string>>, cells: Cells,
                    key: string, vendor: string)
    requires UpperStr(vendor) == Cisco && IsSubstring(CiscoMarker, key)
    requires !Truthy(Get(cells, ModelPnKey))
    ensures Expand(t, lookup, cells, key, Some(vendor))
      == (Success([ReplaceAll(key, CiscoMarker, "")] + ReplaceKeyOf(t, key)), cells)
  {
  }

  /** Any other vendor, with MODEL/PN not set: `_replace_key(key)` and the row is untouched. */
  lemma ExpandOther(t: seq<Rule>, lookup: string -> Option<seq<string>>, cells: Cells,
                    key: string, vendor: string)
    requires UpperStr(vendor) != Huawei
    requires !(UpperStr(vendor) == Cisco && IsSubstring(CiscoMarker, key))
    requires !Truthy(Get(cells, ModelPnKey))
    ensures Expand(t, lookup, cells, key, Some(vendor)) == (Success(ReplaceKeyOf(t, key)), cells)
  {
    assert [] + ReplaceKeyOf(t, key) == ReplaceKeyOf(t, key);
  }

  /**
   * The call fails exactly when the vendor is None, or MODEL/PN is already
   * set while the lookup was not made or returned None.
   */
  lemma ExpandFailsIff(t: seq<Rule>, lookup: string -> Option<seq<string>>, cells: Cells,
                       key: string, vendor: Option<string>)
    ensures Expand(t, lookup, cells, key, vendor).0.Failure? <==>
      vendor.None? ||
      (Truthy(Get(cells, ModelPnKey)) && (UpperStr(vendor.value) != Huawei || lookup(key).None?))
  {
  }

  /** Only MODEL/PN can change, and only for Huawei. */
  lemma ExpandFrame(t: seq<Rule>, lookup: string -> Option<seq<string>>, cells: Cells,
                    key: string, vendor: Option<string>)
    ensures Expand(t, lookup, cells, key, vendor).1 - {ModelPnKey} == cells - {ModelPnKey}
    ensures vendor.None? || UpperStr(vendor.value) != Huawei ==> Expand(t, lookup, cells, key, vendor).1 == cells
  {
  }

  /** A key made only of letters and digits has no "R-", so the Cisco strip cannot fire on it. */
  lemma CiscoStripNeedsHyphen(key: string)
    requires forall i :: 0 <= i < |key| ==> IsUpperAlnum(key[i])
    ensures !IsSubstring(CiscoMarker, key)
  {
    NoSubstringWithForeignChar(CiscoMarker, key, 1);
  }

  class ExceptionGenerator {
    /** The Huawei part/model lookup service. */
    const lookup: string -> Option<seq<string>>
    /** The substitution table in insertion order. */
    const exception: seq<Rule>

    constructor (lookup: string -> Option<seq<string>>, table: Option<seq<Rule>>)
      ensures this.lookup == lookup
      ensures exception == EffectiveTable(table)
    {
      this.lookup := lookup;
      exception := EffectiveTable(table);
    }

    /** The inner loop of `_replace_key`: appends what one rule produces for `partNum`. */
    method ExtendWithRule(result: seq<string>, rule: Rule, partNum: string) returns (extended: seq<string>)
      ensures extended == result + Fire(rule, partNum)
    {
      extended := result;
      if IsSubstring(rule.trigger, partNum) {
        var vs := ReplValues(rule.repl);
        ghost var fired := Fire(rule, partNum);
        var j := 0;
        while j < |vs|
          invariant 0 <= j <= |vs|
          invariant extended == result + fired[..j]
        {
          extended := extended + [ReplaceAll(partNum, rule.trigger, vs[j])];
          assert fired[..j + 1] == fired[..j] + [fired[j]];
          j := j + 1;
        }
        assert fired[..j] == fired;
      }
    }

    /** `_replace_key`: one pass over the table, extending the result per firing rule. */
    method ReplaceKey(partNum: string) returns (result: seq<string>)
      ensures result == ReplaceKeyOf(exception, partNum)
    {
      result := [partNum];
      var i := 0;
      while i < |exception|
        invariant 0 <= i <= |exception|
        invariant result == [partNum] + Expansions(exception[..i], partNum)
      {
        ExpansionsStep(exception, i, partNum);
        AppendAssociates([partNum], Expansions(exception[..i], partNum), Fire(exception[i], partNum));
        result := ExtendWithRule(result, exception[i], partNum);
        i := i + 1;
      }
      assert exception[..i] == exception;
    }

    /** generate_exceptions: the alias keys of `key`; may set MODEL/PN on the row. */
    method GenerateExceptions(item: Row, key: string, vendor: Option<string>) returns (r: Result<seq<string>, GenError>)
      modifies item
      ensures (r, item.cells) == Expand(exception, lookup, old(item.cells), key, vendor)
    {
      if vendor.None? {
        return Failure(VendorIsNone);
      }
      var partNumbers: seq<string> := [];
      var v := UpperStr(vendor.value);
      var pars: Option<seq<string>> := None;
      if v == Huawei {
        pars := lookup(key);
        if pars.Some? && pars.value != [] {
          item.Set(ModelPnKey, VText(Join(", ", pars.value)));
        }
      } else if v == Cisco && IsSubstring(CiscoMarker, key) {
        partNumbers := partNumbers + [ReplaceAll(key, CiscoMarker, "")];
        assert partNumbers == [ReplaceAll(key, CiscoMarker, "")];
      }
      if Truthy(Get(item.cells, ModelPnKey)) {
        if v != Huawei {
          return Failure(ParsUnbound);
        }
        if pars.None? {
          return Failure(ParsNotIterable);
        }
        var seeds := pars.value;
        var expanded: seq<string> := [];
        var i := 0;
        ghost var after := item.cells;
        while i < |seeds|
          invariant 0 <= i <= |seeds|
          invariant item.cells == after
          invariant expanded == ReplaceEach(exception, seeds[..i])
        {
          var keys := ReplaceKey(seeds[i]);
          assert seeds[..i + 1][..i] == seeds[..i];
          expanded := expanded + keys;
          i := i + 1;
        }
        assert seeds[..i] == seeds;
        assert partNumbers == [];
        partNumbers := partNumbers + expanded;
        assert partNumbers == expanded;
      } else {
        var keys := ReplaceKey(key);
        ghost var head := partNumbers;
        partNumbers := partNumbers + keys;
        assert v == Huawei ==> head == [] && partNumbers == keys;
      }
      return Success(partNumbers);
    }
  }
}
