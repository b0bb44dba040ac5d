/**
 * ORMQuary: the catalog cascade that fills a row dict (directory_books_query)
 * and the category resolution (category_query).
 */
module Orm {
  import opened Wrappers
  import opened Text
  import opened Records
  import opened Catalog
  import opened Eliminations

  /** `keys[0]` on an empty key list. */
  datatype QueryError = NoKeys

  /** The primary catalogs in the order they are consulted. */
  function PrimaryQueries(keys: seq<string>): seq<Query> {
    [CodeBookOf(keys), PurchaseBuyOf(keys), PurchaseWantOf(keys)]
  }

  /** The first call of `qs` that finds something. */
  function FirstAnswer(st: Store, qs: seq<Query>): Option<Cells>
    decreases |qs|
  {
    if qs == [] then None
    else if Run(st, qs[0]).Some? then Run(st, qs[0])
    else FirstAnswer(st, qs[1..])
  }

  /** `_find_primary_data`. */
  function PrimaryData(st: Store, keys: seq<string>): Option<Cells> {
    FirstAnswer(st, PrimaryQueries(keys))
  }

  /** CodeBook first, then PurchaseBuy, then PurchaseWant; the first that finds something wins. */
  lemma PrimaryCascade(st: Store, keys: seq<string>)
    ensures PrimaryData(st, keys) ==
      if Run(st, CodeBookOf(keys)).Some? then Run(st, CodeBookOf(keys))
      else if Run(st, PurchaseBuyOf(keys)).Some? then Run(st, PurchaseBuyOf(keys))
      else Run(st, PurchaseWantOf(keys))
  {
    var qs := PrimaryQueries(keys);
    assert qs[0] == CodeBookOf(keys);
    assert qs[1..][0] == PurchaseBuyOf(keys);
    assert qs[1..][1..][0] == PurchaseWantOf(keys);
    assert qs[1..][1..][1..] == [];
    var tail := qs[1..][1..];
    assert tail == [PurchaseWantOf(keys)] && tail[1..] == [];
    assert FirstAnswer(st, tail[1..]) == None;
    var last := FirstAnswer(st, tail);
    assert last == Run(st, PurchaseWantOf(keys));
    var middle := FirstAnswer(st, qs[1..]);
    assert middle == if Run(st, PurchaseBuyOf(keys)).Some? then Run(st, PurchaseBuyOf(keys)) else last;
  }

  /** `_merge_archive_data`: the archive quantity of exactly `key` is added when there is one. */
  function ArchiveMerged(st: Store, result: Cells, key: string): Cells {
    var qty := Run(st, ArchiveQtyOf(key));
    if qty.Some? then result + qty.value else result
  }

  /** Merging the archive adds at most QTY ИЗ АРХИВОВ and № ЗАПРОСА and keeps every other column. */
  lemma ArchiveMergeKeepsIdentity(st: Store, result: Cells, key: string)
    ensures ArchiveMerged(st, result, key).Keys <= result.Keys + {ArchiveQtyKey, RequestKey}
    ensures forall k :: k in result && k != ArchiveQtyKey && k != RequestKey ==>
      k in ArchiveMerged(st, result, key) && ArchiveMerged(st, result, key)[k] == result[k]
  {
  }

  /** `_merge_chassis_data`: ШАССИ is laid over the result, or becomes the whole result. */
  function ChassisMerged(st: Store, result: Option<Cells>, key: string): Option<Cells> {
    var chassis := Run(st, ChassisOf(key));
    if chassis.None? then result
    else if result.Some? then Some(result.value + chassis.value)
    else chassis
  }

  /** What directory_books_query merges into the row, if anything. */
  function DirectoryResult(st: Store, keys: seq<string>): Option<Cells>
    requires |keys| > 0
  {
    var primary := PrimaryData(st, keys);
    var found := if primary.Some? then Some(ArchiveMerged(st, primary.value, keys[0])) else Run(st, ArchiveOf(keys));
    ChassisMerged(st, found, keys[0])
  }

  /**
   * On a primary hit the primary columns survive, except the two archive
   * quantity columns and ШАССИ, which may be laid over them.
   */
  lemma DirectoryKeepsPrimary(st: Store, keys: seq<string>)
    requires |keys| > 0 && PrimaryData(st, keys).Some?
    ensures DirectoryResult(st, keys).Some?
    ensures forall k :: k in PrimaryData(st, keys).value && k !in {ArchiveQtyKey, RequestKey, ChassisKey} ==>
      k in DirectoryResult(st, keys).value && DirectoryResult(st, keys).value[k] == PrimaryData(st, keys).value[k]
  {
    var p := PrimaryData(st, keys).value;
    ArchiveMergeKeepsIdentity(st, p, keys[0]);
    var chassis := Run(st, ChassisOf(keys[0]));
    if chassis.Some? {
      assert chassis.value.Keys == {ChassisKey};
    }
  }

  /** On a primary miss the archive is searched over all keys, and nothing else identifies the part. */
  lemma DirectoryFallsBackToArchive(st: Store, keys: seq<string>)
    requires |keys| > 0 && PrimaryData(st, keys).None?
    ensures DirectoryResult(st, keys) == ChassisMerged(st, Run(st, ArchiveOf(keys)), keys[0])
  {
  }

  /** A chassis whose part number starts with keys[0] always puts ШАССИ in the result. */
  lemma DirectoryChassisOverlay(st: Store, keys: seq<string>, c: ChassisRow)
    requires |keys| > 0 && ChassisRepo !in st.down
    requires c in st.chassis && IsPrefix(keys[0], c.partNumber)
    ensures DirectoryResult(st, keys).Some? && ChassisKey in DirectoryResult(st, keys).value
  {
    var chassis := ChassisAnswer(st, keys[0]);
    assert chassis.Some?;
    assert ChassisKey in chassis.value;
    assert Run(st, ChassisOf(keys[0])) == chassis;
  }

  /** Failing repositories read as misses: with every repository down nothing is merged. */
  lemma DirectoryAllDown(st: Store, keys: seq<string>)
    requires |keys| > 0
    requires {CodeBookRepo, PurchaseBuyRepo, PurchaseWantRepo, ArchiveRepo, ChassisRepo} <= st.down
    ensures DirectoryResult(st, keys).None?
  {
    PrimaryCascade(st, keys);
  }

  /** The fixed category used when no rule applies. */
  const DefaultCategory: Cells := map[RepairKey := VNum(6001.0), LaborKey := VNum(4.0), CategoryKey := VText("EMPTY")]

  /** What category_query merges into the row. */
  function CategoryResult(st: Store, key: string, comment: string): Cells {
    var collision := if comment != "" then Run(st, CollisionOf(comment)) else None;
    if collision.Some? then collision.value
    else
      var category := Run(st, CategoryOf(key));
      if category.Some? then category.value else DefaultCategory
  }

  /** Every category answer carries the category, the repair count and the labour time. */
  lemma CategoryAnswerKeys(st: Store, key: string)
    requires CategoryAnswer(st, key).Some?
    ensures CategoryAnswer(st, key).value.Keys == {CategoryKey, RepairKey, LaborKey}
  {
    var cs := CategoryPairs(st.mainCategory, st.secondCategory);
    var i: nat :| IsFirstLongest(cs, PrefixOf(Filter(key)), i) && CategoryAnswer(st, key).value == cs[i].fields;
    CategoryPairsMembers(st.mainCategory, st.secondCategory, cs[i]);
  }

  /** After category_query the row always holds КАТЕГОРИЯ, РЕМОНТ and ТРУДОЗАТРАТЫ. */
  lemma CategoryKeysPresent(st: Store, key: string, comment: string)
    ensures {CategoryKey, RepairKey, LaborKey} <= CategoryResult(st, key, comment).Keys
  {
    if comment != "" && Run(st, CollisionOf(comment)).Some? {
    } else if Run(st, CategoryOf(key)).Some? {
      CategoryAnswerKeys(st, key);
    }
  }

  /** An empty comment never consults the collision rules. */
  lemma CategoryWithoutComment(st: Store, key: string)
    ensures CategoryResult(st, key, "") == if Run(st, CategoryOf(key)).Some? then Run(st, CategoryOf(key)).value else DefaultCategory
  {
  }

  /** The default applies exactly when neither the collision rule nor the prefix rule finds a category. */
  lemma CategoryDefaultIff(st: Store, key: string, comment: string)
    requires CollisionRepo !in st.down && CategoryRepo !in st.down
    ensures ((comment == "" || CollisionAnswer(st, comment).None?) && CategoryAnswer(st, key).None?) ==>
      CategoryResult(st, key, comment) == DefaultCategory
    ensures comment != "" && CollisionAnswer(st, comment).Some? ==>
      CategoryResult(st, key, comment) == CollisionAnswer(st, comment).value
    ensures (comment == "" || CollisionAnswer(st, comment).None?) && CategoryAnswer(st, key).Some? ==>
      CategoryResult(st, key, comment) == CategoryAnswer(st, key).value
  {
  }

  /** Every answer of a working repository is a non-empty dict, so `if result:` means "found". */
  lemma AnswerNonEmpty(st: Store, q: Query)
    requires Answer(st, q).Some?
    ensures Answer(st, q).value != map[]
  {
    match q
    case CodeBookOf(keys) =>
      var i := QuaryesHit(CodeBookCandidates(st), keys);
      assert ZipKey in Answer(st, q).value;
    case PurchaseBuyOf(keys) =>
      var i := QuaryesHit(PurchaseBuyCandidates(st), keys);
      assert ZipKey in Answer(st, q).value;
    case PurchaseWantOf(keys) =>
      var i := QuaryesHit(PurchaseWantCandidates(st), keys);
      assert ZipKey in Answer(st, q).value;
    case ArchiveOf(keys) =>
      var i := QuaryesHit(ArchiveCandidates(st), keys);
      assert ZipKey in Answer(st, q).value;
    case ArchiveQtyOf(key) =>
      assert ArchiveQtyKey in Answer(st, q).value;
    case CollisionOf(comment) =>
      assert CategoryKey in Answer(st, q).value;
    case CategoryOf(key) =>
      CategoryAnswerKeys(st, key);
      assert CategoryKey in Answer(st, q).value;
    case ChassisOf(key) =>
      assert ChassisKey in Answer(st, q).value;
  }

  class OrmQuary {
    /** The database the sessions of the session factory read. */
    const store: Store

    constructor (store: Store)
      ensures this.store == store
    {
      this.store := store;
    }

    /** `_execute_repository_query`: an exception inside the call is logged and becomes None. */
    method ExecuteRepositoryQuery(q: Query) returns (r: Option<Cells>)
      ensures RepoOf(q) in store.down ==> r.None?
      ensures RepoOf(q) !in store.down ==> r == Answer(store, q)
    {
      if RepoOf(q) in store.down {
        r := None;
      } else {
        r := Answer(store, q);
      }
    }

    /** `_find_primary_data`: the repositories in order, stopping at the first result. */
    method FindPrimaryData(keys: seq<string>) returns (r: Option<Cells>)
      ensures r == PrimaryData(store, keys)
    {
      var repositories := PrimaryQueries(keys);
      var i := 0;
      while i < |repositories|
        invariant 0 <= i <= |repositories|
        invariant FirstAnswer(store, repositories) == FirstAnswer(store, repositories[i..])
      {
        var result := ExecuteRepositoryQuery(repositories[i]);
        if result.Some? {
          return result;
        }
        assert repositories[i..][1..] == repositories[i + 1..];
        i := i + 1;
      }
      return None;
    }

    /** `_merge_archive_data`. */
    method MergeArchiveData(quaryResult: Cells, key: string) returns (r: Cells)
      ensures r == ArchiveMerged(store, quaryResult, key)
    {
      r := quaryResult;
      var qtyResult := ExecuteRepositoryQuery(ArchiveQtyOf(key));
      if qtyResult.Some? {
        r := r + qtyResult.value;
      }
    }

    /** `_find_archive_data`. */
    method FindArchiveData(keys: seq<string>) returns (r: Option<Cells>)
      ensures r == Run(store, ArchiveOf(keys))
    {
      r := ExecuteRepositoryQuery(ArchiveOf(keys));
    }

    /** `_merge_chassis_data`. */
    method MergeChassisData(quaryResult: Option<Cells>, key: string) returns (r: Option<Cells>)
      ensures r == ChassisMerged(store, quaryResult, key)
    {
      r := quaryResult;
      var chassisResult := ExecuteRepositoryQuery(ChassisOf(key));
      if chassisResult.Some? {
        if r.Some? {
          r := Some(r.value + chassisResult.value);
        } else {
          r := chassisResult;
        }
      }
    }

    /** directory_books_query: the cascade, merged into the row only when it found something. */
    method DirectoryBooksQuery(item: Row, keys: seq<string>) returns (o: Outcome<QueryError>)
      modifies item
      ensures |keys| == 0 ==> o == Fail(NoKeys) && item.cells == old(item.cells)
      ensures |keys| > 0 ==> o == Pass
      ensures |keys| > 0 ==>
        item.cells == (if DirectoryResult(store, keys).Some? then old(item.cells) + DirectoryResult(store, keys).value
                       else old(item.cells))
    {
      if |keys| == 0 {
        return Fail(NoKeys);
      }
      var quaryResult := FindPrimaryData(keys);
      if quaryResult.Some? {
        var merged := MergeArchiveData(quaryResult.value, keys[0]);
        quaryResult := Some(merged);
      } else {
        quaryResult := FindArchiveData(keys);
      }
      quaryResult := MergeChassisData(quaryResult, keys[0]);
      if quaryResult.Some? {
        item.Update(quaryResult.value);
      }
      return Pass;
    }

    /**
     * category_query: the collision rule when the filtered comment is
     * non-empty, then the prefix rule, then the fixed default.
     */
    method CategoryQuery(item: Row, key: string, comment: string)
      modifies item
      ensures item.cells == old(item.cells) + CategoryResult(store, key, comment)
    {
      var quaryResult: Cells := map[];
      if comment != "" {
        var collisionResult := ExecuteRepositoryQuery(CollisionOf(comment));
        if collisionResult.Some? {
          AnswerNonEmpty(store, CollisionOf(comment));
          quaryResult := quaryResult + collisionResult.value;
        }
      }
      if quaryResult == map[] {
        var categoryResult := ExecuteRepositoryQuery(CategoryOf(key));
        if categoryResult.Some? {
          quaryResult := quaryResult + categoryResult.value;
        } else {
          quaryResult := quaryResult + DefaultCategory;
        }
      }
      item.Update(quaryResult);
    }
  }
}
