# Part-number resolution and pricing of one spreadsheet row

This project models the core of a presale robot. It reads customer request
sheets and, for every row, does the following:

1. normalises the part number;
2. expands it into alias keys (the `24`/`48` and `K7`/`K8`/`K9` substitutions, the Cisco `R-` strip, and the Huawei part/model lookup);
3. looks the aliases up in the company catalogs:
   - the code book, the two purchase tables and the archive;
   - the chassis table is laid over the result;
4. resolves a service category (collision rule, then longest letter prefix, then a fixed default);
5. computes discounted per-unit repair cost and labour time;
6. asks a marketplace for a price, unless the category is a licence or software.

The model is written in Dafny and follows the program's structure:

| module | file | models |
|---|---|---|
| `Wrappers` | wrappers.dfy | `Option`, `Result`, `Outcome` |
| `Text` | text.dfy | the string operations the code relies on: `isalpha`/`isnumeric`/`isalnum`/`isspace`/`upper` over ASCII and basic Cyrillic, SQLite `lower()`, `str.replace`, `str.join`, `in` |
| `Records` | records.dfy | the row dict (`Row`, a class whose `cells` map every stage updates in place), Python truthiness, the column labels |
| `Eliminations` | eliminations.dfy | `EliminationFilter.filter` |
| `PartNumberFilter` | part_number_filter.dfy | `normalize_part_number`, `calculate_similarity_score` (the fuzzy ratio is a parameter) |
| `ValidateData` | validate_data.dfy | the pydantic validators of `InputData` and `DataGenerate` |
| `Exceptions` | exceptions.dfy | `ExceptionGenerator` (class; `_replace_key` and `generate_exceptions` are loops over the rule table and the seeds) |
| `Catalog` | catalog.dfy | the catalog tables as sequences of rows, the SQL filters as predicates, `search_by_part_number`, `quaryes` and every repository query |
| `Orm` | orm.dfy | `ORMQuary` (class): the repository cascade and the category resolution, updating the row in place |
| `Collection` | collection.dfy | `Economics.costs_by_category` |
| `App` | app.dfy | `AppCoordinator._collection_data`: sheets and rows in order, each stage on the same row dict |

Where the code and its own
comments disagree, the model follows the code. `normalize_part_number`'s
docstring promises to keep hyphens, but its pattern removes them, so
`NormalizeDropsHyphenAndYo` and `StructureBonusAlwaysOne` state the code's
behaviour. Every exception the program raises becomes a `Failure` or `Fail`
value naming the error.

Values of the database and of the row dict:
- SQL NULL and Python None are `None`/`VNone`.
- Numbers are exact reals; the factors 0.75, 0.5 and 0.2 are exact.
- The tables are plain sequences in table order.
- SQL leaves ties unspecified. As a modelling choice, a query with `ORDER BY length(part_number) DESC LIMIT 1` is taken to return the first row of greatest length.
- Likewise, a query with no ordering is taken to return the first matching row.
- A failing repository call is a member of `Store.down`, and the wrapper turns it into `None`.

## Model

| member | source | states |
|---|---|---|
| Text.Upper | core/domain_events/eliminations.py:12 | a lower-case letter becomes a different, upper-case letter that `Lower` maps back to it; every other character, upper-case letters included, is left unchanged; letters and digits stay letters and digits |
| Text.UpperInjective | core/domain_events/eliminations.py:12 | two different lower-case letters never upper-case to the same letter |
| Text.UpperStrMatchesIgnoringCase | core/domain_events/exceptions.py:35 | `v.upper()` equals a word of ASCII capitals exactly when `v` has the word's length and each of its characters is that letter in either case |
| Text.SqlLower | infrastructure/database/orm/orm_repository.py:242-243 | every ASCII capital becomes a lower-case letter that upper-cases back to it; every other character, Cyrillic included, is unchanged; no ASCII capital remains |
| Text.SqlLowerFixes | infrastructure/database/orm/orm_repository.py:242-243 | a string without ASCII capitals is its own SQLite lower-case form |
| Catalog.CapitalStatusNotSent | infrastructure/database/orm/orm_repository.py:242-243 | a status written in Cyrillic capitals is not lowered and never reads as 'отправлено' |
| Text.ReplaceAbsent | core/domain_events/exceptions.py:26-28 | `str.replace` of an absent target returns the string unchanged |
| Text.ReplacePresent | core/domain_events/exceptions.py:26-28 | when the target occurs, the replacement occurs in the result |
| Records.Get | core/domain_events/exceptions.py:42 | `item.get(key)` is the stored value, or None for a missing key |
| Records.Row.Set | core/domain_events/exceptions.py:38 | `item[key] = v` changes exactly that entry |
| Records.Row.Update | infrastructure/database/orm/orm_repository.py:363 | `item.update(d)` overrides with `d` and keeps every other entry |
| Eliminations.Filter | core/domain_events/eliminations.py:9-12 | the result is no longer than the input and holds only upper-case letters and digits |
| Eliminations.FilterAppend | core/domain_events/eliminations.py:11-12 | filtering distributes over concatenation: characters are judged one at a time |
| Eliminations.FilterFixesUpperAlnum | core/domain_events/eliminations.py:11-12 | a string of upper-case letters and digits is its own filter |
| Eliminations.FilterIdempotent | core/domain_events/eliminations.py:10-12 | `filter(filter(x)) == filter(x)` |
| Eliminations.FilterEmptyIff | core/domain_events/eliminations.py:11-12 | the result is empty exactly when the input has no letter or digit; it never fails |
| Eliminations.FilterIsUpperSubsequence | core/domain_events/eliminations.py:11-12 | the result is the upper-cased letters and digits of the input, all of them, in their original order |
| Eliminations.FilterOfNone | core/domain_events/eliminations.py:11 | `str(None)` is filtered to "NONE", not to "" |
| PartNumberFilter.Normalize | core/domain_events/part_number_filter.py:11-16 | the result is no longer than the input and holds only A-Z, А-Я (without Ё) and digits |
| PartNumberFilter.NormalizeIsUpperSubsequence | core/domain_events/part_number_filter.py:11-16 | every character of `[A-Za-zА-Яа-я0-9]` survives, upper-cased and in order, and nothing else does |
| PartNumberFilter.NormalizeOfLowerCase | core/domain_events/part_number_filter.py:15-16 | lower-case pattern letters come out as capitals: "a" gives "A", "я-1" gives "Я1" |
| PartNumberFilter.NormalizeFixesNormal | core/domain_events/part_number_filter.py:15-16 | a normalised string is its own normal form |
| PartNumberFilter.NormalizeIdempotent | core/domain_events/part_number_filter.py:15-16 | normalisation is idempotent |
| PartNumberFilter.NormalizeDropsHyphenAndYo | core/domain_events/part_number_filter.py:13-15 | hyphens, Ё and ё never survive, whatever the docstring says |
| PartNumberFilter.NormalizeAppend | core/domain_events/part_number_filter.py:15 | normalisation distributes over concatenation |
| PartNumberFilter.RelativeDifference | core/domain_events/part_number_filter.py:28-30 | `length_diff / max_len` lies in [0, 1] and is 0 exactly when the lengths are equal |
| PartNumberFilter.SquarePenalty | core/domain_events/part_number_filter.py:30 | `max(0, 1 - x ** 2)` lies in [0, 1] and is 1 exactly when `x` is 0 |
| PartNumberFilter.LengthPenalty | core/domain_events/part_number_filter.py:28-30 | the penalty lies in [0, 1] and is 1 exactly when the lengths are equal |
| PartNumberFilter.StructureBonusAlwaysOne | core/domain_events/part_number_filter.py:32-34 | after normalisation both hyphen counts are 0, so the structure bonus is always 1.0 |
| PartNumberFilter.ScoreNormalizesFirst | core/domain_events/part_number_filter.py:23-24 | the score of two strings is the score of their normal forms |
| PartNumberFilter.ScoreFailsIff | core/domain_events/part_number_filter.py:28-30 | the score raises ZeroDivisionError exactly when both strings normalise to "" |
| PartNumberFilter.ScoreAtMostRatio | core/domain_events/part_number_filter.py:26-41 | for a non-negative ratio the score is non-negative and at most the ratio |
| PartNumberFilter.ScoreOfEqualKeys | core/domain_events/part_number_filter.py:26-41 | identical non-empty normal forms score exactly the ratio |
| PartNumberFilter.SuffixBonusValues | core/domain_events/part_number_filter.py:36-39 | the bonus is 1.0 exactly when the last three characters (or whole strings, when shorter) agree, and 0.95 otherwise |
| ValidateData.ValidateAmount | core/entities/validate_data.py:12-23 | strings and None give 0; a non-number is rejected; a number is rejected exactly when it is fractional, and is otherwise returned as an int (bool as 0/1) |
| ValidateData.ValidatePartNumber | core/entities/validate_data.py:25-34 | None and blank strings are rejected; acceptance holds exactly when the string has a letter or digit, and the accepted value is the filtered, upper-cased, non-empty string |
| ValidateData.ValidatePartNumberIdempotent | core/entities/validate_data.py:30-31 | re-validating an accepted part number returns it unchanged |
| ValidateData.MakeInputData | core/entities/validate_data.py:5-34 | a row validates exactly when both field validators accept, and carries their values and the optional fields as given |
| ValidateData.AliasesCount | core/entities/validate_data.py:43 | the five aliases are distinct |
| ValidateData.IntersectionCardinality | core/entities/validate_data.py:44 | comparing the size of the intersection with the alias count is the subset test |
| ValidateData.ValidateInputDataBefore | core/entities/validate_data.py:41-46 | accepted exactly when there is a first record and its keys include all five aliases; no records is an IndexError; the records pass through unchanged |
| ValidateData.AcceptanceIgnoresRest | core/entities/validate_data.py:44 | extra keys and later records never turn an accepted input into a rejected one |
| Exceptions.EffectiveTableChoice | core/domain_events/exceptions.py:14-20 | the generator's table is never empty, a non-empty table given to it is kept, and choosing again from the chosen table changes nothing |
| Exceptions.ExpansionsAppend | core/domain_events/exceptions.py:25 | rules are applied in table order: splitting the table splits the result |
| Exceptions.NoTriggerSingleton | core/domain_events/exceptions.py:24-29 | when no trigger occurs in `p` the result is exactly `[p]` |
| Exceptions.FireMembers | core/domain_events/exceptions.py:26-28 | the strings a rule adds are exactly the replacements of its trigger in `p` |
| Exceptions.ExpansionsMembers | core/domain_events/exceptions.py:25-28 | a string is an expansion exactly when some firing rule produces it from the original `p` |
| Exceptions.ReplaceKeyLength | core/domain_events/exceptions.py:26-28 | the result has 1 plus the total number of replacements of the firing rules: substitutions are never chained |
| Exceptions.Replace24In2448 | core/domain_events/exceptions.py:28 | `"2448".replace("24", "48") == "4848"` |
| Exceptions.Replace48In2448 | core/domain_events/exceptions.py:28 | `"2448".replace("48", "24") == "2424"` |
| Exceptions.DefaultKRules | core/domain_events/exceptions.py:14-28 | on a key without a K, the K7, K8 and K9 rules of the default table add nothing |
| Exceptions.DefaultSwapsNotChained | core/domain_events/exceptions.py:14-29 | with the default table, "2448" gives ["2448", "4848", "2424"]: each swap starts from the original |
| Exceptions.ExpandHuawei | core/domain_events/exceptions.py:35-46 | Huawei with a lookup result that joins to a non-empty string sets MODEL/PN to the joined list and returns the substitutions of the looked-up numbers only |
| Exceptions.ExpandCisco | core/domain_events/exceptions.py:39-48 | Cisco with "R-" in the key gives the stripped key first, then `_replace_key(key)`, and leaves the row untouched |
| Exceptions.ExpandOther | core/domain_events/exceptions.py:42-48 | any other vendor without MODEL/PN gives `_replace_key(key)` and leaves the row untouched |
| Exceptions.ExpandFailsIff | core/domain_events/exceptions.py:35-46 | the call fails exactly when the vendor is None, or MODEL/PN is already set while the lookup was not made or returned None |
| Exceptions.ExpandFrame | core/domain_events/exceptions.py:38 | only MODEL/PN can change, and only for Huawei |
| Exceptions.CiscoStripNeedsHyphen | core/domain_events/exceptions.py:39 | a key of letters and digits only never contains "R-" |
| Exceptions.CiscoVendorIgnoresCase | core/domain_events/exceptions.py:39 | the Cisco branch is taken exactly for a five-letter vendor spelling "cisco" in any mix of cases |
| Exceptions.HuaweiVendorIgnoresCase | core/domain_events/exceptions.py:35 | the Huawei branch is taken exactly for a six-letter vendor spelling "huawei" in any mix of cases |
| Exceptions.ExceptionGenerator.constructor | core/domain_events/exceptions.py:11-20 | the generator keeps the lookup and the effective table |
| Exceptions.ExceptionGenerator.ExtendWithRule | core/domain_events/exceptions.py:26-28 | extending the list with one rule appends exactly what `Fire` says that rule adds |
| Exceptions.ExceptionGenerator.ReplaceKey | core/domain_events/exceptions.py:22-29 | the loop over the table builds exactly `ReplaceKeyOf`: the part number, then each rule's replacements in table order (see ReplaceKeyLength, ExpansionsMembers) |
| Exceptions.ExceptionGenerator.GenerateExceptions | core/domain_events/exceptions.py:31-49 | the result and the new row are those of `Expand` on the old row |
| Catalog.FirstWhere | infrastructure/database/orm/orm_repository.py:284-285 | `.first()` of a filter: the least index that matches, or None exactly when nothing matches |
| Catalog.FirstLongest | infrastructure/database/orm/orm_repository.py:121-122 | ORDER BY length DESC LIMIT 1: None exactly when no row fits, otherwise the earliest row of greatest length among those that fit |
| Catalog.FirstLongestUnique | infrastructure/database/orm/orm_repository.py:122 | the chosen row is unique |
| Catalog.SearchSpec | infrastructure/database/orm/orm_repository.py:25-89 | nothing is found exactly when no strategy matches a row; otherwise the hit is the first longest row of the first strategy (exact, contains, reverse) that matches |
| Catalog.SearchMarksPartial | infrastructure/database/orm/orm_repository.py:65-88 | a hit carries match_type 'partial' exactly when the exact strategy missed |
| Catalog.QuaryesSpec | infrastructure/database/orm/orm_repository.py:92-99 | the keys are tried in list order; the result is the first key's hit, or None when every key misses |
| Catalog.QuaryesHit | infrastructure/database/orm/orm_repository.py:92-99 | every hit is the row dict of one candidate, possibly marked partial, whose ordering column one of the keys finds (equal, contained or containing) |
| Catalog.SqlSum | infrastructure/database/orm/orm_repository.py:192 | SQL `sum` is NULL exactly when every value is NULL, and otherwise the total of the present values (`PresentTotal`, added up from the other end) |
| Catalog.SqlConcat | infrastructure/database/orm/orm_repository.py:138-140 | SQL `+` on strings is NULL as soon as one operand is NULL, and otherwise the first string followed by the second |
| Catalog.Agreed | infrastructure/database/orm/orm_repository.py:115-125 | exactly the rows whose appointment contains a contract code that differs from some exception activity (the same filter serves the purchases at orm_repository.py:170-176) |
| Catalog.AgreedAppend | infrastructure/database/orm/orm_repository.py:115-125 | the agreement filter works row by row and keeps table order: filtering a concatenation concatenates the filtered parts |
| Catalog.AgreedSingleton | infrastructure/database/orm/orm_repository.py:115-125 | a single row is kept exactly when it is under an agreement |
| Catalog.CodeBookCandidates | infrastructure/database/orm/orm_repository.py:108-127 | one candidate per agreed code-book row, in the filter's order (table order, by `AgreedAppend`), with that row's part number as sort key and its projected columns as fields |
| Catalog.PurchaseBuyCandidates | infrastructure/database/orm/orm_repository.py:162-178 | one candidate per agreed purchase, in the filter's order (table order, by `AgreedAppend`), with that purchase's part number as sort key and its projected columns as fields |
| Catalog.PurchaseWantCandidates | infrastructure/database/orm/orm_repository.py:143-153 | every wanted purchase is a candidate, in table order, with its part number as sort key and its projected columns as fields |
| Catalog.WantCommentCase | infrastructure/database/orm/orm_repository.py:135-141 | the engineers' comment is 'Хотим купить под ' + buy_customized + 'по цене' + assessed_value when buy_customized is present, the same with client otherwise, and NULL exactly when assessed_value is NULL or both names are |
| Catalog.PurchaseWantHit | infrastructure/database/orm/orm_repository.py:131-153 | a wanted-purchase hit comes from a row some key fits, with ЗИП = its part number, ГДЕ НАШЛИ = 'Закупка Хотим', НАЗНАЧЕНИЕ = its shop and the engineers' comment of that row |
| Catalog.QualifiedArchive | infrastructure/database/orm/orm_repository.py:196-207 | exactly the archive rows whose request was sent, some exception activity is absent from the appointment, and ЗИП is not NULL, '-' or '0' |
| Catalog.QualifiedArchiveAppend | infrastructure/database/orm/orm_repository.py:196-207 | the archive filter works row by row and keeps table order |
| Catalog.QualifiedArchiveSingleton | infrastructure/database/orm/orm_repository.py:196-207 | a single archive row is kept exactly when it qualifies |
| Catalog.GroupAmountsMembers | infrastructure/database/orm/orm_repository.py:192-208 | the amounts of a group belong to rows of that part number, and every such row contributes its amount |
| Catalog.GroupAmountsAppend | infrastructure/database/orm/orm_repository.py:192-208 | grouping works row by row and keeps table order: the group of a concatenation is the groups of its parts |
| Catalog.GroupAmountsOfGroup | infrastructure/database/orm/orm_repository.py:192-208 | when every row has the part number, the group holds all their amounts in order |
| Catalog.ArchiveCandidates | infrastructure/database/orm/orm_repository.py:187-209 | one candidate per qualifying archive row, ordered by its part number, with QTY ИЗ АРХИВОВ the SQL sum over the qualifying rows of that part number |
| Catalog.QtyRows | infrastructure/database/orm/orm_repository.py:220-226 | exactly the rows of part number `key` whose status, stripped of spaces and lower-cased, is 'отправлено' |
| Catalog.ArchiveQty | infrastructure/database/orm/orm_repository.py:211-229 | a quantity is returned exactly when such a row exists; it holds only QTY ИЗ АРХИВОВ, the SQL sum of the amounts of the sent rows of exactly that key, and № ЗАПРОСА, the request of one of them |
| Catalog.CollisionAnswer | infrastructure/database/orm/orm_repository.py:232-249 | found exactly when some main category has a collision rule whose description is contained in the comment (both stripped of spaces and lower-cased); the answer is that category's row |
| Catalog.PairsWithMembers | infrastructure/database/orm/orm_repository.py:261-262 | the join rows of one main category are its second-category rows of the same category |
| Catalog.CategoryPairsMembers | infrastructure/database/orm/orm_repository.py:261-262 | the join holds exactly the pairs with equal, non-NULL categories |
| Catalog.CategoryAnswer | infrastructure/database/orm/orm_repository.py:252-268 | None exactly when no `letters` is a prefix of `filter(key)`; otherwise the category of the earliest longest such prefix |
| Catalog.ChassisAnswer | infrastructure/database/orm/orm_repository.py:271-292 | None exactly when no chassis part number starts with the key; otherwise the ШАССИ text of the first one that does |
| Catalog.CodeBookHitAgreed | infrastructure/database/orm/orm_repository.py:102-127 | a code-book hit comes from a row under an agreement whose part number one of the keys finds, with ЗИП = its part number and ГДЕ НАШЛИ = 'Свод' |
| Catalog.PurchaseBuyHitAgreed | infrastructure/database/orm/orm_repository.py:156-178 | a purchase hit comes from a purchase under an agreement whose part number one of the keys finds, found in 'Закупка Закупаем' |
| Catalog.ArchiveHitQualifies | infrastructure/database/orm/orm_repository.py:181-209 | an archive hit comes from a qualifying row whose part number one of the keys finds, with its ЗИП label and 'Архив' |
| Orm.PrimaryCascade | infrastructure/database/orm/orm_repository.py:324-335 | CodeBook, then PurchaseBuy, then PurchaseWant; the first that finds something wins |
| Orm.ArchiveMergeKeepsIdentity | infrastructure/database/orm/orm_repository.py:337-342 | merging the archive adds at most QTY ИЗ АРХИВОВ and № ЗАПРОСА and keeps every other column |
| Orm.DirectoryKeepsPrimary | infrastructure/database/orm/orm_repository.py:313-322 | on a primary hit the result is non-empty and keeps every primary column other than the archive quantity columns and ШАССИ |
| Orm.DirectoryFallsBackToArchive | infrastructure/database/orm/orm_repository.py:316-319 | on a primary miss the archive search over all keys, with the chassis laid over it, is the result |
| Orm.DirectoryChassisOverlay | infrastructure/database/orm/orm_repository.py:348-356 | a chassis starting with keys[0] always puts ШАССИ into the result |
| Orm.DirectoryAllDown | infrastructure/database/orm/orm_repository.py:300-307 | with every repository failing nothing is found, and nothing is merged |
| Orm.CategoryAnswerKeys | infrastructure/database/orm/orm_repository.py:257-260 | a prefix-rule answer holds exactly КАТЕГОРИЯ, РЕМОНТ and ТРУДОЗАТРАТЫ |
| Orm.CategoryKeysPresent | infrastructure/database/orm/orm_repository.py:366-391 | after category_query the row always holds КАТЕГОРИЯ, РЕМОНТ and ТРУДОЗАТРАТЫ |
| Orm.CategoryWithoutComment | infrastructure/database/orm/orm_repository.py:370 | an empty comment never consults the collision rules |
| Orm.CategoryDefaultIff | infrastructure/database/orm/orm_repository.py:366-391 | the collision answer wins when the comment is non-empty; then the prefix answer; the default `{РЕМОНТ: 6001, ТРУДОЗАТРАТЫ: 4, КАТЕГОРИЯ: 'EMPTY'}` when neither finds one |
| Orm.AnswerNonEmpty | infrastructure/database/orm/orm_repository.py:331-334 | every answer of a working repository is a non-empty dict, so `if result:` means "found" |
| Orm.OrmQuary.constructor | infrastructure/database/orm/orm_repository.py:296-298 | the object keeps its database |
| Orm.OrmQuary.ExecuteRepositoryQuery | infrastructure/database/orm/orm_repository.py:300-307 | a failing call gives None; a working call gives the repository's answer |
| Orm.OrmQuary.FindPrimaryData | infrastructure/database/orm/orm_repository.py:324-335 | the loop with early return computes the first primary answer |
| Orm.OrmQuary.MergeArchiveData | infrastructure/database/orm/orm_repository.py:337-342 | the archive quantity, if any, is merged over the result |
| Orm.OrmQuary.FindArchiveData | infrastructure/database/orm/orm_repository.py:344-346 | the archive search over all keys |
| Orm.OrmQuary.MergeChassisData | infrastructure/database/orm/orm_repository.py:348-356 | ШАССИ is laid over the result, or becomes the result |
| Orm.OrmQuary.DirectoryBooksQuery | infrastructure/database/orm/orm_repository.py:309-322 | no keys is an IndexError with the row untouched; otherwise the row is updated with the cascade's result exactly when there is one |
| Orm.OrmQuary.CategoryQuery | infrastructure/database/orm/orm_repository.py:366-391 | the row is updated with the collision, prefix or default category |
| Collection.Ceil | core/domain_events/collection.py:25-26 | `math.ceil`: the least integer not below its argument |
| Collection.ArchiveFactor | core/domain_events/collection.py:17 | 0.75 exactly when the archive quantity is a number above 100, 1 otherwise; a non-empty text quantity raises TypeError |
| Collection.UnitCostsFailsIff | core/domain_events/collection.py:12-26 | the calculation raises exactly when the quantity is non-empty text, the amount is not a number, or a catalog value is None (or text while the amount is non-zero) |
| Collection.AmountZero | core/domain_events/collection.py:25-26 | zero pieces give unit values 0 and 0 |
| Collection.SmallAmount | core/domain_events/collection.py:18-26 | up to 10 pieces: no discount, the unit values are the ceilings of РЕМОНТ and ТРУДОЗАТРАТЫ |
| Collection.MiddleAmount | core/domain_events/collection.py:18-26 | 11 to 20 pieces, boundary 20 included: repair is capped at 10 pieces without discount, labour gets 0.2 × the archive factor |
| Collection.LargeAmount | core/domain_events/collection.py:18-26 | above 20 pieces repair and labour both get 0.5 × the archive factor |
| Collection.DiscountNeverRaises | core/domain_events/collection.py:17-26 | for a positive amount and non-negative catalog values no unit value exceeds the undiscounted one |
| Collection.CostsFrame | core/domain_events/collection.py:28-32 | only the two unit columns are added or changed; every other column keeps its value |
| Collection.CostsByCategory | core/domain_events/collection.py:10-32 | on a TypeError the row is untouched; otherwise it becomes `WithCosts` of the old row |
| App.InitialCells | app/app.py:191 | a row dict holds exactly the five aliases, with the validated part number and amount |
| App.MapResultsSpec | app/app.py:192-193 | the loop succeeds exactly when every element does, returning the results in order; otherwise it fails with the first failing element's error |
| App.CollectionShape | app/app.py:191-217 | a successful run returns one sheet per input sheet, with the same name and one processed row per input row, in order |
| App.CollectionFailsIff | app/app.py:191-217 | the run fails exactly when some row of some sheet fails |
| App.RowFailures | app/app.py:194-207 | without a vendor the row fails in generate_exceptions; with one, the alias list is never empty and only the cost stage can fail |
| App.ValidatedCiscoKeys | app/app.py:194-204 | the validated part number has no "R-", so for Cisco the aliases are exactly `_replace_key(pn)` |
| App.MissingDescriptionConsultsCollision | app/app.py:198 | a missing description is filtered to "NONE", which is truthy, so the collision rules are consulted with it |
| App.RowResultColumns | app/app.py:198-207 | a processed row keeps its input columns and holds the category, repair, labour and both unit values |
| App.MarketSkipped | app/app.py:209-216 | for LIC-1, SOFT-1 and MSCL the marketplace is never consulted |
| App.AppCoordinator.constructor | app/app.py:31-57 | the coordinator keeps its services: the exception generator, the ORM and the marketplace, which the source builds lazily at app/app.py:70-90 and 158-176 (the generator there gets no table, so `DefaultTable` applies) |
| App.AppCoordinator.ProcessItem | app/app.py:194-216 | the stages run in order on the row dict; the outcome and the new row are those of `RowStages` |
| App.AppCoordinator.CollectSheet | app/app.py:193-216 | the loop over the rows of one sheet, each in a fresh dict, computes `ProcessSheet`; the first failing row ends it |
| App.AppCoordinator.CollectionData | app/app.py:190-217 | the nested loops over sheets and rows compute `CollectionOf` |

## Left out

- The Huawei client is asynchronous, and `generate_exceptions` calls it without awaiting it. The model treats the lookup as a synchronous function from key to an optional list of part numbers. It also leaves out the client's cache, which persists across calls.
- The fuzzy token-sort ratio is a foreign function and enters `SimilarityScore` as a parameter.
- Floating-point rounding is not modelled (for example of 0.2 × 0.75); numbers are exact reals.
- SQL engine specifics:
  - `LIKE` is modelled as a case-sensitive substring test without the `%`/`_` wildcards in the key;
  - the multiplicity that joins add to `sum()` is not modelled;
  - `max()` over a group takes the value of the chosen row.
- The value the archive query projects as ЗИП is an opaque per-row field.
- The archive's text quantities are modelled as numbers or NULL.
- Sessions, the session factory and logging are left out. So are I/O (Excel reading and writing, email, watchdog, the scheduler) and the marketplace and vendor clients.
  - The marketplace search is an opaque function giving the columns it writes.
- Unicode beyond ASCII and the basic Cyrillic block (U+0400 to U+045F) is left out. `isalnum`, `upper` and SQLite `lower()` are modelled on that alphabet only.
- `DataGenerate.input_data` may also be a string; the model takes the list form only.
- The pydantic type checks of the customer, vendor and description fields (`Optional[str]`) are left out.
- ValidateData.ValidatePartNumber: a non-string part number is not modelled (`.strip()` runs before `str()`); the input is an optional string.
- App.AppCoordinator.CollectionData: the processed rows are returned as their final maps rather than as the dict objects themselves. They are fresh per row, so no aliasing is lost.
- `_log_and_update_item`'s logging is left out; only its `item.update` is modelled.
- App.AppCoordinator.ProcessItem: the model calls the ORM repository's `directory_books_query` and `category_query` directly, as the pipeline evidently intends. It does not model the service wrapper that app/app.py:205-206 goes through. `ORMService` (services/db_service.py:15-20) defines only an `async` `directory_books_query(item, keys, normalized_comment)`. So line 205 passes one argument too few, and line 206 calls a method the wrapper lacks. As written, every row would raise there, and an un-awaited coroutine would do nothing anyway. The claim of `App.RowFailures` that only the cost stage can fail holds for the model, not for that wrapper.
- ValidateData.MakeInputData: pydantic checks every field and reports all failures together. The model reports only the first failing field, in declaration order (part number before amount).
- Catalog.FirstLongest: SQL does not specify which row `ORDER BY length(...) DESC LIMIT 1` returns among rows of equal length. Taking the first in table order is a modelling choice.
- Catalog.FirstWhere: `.first()` without `ORDER BY` has no specified row in SQL. Taking the first in table order is a modelling choice.
- Catalog.ArchiveCandidates: SQL leaves unspecified the bare `GROUP BY` columns at infrastructure/database/orm/orm_repository.py:106-126, 187-209 and 216-224. The model takes them from the chosen row, and for ArchiveQty's № ЗАПРОСА from the first sent row of the key. Both are modelling choices.
