# KhansBike Zone backend: a verified model

This project models the hard logic of the shop's Go backend in Dafny and proves what it
keeps, statement by statement and over whole runs. `dafny verify dfyconfig.toml` checks it.

| module | models |
|---|---|
| `JobQueue`, `Reindex` | the jobs table as atomic statements over a map of rows; workers, crashes, the reaper, retention and the coalesced search reindex interleaved one statement at a time |
| `JsonPath`, `Attributes`, `Filters`, `FacetSpec`, `Facets` | typed attribute values and their JSON, lax path predicates (section 9.39 of ISO/IEC 9075-2:2016), the filter compiler, listings, and disjunctive facets against what they mean for typed values |
| `Projection`, `ProductState`, `Catalogue`, `CatalogueStore` | value rows, stored projections, and every transaction that edits attributes, options, bindings and products |
| `Keyset` | sort orders of mixed direction, the cursor condition as SQL with numbered arguments, one page, and traversals of a table that changes between pages |
| `Categories`, `VisibleTree` | parent pointers beside materialised paths; the public tree and its rolled-up counts |
| `EditDistance`, `ImportRows`, `GroupRows`, `ImportBatch` | the importer: the two-row edit distance and option matching, grouping and duplicates, and a batch from staging to commit |
| `Money`, `Text` | 64-bit minor units, exact parsing and printing, rounding |
| `ETags`, `EditSessions` | entity tags and If-Match (section 13.1.1 of RFC 9110), and editors, photo changes and imports interleaving with page loads that are not atomic |
| `Exif`, `Orient` | the JPEG marker scan (section B.1.1 of ITU-T T.81) and first directory (section 2 of TIFF 6.0) against an encoder; the eight pixel maps |
| `OptIn` | the mailing list's statements, with a log of what happened |

Assumptions. Each SQL statement is one atomic step, and each `InTx` closure is one atomic
step: two interleaved category moves, for example, would not be safe at a weaker isolation
level. Ids and tokens are fresh; timestamps within one run do not go backwards, and no two
changes of one product get the same `updated_at`, which is its version. The
triggers that enqueue a reindex with every change are taken as given. Numbers are finite
reals. multi_enum arrays in stored projections compare as sets, because reordering options
does not rewrite projections.

Some things the code's comments suggest turn out not to hold. Each is stated as found, with
a failing input and the exact condition under which the code does what is expected:

* A reindex can be forgotten when a worker records its outcome, or dies, after its row was
  taken from it (`Reindex.LateWriteForgetsAProduct`). Each stale product is covered at all
  times exactly when no ending orphans one: it does not hand the job back, no other reindex
  waits, and some stale product is owed by nobody else (`Reindex.CoverageStep`,
  `Reindex.StaleIsAlwaysCovered`). Only late endings of reindex runs can do that, so with
  workers inside their lease, which the five-minute handler timeout is for, none does.
* A merge row of an import need not have a target product at commit: the foreign key is
  cleared when that product is deleted (`ImportBatch.DeletedTargetFailsCommit`). Commit
  meets a missing target exactly when a row is to be merged into a deleted product; the
  model returns an error where the program dereferences nil.
* Renamed SKUs are not always distinct (`GroupRows.ThirdRowCollides`): they are exactly as
  long as no kept row finds both its SKU and that SKU's "-2" form among the SKUs before it.
* A group key can stand for two products (`GroupRows.BarsConfuseProducts`): a row's key is
  its own, within its category and attributes, exactly when neither its name nor its brand
  holds a bar (`GroupRows.KeyIsOwnIffNoBar`).
* A numeric facet that is filtered on is shown as 0 to 0 when no product is left under the
  other filters (`Facets.ZeroRangeShown`); what is shown is right exactly when the attribute
  is not filtered on or some stored value is left (`Facets.ShownRangeRight`).
* A conditional save can replace a product other than the one its editor saw when a brand or
  supplier is deleted meanwhile (`EditSessions.ReferenceDeletionIsMissed`). It always replaces
  the very fields its form started from, and exactly all of them, references included, if and
  only if no brand or supplier that a part named as it was read was deleted between that
  reading and the save (`EditSessions.NoLostUpdate`); a save that still names them all loses nothing.

## Model

| member | source | states |
|---|---|---|
| `JobQueue.JobTable.Enqueue` | internal/store/gen/jobs.sql.go:92-134 | one new queued row with no attempts, runnable from the time given or at once, and no other row changed; every row keeps its attempts within its limit |
| `JobQueue.JobTable.Claim` | internal/store/gen/jobs.sql.go:15-49 | takes the unlocked queued row that is due with the least run_after, and counts the attempt; none exactly when no unlocked queued row is due |
| `JobQueue.JobTable.Complete` | internal/store/gen/jobs.sql.go:51-59 | marks the row done and unlocks it, whoever holds it; its attempts and every other row stay |
| `JobQueue.JobTable.Fail` | internal/store/gen/jobs.sql.go:136-151 | marks the row failed and unlocks it; its attempts and every other row stay |
| `JobQueue.JobTable.Retry` | internal/store/gen/jobs.sql.go:174-183 | queues the row again, or dead-letters it when its attempts are used up; every other row stays |
| `JobQueue.JobTable.Reap` | internal/store/gen/jobs.sql.go:153-172 | returns exactly the rows running longer than the lease to the queue, or dead-letters them |
| `JobQueue.JobTable.DiscardQueued` | internal/store/gen/jobs.sql.go:77-90 | leaves no queued row of the kind, and every other row as it was |
| `JobQueue.JobTable.DeleteFinished` | internal/store/gen/jobs.sql.go:61-75 | deletes exactly the done rows older than 7 days and the failed and dead ones older than 30 |
| `JobQueue.ProcessNext` | internal/jobs/runner.go:135-175 | one cycle takes the oldest row due, counts the attempt and unlocks it: failed for an unhandled kind or a permanent error, done on success, else queued again or dead by its attempts; no other row changes |
| `Reindex.InvAlways` | internal/store/gen/jobs.sql.go:15-26 | in every interleaving every row, claim and handler phase stays consistent, and attempts never pass the limit |
| `Reindex.StartsAreBounded` | internal/store/gen/jobs.sql.go:153-183 | no job starts more often than its limit in any run, stale late writes included, and a queued job always has an attempt left |
| `Reindex.CoverageStep` | internal/service/catalog.go:405-427 | a step keeps every stale product covered exactly when it orphans none |
| `Reindex.StaleIsAlwaysCovered` | internal/service/catalog.go:409-427 | in every run, at all times each stale product is covered by a queued reindex, a run that still owes it or a reindex job that was lost, exactly when no step so far orphaned one |
| `Reindex.EndingCoverage` | internal/jobs/runner.go:147-157 | when a run reports or dies, what stays covered is decided by the state before: job handed back, another one queued, or every stale product owed by somebody else |
| `Reindex.WorkKeepsCoverage` | internal/service/catalog.go:409-427 | edits, claims, discards, selects, refreshes, reaping and retention never uncover a product |
| `Reindex.OrphansAreLate` | internal/store/gen/jobs.sql.go:51-59 | only a reindex run whose row was taken from it orphans a product: by completing a row that waits or remembers a crashed run, by failing on one already lost or gone, or by dying while it owes a stale product |
| `Reindex.TimelyWorkersAreSafe` | internal/jobs/runner.go:41-49 | with workers inside their lease no step orphans a product, nothing stale is uncovered, no job has two live workers, and finished rows never change |
| `Reindex.QuietMeansFresh` | internal/store/catalog.go:483-503 | once no reindex waits or runs and none was orphaned, only products abandoned by a failed or dead job are stale; without such a job none is |
| `Reindex.LateWriteForgetsAProduct` | internal/jobs/runner.go:147-157 | a run in which a late write and a crash leave a stale product that nothing will refresh |
| `Reindex.StaleMeans` | internal/store/catalog.go:483-503 | in every run a product is stale exactly when it exists and some edit touched it that no refresh of it has followed |
| `Reindex.AbandonedMeans` | internal/jobs/runner.go:147-157 | a product is abandoned exactly when a reindex job failed or died while it was stale and it has been neither refreshed nor deleted since |
| `Reindex.SearchIndex.SelectBatch` | internal/store/catalog.go:488-498 | the next ids in order, at most a batch of them, none skipped |
| `Reindex.SearchIndex.RefreshSearchVectors` | internal/store/catalog.go:487-503 | refreshes exactly the ids up to the one returned; nil exactly when nothing is left |
| `Reindex.SearchIndex.ReindexSearch` | internal/service/catalog.go:412-427 | undisturbed, leaves nothing stale and no reindex queued |
| `Attributes.DecodeValue` | internal/service/schema.go:133-203 | a decoded value fills exactly the slot of its data type, with distinct options of the attribute |
| `Attributes.DecodeTokens` | internal/service/schema.go:182-196 | refused exactly when some token is no option; otherwise the ids are those the tokens name, each once, in the order they are first named |
| `Attributes.OptionByValue` | internal/service/schema.go:112-119 | finds an option exactly when one has the value |
| `Attributes.OptionById` | internal/service/schema.go:121-128 | finds an option exactly when one has the id |
| `Attributes.ReadThenWriteIsIdentity` | internal/service/schema.go:208-236 | what a client reads decodes to the same value again, options in the attribute's order |
| `Text.TrimMeans` | internal/service/schema.go:146 | trimming takes white space off the two ends, all of it and nothing else |
| `JsonPath.ExistsUnwraps` | internal/service/schema.go:400-402 | a path over a key matches when some item of the value, unwrapped from an array, does |
| `Filters.CompilesIffMeaningful` | internal/service/schema.go:370-451 | the compiler rejects exactly a flag it cannot tell, a text filter without one value, options that do not exist, ends out of order, and no number it can read |
| `Filters.ProperBoundsMeans` | internal/service/schema.go:435-442 | bounds are accepted exactly when some number lies within them and one is given |
| `Filters.WantedMeans` | internal/service/schema.go:432-451 | the numbers a filter asks for are those from its _min to its _max, or the one number it names; it is refused exactly when the ends cross or there is no such number |
| `Filters.WantedFlagMeans` | internal/service/schema.go:403-411 | the flag a filter asks for is the one spelled by its single value, and there is none exactly for any other |
| `Filters.RangeMeaning` | internal/service/schema.go:419-426 | a stored range is accepted exactly when some number in it is at least the filter's _min and at most its _max, or is the one named |
| `Filters.OptionMeaning` | internal/service/schema.go:391-402 | an option filter means that some selected option is among those asked for, in multi_enum arrays too |
| `Filters.CompiledFilterMeaning` | internal/service/schema.go:390-430 | for every data type, the compiled predicate accepts a stored value exactly when the typed value is what the filter's own fields ask for |
| `Filters.VariantMeaning` | internal/store/catalog.go:99-105 | all predicates hold of product and variant attributes combined exactly when every filter is satisfied by the typed values combined |
| `Filters.ListingMeaning` | internal/store/catalog.go:94-107 | a listing accepts a product exactly when one variant with the product-level values satisfies every filter |
| `Facets.CompileFilters` | internal/service/listing.go:107-120 | no error exactly when every filter is on a filterable attribute and meaningful; then one path each |
| `Facets.FilterExcept` | internal/service/listing.go:43-52 | a path is kept exactly when it is of another attribute, and the kept ones stand in their order |
| `Facets.KeptPlace` | internal/service/listing.go:43-52 | each path of another attribute stands where as many such paths come before it |
| `Facets.KeptMeansOthers` | internal/service/catalog.go:203-206 | the paths kept hold of a variant exactly when its typed values satisfy every filter on another attribute |
| `FacetSpec.OwnFiltersDoNotMatter` | internal/service/catalog.go:203-206 | adding or removing filters on an attribute changes neither which products its choices count nor the values its range spans |
| `Facets.LookupCounts` | internal/store/catalog.go:306-339 | a count is the number of distinct products with a matching variant that carries the value; a value has a group exactly when there is one |
| `Facets.ChoicePathIsTheFilter` | internal/service/schema.go:400-407 | the path behind a facet value is the one its filter compiles to |
| `Facets.CarriersAreMatches` | internal/store/catalog.go:302-339 | the products counted for a value are those the listing with that filter added matches |
| `Facets.CountUnfiltered` | internal/service/catalog.go:216-241 | one query counts every facet not filtered on as the listing it leads to, another finds every such range |
| `Facets.CountFacets` | internal/service/catalog.go:246-265 | a facet filtered on is counted without its own filter, which is to say by the typed values that satisfy the others; no other facet is disturbed |
| `Facets.FacetsFor` | internal/service/catalog.go:208-296 | a choice is shown exactly when some product has one variant that satisfies every filter on another attribute and has the choice, with the number of such products; the range shown is the tightest around the typed values of such variants; values stand in the order of the attribute |
| `Facets.CountMeans` | internal/service/catalog.go:216-265 | the number behind a choice is the number of products with one variant whose typed values satisfy every filter on another attribute and the choice |
| `Facets.ShownRangeMeans` | internal/service/catalog.go:246-280 | the range shown is the tightest around the typed values of variants that satisfy every filter on another attribute, whenever it is shown right |
| `Facets.RangeIsTightest` | internal/store/catalog.go:341-378 | a range is found exactly when some matching variant has a typed value, and is the tightest around all of them |
| `Facets.ShownRangeRight` | internal/service/catalog.go:246-280 | the range shown is right exactly when the attribute is not filtered on or some stored value is left under the other filters |
| `Facets.ZeroRangeShown` | internal/service/catalog.go:251-256 | a filtered attribute that nothing left has is shown as 0 to 0 |
| `Projection.InsertValues` | internal/service/products.go:608-635 | one row a value, or one row a selected option |
| `Projection.MergeValues` | internal/service/schema.go:290-309 | one value a key, options gathered in reading order |
| `Projection.MergedReads` | internal/service/schema.go:288-309 | merging says what the set of rows says, in whatever order they are read |
| `Projection.ExplodingReads` | internal/service/products.go:606-635 | splitting values into rows keeps what they say |
| `Projection.ExplodeThenMerge` | internal/service/products.go:608-659 | exploding and merging, rows read back in any order, loses nothing |
| `Projection.MergedOptionsDistinct` | internal/service/schema.go:300-304 | distinct rows never repeat an option within a merged value |
| `Projection.Project` | internal/service/schema.go:346-358 | key to rendered value, attributes not bound left out |
| `Projection.ProjectionEntries` | internal/service/schema.go:344-358 | one entry a value, holding its rendering, and no others |
| `ProductState.RebuildingProjects` | internal/service/products.go:640-679 | rebuilding from rows in any order gives the projection of the document |
| `ProductState.StoredIsProjectionOfRows` | internal/service/products.go:637-679 | a stored projection equals the projection of its rows, multi_enum as sets |
| `ProductState.LevelsDisjoint` | internal/service/products.go:152-170 | product-level and variant-level projections share no key |
| `ProductState.StoredFieldsProject` | internal/store/catalog.go:94-107 | what listings and facets assume of stored attributes holds of every product kept this way |
| `Catalogue.ReadLevel` | internal/service/products.go:152-172 | accepts exactly when every attribute given is bound at this level and decodes; nulls count as absent |
| `Catalogue.ReadDocument` | internal/service/products.go:117-251 | accepts exactly the documents all of whose levels are; the values read fit and are projected level by level |
| `Catalogue.OptionsSurvive` | internal/service/taxonomy.go:629-669 | a value none of whose options changed stays valid and rendered as stored |
| `Catalogue.RowsOfTheRest` | internal/store/gen/attributes.sql.go:183-218 | deleting an attribute's rows leaves exactly the rows of the other values |
| `Catalogue.RebuildProjections` | internal/service/products.go:637-679 | rebuilds every level of a product from its rows |
| `CatalogueStore.Store.Save` | internal/service/products.go:412-526 | replaces rows and projections exactly when the document is acceptable; each entry stored is the decoded value rendered |
| `CatalogueStore.Store.BindAttribute` | internal/service/taxonomy.go:256-302 | refused exactly when the attribute would change level while the category's products hold values for it; no projection is affected |
| `CatalogueStore.Store.UnbindAttribute` | internal/service/taxonomy.go:304-336 | the category's products lose the attribute's rows and entry and nothing else; other categories' products are untouched |
| `CatalogueStore.Store.CreateCategory` | internal/service/taxonomy.go:111-146 | a new category binds nothing, and every product keeps agreeing with its rows |
| `CatalogueStore.Store.CreateAttribute` | internal/service/taxonomy.go:475-530 | the key trimmed and the options with it; refused as invalid for a key that is not snake_case or ends like a bound, options where the type has none, or ones unnamed, too long or repeated; as a conflict exactly for a key in use |
| `CatalogueStore.Store.CreateOption` | internal/service/taxonomy.go:598-627 | added, trimmed, at its position; refused for no value, a missing attribute, types without options and values in use, in that order |
| `CatalogueStore.Store.MoveOption` | internal/service/taxonomy.go:629-669 | an option changes place; stored projections stay right as sets |
| `CatalogueStore.Store.DeleteOption` | internal/service/taxonomy.go:671-689 | deleted exactly when no row uses it |
| `CatalogueStore.Store.DeleteProduct` | internal/service/products.go:683-694 | removes the product and its rows only |
| `CatalogueStore.RowsAndProjectionsAgree` | internal/service/products.go:637-679 | in every reachable state stored projections are those of the rows, read in any order, and the levels share no key |
| `Keyset.SortKeys` | internal/store/catalog.go:119-143 | every order ends in the unique id; refused for unknown orders and relevance without a query |
| `Keyset.SortMeaning` | internal/store/catalog.go:126-143 | in the rows' own fields: newest and last updated first with the greater id first among equals, by name then id, featured before the rest, and the best rank first |
| `Keyset.RowsOrdered` | internal/store/catalog.go:119-124 | any two rows stand in exactly one order |
| `Keyset.ConditionMeaning` | internal/store/catalog.go:182-199 | the disjunction of prefixes is the mixed-direction lexicographic order |
| `Keyset.AfterCursor` | internal/store/catalog.go:184-199 | the condition and arguments built in the loops hold of a row exactly when it is strictly after the cursor; earlier arguments keep their numbers |
| `Keyset.CursorMarksItsRow` | internal/store/catalog.go:148-180 | a cursor carries exactly its row's place in the order |
| `Keyset.ExtraRowTells` | internal/store/catalog.go:241-242 | one row beyond the limit tells whether another page follows |
| `Keyset.ListProducts` | internal/store/catalog.go:203-289 | in the rows' own fields, the first rows after the cursor in the order asked for, at most the limit, and a cursor for the last exactly when more follow; a cursor of another order or with missing fields is refused |
| `Keyset.PagesAscend` | internal/store/catalog.go:203-289 | whatever changes between pages, rows shown only ever move forward in the order |
| `Keyset.PagesInOrder` | internal/store/catalog.go:145-203 | in the rows' own fields, the rows shown over all pages stand in the order asked for, whatever changes between pages |
| `Keyset.ShownExactlyOnce` | internal/store/catalog.go:119-199 | a product present throughout with unchanged sort values is shown exactly once |
| `Keyset.TraversalEnds` | internal/store/catalog.go:203-289 | on a fixed table, pages promising another number at most the rows divided by the limit |
| `Categories.LabelInjective` | internal/service/taxonomy.go:57-58 | distinct slugs have distinct labels |
| `Categories.SlugMeans` | internal/service/common.go:58 | the slugs are exactly one or more words of lower-case letters and digits, joined by single hyphens |
| `Categories.TextPrefixIsLabelPrefix` | internal/service/taxonomy.go:178-180 | comparing dotted text by prefix is comparing labels by prefix |
| `Categories.GuardMeaning` | internal/service/taxonomy.go:177-180 | the move guard refuses exactly the category itself and its descendants |
| `Categories.PrefixIffAncestor` | internal/store/gen/categories.sql.go:309-329 | ancestor by path prefix is ancestor by parent pointer |
| `Categories.ParentsAcyclic` | internal/service/taxonomy.go:177-180 | no category is above its own parent |
| `Categories.MoveKeepsTree` | internal/store/gen/categories.sql.go:309-329 | rewriting a row and re-rooting its subtree gives a tree again |
| `Categories.CategoryTable.Create` | internal/service/taxonomy.go:111-146 | path is the parent's path and the own label; without a slug the first free one derived from the name is taken; refused for a bad or taken slug or a missing parent |
| `Categories.CategoryTable.UniqueSlug` | internal/service/common.go:69-90 | the base itself unless taken, else the base with "-" and the least number from 2 on that makes it free; without a base "item-1" or such a number; there always is one |
| `Categories.CategoryTable.Update` | internal/service/taxonomy.go:150-217 | moves the subtree keeping every path below it, touches nothing else, keeps the slug when none is given, and is refused exactly for a missing row, another version, bad or taken slug, missing parent or own descendant |
| `Categories.CategoryTable.Delete` | internal/service/taxonomy.go:219-233 | refused exactly while products or subcategories refer to it |
| `VisibleTree.VisibleBelowVisible` | internal/store/gen/categories.sql.go:15-30 | a category is visible when it is active and its parent is visible |
| `VisibleTree.CategoryTree.BuildNodes` | internal/service/catalog.go:66-90 | the loop over active rows keeps exactly the visible categories, each child under its parent |
| `VisibleTree.CategoryTree.RollUp` | internal/service/catalog.go:98-103 | each node's count becomes the active products of its subtree |
| `VisibleTree.CategoryTree.Build` | internal/service/catalog.go:66-112 | exactly the visible categories, each counted as the public listing under its path counts, siblings in order |
| `VisibleTree.CategoryTree.SortNodes` | internal/service/catalog.go:105-112 | roots and children are put in order; none is lost, added or moved to another parent |
| `VisibleTree.TotalIsPublicCount` | internal/store/catalog.go:75-83 | the subtree's total is the public count under the path |
| `EditDistance.Levenshtein` | internal/importer/cells.go:176-196 | the two-row loop computes the recursive distance |
| `EditDistance.RowIsDistance` | internal/importer/cells.go:185-194 | each row overwritten from the one before holds the distances of the prefixes |
| `EditDistance.ZeroIffEqual` | internal/importer/cells.go:176-196 | the distance is zero only on equal strings |
| `EditDistance.Symmetric` | internal/importer/cells.go:176-196 | the distance is symmetric |
| `EditDistance.Triangle` | internal/importer/cells.go:176-196 | the distance satisfies the triangle inequality |
| `EditDistance.ScriptIsLongEnough` | internal/importer/cells.go:176-196 | no sequence of single-character edits is shorter than the distance |
| `EditDistance.ShortestScript` | internal/importer/cells.go:176-196 | some sequence of edits is exactly as long as the distance |
| `EditDistance.MatchOption` | internal/importer/cells.go:122-164 | the first option named outright, else by inches, else the only loose match; a suggestion is a nearest option within the threshold, and none is made only when all are farther |
| `EditDistance.LooseMatch` | internal/importer/cells.go:138-151 | found exactly when one option alone matches loosely |
| `EditDistance.Nearest` | internal/importer/cells.go:152-159 | the least distance over every value and label, with an option that has it |
| `GroupRows.KeyTellsProducts` | internal/importer/sheet.go:369-375 | equal keys mean equal product fields, attributes included, when categories, names and brands hold no bar |
| `GroupRows.KeyIsOwnIffNoBar` | internal/importer/sheet.go:369-375 | within its category and attributes a row's key stands for its product alone exactly when neither its name nor its brand holds a bar |
| `GroupRows.BarsConfuseProducts` | internal/importer/sheet.go:372-375 | two products that share a key |
| `GroupRows.SortIntoGroups` | internal/importer/sheet.go:397-408 | each eligible row is in its key's group, in sheet order |
| `GroupRows.MarkDuplicates` | internal/importer/sheet.go:409-434 | a row is skipped and marked exactly when an earlier one has its SKU and all that tells variants apart; a kept row gets its SKU, or that with "-" and one more than the number of kept rows before it going by it, and is marked if renamed and if copied |
| `GroupRows.ResolveGroup` | internal/importer/sheet.go:409-445 | so, and every row goes to review exactly when a row that is not skipped leaves with a warning |
| `GroupRows.GroupRows` | internal/importer/sheet.go:388-447 | every group is resolved so, and rows with errors or already skipped are untouched |
| `GroupRows.OneStatusAGroup` | internal/importer/sheet.go:435-445 | rows of a group parsed as active leave the sheet with one status, needs_review exactly when some row of the group is not skipped and has a warning |
| `GroupRows.SkippedIffCopy` | internal/importer/sheet.go:377-425 | on the sheet a row is skipped exactly when an earlier row of its group has its SKU and all that tells variants apart |
| `GroupRows.SkippedHasKeptCopy` | internal/importer/sheet.go:415-425 | a skipped row has an earlier kept row it copies: none is lost |
| `GroupRows.DuplicateForcesReview` | internal/importer/sheet.go:415-446 | any duplicate sends every row of the group to review |
| `GroupRows.DistinctUnlessCollision` | internal/importer/sheet.go:427-433 | names are distinct exactly as long as no kept row finds both its SKU and its "-2" form among the SKUs before it |
| `GroupRows.SkusDistinctUnlessCollision` | internal/importer/sheet.go:427-433 | so do the SKUs kept rows leave the group with |
| `GroupRows.NamesGiven` | internal/importer/sheet.go:427-433 | the SKUs kept rows leave with are the names the counting rule gives them |
| `GroupRows.SeenIsTaken` | internal/importer/sheet.go:427-433 | while names are distinct, the SKUs seen on the sheet are the names taken |
| `GroupRows.TwoPerSkuStayDistinct` | internal/importer/sheet.go:427-433 | with two rows a SKU at most and none ending in "-2", names are distinct |
| `GroupRows.ThirdRowCollides` | internal/importer/sheet.go:427-433 | a third row of one SKU gets the second's name |
| `ImportBatch.MatchExisting` | internal/importer/importer.go:199-261 | an accepted row whose codes name one variant is merged into it, several leave it to a person, and with none it points where the last merge of its group does, if there is one; other rows stay |
| `ImportBatch.ApplyGroup` | internal/importer/importer.go:561-630 | touches each row of the group once: a merge goes to the row's own product and variant, the accepted rows together to the product the group points at, or to a new one exactly when it points at none |
| `ImportBatch.Apply` | internal/importer/importer.go:520-558 | every accept and merge row applied exactly once, applied and created counted right, or nothing; fails on a missing target only if there is one |
| `ImportBatch.MakesProductMeaning` | internal/importer/importer.go:562-573 | a product is created for exactly the groups with an accept and no target |
| `ImportBatch.Batch.Stage` | internal/importer/importer.go:67-76 | rows matched so, then those with errors that are not skipped left to a person; no accepted row has an error |
| `ImportBatch.Batch.SetDecision` | internal/importer/importer.go:347-388 | changes one decision of an open batch; refused for accept with errors and merge without a match |
| `ImportBatch.Batch.Abort` | internal/importer/importer.go:390-408 | closes an open batch and only that |
| `ImportBatch.Batch.Commit` | internal/importer/importer.go:417-461 | refused while closed or undecided; otherwise every accepted and merged row applied once and the batch closed, or nothing, each accepted row then pointing at the product an effect added it to; when the catalogue refuses nothing it fails exactly if a row merges into a deleted product |
| `ImportBatch.AcceptedRowsArrive` | internal/importer/importer.go:624-628 | after a commit each accepted row points at a product some effect added it to, and every other row where it did |
| `ImportBatch.Batch.ProductDeleted` | db/migrations/00010_import_staging.sql:27 | clears the product as a target of every row |
| `ImportBatch.LostMeansDeleted` | internal/importer/importer.go:561-573 | a merge lacks its target exactly when the product it was matched to was deleted |
| `ImportBatch.DeletedTargetFailsCommit` | internal/importer/importer.go:568-571 | any matched row loses its target when its product goes, and the commit fails |
| `Money.ParseDecimalToMinor` | internal/platform/money.go:206-248 | accepts exactly plain decimals of at most two places within the bound, as exactly a hundred times their value, without leaving 64 bits |
| `Money.SpelledIsParsed` | internal/platform/money.go:206-248 | a text of a minus or none, digits, and a point and up to two digits or none is read exactly when its cents are at most 9223372036854775799, and as those cents |
| `Money.ParsedIsSpelled` | internal/platform/money.go:206-248 | nothing but such a text is read |
| `Money.AllDigits` | internal/platform/money.go:250-261 | true exactly for a non-empty run of digits |
| `Money.PrintThenParse` | internal/platform/money.go:122-137 | printing then parsing is the identity exactly up to 9223372036854775799 minor units either way, and otherwise refused |
| `Money.LeastValueUnreadable` | internal/platform/money.go:124-137 | the least 64-bit amount prints as text that is no number |
| `Money.StagedPriceReadsBack` | internal/importer/sheet.go:311-324 | a staged price reads back unchanged exactly within that bound |
| `Money.RoundedIsNearest` | internal/platform/money.go:174-204 | rounding gives a nearest integer, ties away from zero |
| `Money.NearestUnique` | internal/platform/money.go:174-204 | there is one such integer |
| `Money.RoundedOdd` | internal/platform/money.go:190-199 | rounding is odd |
| `Money.RoundingMonotone` | internal/platform/money.go:180-199 | rounding is monotone in the value and does not depend on the terms of the fraction |
| `Money.MulRatio` | internal/platform/money.go:85-114 | the nearest integer for every combination of signs, refused for a zero divisor or overflow |
| `Money.ParseMoneyRounded` | internal/platform/money.go:174-204 | the nearest integer, and rounded exactly when the value was not whole cents |
| `Money.RoundedAgreesWithExact` | internal/platform/money.go:164-204 | agrees with the exact parser on everything that one accepts |
| `ETags.ETagInjective` | internal/service/common.go:34-38 | distinct versions have distinct tags |
| `ETags.CheckIfMatch` | internal/service/common.go:40-56 | passes without a check, or when a listed tag, weak or not, is current |
| `ETags.HeaderPassesItsVersions` | internal/service/common.go:40-56 | a header listing tags, weakened or not, passes exactly for the versions listed |
| `EditSessions.InvAlways` | internal/service/products.go:319-325 | whatever happens, each session knows what it read, when, and under which version; a version is current for one stretch of time, in which nothing happens to the product but that deleted brands and suppliers are cleared from it |
| `EditSessions.NoLostUpdate` | internal/service/products.go:409-467 | a successful conditional save replaces the fields its form started from, which no refetch changes, and exactly all of the form if and only if no brand or supplier a part named as it was read was deleted between that reading and the save |
| `EditSessions.NothingLostWithoutDeletion` | internal/service/products.go:409-467 | with no deletion of a brand or supplier the form started with while the editor works, a save replaces exactly what its form started from, in every interleaving and with torn loads |
| `EditSessions.KeepingReferencesLosesNothing` | internal/service/products.go:132-219 | a save that still names every brand and supplier its form started with replaces exactly what the form started from: one deleted meanwhile would be refused |
| `EditSessions.PartInStretch` | db/migrations/00005_products.sql:12-38 | while one version is current a part keeps its fields, loses exactly the references deleted, and gains none |
| `EditSessions.TagPassesItsVersion` | internal/service/common.go:44-56 | a tag sent back passes exactly while its version is current |
| `EditSessions.LoadsTaken` | frontend/src/admin/ProductEditorPage.tsx:98-108 | reading on, and adopting a new tag after a photo change only if what was fetched is what the form started from, keep the editor's knowledge right |
| `EditSessions.FormStays` | frontend/src/admin/ProductEditorPage.tsx:98-108 | only opening the page and the session's own saves change what its form started from |
| `EditSessions.RefetchDecides` | frontend/src/admin/ProductEditorPage.tsx:98-108 | a finished refetch hands over its version exactly if its fields are those the form started from; otherwise the old one is kept and the next save is refused if the product has a newer one |
| `EditSessions.QuietLoad` | internal/service/products.go:319-325 | a page load that nothing disturbs shows the product as it is, under its version |
| `EditSessions.KnownMeans` | internal/service/taxonomy.go:794-812 | in every run a brand or supplier is there exactly when it was from the start or was created, and was never deleted |
| `EditSessions.ReferenceDeletionIsMissed` | internal/service/taxonomy.go:794-812 | a brand the editor read is deleted, cleared from the product without a version, and a save that no longer names it replaces what its editor never saw |
| `Exif.JpegOrientation` | internal/media/exif.go:19-55 | the scan ends, reads in bounds and gives an orientation from 1 to 8 |
| `Exif.TiffOrientation` | internal/media/exif.go:57-93 | the first orientation entry, 0 when absent or malformed and whenever the data does not begin with a byte order mark and 42 |
| `Exif.TiffReadsBack` | internal/media/exif.go:57-93 | in either byte order, with any padding and other entries, the written orientation is read |
| `Exif.ItemsSkipped` | internal/media/exif.go:26-52 | fill bytes, markers without length and other segments are skipped |
| `Exif.PhotoReadsBack` | internal/media/exif.go:19-93 | the orientation of a well-formed photo is the one written, whatever surrounds it |
| `Exif.UprightWithoutExif` | internal/media/exif.go:26-54 | a photo whose segments hold no Exif data before the picture starts is upright |
| `Exif.PortraitRead` | internal/media/exif.go:57-93 | the bytes of a directory that says 6 are read as 6 |
| `Orient.SourceWithin` | internal/media/exif.go:110-131 | every pixel read lies in the source, for all sizes |
| `Orient.SourceBijective` | internal/media/exif.go:110-131 | each source pixel is shown exactly once |
| `Orient.InverseUndoes` | internal/media/exif.go:112-128 | 6 and 8 undo each other, the rest themselves |
| `Orient.Composes` | internal/media/exif.go:112-128 | the orientations are closed under composition |
| `Orient.ShownSides` | internal/media/exif.go:112-128 | for each orientation, the sides of the picture shown on which the stored first row and first column lie, as the Orientation field of TIFF 6.0 says |
| `Orient.Orient` | internal/media/exif.go:95-135 | the loop fills a buffer of the right width and height, and each stored pixel is shown as far from the sides its row and column belong to as it was stored from them |
| `OptIn.SubscriberTable.Subscribe` | internal/service/subscribers.go:88-109 | a signup stays confirmed or becomes pending; a send is claimed exactly when pending and past the cooldown |
| `OptIn.SubscriberTable.IssueTokens` | internal/store/gen/subscribers.sql.go:109-117 | stores a fresh pair exactly for a pending address |
| `OptIn.SubscriberTable.Confirm` | internal/store/gen/subscribers.sql.go:42-53 | confirms the pending address with this unexpired token and clears it; nobody exactly when there is none |
| `OptIn.SubscriberTable.Unsubscribe` | internal/store/gen/subscribers.sql.go:198-207 | removes the address with this token, confirmed or not |
| `OptIn.ConfirmedByLatestPair` | internal/service/subscribers.go:128-192 | an address confirms only with the pair issued to it last, since it last left |
| `OptIn.ConfirmsOnce` | internal/store/gen/subscribers.sql.go:42-53 | each token confirms at most once |
| `OptIn.ClaimsAreApart` | internal/store/gen/subscribers.sql.go:15-33 | two claims for one address with no departure between are more than ten minutes apart |
| `OptIn.DoubleOptIn` | internal/service/subscribers.go:26-33 | in every reachable state a confirmed address has confirmed since it last left, with its latest token, used for nothing else |

## Left out

- ImportBatch.Batch.Commit: the catalogue's own refusals and the ids of new products are parameters; brands and suppliers created on the way are not modelled.
- ImportBatch.Batch.ProductDeleted: other effects of deleting a product are in `CatalogueStore`.
- CatalogueStore.Store.Save: SKUs, prices, stock, default variants, slugs and attributes required for publishing are not modelled; variant ids are resolved before the call.
- Catalogue.ReadDocument: names, SKUs, the variant limit and attributes required for publishing are not modelled: each is a check of one field.
- CatalogueStore.Store.CreateCategory: parent, slug and path of the new category are in `Categories`.
- CatalogueStore.Store.CreateAttribute: labels, units, swatches and help texts are not kept.
- Categories.CategoryTable.Create: names, positions and pictures are not kept; folding a name to ASCII is library behaviour, and what it gives is a parameter.
- VisibleTree.CategoryTree.Build: nodes are kept in a map by id instead of linked by pointers, so aliasing between nodes is not captured; position and name are one rank, and the library sort is an insertion sort.
- GroupRows.MarkDuplicates: works on a group's own buffer that is written back, where the program keeps pointers to the rows.
- Keyset.ListProducts: the filter is abstracted to the set of rows it matches; names stand for their place in the collation.
- Money.ParseMoneyRounded: reading a rational from text, exponents included, is library behaviour; the number read is the parameter.
- EditDistance.MatchOption: how slugs and compact forms fold text is a parameter.
- Facets.FacetsFor: status, brand, category and text conditions are the set `base`; labels and units are not kept.
- JobQueue.JobTable.Retry: the randomised backoff is a parameter, and error texts and payloads are not kept.
- Attributes.DecodeValue: JSON field names of a range are matched exactly, and white space is the ASCII kind; both are library behaviour.
- ETag checks on attributes, audit rows: plumbing around the transactions modelled.
- Postgres ranking, trigram search, collation and locking; image decoding and resampling; mail delivery; token generation and hashing.
- HTTP routing, handlers, configuration, rate limiting, the React pages beyond the tag-adoption rule.
