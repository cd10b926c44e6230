# Alien risk calculator: the local snapshot store, in Dafny

This project models the client-side core of the alien risk calculator. A
risk is rated by likelihood × impact (each 1–5). The score is classified into
LOW, MEDIUM, HIGH or CRITICAL. The result is kept as a *snapshot* in one
localStorage entry in the browser.

The model covers three pieces:

- `LocalStorageService`, the store (src/services/localStorage.ts). It is the
  class `LocalStorage.SnapshotStore`. Its one field, `payload`, is the stored
  entry after `JSON.parse`: missing, garbled, or the parsed array of
  snapshots.
  - `save`, `update`, `delete`, `deleteMultiple` and `import` read the
    whole entry, sorted newest first as `getAll` returns it, change that list,
    and write the whole list back. `update` or `delete` of an absent id and
    an `import` that accepts nothing write nothing. An `import` of an
    unparsable file or of one without a `data` array does not read the store
    at all. `clear` removes the entry without reading it. The queries and
    `getStats` never write.
  - Each writing method is proved against functions of the old state:
    `GetAll`, `IndexOf`, `Where`, `ApplyPatch`, `AcceptedOf`/`RejectionsOf`.
    The `getStats` loop is proved against `StatsOf`.
  - Those functions carry the properties: permutation and order of the sort,
    the first-match lookup, id uniqueness, the import balance, and counters
    that sum to the total.
- The classifier and label lookups (src/lib/utils.ts): modules `RiskUtils`
  and `RiskTypes`.
- The form schema (src/lib/validations/risk.ts): module `RiskValidation`, an
  acceptance predicate. With the classifier it proves that an accepted form,
  with likelihood and impact modelled as integers, never reaches the
  classifier's fallback branch.

Parameters stand in for the host services:
- the fresh uuid;
- the current instant, as an integer of milliseconds;
- whether the `localStorage.setItem`/`removeItem` call succeeds (`writeOk`);
- the outcome of parsing an import file (`ImportInput`).

Timestamps are integers, so `new Date(a) - new Date(b)` is integer
subtraction. `toLowerCase` is modelled on ASCII and Latin-1 letters
(module `Text`). `includes` is a substring test.

Where a reader might expect otherwise, the model follows the store's code:
- `search` with a whitespace-only query does not keep every snapshot.
  The store lowercases the query but does not trim it, so such a query keeps
  only the snapshots that contain that whitespace. The history page
  (src/pages/SavedHistory.tsx:57-58) trims the query and skips `search` when
  it is blank; that caller is not part of this model.
- `update` does not re-derive score and level; `PatchCanDesynchronise` shows
  this.
- `import` compares ids only with the store as it was before the import.

## Model

| member | source | states |
|---|---|---|
| RiskUtils.CalculateRiskLevel | src/lib/utils.ts:45-51 | a score on [1,25] gets the level whose band (1–4, 5–9, 10–16, 17–25) contains it; any other score, 0 and negatives included, gets LOW |
| RiskUtils.BandsPartitionRange | src/lib/utils.ts:46-49 | the four bands are non-empty, consecutive in level order, and cover exactly 1..25 |
| RiskUtils.CalculateRiskLevelMonotone | src/lib/utils.ts:46-49 | on [1,25] a higher score never gets a lower level (LOW < MEDIUM < HIGH < CRITICAL) |
| RiskUtils.CalculateRiskLevelOnBand | src/lib/utils.ts:46-49 | every score of a level's band is classified as that level |
| RiskUtils.RiskLevelColor | src/lib/utils.ts:18-31 | the default class "text-foreground" is returned exactly for strings that are not one of the four level names |
| RiskUtils.RiskLevelColorsDistinct | src/lib/utils.ts:19-27 | the four levels get four different colour classes |
| RiskUtils.RiskCategoryLabel | src/lib/utils.ts:33-43 | the category string comes back unchanged exactly when it is not one of the six category names |
| RiskUtils.RiskCategoryLabelOfCategory | src/lib/utils.ts:34-42 | each of the six categories maps to its own fixed Spanish label |
| RiskValidation.ScaleProductInBands | src/lib/validations/risk.ts:10-11 | two values on the 1..5 scale multiply to a score on 1..25 |
| RiskValidation.FormAccepted | src/lib/validations/risk.ts:4-12 | title 1–200 characters, description absent or at most 1000, one of the six categories, likelihood and impact on 1..5; an accepted form's score lies in the bands |
| RiskValidation.AcceptedFormNeverFallsBack | src/lib/validations/risk.ts:10-11 | for an accepted form with integer likelihood and impact the classifier's fallback branch is never taken: the level's band contains the score |
| Text.LowerChar | src/services/localStorage.ts:219 | toLowerCase of one character: A–Z and the Latin-1 capitals shifted 32 code points; LowerCharProperties states its properties |
| Text.LowerCharProperties | src/services/localStorage.ts:219 | lower-casing a character changes exactly the capitals, leaves no capital, and is idempotent |
| Text.Lower | src/services/localStorage.ts:219 | toLowerCase keeps the length, keeps every character that is not a capital, and maps each capital to the letter 32 code points above it |
| Text.LowerIdempotent | src/services/localStorage.ts:219-226 | lower-casing twice is lower-casing once |
| Text.Includes | src/services/localStorage.ts:223 | String.prototype.includes, as a scan over the suffixes; IncludesIff states what it means |
| Text.IncludesOccurrence | src/services/localStorage.ts:223 | an occurrence of the needle at any position makes includes true |
| Text.IncludesFound | src/services/localStorage.ts:223 | includes true implies an occurrence at some position |
| Text.IncludesIff | src/services/localStorage.ts:223 | includes holds exactly when the needle occurs at some position |
| Text.IncludesEmpty | src/services/localStorage.ts:223 | the empty string is included in every string |
| SnapshotSeqs.Ids | src/services/localStorage.ts:182 | `snapshots.map((s) => s.id)`: the ids in order; IndexOf, IdSet and the uniqueness lemmas are stated over it |
| SnapshotSeqs.IdsAppend | src/services/localStorage.ts:199 | the ids of a concatenation are the concatenation of the ids |
| SnapshotSeqs.UniqueIdsAt | src/services/localStorage.ts:77 | with unique ids, two different positions carry different ids |
| SnapshotSeqs.IndexOf | src/services/localStorage.ts:77 | findIndex: -1 exactly when no snapshot has the id, otherwise the first position holding it |
| SnapshotSeqs.Where | src/services/localStorage.ts:119 | filter keeps exactly the members satisfying the condition, and drops nothing exactly when all satisfy it |
| SnapshotSeqs.WhereIsSubsequence | src/services/localStorage.ts:221 | a filter result is a subsequence of its input, order kept |
| SnapshotSeqs.WhereIds | src/services/localStorage.ts:119 | filtering only removes ids (multiset inclusion) |
| SnapshotSeqs.WhereFusion | src/services/localStorage.ts:240-260 | filtering twice equals filtering once by both conditions |
| SnapshotSeqs.WhereSameCondition | src/services/localStorage.ts:135 | filters by conditions that agree everywhere give the same result |
| SnapshotSeqs.WhereSplit | src/services/localStorage.ts:135-136 | a filter and its complement together have the input's length |
| SnapshotSeqs.WhereCount | src/services/localStorage.ts:119 | filter keeps every copy of an element that passes and no copy of one that fails |
| SnapshotSeqs.WhereAll | src/services/localStorage.ts:121 | a filter every member passes returns its input |
| SnapshotSeqs.WhereNewestFirst | src/services/localStorage.ts:119-123 | filtering a newest-first list keeps it newest-first |
| SnapshotSeqs.WhereUniqueIds | src/services/localStorage.ts:119 | filtering keeps ids unique |
| SnapshotSeqs.IdSet | src/services/localStorage.ts:182 | `new Set(ids)` holds exactly the ids of the snapshots |
| SnapshotSeqs.UniqueIdsPrepend | src/services/localStorage.ts:82 | unshifting a snapshot with a new id keeps ids unique |
| SnapshotSeqs.UniqueIdsAppend | src/services/localStorage.ts:199 | pushing a snapshot with a new id keeps ids unique |
| SnapshotSeqs.IdsReplace | src/services/localStorage.ts:80 | replacing an entry by one with the same id keeps the id sequence |
| SnapshotSeqs.Insert | src/services/localStorage.ts:27 | one insertion step of the sort adds one element, taken from the input |
| SnapshotSeqs.InsertPermutes | src/services/localStorage.ts:27 | an insertion adds exactly the inserted snapshot to the multiset |
| SnapshotSeqs.InsertIds | src/services/localStorage.ts:27 | an insertion adds exactly the inserted id to the id multiset |
| SnapshotSeqs.InsertNewestFirst | src/services/localStorage.ts:27 | inserting into a newest-first list keeps it newest-first |
| SnapshotSeqs.SortByNewest | src/services/localStorage.ts:27 | the sort returns a permutation (same multiset of snapshots and of ids) ordered by createdAt descending |
| SnapshotSeqs.SortKeepsNewestFirst | src/services/localStorage.ts:27 | sorting a list that is already newest-first returns it unchanged |
| SnapshotSeqs.SortKeepsUniqueIds | src/services/localStorage.ts:27 | the sort neither creates nor removes duplicate ids |
| Stats.Zeros | src/services/localStorage.ts:269-282 | every known key starts at 0 |
| Stats.RoundedMeanCents | src/services/localStorage.ts:294 | the mean in hundredths, rounded half up: 2n·c ≤ 200·sum + n < 2n·c + 2n |
| Stats.Bump | src/services/localStorage.ts:288-290 | `counter[k]++` on an object: k becomes a key, a numeric counter goes up by one, a missing or NaN one becomes NaN, every other key is untouched |
| Stats.TallyBy | src/services/localStorage.ts:271-290 | the counters of one stats field after the forEach has visited every snapshot: the zero literal bumped once per snapshot at its key; its properties are the TallyKeysPresent, TallyCounts and TallySum rows |
| Stats.ScoreSum | src/services/localStorage.ts:285-291 | the running totalScore, the sum of the snapshots' scores; bounded by ScoreSumBounds |
| Stats.StatsOf | src/services/localStorage.ts:269-295 | the object getStats builds from a snapshot list; its properties are the StatsOfEmpty, StatsKeysPresent, StatsCountsSumToTotal and AverageInRange rows |
| Stats.TallyKeysPresent | src/services/localStorage.ts:287-290 | every known key stays present in the counters whatever the snapshots |
| Stats.TallyCounts | src/services/localStorage.ts:287-290 | when every key is known, each counter equals the number of snapshots with that key and no other key appears |
| Stats.SumCountsOther | src/services/localStorage.ts:288 | bumping an unknown key leaves the sum of the known counters alone |
| Stats.SumCountsBump | src/services/localStorage.ts:288 | bumping a known numeric key adds one to the sum |
| Stats.TallySum | src/services/localStorage.ts:287-290 | when every key is known the counters add up to the number of snapshots |
| Stats.SumCountsZero | src/services/localStorage.ts:271-280 | counters that are all 0 sum to 0 |
| Stats.ScoreSumBounds | src/services/localStorage.ts:291 | with scores on 1..25 the total lies between n and 25n |
| Stats.StatsOfEmpty | src/services/localStorage.ts:269-282 | an empty store gives total 0, mean 0 and every known counter at 0 |
| Stats.StatsKeysPresent | src/services/localStorage.ts:271-280 | all four level, six category and two source keys are always present |
| Stats.KnownKeysDistinct | src/services/localStorage.ts:271-280 | the level, category and source key lists of the stats literal have no repeated key |
| Stats.StatsCountsSumToTotal | src/services/localStorage.ts:287-290 | each family of counters sums to the total when all its keys are known |
| Stats.AverageInRange | src/services/localStorage.ts:294 | with scores on 1..25 the rounded mean lies between 1.00 and 25.00 |
| ImportExport.AsSnapshot | src/services/localStorage.ts:199 | a well-formed record is pushed as it is: its own non-empty id and every other field carried over unchanged |
| ImportExport.WellFormed | src/services/localStorage.ts:187 | the structure check: id, risk and version all truthy; Judge's row states what follows from it |
| ImportExport.InvalidLabel | src/services/localStorage.ts:188 | the name reported for a malformed record is its id when truthy and "ID desconocido" otherwise, never empty |
| ImportExport.DuplicateLabel | src/services/localStorage.ts:194 | the name reported for a duplicate is its risk's title, or its id when the title is empty; never empty |
| ImportExport.AcceptedOf | src/services/localStorage.ts:184-204 | the snapshots the loop pushes: at most one per record; AcceptedIff, AcceptedComplete and AcceptedOfAppend state which and in what order |
| ImportExport.RejectionsOf | src/services/localStorage.ts:184-204 | the errors the loop reports: at most one per record; RejectedComplete, RejectionsCount and AcceptedOfAppend state which, how many and in what order |
| ImportExport.AcceptedComplete | src/services/localStorage.ts:197-200 | every record the checks accept is pushed |
| ImportExport.AcceptedIff | src/services/localStorage.ts:184-204 | a snapshot is imported exactly when some record of the batch is accepted as it |
| ImportExport.RejectedComplete | src/services/localStorage.ts:186-195 | every rejected record has its error reported |
| ImportExport.RejectCount | src/services/localStorage.ts:186-195 | the number of records the checks reject, counted from the front of the batch |
| ImportExport.RejectCountAppend | src/services/localStorage.ts:184 | the rejection count of two batches in a row is the sum of their counts |
| ImportExport.RejectionsCount | src/services/localStorage.ts:186-195 | exactly one error per rejected record |
| ImportExport.AcceptedOfAppend | src/services/localStorage.ts:184-204 | a batch split in two imports and reports the first part's records before the second's: batch order |
| ImportExport.Judge | src/services/localStorage.ts:186-199 | a record is imported exactly when it has a truthy id, risk and version and its id was not stored before the import |
| ImportExport.ImportBalance | src/services/localStorage.ts:184-204 | imported plus reported records equal the records in the file |
| ImportExport.AcceptedOrigin | src/services/localStorage.ts:197-200 | each imported snapshot comes from an accepted record of the batch |
| ImportExport.AcceptedAreNew | src/services/localStorage.ts:192-195 | no imported snapshot has an id stored before the import |
| ImportExport.AcceptedUniqueIds | src/services/localStorage.ts:182-200 | a batch with distinct ids imports snapshots with distinct ids |
| ImportExport.ImportKeepsUniqueIds | src/services/localStorage.ts:182-200 | stored snapshots followed by the imported ones repeat no id, given unique stored ids and a batch with distinct ids |
| ImportExport.SameBatchDuplicatesAreBothImported | src/services/localStorage.ts:182-200 | two records with the same new id in one batch are both imported, breaking uniqueness |
| ImportExport.ReimportAcceptsNothing | src/services/localStorage.ts:192-195 | records whose ids are all stored import nothing and each produces one error |
| Queries.MatchesTerm | src/services/localStorage.ts:222-226 | one snapshot against the lower-cased query: its lower-cased title, description, note or some tag contains it; SearchIn's row states the search built on it |
| Queries.MeetsCriteria | src/services/localStorage.ts:240-260 | every present criterion holds: exact category, level and source, createdAt within the inclusive date bounds; FilterIn's row states the filter built on it |
| Queries.SearchIn | src/services/localStorage.ts:217-228 | search keeps, in order, exactly the snapshots whose lower-cased title, description, note or a tag contains the lower-cased query, every copy of a matching snapshot and none of a failing one |
| Queries.SearchEmptyKeepsAll | src/services/localStorage.ts:219-223 | the empty query keeps every snapshot |
| Queries.SearchIgnoresQueryCase | src/services/localStorage.ts:219 | the query's case does not change the result |
| Queries.SearchFindsTagIgnoringCase | src/services/localStorage.ts:226 | a tag "Quantum" is found by the queries "quantum" and "QUANTUM" |
| Queries.Narrow | src/services/localStorage.ts:240-242 | one `if (filters.x) snapshots = snapshots.filter(…)` step; NarrowAfterWhere and FilterSteps state what the chain of five computes |
| Queries.NarrowAfterWhere | src/services/localStorage.ts:240-260 | one conditional filter step after a filter is one filter by both conditions |
| Queries.FilterIn | src/services/localStorage.ts:238-262 | filter is one `Array.filter` by the conjunction of the present criteria (exact category, level and source, inclusive date bounds): a subsequence keeping every copy of a snapshot that meets them and none of one that does not |
| Queries.FilterSteps | src/services/localStorage.ts:240-260 | the five chained steps are one filter by the conjunction of the criteria |
| Queries.FilterNoCriteriaKeepsAll | src/services/localStorage.ts:240-262 | no criteria keep every snapshot |
| LocalStorage.ApplyPatch | src/services/localStorage.ts:100-104 | the merge sets updatedAt to now; every field the patch has takes the patch's value and every field it lacks keeps the stored one (the empty patch changes only updatedAt) |
| LocalStorage.ApplyPatchIdempotent | src/services/localStorage.ts:100-104 | applying the same patch twice is applying it once at the later instant |
| LocalStorage.PatchCanDuplicateIds | src/services/localStorage.ts:100-106 | a patch carrying another snapshot's id breaks id uniqueness |
| LocalStorage.PatchCanDesynchronise | src/services/localStorage.ts:100-106 | a patch that changes likelihood without the score is stored inconsistent |
| LocalStorage.NewSnapshot | src/services/localStorage.ts:46-66 | score = likelihood × impact and level = its classification, version 1, no tags, empty note, createdAt = updatedAt = now, risk id = the server record's id, form fields copied |
| LocalStorage.NewSnapshotFromAcceptedForm | src/services/localStorage.ts:46-47 | a snapshot built from an accepted form has a score on 1..25 and the level of the band containing it |
| LocalStorage.NewSnapshotExamples | src/services/localStorage.ts:46-60 | likelihood 5 and impact 5 give 25/CRITICAL; 1 and 2 give 2/LOW |
| LocalStorage.RemovedAtMostIds | src/services/localStorage.ts:135-136 | with unique stored ids, deleteMultiple removes at most as many snapshots as ids given |
| LocalStorage.RemovedCanExceedIds | src/services/localStorage.ts:135-136 | with a duplicated stored id, one id removes two snapshots |
| LocalStorage.IdAbsent | src/services/localStorage.ts:121 | a filter by "id differs" that drops nothing means the id is not stored |
| LocalStorage.IdPresent | src/services/localStorage.ts:121 | a filter by "id differs" that drops something means the id is stored |
| LocalStorage.LookupSole | src/services/localStorage.ts:35-37 | when one snapshot alone carries an id, looking the id up in the sorted list finds that snapshot |
| LocalStorage.ImportBatch | src/services/localStorage.ts:184-204 | the import loop ends with the stored list followed by the accepted records, the count of those, and the errors in batch order |
| LocalStorage.SnapshotStore.constructor | src/services/localStorage.ts:18 | the store starts over whatever the entry holds |
| LocalStorage.SnapshotStore.Stored | src/services/localStorage.ts:23-26 | the parsed array as it was written, nothing when the entry is missing or garbled; GetAll's row states what getAll makes of it |
| LocalStorage.SnapshotStore.GetAll | src/services/localStorage.ts:21-31 | a permutation of the stored snapshots (and of their ids) ordered by createdAt descending; empty when the entry is missing or garbled |
| LocalStorage.SnapshotStore.GetById | src/services/localStorage.ts:35-38 | null exactly when no snapshot has the id; otherwise the first snapshot of getAll with that id |
| LocalStorage.SnapshotStore.Save | src/services/localStorage.ts:74-90 | a new id goes at the head of getAll's list and the store grows by one; a stored id is replaced in place with updatedAt now and the size is kept; a failed write throws and changes nothing; ids stay unique; getById then returns the saved snapshot |
| LocalStorage.SnapshotStore.SaveFromForm | src/services/localStorage.ts:41-71 | returns the built snapshot and saves it as save does, or the save error with nothing written |
| LocalStorage.SnapshotStore.Update | src/services/localStorage.ts:93-113 | null with nothing written for an absent id or a failed write; otherwise only the first entry with the id becomes the patched snapshot, which is returned and which getById then finds |
| LocalStorage.SnapshotStore.Delete | src/services/localStorage.ts:116-129 | true exactly when the id was stored and the write succeeded; then getAll is its old list without that id, every other snapshot kept in order; otherwise nothing is written |
| LocalStorage.SnapshotStore.DeleteMultiple | src/services/localStorage.ts:132-144 | writes getAll's list without the listed ids; returns size before minus size after, which is the number of stored snapshots with a listed id (at most the store size, and at most the number of ids when stored ids are unique); 0 and nothing written on a failed write |
| LocalStorage.SnapshotStore.Clear | src/services/localStorage.ts:147-153 | the entry is removed and getAll is empty; a failure changes nothing |
| LocalStorage.SnapshotStore.Export | src/services/localStorage.ts:156-168 | version 1, the export instant, count = the number of stored snapshots = the length of data, data = getAll's list (newest first, a permutation of the stored snapshots) |
| LocalStorage.SnapshotStore.ExportThenImportImportsNothing | src/services/localStorage.ts:182-194 | importing the store's own export into it imports nothing and reports every record |
| LocalStorage.SnapshotStore.Import | src/services/localStorage.ts:171-214 | an unparsable file or one without a data array gives one error and no write; otherwise the new list is the old one plus the accepted records, written only if one was accepted; success exactly when imported > 0; a failed write gives the format error and imports nothing; ids stay unique for a batch with distinct ids |
| LocalStorage.SnapshotStore.Search | src/services/localStorage.ts:217-228 | a subsequence of getAll holding exactly the matching snapshots, with every copy of each; the empty query keeps all |
| LocalStorage.SnapshotStore.Filter | src/services/localStorage.ts:231-263 | getAll filtered once by the conjunction of the present criteria: a subsequence holding every copy of the snapshots that meet them and nothing else; no criteria keep all |
| LocalStorage.SnapshotStore.GetStats | src/services/localStorage.ts:266-298 | the stats of getAll's list: total, the counters of every known key (NaN for a key the literal lacks), and the rounded mean, 0 when empty |

## Left out

- Host services are parameters or fields:
  - `uuidv4`, `new Date()` and `Date` parsing are arguments: a fresh id, and the current instant as an integer.
  - `JSON.parse`/`JSON.stringify` and `localStorage` are the `payload` field (missing, garbled or parsed) and a `writeOk` flag.
  - The error objects and `console.error` output are left out; only which error is reported is kept.
- Date strings are integers. Invalid dates (`NaN` comparisons in the sort and in the date criteria) are not modelled.
- saveFromForm: the two `new Date()` calls are one instant, so createdAt = updatedAt holds by construction. The source could produce two instants a millisecond apart.
- Stored and imported records are assumed to have the snapshot shape or to lack its fields. An import record that is a number, a string, a boolean or an array is an `Entry` with no id, risk or version, and is reported as "Snapshot inválido: ID desconocido", as reading those properties gives `undefined`. Only `null` makes that read throw; it is `NullEntry`, reported through the per-record `catch`. A property of the wrong JSON type (a numeric title, say) is not modelled.
- Category, level and source in stored snapshots are plain strings, as the parsed JSON admits anything. The enums are used where the code fixes the values.
- Update: a patch key present with the value `undefined` is the same as an absent key. In the source, such a key overwrites the field with `undefined`.
- RiskCategoryLabel: keys inherited from `Object.prototype` (for instance "toString") are not modelled in the label lookup.
- Text.Lower: the Unicode case mapping beyond ASCII and Latin-1 capitals is not modelled, nor special cases such as the dotted capital I.
- RiskValidation.FormAccepted: string lengths are counted in characters, not UTF-16 code units. Likelihood and impact are integers, so the fractional values `z.number()` would admit are not modelled.
- RiskValidation.AcceptedFormNeverFallsBack: holds because likelihood and impact are modelled as integers. The schema's `z.number().min(1).max(5)` also accepts fractions: 2.5 and 3.8 pass it, their product 9.5 lies in no band, and the classifier returns its fallback LOW. LocalStorage.NewSnapshotFromAcceptedForm relies on the same restriction.
- LocalStorage.NewSnapshotFromAcceptedForm: the score on 1..25 and the band's level hold because likelihood and impact are integers here. The form reads its inputs with `valueAsNumber`, and the schema accepts 2.5 and 3.8; their product 9.5 lies in no band, so the snapshot gets the fallback level LOW.
- Stats.RoundedMeanCents: the floating-point `Math.round(x * 100) / 100` is an exact rational rounded half up to hundredths. Binary floating-point error is not modelled.
- SnapshotSeqs.SortByNewest: the contract states the order and the permutation. It does not state that equal timestamps keep their relative order, although the insertion sort is stable.
- The singleton `getInstance` and the private constructor are a single instance made by the constructor.
- Export: the pretty-printed JSON text is not modelled, only the envelope's contents.
