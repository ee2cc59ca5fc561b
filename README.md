# Control Panel: a Dafny model of its data layer, forms, filters and page builder

Control Panel is a personal dashboard. It keeps projects, activities, writing pieces, books, resources,
revenue entries, revenue goals and AI tools in eight database tables, and serves them through an Astro app
with form-driven API routes. A static prototype is assembled from HTML pages by a build script, and a
browser script highlights the current navigation section.

This project models the logic at the core of that system and proves what it promises:

- **`Records`, `Tables` (`app/src/utils/db.ts`).**
  - The `create*` and `update*` record builders are a table of per-column rules. Examples: `data.f || dflt`,
    `data.f !== undefined ? Number(data.f) : existing.f`, and the inline tag splitting.
  - Each table is a class whose rows the operations update in place:
    - `create*` inserts, failing on a taken id (the primary key);
    - `update*` looks the row up as a signed-in reader, then writes the merge;
    - `delete*` removes the row;
    - reads filter by visibility.
- **`Stats` (`db.ts`, the `get*Stats` functions).** The `forEach` loops that count or sum by a column, the tag
  counts, and the ten most frequent tags.
- **`Data` (`app/src/utils/data.ts`).** The in-memory collection helpers:
  - visibility filter, lookup, `countByProperty`, tag filter;
  - `sortByDate`, as an insertion sort on an array copy;
  - `saveItem`, `deleteItem`, `initializeData`.
- **`Form` (`app/src/utils/form.ts`).** `parseFormData` (the typed decoding of form entries) and
  `validateFormData`, both as the loops they are.
- **`Filters` (`app/src/utils/filters.ts`).** The activity filters by project, type and date range, and their
  composition.
- **`ProjectsApi` (`app/src/pages/api/projects/index.ts`).** The `POST` decision from form contents to a 401, 400,
  delete plus 303, insert plus 303, or 500. Also `GET` with the sign-in flag.
- **`BuildPages` (`prototype/js/build-pages.js`).**
  - Output paths, relative paths, expected titles, placeholder substitution and active-class conditionals.
  - The `.html` selection and redirects of the build loop.
  - The title step of content extraction.
- **`Nav` (`prototype/js/main.js`).** The pathname-to-navigation-class logic and the guards that decide whether
  a link click is intercepted.

Supporting modules:

- `Wrappers`: `Option` and `Result`.
- `JsValues`: a JavaScript value. It covers truthiness, `||`, `Number`, `new Date`, and the tag-splitting
  pipeline.
- `Fields`: the column names.
- `Strings`: `split`, `join`, `trim`, `indexOf`, `replace` with and without `/g`.
- `Seqs`: an order-keeping filter and the subsequence relation.
- `Tallies`: count dictionaries.

Inputs the code reads from its surroundings are parameters (a `Host`):

- the clock ("now");
- `nanoid` (a fresh id);
- `Number(s)`, `parseFloat(s)` and `new Date(s)` of a string;
- the text JavaScript gives a number or a date, used when an array converts through its comma join;
- whether a visitor is signed in;
- the contents of local storage;
- the parsed page DOM.

## Model

| member | source | states |
|---|---|---|
| JsValues.ToNumber | app/src/utils/db.ts:298 | `Number(v)` is a number or NaN. A number is kept, `null`/`false`/`[]` give 0 and `undefined` gives NaN. An array of two or more items is NaN; a one-item array converts as its item does (`[5]` and `['5']` as 5, `[null]` as 0) |
| JsValues.NewDate | app/src/utils/db.ts:291 | `new Date(v)` is a date, valid or not. A date is kept and `null` is time 0. A number is valid exactly within ±8.64e15 ms, a string exactly when it parses, an array exactly when its comma join parses |
| JsValues.SingletonArrayConverts | app/src/utils/db.ts:291-298 | `Number([s])`, `Number([[s]])` and `new Date([s])` agree with `Number(s)` and `new Date(s)` |
| JsValues.AsDate | app/src/utils/db.ts:109 | `v instanceof Date ? v : new Date(v)` is always a date, and a date passes through |
| JsValues.TrimmedPieces | app/src/utils/db.ts:118 | `.map(t => t.trim()).filter(t => t)` keeps at most as many pieces as parts. Each piece is non-empty and the trim of some part |
| JsValues.NormalizeTags | app/src/utils/db.ts:116-118 | An array is kept. A string becomes its comma-separated pieces, trimmed, with empty ones dropped. Anything else becomes `[]` |
| JsValues.TrimmedPiecesWellFormed | app/src/utils/db.ts:118 | Pieces cut at a separator are non-empty, trimmed and separator-free |
| JsValues.SplitTagsWellFormed | app/src/utils/db.ts:118 | Every tag split from a string is non-empty, has no surrounding white space and contains no comma |
| JsValues.SplitTagsSingle | app/src/utils/db.ts:118 | A string without a comma gives its trimmed self as the only tag, or no tag when it is blank |
| Strings.JoinSplit | app/src/utils/db.ts:118 | `split(sep)` loses nothing: joining the parts with the separator gives back the string |
| Strings.TrimIdempotent | app/src/utils/db.ts:118 | Trimming a trimmed tag changes nothing |
| Strings.TrimEmptyIffAllSpace | app/src/utils/db.ts:118 | A piece is dropped as empty after `trim()` exactly when it is all white space |
| Strings.TrimShape | app/src/utils/db.ts:118 | The trimmed tag is the slice after the leading white space, only white space follows it, and it neither starts nor ends with white space |
| Strings.ReplaceFirst | prototype/js/build-pages.js:144 | `replace` with a string pattern splices the replacement in at the first occurrence, and leaves text without an occurrence unchanged |
| Strings.ReplaceAllIsSplitJoin | prototype/js/build-pages.js:145-147 | `replace` with a `/g` pattern is the split on the pattern joined with the replacement |
| Strings.RunBefore | prototype/js/build-pages.js:157 | A `[^}]+` (or `[^\/]+`) group takes the longest run without the stop character: none inside the run, the stop character right after it |
| Strings.RunBeforeOf | prototype/js/main.js:79 | The run stops exactly at the next stop character or the end of the text |
| Records.FirstTruthy | app/src/utils/db.ts:296 | `a \|\| b \|\| dflt` is the first truthy input, whatever falsy inputs come before it, or the default when none is truthy |
| Records.EvalKind | app/src/utils/db.ts:289-330 | Whatever the input, a creation rule writes a value of its kind (array, date, number, …) |
| Records.EvalKeeps | app/src/utils/db.ts:340-377 | An update rule keeps a column of its kind |
| Records.SpecsWellFormed | app/src/utils/db.ts:290-300 | For every table: `create*` takes `data.id \|\| nanoid` and `data.visibility \|\| 'private'`, `update*` never writes the id, and every column an update writes is a created column of a compatible kind |
| Records.NewRecordFits | app/src/utils/db.ts:305-321 | A created record has exactly its table's columns, each of its kind |
| Records.UpdateFits | app/src/utils/db.ts:359-377 | A stored row with an update merged over it is still a row of that table, with the same id |
| Records.CreateIdAndVisibility | app/src/utils/db.ts:106-134 | Every create keeps a supplied id and generates one only when the input's is falsy. A falsy visibility becomes 'private' |
| Records.MergeTables | app/src/utils/db.ts:359-374 | Outside activities, every column an update writes falls back to the existing row, except `lastUpdated`, which is always refreshed |
| Records.FallBackOnUndefined | app/src/utils/db.ts:360-373 | A falling-back rule keeps the existing value when the input is undefined |
| Records.FallBackOnNull | app/src/utils/db.ts:360-373 | On a null input, `\|\|` columns keep the existing value, numeric columns get `Number(null)` = 0 and `!== undefined` columns become null |
| Records.IgnoresExisting | app/src/utils/db.ts:157-166 | A rule that does not fall back writes the same value whatever the existing row |
| Records.UpdateKeepsUndefined | app/src/utils/db.ts:359-374 | Outside activities, a column left undefined keeps its stored value |
| Records.UpdateWithNull | app/src/utils/db.ts:359-374 | Outside activities, the value a null input leaves in each updated column |
| Records.ActivityUpdateVisibility | app/src/utils/db.ts:165 | An activity update writes the input's visibility, or else the existing one |
| Records.ActivityUpdateReplaces | app/src/utils/db.ts:150-169 | `updateActivity` is not a merge. Apart from visibility, what it writes does not depend on the existing row |
| Records.ActivityUpdateClears | app/src/utils/db.ts:153-164 | Absent tags, duration and url in an activity update become `[]`, null and null |
| Records.ProjectTitleDefault | app/src/utils/db.ts:296 | A project's title falls back from `title` to `name` to 'Untitled Project' |
| Records.ProjectProgressDefault | app/src/utils/db.ts:298 | A project's progress is 0 only when undefined, and otherwise `Number` of the input |
| Records.ProjectTechStackDefault | app/src/utils/db.ts:299 | A project's techStack is `[]` unless the input is already an array |
| Records.ActivityDurationFalsyIsNull | app/src/utils/db.ts:127 | A falsy duration, 0 included, becomes null |
| Records.GoalEndDateUpdate | app/src/utils/db.ts:1517-1519 | A goal's endDate keeps its stored value when undefined, is cleared to null when present but falsy, and is otherwise the date |
| Records.FavoriteOnlyLiteralTrue | app/src/utils/db.ts:1059 | A new resource or AI tool is a favourite only for the literal `true` |
| Tables.Visible | app/src/utils/db.ts:21-33 | A signed-in reader gets every row. Anyone else gets exactly the public rows, in table order |
| Tables.Where | app/src/utils/db.ts:499-513 | `get*ByX` returns exactly the visible rows whose column equals the value, in order |
| Tables.Find | app/src/utils/db.ts:91-103 | `get*(id)` returns a visible row with that id. With none, every row with that id is private and the reader is not signed in |
| Tables.WhereLastWins | app/src/utils/db.ts:21-33 | With a query builder whose later `.where` replaces the earlier one, a visitor gets every public row, whatever the column test |
| Tables.FindLastWins | app/src/utils/db.ts:91-100 | Under the same reading, a visitor gets some public row whenever one exists, whatever the id |
| Tables.VisitorGetsAnotherRow | app/src/utils/db.ts:91-100 | A visitor asking for an id no row has gets the public row "a" under that reading, where the conjunction reading gives nothing |
| Tables.SetWhere | app/src/utils/db.ts:376 | `.set(changes).where(eq(id))` writes the defined changes over exactly the rows with that id; a change left undefined keeps the stored value |
| Tables.Defined | app/src/utils/db.ts:376 | The changes `.set()` writes: exactly the keys whose value is not undefined, with their values |
| Tables.PublicSubsetOfAll | app/src/utils/db.ts:21-33 | What a visitor who is not signed in sees is a subsequence of what a signed-in reader sees |
| Tables.FindPublicAgrees | app/src/utils/db.ts:258-271 | A row a visitor can fetch is the row a signed-in reader fetches |
| Tables.FindUnique | app/src/utils/db.ts:258-271 | When ids are unique, the visible row with the id is the one returned |
| Tables.FindAfterCreate | app/src/utils/db.ts:289-330 | A row inserted under a fresh id is then what a signed-in reader fetches by that id |
| Tables.FindAfterDelete | app/src/utils/db.ts:385-393 | After a delete no reader finds the id, and every other id is found as before |
| Tables.FindAfterUpdate | app/src/utils/db.ts:332-382 | After an update, a signed-in reader finds the old row with the defined changes over it: an undefined change keeps the old value, a defined one replaces it |
| Tables.Table.All | app/src/utils/db.ts:246-256 | `getAll*(auth)` returns the rows the reader may see, in table order |
| Tables.Table.Create | app/src/utils/db.ts:289-330 | Inserts and returns the built record. With the id taken it throws and writes nothing; the table stays valid |
| Tables.InsertKeepsValid | app/src/utils/db.ts:326 | Inserting a well-formed record under an id no row has keeps every row well-formed and the ids unique |
| Tables.Table.Update | app/src/utils/db.ts:332-382 | With no row under the id (private rows count), it throws and writes nothing. Otherwise it writes the defined changes over the row and returns `{id, ...changes}` |
| Tables.Table.Delete | app/src/utils/db.ts:385-393 | Removes every row with that id, keeps the others in order, and returns `{success: true, id}` |
| Tables.UpdatedRowFits | app/src/utils/db.ts:332-382 | An update keeps every row well-formed and the ids unique |
| Tables.DefinedFits | app/src/utils/db.ts:359-376 | Dropping the undefined changes keeps a merged row well-formed, with the same id |
| Tables.DeleteKeepsValid | app/src/utils/db.ts:385-393 | A delete keeps every row well-formed and the ids unique |
| Stats.NumberOrZero | app/src/utils/db.ts:1388 | `entry.amount \|\| 0` counts a truthy number as its value and anything falsy as 0 |
| Stats.GroupBy | app/src/utils/db.ts:193-205 | The `forEach` loop computes the frequency table of its rows (`Grouped`) |
| Stats.GroupedSum | app/src/utils/db.ts:193-197 | The entries of a frequency table add up to what the counted rows add |
| Stats.GroupedKeys | app/src/utils/db.ts:200-205 | A key is in the table exactly when some counted row carries it |
| Stats.GroupedAt | app/src/utils/db.ts:193-205 | A key's entry is the total of the counted rows that carry it |
| Stats.SkippedKeysAbsent | app/src/utils/db.ts:200-205 | `byProject`/`byCategory` never hold a falsy key |
| Stats.CountsSumToTotal | app/src/utils/db.ts:193-197 | `byType`/`byStatus` counts add up to `total` |
| Stats.TotalIsLength | app/src/utils/db.ts:193-197 | When every row counts 1, the counted rows add up to the number of rows |
| Stats.ColumnSumIsTotal | app/src/utils/db.ts:1380 | The `reduce` over amounts equals the weighted total over every row |
| Stats.FavoriteCount | app/src/utils/db.ts:1179 | The favourite count is at most the number of rows |
| Stats.FavoriteCountCounts | app/src/utils/db.ts:1179 | `favoriteCount` is the number of rows whose `isFavorite` is truthy |
| Stats.TalliedCounts | app/src/utils/db.ts:442-449 | The tag counts have one entry per distinct tag, each with the number of times that tag occurs |
| Stats.CountTags | app/src/utils/db.ts:442-449 | The nested `forEach` builds the tag counts of the rows' tag arrays |
| Stats.CountRowTags | app/src/utils/db.ts:445-447 | The inner `forEach` over one row's tags extends the tag counts to cover those tags |
| Stats.InsertPermutes | app/src/utils/db.ts:454 | A stable insertion step is a permutation |
| Stats.InsertDescending | app/src/utils/db.ts:454 | A stable insertion step keeps counts non-increasing |
| Stats.SortDescSpec | app/src/utils/db.ts:454 | The sort is a permutation into non-increasing count order |
| Stats.TopTags | app/src/utils/db.ts:452-455 | The top tags are at most ten entries |
| Stats.TopTagsSpec | app/src/utils/db.ts:452-455 | min(10, n) entries, taken from the counts, in non-increasing order, none left out counted more than one kept |
| Stats.TopTagsOfRows | app/src/utils/db.ts:442-455 | Each top tag carries its true count, and a tag missing from the top ten occurs no more often than any tag in it |
| Stats.TopTagsOf | app/src/utils/db.ts:442-455 | Counting, sorting and keeping ten compute `TopTags` of the tag counts |
| Stats.GetActivityStats | app/src/utils/db.ts:188-226 | `total` is the row count, `byType` counts every row, and `byProject` skips a falsy project |
| Stats.GetProjectStats | app/src/utils/db.ts:417-477 | total, by status, by truthy category, top tags |
| Stats.GetWritingStats | app/src/utils/db.ts:641-692 | total, by status, by category (empty ones counted too), word-count sum, top tags |
| Stats.GetBookStats | app/src/utils/db.ts:879-952 | total, by status, by truthy category and format, top tags |
| Stats.GetResourceStats | app/src/utils/db.ts:1140-1201 | total, by truthy category and type, favourite count, top tags |
| Stats.GetRevenueStats | app/src/utils/db.ts:1375-1428 | The amount total and the amount sums by truthy type and status |
| Stats.GetToolStats | app/src/utils/db.ts:1735-1782 | total, by truthy category, favourite count, top tags |
| Stats.TotalWeightAllCounted | app/src/utils/db.ts:1384-1389 | When no row has a falsy key, skipping falsy keys changes nothing |
| Stats.RevenueByTypeAddsUp | app/src/utils/db.ts:1380-1389 | When every entry has a type, revenue by type adds up to the revenue total |
| Data.VisibleContent | app/src/utils/data.ts:13-21 | Signed in: the input unchanged. Otherwise: exactly the public items, in order |
| Data.FindIndex | app/src/utils/data.ts:149 | `findIndex` finds the first item with the id, and gives -1 (None) when no item has it |
| Data.GetItemById | app/src/utils/data.ts:29-31 | Returns an item with the id, or undefined when there is none |
| Data.GetItemByIdFirst | app/src/utils/data.ts:29-31 | The item returned is the first with the id |
| Data.CountByProperty | app/src/utils/data.ts:39-48 | The `reduce` computes the key counts (`Counts`) |
| Data.CountsSumToLength | app/src/utils/data.ts:39-48 | The counts add up to `items.length` |
| Data.CountsAt | app/src/utils/data.ts:39-48 | Each key's count is the number of items with that key, and a key no item has is absent |
| Data.CountOfCounts | app/src/utils/data.ts:39-48 | That number is the size of the set of positions holding the key |
| Data.FilterByTag | app/src/utils/data.ts:74-76 | A subsequence of the input that holds exactly the items whose tags include the tag |
| Data.KeySortedIsSorted | app/src/utils/data.ts:90-94 | Ordering by the comparator's key is the date order asked for |
| Data.InsertAt | app/src/utils/data.ts:90-94 | Sinking one item in place leaves the prefix as `Inserted` of the old prefix and that item, and the rest of the array as it was |
| Data.InsertedPermutes | app/src/utils/data.ts:90-94 | An insertion step adds the item and loses nothing |
| Data.InsertedSorted | app/src/utils/data.ts:90-94 | An insertion step into a sequence sorted by the comparator's key keeps it sorted |
| Data.InsertionSortedSpec | app/src/utils/data.ts:90-94 | Insertion sort gives a permutation of its input in the comparator's key order |
| Data.InsertedStable | app/src/utils/data.ts:90-94 | An insertion step keeps the items of each time in their order, the inserted one after the others of its time |
| Data.InsertionSortedStable | app/src/utils/data.ts:90-94 | Insertion sort is stable: for every time, the items with that time come out in their input order |
| Data.SortByDate | app/src/utils/data.ts:85-95 | The result is a permutation of the input, in descending date order by default and ascending when asked, and items with the same date keep their input order, as the stable `Array.prototype.sort` keeps them |
| Data.SaveItem | app/src/utils/data.ts:148-166 | An item with a known id replaces the first item with that id in place, with the length and all other items unchanged. A new id is appended |
| Data.SaveThenGet | app/src/utils/data.ts:148-166 | After saving, the id finds the saved item |
| Data.DeleteItem | app/src/utils/data.ts:175-179 | No item with the id remains, and every other item is kept in order |
| Data.InitializeData | app/src/utils/data.ts:187-215 | With nothing stored: the defaults. Otherwise: the stored items, then a subsequence of the defaults none of whose ids is stored |
| Data.InitializeKeepsIds | app/src/utils/data.ts:187-215 | Every default's id is present afterwards |
| Form.Decode | app/src/utils/form.ts:15-56 | A `_` key or an empty file is dropped. `''` becomes null. A numeric string becomes a number, except under `id`/`*Id`, where it stays a string. 'true'/'false' become booleans |
| Form.ParseFormData | app/src/utils/form.ts:12-60 | The loop computes `Parsed`, the entries decoded and written in order |
| Form.ParsedSkipsUnderscore | app/src/utils/form.ts:17 | No key starting with `_` is in the result |
| Form.ParsedKeys | app/src/utils/form.ts:15-57 | A key is in the result exactly when some entry with that key decodes to a value |
| Form.ParsedLastWins | app/src/utils/form.ts:15-57 | When a key repeats, the last entry that decodes wins |
| Form.FieldProblem | app/src/utils/form.ts:77-129 | A required empty field gets only "required". A non-required empty field gets nothing. A size over max, or else under min, is an error. A non-empty field within its bounds gets the outcome of its type check |
| Form.Utf16Length | app/src/utils/form.ts:117-124 | `value.length` counts UTF-16 units: at least one and at most two per character, exactly one when no character is outside the basic plane |
| Form.KindProblemCases | app/src/utils/form.ts:89-112 | A number field fails exactly when `Number(value)` is NaN (a string: when it does not parse; an array of two or more items: always). A string or boolean field fails exactly when the value is of another type. A date field fails exactly when `new Date(value)` is invalid (a number beyond ±8.64e15 ms, an unparsable string). Other kinds never fail |
| Form.DateFieldOutOfRange | app/src/utils/form.ts:106-109 | A date field holding a number beyond ±8.64e15 ms within its bounds gets "must be a valid date" |
| Form.ErrorsOfWithin | app/src/utils/form.ts:74 | Only checked schema fields get errors |
| Form.CheckField | app/src/utils/form.ts:75-129 | One field's check records its problem, if any, and nothing else |
| Form.CheckFields | app/src/utils/form.ts:74-130 | The loop over the schema records exactly the problems of the failing schema fields |
| Form.ValidateFormData | app/src/utils/form.ts:68-136 | The errors are the failing schema fields, `isValid` holds exactly when there are none, and every error key is a schema field |
| Form.ErrorsAt | app/src/utils/form.ts:78-86 | A field has an error exactly when its check fails. A required empty field's error is "required" and a non-required empty field has none |
| Filters.FilterByProject | app/src/utils/filters.ts:15-20 | `''` or `'all'` returns the input. Otherwise it returns exactly the activities of that project, as a subsequence |
| Filters.FilterByType | app/src/utils/filters.ts:28-33 | The same, for the activity type |
| Filters.FilterByDateRange | app/src/utils/filters.ts:41-103 | As written: pass-through for `''`, `'all'` and unknown ranges, otherwise exactly the activities in the range, as a subsequence |
| Filters.LastWeekMissesItsLastDay | app/src/utils/filters.ts:67-79 | An activity one millisecond into last week's Saturday is in neither last week nor this week |
| Filters.LastMonthMissesItsLastDay | app/src/utils/filters.ts:85-94 | An activity one millisecond into last month's last day is in neither last month nor this month |
| Filters.FilterByDateRangeFixed | app/src/utils/filters.ts:41-103 | The same filter with the closed ranges ending where the next period starts |
| Filters.WeeksPartition | app/src/utils/filters.ts:59-79 | In the corrected filter, every time since the start of last week is in exactly one of last week and this week |
| Filters.MonthsPartition | app/src/utils/filters.ts:80-94 | The same for last month and this month |
| Filters.FilterByProjectIsFilter | app/src/utils/filters.ts:15-20 | The project filter is the order-keeping filter by its predicate |
| Filters.FilterByTypeIsFilter | app/src/utils/filters.ts:28-33 | The type filter is the order-keeping filter by its predicate |
| Filters.FilterByDateRangeIsFilter | app/src/utils/filters.ts:41-103 | The date filter as written is the order-keeping filter by its range test |
| Filters.FilterByDateRangeFixedIsFilter | app/src/utils/filters.ts:41-103 | The corrected date filter is the order-keeping filter by its range test |
| Filters.ApplyAllFilters | app/src/utils/filters.ts:113-126 | Project, then type, then the date filter as written keep exactly the activities that match all three, as a subsequence of the input |
| Filters.ApplyAllFiltersIsFilter | app/src/utils/filters.ts:113-126 | The composition is one filter by the conjunction of the three tests |
| Filters.ApplyAllFiltersFixed | app/src/utils/filters.ts:113-126 | The same composition over the corrected date filter keeps exactly the activities that match all three |
| Filters.ApplyAllFiltersFixedIsFilter | app/src/utils/filters.ts:113-126 | The corrected composition is one filter by the conjunction of the three tests |
| Filters.ApplyAllFiltersFixedKeepsMore | app/src/utils/filters.ts:59-126 | Everything the composition as written keeps, the corrected one keeps too |
| ProjectsApi.FirstValue | app/src/pages/api/projects/index.ts:24 | `formData.get(key)` is the value of the first entry with that key, or null when there is none |
| ProjectsApi.TagValuesWellFormed | app/src/pages/api/projects/index.ts:46-51 | The split tags are non-empty, trimmed and comma-free strings |
| ProjectsApi.SplitIfString | app/src/pages/api/projects/index.ts:46-58 | A string `tags`/`techStack` becomes its trimmed non-empty comma pieces. Any other value and every other property is unchanged |
| ProjectsApi.Decide | app/src/pages/api/projects/index.ts:13-82 | 401 before the form is read. A DELETE without an id gets 400 and deletes nothing. A DELETE with an id removes exactly that id and redirects 303 'delete'. A missing title gets 400 and writes nothing. Otherwise `createProject` runs: 303 'create' when no id was given, 'update' otherwise, or 500 with nothing written when the id is taken |
| ProjectsApi.Post | app/src/pages/api/projects/index.ts:13-82 | The handler run step by step answers and changes the table as `Decide` says |
| ProjectsApi.GetProjects | app/src/pages/api/projects/index.ts:85-104 | 200 with exactly the projects the reader may see, in table order |
| ProjectsApi.UpdateViaPostFails | app/src/pages/api/projects/index.ts:69-73 | A form carrying the id of a stored project still goes to `createProject`, so the answer is the 500 error and nothing changes |
| ProjectsApi.CreatedProjectFound | app/src/pages/api/projects/index.ts:69-73 | A project created without an id redirects with 'create' and is then found under the fresh id |
| ProjectsApi.DeletedProjectGone | app/src/pages/api/projects/index.ts:27-39 | After a delete the id is found by no reader, and every other project is found as before |
| ProjectsApi.TechStackFromText | app/src/pages/api/projects/index.ts:53-58 | A tech stack typed as text is stored as its pieces, although `createProject` alone would store `[]` for a string |
| BuildPages.LinesAppend | prototype/js/build-pages.js:213-219 | Accumulating `outerHTML + '\n'` over two lists is accumulating over each in turn |
| BuildPages.TitleSuffixRemoved | prototype/js/build-pages.js:184 | A title ending in " - Control Panel", and not holding it earlier, loses exactly that suffix ("AI Tools - Control Panel" gives "AI Tools") |
| BuildPages.ExtractedFrom | prototype/js/build-pages.js:174-237 | A failed parse yields all-empty fields. A page without a title or `main` gives an empty title or content |
| BuildPages.ExtractContent | prototype/js/build-pages.js:207-230 | The loops accumulate the head scripts then the head styles, and the body scripts, each followed by a newline |
| BuildPages.AppendLines | prototype/js/build-pages.js:213-227 | Each `forEach` appends every element's HTML followed by a newline, in order |
| BuildPages.OutputPath | prototype/js/build-pages.js:108-120 | `index.html` with an empty clean path goes to `outputDir/index.html` with relative path `''`. Any other clean path goes to `outputDir/<path>/index.html` with `'../'` |
| BuildPages.ExpectedTitle | prototype/js/build-pages.js:131-133 | The clean path with its first letter upper-cased, or 'Dashboard' |
| BuildPages.RootPath | prototype/js/build-pages.js:147 | `ROOT_PATH` is '..' for '../' and '.' for '' |
| BuildPages.PageType | prototype/js/build-pages.js:153 | The clean path, or 'dashboard' for the index page |
| BuildPages.BuildPage | prototype/js/build-pages.js:99-166 | `buildPage` writes one page file, at the output path |
| BuildPages.RemoveSkip | prototype/js/build-pages.js:157 | Text without '{' passes through the conditional removal |
| BuildPages.RemoveOne | prototype/js/build-pages.js:157 | A conditional with any other name is removed whole |
| BuildPages.NavigationResolved | prototype/js/build-pages.js:153-157 | In a navigation bar of any length and order, each of the page's own conditionals becomes 'active', every other one disappears, and the text between them is kept |
| BuildPages.MarkNav | prototype/js/build-pages.js:156 | The first replacement turns exactly the page's own conditionals into 'active' |
| BuildPages.RemoveNav | prototype/js/build-pages.js:157 | The second replacement removes the remaining conditionals and keeps every 'active' |
| BuildPages.AfterTitlePlain | prototype/js/build-pages.js:145-157 | Text without '{' passes every substitution after the title's unchanged |
| BuildPages.PlainTemplateUnchanged | prototype/js/build-pages.js:141-157 | A template without placeholders is written as it is |
| BuildPages.ReplaceFirstAfterPlain | prototype/js/build-pages.js:144 | `replace` with a string pattern replaces only the first occurrence |
| BuildPages.TitleFilled | prototype/js/build-pages.js:141-157 | `{{PAGE_TITLE}}` gets the extracted title, or the expected title when none was extracted; the text before it is kept and the text after it goes through the other substitutions |
| BuildPages.AfterTitlePrefix | prototype/js/build-pages.js:145-157 | Text without '{' in front of a template is kept as it is by every substitution after the title's |
| BuildPages.ReplaceFirstAfterPrefix | prototype/js/build-pages.js:148-150 | `replace` of a placeholder leaves text without '{' in front of the template alone |
| BuildPages.ReplaceAllAfterPrefix | prototype/js/build-pages.js:145-147 | So does a `/g` replacement of a placeholder |
| BuildPages.PageWrites | prototype/js/build-pages.js:59-83 | A non-`.html` file writes nothing. `index` builds the root page. Any other page builds `outputDir/<name>/index.html` and a redirect from `outputDir/pagesDir/<file>` to `/<name>/` |
| BuildPages.BuildAll | prototype/js/build-pages.js:46-90 | The loop writes every page's files in listing order (`Built`) |
| BuildPages.BuildOne | prototype/js/build-pages.js:63-84 | One pass of the loop writes that page's files |
| BuildPages.BuiltSnoc | prototype/js/build-pages.js:63-84 | Building one more page appends that page's files |
| BuildPages.OnlyHtmlBuilt | prototype/js/build-pages.js:59-60 | Only `.html` files are built: dropping every other file changes nothing |
| Nav.FirstSegment | prototype/js/main.js:79-83 | The captured directory is non-empty and '/'-free |
| Nav.ActiveNavClass | prototype/js/main.js:70-103 | The class chosen is always one of the seven navigation classes |
| Nav.RootIsDashboard | prototype/js/main.js:74-90 | '/' and '/index.html' highlight the dashboard |
| Nav.FirstSegmentOf | prototype/js/main.js:79-83 | Only the first directory of a path counts |
| Nav.SectionClass | prototype/js/main.js:91-103 | Each of the six sections maps to its own `nav-<section>` class |
| Nav.SectionPath | prototype/js/main.js:78-103 | A path inside a known section, such as '/projects/x', highlights that section |
| Nav.UnknownSection | prototype/js/main.js:87 | Any other first directory falls back to `nav-dashboard` |
| Nav.Intercepted | prototype/js/main.js:364-388 | A click is intercepted only on an internal link that is not `_blank` or `download` and does not start with '#', with no modifier key |
| Nav.PlainClickIntercepted | prototype/js/main.js:364-388 | A plain click on such a link is always intercepted |
| Nav.ActivatesLink | prototype/js/main.js:408-424 | The clicked link becomes active exactly when it carries a navigation class |

## Findings

| source | as written | input that shows it | evidently intended | confidence | as-written member | corrected member |
|---|---|---|---|---|---|---|
| app/src/utils/filters.ts:69-78 | 'last-week' keeps `startDate <= date <= endDate` with `endDate` = start + 6 days at midnight | An activity one millisecond after midnight on last week's Saturday: after `endDate`, before this week's start | Last week covers all seven days, up to the start of this week | medium, not executed | Filters.LastWeekMissesItsLastDay | Filters.WeeksPartition |
| app/src/utils/filters.ts:88-92 | 'last-month' ends at `new Date(y, m, 0)`, midnight at the start of last month's last day | An activity one millisecond after midnight on the last day of last month | Last month covers its last day, up to the start of this month | medium, not executed | Filters.LastMonthMissesItsLastDay | Filters.MonthsPartition |
| app/src/utils/db.ts:91-100 | `getActivity` chains `.where(eq(id))` and, for a visitor, `withVisibility`'s `.where(eq(visibility, 'public'))`; a query builder whose later `.where` replaces the earlier one drops the id test | A visitor asks for an id no row has while a public row "a" exists: the query returns row "a" | The visitor gets the row with that id when it is public, and nothing otherwise | medium, not executed; rests on the query builder replacing an earlier `where` | Tables.VisitorGetsAnotherRow | Tables.FindPublicAgrees |

`Filters.FilterByDateRange` and `Filters.ApplyAllFilters` model the code as written.
`Filters.FilterByDateRangeFixed` and `Filters.ApplyAllFiltersFixed` end the closed ranges at the next period's
start. `Tables.Where` and `Tables.Find` read chained `.where` calls as a conjunction, the evident intent;
`Tables.WhereLastWins` and `Tables.FindLastWins` give the replacing reading.

## Left out

- Database I/O is not modelled:
  - `await`, the Drizzle query builders, and the `try`/`catch` that turns a read error into `[]`/`null`;
  - `orderBy` (rows stay in insertion order);
  - the SQL search of `searchActivities`.

  The only failures modelled are a taken id on insert and a missing row on update.
- Calendar arithmetic is not modelled. Days are 86 400 000 ms with no daylight-saving shift. Today's midnight,
  the weekday and the month starts are inputs. So are `byMonth` in the stats, the 30-day window of
  `getRecentActivities`, and the `endDate > now` test of `getActiveRevenueGoals`.
- Floating point is not modelled. This covers `averageProgress`, the average rating and `calculatePercentages`.
  Amounts are reals.
- Stats.NumberOrZero: a truthy non-number amount would concatenate as a string in JavaScript; the model counts it as 0.
- Stats.GroupBy: the tally keys are the values themselves, not their string forms. `Object.entries` lists
  integer-like keys first; the model keeps insertion order. The tallies start as `{}`, so in JavaScript a key
  named like an `Object.prototype` member ("constructor", "toString") starts from that member and counts as a
  string, and "__proto__" is never stored; the model counts such keys like any other.
- Stats.CountTags: the same holds for tags named like `Object.prototype` members; the model counts them like
  any other tag.
- Stats.TopTagsOf: `Object.entries(tagCounts)` lists integer-like tags ("42", "2024") first, in numeric order,
  then the others in first-count order; the model sorts the tallies in first-occurrence order. Among tags with
  equal counts, their order in `topTags` and which of them make the ten-tag cut can therefore differ when some
  are integer-like. The counts, the descending order and the bound of ten hold either way.
- Data.CountByProperty: the same holds for `String(value)` keys named like `Object.prototype` members; the
  model counts them like any other key.
- Data.SortByDate: `getTime()` is an integer in the model. An invalid date, whose NaN makes the comparator
  inconsistent and the JavaScript order implementation-defined, is not modelled.
- Tables.Where: two chained `.where` calls are read as their conjunction. A query builder whose later `.where`
  replaces the earlier one is modelled separately by `Tables.WhereLastWins` and recorded under "## Findings".
- Tables.Find: the same conjunction reading; `Tables.FindLastWins` gives the replacing one.
- The `createEmpty*` builders are not modelled. They return constant objects for blank forms and have no logic.
- The message texts of `validateFormData` are not modelled: a problem kind stands for each message.
- ProjectsApi.Decide: an uploaded file sent as the `id` of a DELETE deletes nothing. The query it would run with
  a file object is not modelled.
- ProjectsApi.Decide: the redirect carries the title value; its URL encoding is not modelled.
- ProjectsApi.Decide: deleteProject and the other database calls are taken to succeed except for the taken id.
- `extractContent` is not modelled below the DOM. The HTML parser is replaced by its result: title text, `main`
  content, and the lists of head scripts, head styles and body scripts.
- BuildPages.PageType: the page type is placed into a regular expression unescaped. The model treats it as
  literal text.
- `String.replace` `$` patterns are not modelled. Inserted strings are taken literally.
- BuildPages.ExpectedTitle: upper-casing is ASCII only.
- File-system effects are not modelled. `mkdir`, `path.join` normalisation, the config fallback and file-write
  errors are out. A write is a path as a list of parts plus the text.
- The `main.js` DOM, timers, charts and transitions are not modelled beyond the nav class chosen and the
  click guards.
- Nav.FirstSegment: the regular expression is modelled for '/'-separated paths only, with no URL decoding.
- Data: local storage reads and writes are inputs and outputs of the functions. `generateId`, which uses the
  clock and randomness, is not modelled.
- Tables.Table.Update: when several rows could share an id, `getProject` picks the first. Ids are unique in
  the model (the primary key), so the choice does not arise.
