# TaskFlow decision logic in Dafny

This project models the decision logic of TaskFlow, a browser task manager, and proves properties of the model. The modelled parts are:

- the task store and the category store, each an ordered list of records kept in local storage;
- the filters and queries run over the task store;
- the task-list sort and its category lookup;
- the `useTasks` hook, which picks a store query for a filter kind and keeps a local copy of the list;
- how the All Tasks, Category and Completed pages choose their filter;
- attachment validation and payload shaping;
- the task form;
- the attachment list editor;
- the two-click delete button.

JavaScript values are modelled explicitly in module `Js`:

- Every record property is a `Field<T>`: `Absent` is a missing key, `Null` is `null`, and `Val(v)` is a value. Where the code asks `Array.isArray`, the value is a `MaybeArray<T>`: an `Array` of elements, or `NonArray` for any other value.
- `{...a, ...b}` is a fieldwise `Over`, in which an absent property of `b` keeps `a`'s value.
- A primitive passed as an id or a filter value is a `Scalar`, a number or a string. `===` on these is Dafny equality, so there is no coercion.
- The module also models `String(n)`, `parseInt` (`None` stands for `NaN`), `toLowerCase` over ASCII, `trim`, `includes`, `<` on strings, and truthiness.

`Array.prototype.sort` is modelled as a stable insertion sort (module `ArraySort`). It is proved to be a permutation, ordered by the comparator and stable.

The stores are classes with a `seq` field. Their queries are functions, and `create`, `update` and `delete` are methods. Each method's contract gives the whole new list in terms of the old one. The hook, the pages' state, the form and the delete button are classes whose methods state their new state. Pure parts, such as the page filters, prefill, payload shaping and the uploader's lists, are functions.

The clock and the date are parameters: `now` is the creation or completion time and `today` is the `YYYY-MM-DD` date. `timeOf` stands for `new Date(d).getTime()`. Timestamps are integers.

Three behaviours of the code are worth stating on their own:

- Ids are one more than the largest remaining `Id`, so deleting the newest task frees its id for the next task created (`TaskService.IdReusedAfterDelete`).
- The header offers High, Medium and Low Priority filters (`Header.jsx:27-29`). The page turns them into the `priority` kind, and the hook's `priority` case has no `break`, so it falls through into `search`: a priority filter runs a text search for the word `high`, `medium` or `low` (`UseTasks.PriorityFallsThrough`, `AllTasks.SelectFilter`).
- The header offers an Overdue filter (`Header.jsx:31`), but the hook has no `overdue` case, so that filter loads every task (`UseTasks.OtherKindsLoadAll`).

## Model

| member | source | states |
|---|---|---|
| Js.ToLowerIdempotent | src/services/api/taskService.js:132-135 | lowercasing twice is lowercasing once, so search is insensitive to the query's case |
| Js.TrimEmptyIffBlank | src/components/organisms/TaskModal.jsx:76 | `s.trim()` is empty exactly when every character of s is whitespace |
| Js.IntToStringRoundTrip | src/components/organisms/TaskModal.jsx:65 | `parseInt(String(n))` is n for every integer, so an id written as a string finds its record again |
| Js.IntToStringInjective | src/components/organisms/TaskList.jsx:29 | distinct numeric ids give distinct property names |
| Js.ParseIntOfNumber | src/services/api/taskService.js:97 | `parseInt` of a numeric id is that id |
| Js.StrLessTrichotomy | src/services/api/taskService.js:61 | two date strings are equal, or exactly one is less than the other |
| Js.StrLessTransitive | src/services/api/taskService.js:72 | string `<` is transitive |
| Js.StrLessIrreflexive | src/services/api/taskService.js:72 | no string is less than itself |
| Js.Truthy | src/hooks/useTasks.js:39 | JavaScript truthiness of a primitive: a non-zero number or a non-empty string; missing and `null` are falsy |
| Js.ToJsString | src/components/organisms/TaskList.jsx:29 | `String(x)`: "undefined", "null", the decimal numeral, or the string itself |
| Js.IntToString | src/components/organisms/TaskModal.jsx:65 | the decimal numeral of an integer, with a leading `-` for negatives; inverted by `ParseInt` (`IntToStringRoundTrip`) |
| Js.ParseInt | src/services/api/taskService.js:97 | `parseInt` without radix: leading whitespace skipped, an optional sign, hexadecimal after `0x`, digits up to the first non-digit, `None` for `NaN` |
| Js.Trim | src/components/organisms/TaskModal.jsx:76 | `trim()`: whitespace removed from both ends; empty exactly for a blank string (`TrimEmptyIffBlank`) |
| Js.ToLower | src/services/api/taskService.js:132 | `toLowerCase()` over ASCII letters; idempotent (`ToLowerIdempotent`) |
| Js.Includes | src/services/api/taskService.js:134 | `s.includes(q)`: q occurs in s at some position |
| Js.StrLess | src/services/api/taskService.js:61 | `<` on strings: the first differing character decides, and a proper prefix is less |
| Seqs.FilterMembers | src/services/api/taskService.js:35 | `filter` keeps exactly the elements of the input that satisfy the test |
| Seqs.FilterIsSubsequence | src/services/api/taskService.js:41 | `filter` keeps the input's order |
| Seqs.FilterConcat | src/services/api/taskService.js:124 | filtering a concatenation filters each part |
| Seqs.FilterFilter | src/components/pages/Completed.jsx:61 | filtering by one test and then another keeps the elements passing both |
| Seqs.MaxFrom | src/services/api/taskService.js:79 | the `reduce` with `Math.max` from a start value is at least the start value and every element, and equals one of them |
| Seqs.Filter | src/services/api/taskService.js:35 | `filter(p)`: the elements satisfying p, in order; its membership, order and concatenation facts are the Filter lemmas |
| Seqs.FirstIndex | src/services/api/taskService.js:97 | `findIndex(p)`: the first index satisfying p, or `None` exactly when no element does |
| Seqs.Find | src/hooks/useTasks.js:63 | `find(p)`: an element satisfying p exactly when one exists, and then the first such element |
| Seqs.Map | src/hooks/useTasks.js:72-74 | `map(f)`: f applied to each element, in place |
| ArraySort.CompareZeroIffEqual | src/components/organisms/TaskList.jsx:62-66 | the comparator returns 0 exactly for equal keys |
| ArraySort.CompareAntisymmetric | src/components/organisms/TaskList.jsx:62-66 | swapping the operands negates the comparator's answer |
| ArraySort.DescendingMirrorsAscending | src/components/organisms/TaskList.jsx:62-66 | the descending comparator is the exact negation of the ascending one |
| ArraySort.CompareTransitive | src/components/organisms/TaskList.jsx:62-66 | the comparator is a consistent order, as sort needs |
| ArraySort.SortCorrect | src/components/organisms/TaskList.jsx:38-67 | the sorted copy is a permutation of the input, ordered by the comparator, and elements with equal keys keep their input order |
| ArraySort.Compare | src/components/organisms/TaskList.jsx:62-66 | the comparator: 1, -1 or 0 by the key order, negated for a descending sort |
| ArraySort.Sort | src/components/organisms/TaskList.jsx:38-67 | `sort(compare)` as a stable insertion sort; `SortCorrect` proves it a permutation, ordered and stable |
| TaskService.MergeIdentity | src/services/api/taskService.js:103-107 | spreading an empty patch changes nothing |
| TaskService.MergeAssociative | src/services/api/taskService.js:103-107 | successive spreads compose |
| TaskService.MaxId | src/services/api/taskService.js:79 | the largest `Id`, or 0 for an empty store, is at least every `Id` |
| TaskService.TaskStore.GetAll | src/services/api/taskService.js:20-24 | the stored records in store order |
| TaskService.TaskStore.GetById | src/services/api/taskService.js:26-30 | a record is found exactly when one has `Id === parseInt(id)`, and it is the first stored record with that `Id` |
| TaskService.TaskStore.GetByCategory | src/services/api/taskService.js:32-36 | exactly the records whose `categoryId` is strictly equal to the argument, in store order |
| TaskService.TaskStore.GetByStatus | src/services/api/taskService.js:38-42 | exactly the records with that `status`, in store order |
| TaskService.TaskStore.GetToday | src/services/api/taskService.js:44-52 | exactly the active records whose `dueDate` equals today's date string, in store order |
| TaskService.TaskStore.GetUpcoming | src/services/api/taskService.js:54-63 | exactly the active records with a non-empty `dueDate` that is string-greater than today, in store order |
| TaskService.TaskStore.GetOverdue | src/services/api/taskService.js:65-74 | exactly the active records with a non-empty `dueDate` that is string-less than today, in store order |
| TaskService.WindowsPartition | src/services/api/taskService.js:44-74 | an active task with a due date is in exactly one of today, upcoming and overdue |
| TaskService.Undated | src/services/api/taskService.js:44-74 | an inactive task, or one whose due date is missing, `null` or `""`, is in none of the three windows (for a non-empty `today`) |
| TaskService.SearchAllIsFilter | src/services/api/taskService.js:129-137 | when no task throws, search keeps exactly the tasks whose lowercased title, or else description, contains the lowercased query, in order; a task whose title (or, on a title miss, description) is not a string makes it throw |
| TaskService.SearchIgnoresQueryCase | src/services/api/taskService.js:132 | searching for the lowercased query gives the same result |
| TaskService.TaskStore.Search | src/services/api/taskService.js:129-137 | succeeds exactly when no task throws, and then selects the matching tasks in store order |
| TaskService.UpdatedSpec | src/services/api/taskService.js:103-114 | the update is the merge with `Id` forced; `completedAt` is now on active→completed, null on completed→active, and the merged value otherwise |
| TaskService.UpdatedKeepsCompletion | src/services/api/taskService.js:109-114 | a status-only patch keeps "completed exactly when `completedAt` is set" |
| TaskService.CreatedSpec | src/services/api/taskService.js:81-87 | the new record is the patch with `Id`, `status` active, `createdAt` and `completedAt` null overriding whatever the patch supplied |
| TaskService.TaskStore.Create | src/services/api/taskService.js:76-92 | appends the new record last with `Id` one more than the largest, larger than every existing `Id`; the old records are unchanged and Ids stay distinct |
| TaskService.TaskStore.Update | src/services/api/taskService.js:94-119 | "Task not found" exactly when no record has the parsed id, writing nothing; otherwise only the first match is replaced, in place, by its update |
| TaskService.TaskStore.Delete | src/services/api/taskService.js:121-127 | keeps exactly the records without the parsed id, in order, and returns true |
| TaskService.FilterKeepsValid | src/services/api/taskService.js:124 | deleting keeps every `Id` numeric and distinct |
| TaskService.DeletedNotFound | src/services/api/taskService.js:124 | after a delete no remaining record has that id |
| TaskService.IdReusedAfterDelete | src/services/api/taskService.js:76-92 | with Ids 1 and 2 stored, deleting 2 and creating hands out Id 2 again |
| TaskService.Merge | src/services/api/taskService.js:103-107 | `{...base, ...top}` record by record: a property of `top` wins unless it is missing |
| TaskService.Created | src/services/api/taskService.js:81-87 | the new record: the patch with `Id`, `status`, `createdAt` and `completedAt` overridden (`CreatedSpec`) |
| TaskService.Updated | src/services/api/taskService.js:103-114 | the updated record: the merge with `Id` forced and `completedAt` set or cleared on the two status transitions (`UpdatedSpec`) |
| TaskService.DueToday | src/services/api/taskService.js:48-51 | active and due exactly today |
| TaskService.DueAfter | src/services/api/taskService.js:58-62 | active with a truthy due date later than today |
| TaskService.DueBefore | src/services/api/taskService.js:69-73 | active with a truthy due date earlier than today |
| TaskService.SearchTest | src/services/api/taskService.js:133-136 | one task's search test: the title match, else the description match, `None` where the code throws on a non-string |
| TaskService.SearchAll | src/services/api/taskService.js:129-137 | the search filter, failing at the first task whose test throws; equal to the `MatchesQuery` filter otherwise (`SearchAllIsFilter`) |
| TaskService.MatchesQuery | src/services/api/taskService.js:134-135 | the query, lowercased, occurs in the lowercased title or description |
| CategoryService.OrderComparatorAgrees | src/services/api/categoryService.js:24 | `a.order - b.order` has the sign of the ascending comparator on orders |
| CategoryService.SortedByOrderCorrect | src/services/api/categoryService.js:20-25 | the sorted list is a permutation, ascending by order, with ties in stored order |
| CategoryService.SortedKeepsValid | src/services/api/categoryService.js:24 | sorting keeps every category's `Id` and `order` |
| CategoryService.CategoryStore.GetAll | src/services/api/categoryService.js:20-25 | a permutation of the stored categories in ascending order |
| CategoryService.CategoryStore.GetById | src/services/api/categoryService.js:27-31 | a category is found exactly when one has the parsed id, and it is the first such in sorted order |
| CategoryService.CategoryStore.Create | src/services/api/categoryService.js:33-48 | the sorted list plus the patch with `Id` and `order` each one more than the maxima from 0, both overriding the patch's; both exceed every existing value |
| CategoryService.CategoryStore.Update | src/services/api/categoryService.js:50-68 | "Category not found" exactly when no category has the parsed id, writing nothing; otherwise the sorted list with only the first match replaced by the merge with `Id` forced |
| CategoryService.CategoryStore.Delete | src/services/api/categoryService.js:70-76 | the sorted list without the categories with the parsed id, still ascending, and true |
| CategoryService.PermutedMax | src/services/api/categoryService.js:36-37 | the id and order maxima do not depend on the list's order |
| CategoryService.FilterKeepsOrder | src/services/api/categoryService.js:73 | deleting from an ascending list leaves it ascending |
| CategoryService.CreatedListSorted | src/services/api/categoryService.js:39-45 | the list after create is still ascending by order |
| CategoryService.Merge | src/services/api/categoryService.js:59-63 | `{...base, ...top}` over category records |
| CategoryService.SortedByOrder | src/services/api/categoryService.js:24 | `sort((a, b) => a.order - b.order)`, stable; `SortedByOrderCorrect` proves it a permutation, ascending, ties kept in order |
| TaskList.CategoryLookup | src/components/organisms/TaskList.jsx:26-32 | the table has an entry for exactly the categories' `String(Id)`s, and where ids repeat the last category wins |
| TaskList.LookupEitherForm | src/components/organisms/TaskList.jsx:29 | a numeric id and its string form find the same entry |
| TaskList.LookupFindsCategory | src/components/organisms/TaskList.jsx:29 | a category's numeric `Id` finds its entry |
| TaskList.PriorityRank | src/components/organisms/TaskList.jsx:42-45 | a rank between 1 and 3 |
| TaskList.PriorityRanks | src/components/organisms/TaskList.jsx:42-45 | high > medium > low, and every other value, present or not, ranks as low |
| TaskList.TaskKeySpec | src/components/organisms/TaskList.jsx:41-60 | the sort key is the priority rank, the due time or +∞ for no due date, the lowercased title, or `createdAt` for any other `sortBy` |
| TaskList.SortedTasksCorrect | src/components/organisms/TaskList.jsx:35-70 | empty gives `[]`; otherwise a permutation of the tasks in comparator order, with ties in input order |
| TaskList.UndatedLastAscending | src/components/organisms/TaskList.jsx:47-49 | ascending by due date, no undated task precedes a dated one |
| TaskList.UndatedFirstDescending | src/components/organisms/TaskList.jsx:62-66 | descending by due date, no dated task precedes an undated one |
| TaskList.ComparatorMirrors | src/components/organisms/TaskList.jsx:62-66 | the descending comparison of two tasks is the negated ascending one, and 0 means equal keys |
| TaskList.Toggled | src/components/organisms/TaskList.jsx:115 | the toggle gives asc or desc and changes either of those |
| TaskList.ToggleTwice | src/components/organisms/TaskList.jsx:115 | two toggles restore the order setting |
| TaskList.SortControls.constructor | src/components/organisms/TaskList.jsx:22-23 | starts sorted by created, descending |
| TaskList.SortControls.ToggleOrder | src/components/organisms/TaskList.jsx:115 | flips the direction and leaves `sortBy` alone |
| TaskList.SortControls.SetSortBy | src/components/organisms/TaskList.jsx:105 | sets `sortBy` and leaves the direction alone |
| TaskList.LookupKey | src/components/organisms/TaskList.jsx:29 | the property name `lookup[category.Id]` writes: `String(Id)` |
| TaskList.Lookup | src/components/organisms/TaskList.jsx:135 | `categoryLookup[x]`: the entry under `String(x)`, if any |
| TaskList.TaskKey | src/components/organisms/TaskList.jsx:41-60 | the value each `sortBy` compares: priority rank, due time or +infinity, lowercased title, or creation time (`TaskKeySpec`) |
| TaskList.SortedTasks | src/components/organisms/TaskList.jsx:35-70 | `[]` for no tasks, else the copy sorted by `TaskKey` in the chosen direction (`SortedTasksCorrect`) |
| UseTasks.DispatchKinds | src/hooks/useTasks.js:20-34 | today, upcoming, completed, active and category each pick their own store query |
| UseTasks.PriorityFallsThrough | src/hooks/useTasks.js:35-44 | `priority` behaves as `search`: a truthy value searches for it, a falsy one loads all tasks |
| UseTasks.OtherKindsLoadAll | src/hooks/useTasks.js:48-49 | every other kind, `all` and `overdue` among them, loads all tasks |
| UseTasks.ToggleRepeatsRequest | src/hooks/useTasks.js:66-73 | the toggle reads `status_c` but writes `status`, so the patched task asks for the same new status on the next toggle |
| UseTasks.TasksHook.constructor | src/hooks/useTasks.js:5-7 | no tasks, loading, no error |
| UseTasks.TasksHook.LoadTasks | src/hooks/useTasks.js:4-59 | on success the list is the result of the query dispatched on the value, a missing value defaulted to `null`, with no error; on failure the list is kept with the load error; loading ends either way |
| UseTasks.TasksHook.ToggleTask | src/hooks/useTasks.js:61-85 | nothing happens for an id not in the local list; a failed update sets the update error; otherwise the store's first match gets the new status and every local element with that `Id` is merged with the result; `loading` is never touched |
| UseTasks.TasksHook.DeleteTask | src/hooks/useTasks.js:87-95 | the store drops the parsed id, and the local list is the old one filtered to the elements whose `Id` differs, every copy kept, in order; the error and `loading` are unchanged |
| UseTasks.WithDefault | src/hooks/useTasks.js:4 | `filterValue = null`: a missing value becomes `null`, any other is passed on |
| UseTasks.HookQuery | src/hooks/useTasks.js:4-50 | the query a load runs: the default applied, then the `switch` (`MissingValueIsNull`) |
| UseTasks.MissingValueIsNull | src/hooks/useTasks.js:4 | a load without a value dispatches as one with `null`, so `category` asks for the tasks whose `categoryId` is `null` |
| UseTasks.Dispatch | src/hooks/useTasks.js:20-50 | the query the `switch` runs for each filter kind, fall-throughs included (`DispatchKinds`, `PriorityFallsThrough`, `OtherKindsLoadAll`) |
| UseTasks.SearchCase | src/hooks/useTasks.js:38-44 | `search(value)` for a truthy string, a query of its own for a truthy number (which makes `search` throw), else `getAll()` |
| UseTasks.Fetch | src/hooks/useTasks.js:17-55 | the store call a query makes, with a TypeError from `search` as the failure the hook catches |
| UseTasks.NewStatus | src/hooks/useTasks.js:66 | "active" for a task whose `status_c` is "completed", else "completed" |
| UseTasks.PatchWith | src/hooks/useTasks.js:72-74 | merges the store's record into a local task with that `Id`, and leaves any other task as it is |
| AllTasks.SelectFilter | src/components/pages/AllTasks.jsx:16-30 | a query gives `search` with that value; otherwise high, medium and low give `priority`, the four kinds pass through with no value, and anything else gives `all`; a priority filter thus searches for its name and `overdue` loads all |
| AllTasks.EmptyTitle | src/components/pages/AllTasks.jsx:104 | "No tasks found" exactly when searching, "No tasks yet" exactly for `all`, otherwise the filter's name |
| AllTasks.Page.constructor | src/components/pages/AllTasks.jsx:13-14 | starts on `all` with an empty query |
| AllTasks.Page.HandleFilter | src/components/pages/AllTasks.jsx:71-74 | sets the filter and always clears the query |
| AllTasks.Page.HandleSearch | src/components/pages/AllTasks.jsx:76-81 | sets the query and resets the filter to `all` only for a non-empty query |
| AllTasks.IsPriority | src/components/pages/AllTasks.jsx:24 | the three priority filter values |
| AllTasks.IsKind | src/components/pages/AllTasks.jsx:27 | the four filter values passed on as their own kind |
| CategoryTasks.LoadedQuery | src/components/pages/CategoryTasks.jsx:18-21 | a query is searched for; otherwise the route's category string is loaded, or `null` without a route parameter (the hook's default), and it never matches a numeric `categoryId` |
| CategoryTasks.FilteredTasks | src/components/pages/CategoryTasks.jsx:71-73 | while searching, exactly the tasks with `category_id_c === parseInt(categoryId)`, in order; otherwise the list unchanged |
| CategoryTasks.SearchShowsCategoryMatches | src/components/pages/CategoryTasks.jsx:71-73 | while searching, the page shows exactly the stored tasks matching the query and in the route's category, in store order |
| CategoryTasks.CurrentCategory | src/components/pages/CategoryTasks.jsx:27-32 | with categories loaded and a truthy id, the first category with the parsed id, or none; otherwise the previous value |
| CategoryTasks.EmptyTitle | src/components/pages/CategoryTasks.jsx:94-98 | "No tasks found" exactly when searching; otherwise the lowercased category name, or "category" when there is none |
| CategoryTasks.FilterType | src/components/pages/CategoryTasks.jsx:18 | "search" while searching, else "category" |
| CategoryTasks.FilterValue | src/components/pages/CategoryTasks.jsx:19 | the query while searching, else the route parameter |
| CategoryTasks.InRouteCategory | src/components/pages/CategoryTasks.jsx:72 | `category_id_c === parseInt(categoryId)`, false when the route id parses to `NaN` |
| Completed.LoadedQuery | src/components/pages/Completed.jsx:15-16 | a query is searched for; otherwise the completed tasks are loaded |
| Completed.FilteredTasks | src/components/pages/Completed.jsx:61 | while searching, exactly the completed tasks, in order; otherwise the list unchanged |
| Completed.SearchShowsCompletedMatches | src/components/pages/Completed.jsx:61 | while searching, the page shows exactly the completed stored tasks matching the query, in store order |
| Completed.EmptyTitle | src/components/pages/Completed.jsx:77 | "No completed tasks found" exactly when searching, and "No completed tasks yet" exactly when not |
| Completed.FilterType | src/components/pages/Completed.jsx:15 | "search" while searching, else "completed" |
| Completed.FilterValue | src/components/pages/Completed.jsx:16 | the query while searching, else `null` |
| FileUtils.PascalCasedSpec | src/utils/File.js:61-86 | untouched when a PascalCase key is defined or `Id` is truthy; otherwise each defined camelCase value is copied to its PascalCase key, size in KB, and nothing else changes |
| FileUtils.PascalCasedIdempotent | src/utils/File.js:72-76 | transforming a transformed file changes nothing |
| FileUtils.TransformFileToPascalCase | src/utils/File.js:61-86 | the same object is returned, its properties transformed in place |
| FileUtils.CheckFileReports | src/utils/File.js:27-48 | a file gets an extension error exactly when extensions are restricted and none matches its lowercased extension, and a size error exactly when a set bound is crossed; each carries the file number only when there are several files |
| FileUtils.TransformAndValidate | src/utils/File.js:7-54 | returns the same file objects in order, each transformed, with the errors of the count check followed by each file's checks; valid exactly when there are none |
| FileUtils.TransformEach | src/utils/File.js:22-51 | visits the files in order, leaving every file transformed once, even one listed twice, and the count check's errors followed by each file's |
| FileUtils.EmptyIsValid | src/utils/File.js:12-14 | no files gives no errors |
| FileUtils.OnlyOneFileIffTooMany | src/utils/File.js:17-19 | "Only one file is allowed" is reported exactly when several files come without `supportMultipleValues` |
| FileUtils.SingleFileErrors | src/utils/File.js:27 | a single file's errors carry no file number |
| FileUtils.ReportedPrefixed | src/utils/File.js:27 | with several files, every per-file error names a file between 1 and the count |
| FileUtils.AfterLastDot | src/utils/File.js:34 | the text after the last dot, or the whole name without a dot |
| FileUtils.ToCreateFormat | src/utils/File.js:116-124 | null for a missing, `null` or non-array value and for an empty array; otherwise one `{Path}` per file, in order |
| FileUtils.ToUpdateFormat | src/utils/File.js:132-149 | null for a missing, `null` or non-array value and for an empty array; otherwise one entry per file with its `Path`, and its `Id` exactly when that is truthy |
| FileUtils.UpdateFormatExtendsCreateFormat | src/utils/File.js:132-149 | the update format is the create format plus ids, and equals it when no file has an id |
| FileUtils.PascalCased | src/utils/File.js:61-86 | the properties `transformFileToPascalCase` leaves: the file untouched when a PascalCase key is defined or `Id` is truthy, else each defined camelCase value copied to its PascalCase name, the size in KB (`PascalCasedSpec`, `PascalCasedIdempotent`) |
| FileUtils.Extension | src/utils/File.js:34 | the lowercased text after the last dot of a truthy `Name` (all of it without a dot), else `""` |
| FileUtils.FileNumber | src/utils/File.js:27 | the 1-based file number, only when there are several files |
| FileUtils.CheckFile | src/utils/File.js:26-48 | the extension, minimum and maximum messages for one transformed file, in that order (`CheckFileReports`) |
| FileUtils.TooManyFiles | src/utils/File.js:17 | several files without `supportMultipleValues` |
| FileUtils.Reported | src/utils/File.js:17-51 | the messages after the first n files: the count message, then each file's checks in order |
| FileUtils.ValidationErrors | src/utils/File.js:7-54 | all messages for the files' original properties; none for no files |
| FileUtils.Staged | src/utils/File.js:22-51 | the properties once the first i callbacks ran: a file whose object is among the first i is transformed once, any other is as before |
| TaskModal.PrefillSpec | src/components/organisms/TaskModal.jsx:35-54 | each field comes from `*_c` when truthy, else the plain property when truthy, else its default (medium, empty text, null files); a new form is blank |
| TaskModal.FormErrors | src/components/organisms/TaskModal.jsx:73-86 | a title error exactly for a blank title, a category error exactly for a falsy category, and no errors exactly when both are filled |
| TaskModal.FormPatch | src/components/organisms/TaskModal.jsx:100-104 | a submit writes exactly the six form values |
| TaskModal.EditedTitleHiddenByTitleC | src/components/organisms/TaskModal.jsx:38 | an edit writes `title`, yet reopening a task with a `title_c` shows the `title_c` |
| TaskModal.Modal.Open | src/components/organisms/TaskModal.jsx:35-56 | the form is prefilled and the errors cleared |
| TaskModal.Modal.CategoriesLoaded | src/components/organisms/TaskModal.jsx:58-71 | a new task's category becomes the first category's `Id` as a string; nothing else changes |
| TaskModal.Modal.HandleChange | src/components/organisms/TaskModal.jsx:118-126 | sets only that field and clears only that field's error, when it has one |
| TaskModal.Modal.ValidateForm | src/components/organisms/TaskModal.jsx:73-86 | records the form's errors and reports whether there are none |
| TaskModal.Modal.HandleSubmit | src/components/organisms/TaskModal.jsx:88-116 | an invalid form records its errors and calls no store; a valid one is saved as `Save` states; loading ends set only when the form was invalid and loading was already set |
| TaskModal.Modal.Save | src/components/organisms/TaskModal.jsx:95-112 | an edit updates the first stored task with its `Id` in place, or fails with the save message and writes nothing; a new task is appended with the next `Id` |
| TaskModal.Prefill | src/components/organisms/TaskModal.jsx:35-54 | the form the prefill effect sets: from the edited task field by field, or blank (`PrefillSpec`) |
| TaskModal.SaveOutcome | src/components/organisms/TaskModal.jsx:95-112 | what a save of a valid form does to the stored list, for an edit and for a new task |
| FileUploader.Normalize | src/components/atoms/FileUploader.jsx:7-18 | an array is shown as it is; a missing, `null` or non-array value is the empty list |
| FileUploader.ChangedFiles | src/components/atoms/FileUploader.jsx:43-50 | in multiple mode the old files followed by the new ones; otherwise just the new ones |
| FileUploader.DropIndexSpec | src/components/atoms/FileUploader.jsx:53 | the index filter drops exactly the element at the given position |
| FileUploader.RemoveFileSpec | src/components/atoms/FileUploader.jsx:52-55 | `removeFile(i)` drops exactly the i-th file, keeping the rest in order, and changes nothing for an index out of range |
| FileUploader.RemoveFile | src/components/atoms/FileUploader.jsx:52-55 | `files.filter((_, i) => i !== indexToRemove)` (`RemoveFileSpec`) |
| TaskActions.Step | src/components/molecules/TaskActions.jsx:15-23 | a click while armed deletes once and disarms, a click while unarmed arms, and the timer disarms |
| TaskActions.DeletesNeedTwoClicks | src/components/molecules/TaskActions.jsx:15-23 | from any state, each delete costs two clicks: twice the deletes plus the final arming is at most the clicks plus the initial arming |
| TaskActions.NoDeleteWithoutDoubleClick | src/components/molecules/TaskActions.jsx:13-21 | from the unarmed state nothing is deleted unless two clicks come with no expiry between them |
| TaskActions.ClickSequences | src/components/molecules/TaskActions.jsx:13-21 | one click only arms, two delete once, and an expiry between them cancels |
| TaskActions.DeleteButton.constructor | src/components/molecules/TaskActions.jsx:13 | starts unarmed, with no deletes |
| TaskActions.DeleteButton.HandleDelete | src/components/molecules/TaskActions.jsx:15-23 | one step on a click; an unarmed click never deletes |
| TaskActions.DeleteButton.Expire | src/components/molecules/TaskActions.jsx:21 | the timer disarms without deleting |
| TaskActions.Run | src/components/molecules/TaskActions.jsx:15-23 | the state after a sequence of clicks and timer expiries, one `Step` each (`DeletesNeedTwoClicks`, `NoDeleteWithoutDoubleClick`) |

## Left out

- Local storage, JSON (de)serialisation, the mock-data seeding in `initializeStorage`, the random `delay()` and `async`/`await` are left out. Each store is an in-memory list, and every call runs to completion on its own.
- `new Date()` becomes the `now` and `today` parameters. `toISOString` and its UTC date are not modelled. `createdAt` and `completedAt` are integers. `new Date(dueDate).getTime()` is the `timeOf` parameter. `NaN` times from unparsable dates are not modelled.
- Records whose `Id`, category `order`, title (when sorting by title) or `createdAt` (when sorting by creation) are missing are excluded by the store invariants and `TaskList.SortableBy`. In the code they compare as `NaN` or throw.
- `TaskList.SortableBy`: the sort's comparator on `NaN` and on undefined titles is out of the model.
- `toLowerCase` is modelled on ASCII letters only. String `<` compares characters, not UTF-16 code units. `parseInt` is not modelled for numbers of 1e21 and above, which print in exponent form.
- `formatFileSize` in `File.js` and `FileUploader.jsx`, and `bytesToKB`, are floating-point presentation and are left out. Error messages are an error-kind datatype that carries the file number, without the formatted text. `Size` is a `real`.
- Files are records of their properties, not browser `File` or `FileList` objects. `Array.from` and drag-and-drop are not modelled.
- React rendering, class names, toasts, the modal's open/close, `onSave`/`onClose`, the empty-state descriptions and the header title (`CategoryTasks.jsx:78`) are left out.
- The delayed reload after a toggle (`useTasks.js:78-80`) is left out; it is timing-dependent.
- The discarded priority subset computed at `useTasks.js:36-37` is left out. Its result is always overwritten by the fall-through.
- `UseTasks.TasksHook.DeleteTask`: the store delete cannot fail in the model, so the "Failed to delete task" path (`useTasks.js:91-93`) is never taken.
- `TaskModal.Modal.HandleSubmit`: `create` cannot fail in the model, so its catch path applies only to `update`.
- A property present with the value `undefined` is not modelled apart from a missing one. In a spread it would overwrite the earlier value, whereas `Absent` keeps it. The one place the code builds such a property is `{ Path: file.Path }` for a file without a `Path` (src/utils/File.js:122, :139), modelled as an absent `Path`; the two are the same once the payload is serialised to JSON.
- `FileUtils.TransformAndValidate`: a `null` or `undefined` `files` argument, which the code wraps as `[null]` and then fails on, is not representable; the argument is one file or a list of files.
- Property-name lookups that hit `Object.prototype` members (for example `categoryLookup["constructor"]`) are not modelled.
- `CategoryService.ValidCategories` does not require distinct category ids. The code never enforces this either, so `getById` and `update` pick the first match.
- Sidebar.jsx, TaskCard.jsx and Today.jsx are not part of this model. Neither are the other presentation components, the router, Login.jsx and tailwind.config.js.
