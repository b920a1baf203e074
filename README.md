# TodoList task store and list view-model, in Dafny

This project models the core of the TodoList iOS app: the local task table
kept by `CoreDataService`, the `TodoItem` record, and `TodoListViewModel`,
which keeps the working set `todos` and the on-screen list `filteredTodos`
in step with the table and seeds the table from a remote list when it is
empty.

- `Wrappers.dfy`: `Option` and `Result`.
- `Sequences.dfy`: first index satisfying a test (`firstIndex(where:)`, a fetch's
  `first`), filtering (`removeAll(where:)`, fetch predicates), `remove(at:)`.
- `TextMatch.dfy`: the `CONTAINS[cd]` comparison: a case and diacritic fold
  (proved idempotent) and a substring test (proved equal to "occurs at some
  position").
- `TodoItems.dfy`: `TodoItem`, the remote element, the three initialisers, and
  the decimal text of an id in a seeded title, with a parser that reads it back.
- `CoreDataService.dfy`: the `Entity` row, the newest-first sort, search, id
  helpers, and the class `TaskStore` (`records` is the table, `ready` the
  `isContextReady` answer). Writes are methods that reassign `records`; reads are
  functions of it.
- `TodoListViewModel.dfy`: the class `ViewModel` with `todos`, `filteredTodos`
  and the sequence of notifications sent (`onTodosUpdated`, `onError`), plus the
  pure `ToggleStep` used to state what toggling twice does.
- `Scenarios.dfy`: three client runs (seeding an empty store, loading two stored
  tasks, adding an untitled task) that use only the two classes' contracts.

Time is a natural-number timestamp passed in as `now`. The remote list is a
`Result` parameter of `LoadTodos`. The background and main-queue hops are
flattened: each view-model operation is the store call, then the list update,
then the notification.

## Behaviour worth noting

- A failed remote fetch reports an error and leaves both lists as they were.
- `deleteTodo(at:)` removes exactly position `index` from `filteredTodos` and every entry with the id from `todos`; other filtered entries with the same id stay.
- The store's `deleteTodo(by:)` and `updateTodo` act on one row, the first fetched. Ids are not checked on insert, so the table can hold duplicates (for example after seeding twice). The model does not assume unique ids. `UniqueIds` is instead proved to be kept by update, delete, `AddNewTodo` and seeding with distinct ids.

## Model

| member | source | states |
|---|---|---|
| `Sequences.FirstIndex` | TodoList/ViewModel/TodoListViewModel.swift:82 | None exactly when no element passes the test; otherwise the position of an element that passes, with none before it |
| `Sequences.Filter` | TodoList/ViewModel/TodoListViewModel.swift:102 | the result holds exactly the elements that pass the test, never more of one than the input has |
| `Sequences.FilterCounts` | TodoList/ViewModel/TodoListViewModel.swift:102 | every passing element is kept exactly as often as the input has it, every failing one dropped |
| `Sequences.FilterAppend` | TodoList/ViewModel/TodoListViewModel.swift:102 | filtering keeps the input order: filtering a concatenation concatenates the filtered parts |
| `Sequences.FilterKeepsAll` | TodoList/Service/CoreData/CoreDataService.swift:176-181 | a test every element passes filters nothing out, in the same order |
| `Sequences.RemoveAt` | TodoList/ViewModel/TodoListViewModel.swift:103 | one element shorter; exactly the element at the position is gone; the others keep their order |
| `TextMatch.Fold` | TodoList/Service/CoreData/CoreDataService.swift:177-180 | same length, each character folded for case and diacritics |
| `TextMatch.FoldIdempotent` | TodoList/Service/CoreData/CoreDataService.swift:177-180 | folding a folded string changes nothing |
| `TextMatch.ContainsHasPosition` | TodoList/Service/CoreData/CoreDataService.swift:178 | a substring test that holds yields a position where the pattern starts |
| `TextMatch.PositionGivesContains` | TodoList/Service/CoreData/CoreDataService.swift:178 | a pattern that starts at some position makes the substring test hold |
| `TextMatch.ContainsIffOccurs` | TodoList/Service/CoreData/CoreDataService.swift:178 | the substring test holds exactly when the pattern starts at some position of the text |
| `TextMatch.EmptyQueryMatches` | TodoList/Service/CoreData/CoreDataService.swift:176 | the empty query occurs in every field |
| `TextMatch.FoldedQueryMatchesSame` | TodoList/Service/CoreData/CoreDataService.swift:178 | a query and its folded form match the same fields (case-insensitive in the query) |
| `TextMatch.FoldedFieldMatchesSame` | TodoList/Service/CoreData/CoreDataService.swift:178 | a field and its folded form are matched by the same queries |
| `TextMatch.BuyMilkMatchesUpperCaseQuery` | TodoList/Service/CoreData/CoreDataService.swift:177-179 | the title "Buy milk" matches the query "MILK" |
| `TodoItems.NatToDecimal` | TodoList/Model/TodoItem.swift:18 | a non-empty string of decimal digits with no leading zero |
| `TodoItems.NatDecimalRoundTrip` | TodoList/Model/TodoItem.swift:18 | reading back the digits of a natural number gives the number |
| `TodoItems.IntDecimalRoundTrip` | TodoList/Model/TodoItem.swift:18 | reading back the interpolated text of any integer, negative ones too, gives the integer |
| `TodoItems.FromRemote` | TodoList/Model/TodoItem.swift:16-22 | keeps the id, the text as description and the completion flag; created at the mapping time; the title is "Задача №" followed by the id's canonical decimal text, which reads back as the id |
| `TodoItems.RemoteTitlesDistinct` | TodoList/Model/TodoItem.swift:18 | remote elements with different ids get different titles |
| `TodoItems.Make` | TodoList/Model/TodoItem.swift:32-38 | every one of the five fields is the argument given |
| `TodoItems.New` | TodoList/Model/TodoItem.swift:24-30 | the full initialiser at the current time; the completion flag is the argument |
| `TodoItems.NewIsNotCompleted` | TodoList/Model/TodoItem.swift:24 | without a flag argument the task is not completed |
| `CoreDataService.RecordOf` | TodoList/Service/CoreData/CoreDataService.swift:78-84 | the written row reads back as the same task, with owner 1 |
| `CoreDataService.ItemsOf` | TodoList/Service/CoreData/CoreDataService.swift:102-110 | one task per row, read back field by field |
| `CoreDataService.RecordsOf` | TodoList/ViewModel/TodoListViewModel.swift:38-40 | one written row per task, in the order persisted |
| `CoreDataService.IndexOfId` | TodoList/Service/CoreData/CoreDataService.swift:123-128 | found exactly when some row has the id; the found row has it and no earlier row does |
| `CoreDataService.CountWithId` | TodoList/Service/CoreData/CoreDataService.swift:265-271 | positive exactly when some row has the id; at most 1 when ids are unique |
| `CoreDataService.MaxId` | TodoList/Service/CoreData/CoreDataService.swift:209-216 | an id of some row, and no row has a larger one |
| `CoreDataService.Overwritten` | TodoList/Service/CoreData/CoreDataService.swift:128-135 | same length; no row changes id, creation time or owner; only the first row with the id changes, taking title, description and flag; no match leaves the table as it was; unique ids stay unique |
| `CoreDataService.Removed` | TodoList/Service/CoreData/CoreDataService.swift:150-160 | no match leaves the table as it was; otherwise one row fewer, exactly that row gone; with unique ids, the id is then absent |
| `CoreDataService.InsertNewestFirst` | TodoList/Service/CoreData/CoreDataService.swift:97 | inserting into a newest-first list keeps it newest first and adds exactly one element |
| `CoreDataService.SortNewestFirst` | TodoList/Service/CoreData/CoreDataService.swift:96-97 | newest `createdAt` first, and a permutation of the input |
| `CoreDataService.SortKeepsElements` | TodoList/Service/CoreData/CoreDataService.swift:96-102 | sorting neither loses nor invents a task |
| `CoreDataService.EmptyQueryMatchesEveryTask` | TodoList/Service/CoreData/CoreDataService.swift:176-181 | every task matches the empty query |
| `CoreDataService.EmptyQueryNeedsNoPredicate` | TodoList/Service/CoreData/CoreDataService.swift:176-181 | skipping the predicate for the empty query gives the same result as applying it |
| `CoreDataService.SearchFindsExactlyMatches` | TodoList/Service/CoreData/CoreDataService.swift:174-183 | search results are newest first, each matches in title or description, and every matching task is found |
| `CoreDataService.TaskStore.constructor` | TodoList/Service/CoreData/CoreDataService.swift:13-40 | a store over the rows already in the file, ready or not |
| `CoreDataService.TaskStore.AddTodo` | TodoList/Service/CoreData/CoreDataService.swift:75-88 | when ready, exactly one row is appended carrying the task's fields and owner 1, the count grows by one and the id then exists; otherwise nothing is written; a new id keeps ids unique |
| `CoreDataService.TaskStore.AllTodos` | TodoList/Service/CoreData/CoreDataService.swift:90-115 | not ready: empty; ready: every row's task, newest first, a permutation of the table |
| `CoreDataService.TaskStore.UpdateTodo` | TodoList/Service/CoreData/CoreDataService.swift:117-142 | true exactly when ready and some row has the id; the table becomes Overwritten when ready, else stays |
| `CoreDataService.TaskStore.DeleteTodo` | TodoList/Service/CoreData/CoreDataService.swift:144-166 | true exactly when ready and some row has the id; the table becomes Removed when ready, else stays; the count drops by one exactly on true |
| `CoreDataService.TaskStore.SearchTodos` | TodoList/Service/CoreData/CoreDataService.swift:168-201 | not ready: empty; empty query: the same list, in the same order, as AllTodos; otherwise newest first, exactly the stored tasks whose title or description contains the folded query |
| `CoreDataService.TaskStore.NextAvailableId` | TodoList/Service/CoreData/CoreDataService.swift:203-223 | 1 when not ready or empty; otherwise one more than a stored id and larger than every stored id, so no row has it |
| `CoreDataService.TaskStore.DeleteAllTodos` | TodoList/Service/CoreData/CoreDataService.swift:225-241 | when ready the table is empty afterwards (count 0, no id exists); otherwise untouched |
| `CoreDataService.TaskStore.TodosCount` | TodoList/Service/CoreData/CoreDataService.swift:243-256 | the number of rows when ready, 0 otherwise |
| `CoreDataService.TaskStore.TodoExists` | TodoList/Service/CoreData/CoreDataService.swift:259-276 | true exactly when ready and some row has the id |
| `TodoListViewModel.IndexOfTodo` | TodoList/ViewModel/TodoListViewModel.swift:82 | found exactly when some task has the id; the first such task |
| `TodoListViewModel.Toggled` | TodoList/ViewModel/TodoListViewModel.swift:114-115 | the completion flag is negated and nothing else differs |
| `TodoListViewModel.ToggleStep` | TodoList/ViewModel/TodoListViewModel.swift:113-130 | both lists keep their lengths |
| `TodoListViewModel.ToggleChangesOnlyTheFlag` | TodoList/ViewModel/TodoListViewModel.swift:113-130 | other positions on screen and every working-set position but the first with the id are untouched; the chosen entry differs only in its negated flag; the working-set entry becomes the toggled screen copy, which is that entry toggled when the two agreed; with no working-set match nothing changes |
| `TodoListViewModel.ToggleTwiceRestores` | TodoList/ViewModel/TodoListViewModel.swift:113-130 | two accepted toggles restore the screen list, and restore the working set when its entry agreed with the screen |
| `TodoListViewModel.ViewModel.constructor` | TodoList/ViewModel/TodoListViewModel.swift:10-14 | both lists empty, nothing notified |
| `TodoListViewModel.ViewModel.LoadTodos` | TodoList/ViewModel/TodoListViewModel.swift:17-31 | stored tasks present: both lists become them (newest first), the store and the remote list are not touched; empty: as LoadFromServer, so the table then holds exactly the fetched tasks, unique when their ids are distinct |
| `TodoListViewModel.ViewModel.LoadFromServer` | TodoList/ViewModel/TodoListViewModel.swift:33-55 | success: every fetched task is stored once, in order, and both lists become exactly the fetched list; failure: lists and store unchanged, the load error is reported |
| `TodoListViewModel.ViewModel.AddNewTodo` | TodoList/ViewModel/TodoListViewModel.swift:57-74 | placeholders for empty title and description, the store's next id, not completed; stored; first in the working set, which the screen mirrors; keeps store ids unique and newest-first order |
| `TodoListViewModel.ViewModel.UpdateTodo` | TodoList/ViewModel/TodoListViewModel.swift:76-92 | store rejects: lists unchanged, error reported; accepts: the first working-set entry with the id becomes the task and the screen mirrors the working set, or nothing changes when there is none |
| `TodoListViewModel.ViewModel.DeleteTodo` | TodoList/ViewModel/TodoListViewModel.swift:94-110 | store accepts: no working-set task keeps the id and exactly position `index` leaves the screen; rejects: lists unchanged, error reported |
| `TodoListViewModel.ViewModel.ToggleCompletion` | TodoList/ViewModel/TodoListViewModel.swift:113-130 | the store gets the toggled copy; the lists change as ToggleStep says; a rejected write sends no notification |
| `TodoListViewModel.ViewModel.SearchTodos` | TodoList/ViewModel/TodoListViewModel.swift:133-146 | the working set never changes; empty query: the screen mirrors it; otherwise the screen shows the store's search result, all matching |
| `TodoListViewModel.ViewModel.NumberOfTodos` | TodoList/ViewModel/TodoListViewModel.swift:148-150 | the length of the on-screen list |
| `TodoListViewModel.ViewModel.TodoAt` | TodoList/ViewModel/TodoListViewModel.swift:152-154 | requires an index in range; the on-screen task at that index |
| `Scenarios.SeedEmptyStore` | TodoList/ViewModel/TodoListViewModel.swift:33-55 | seeding an empty store with one remote task shows and stores exactly that task, described "wash car", not completed, titled with id 1 |
| `Scenarios.LoadTwoStoredTasks` | TodoList/ViewModel/TodoListViewModel.swift:17-31 | two stored tasks are shown newest first and the remote list is not used |
| `Scenarios.AddUntitledTask` | TodoList/ViewModel/TodoListViewModel.swift:57-74 | with ids 3 and 7 stored, an untitled task gets id 8 and the placeholders, and is shown first |

## Left out

- The Core Data stack is not modelled: the persistent container, store loading and its `fatalError`, `saveContext`, and `printCoreDataStatus`. The table is the context's contents; saving and durability across launches are not modelled.
- A missing `Entity` entity in the managed object model is not modelled: the model treats it as always present, so `AddTodo` writes whenever the store is ready.
- Fetch and save errors are not modelled: the `catch` branches and the value defaults in the read mapping (id 0, "Без названия", empty description, now, false). Rows written by `addTodo` have every field set, so those defaults are never read.
- `CoreDataService.TaskStore.NextAvailableId`: ids are unbounded integers. The 64-bit range of `Int`/`Int64` and the overflow trap of `lastId + 1` at the largest 64-bit value are not modelled.
- `CoreDataService.TaskStore.UpdateTodo`: ids are unbounded integers. The fetch predicate `id == %d` (CoreDataService.swift:124) passes the id as a 32-bit C integer, so in the app an id outside the 32-bit range may match a different row. That truncation is not modelled.
- `CoreDataService.TaskStore.DeleteTodo`: the same 32-bit reading of the id by the `%d` predicate (CoreDataService.swift:151) is not modelled.
- `CoreDataService.TaskStore.TodoExists`: the same 32-bit reading of the id by the `%d` predicate (CoreDataService.swift:266) is not modelled.
- `CoreDataService.SortNewestFirst`: tasks with equal `createdAt` come in no promised order. Core Data promises none either.
- `TextMatch.Fold`: Foundation's full Unicode case and diacritic folding is not modelled. The fold covers Latin A-Z, Cyrillic А-Я, Ё/ё and Й/й, and leaves other characters unchanged.
- `DispatchQueue` hops and `[weak self]` are not modelled: there is no interleaving of operations and no deallocated view-model.
- Which row of a fetch is `first` is not specified by Core Data. The model takes the first in table order.
- `NetworkService` (the URL request and JSON decoding) is not part of this model. Its result is the `remote` parameter of `LoadTodos`.
- The server's `Todo` type is not part of this model. Only the three fields the mapping reads are modelled.
- `Date()` and date formatting are not modelled: times are natural numbers passed in.
- The UIKit screens, the cell, and the app and scene delegates are not part of this model.
