# Final-ToDoList: the task store and its view, in Dafny

This project models the single page of the Final-ToDoList application
(`app/page.tsx`). The page has two parts.

* **The task store.** It is the component state: the list of tasks, plus
  the draft form fields `newTodo`, `category`, `dueDate`, `priority` and
  `notes`. The four handlers change it: `addTodo`, `editTodo`, `removeTodo`
  and `toggleComplete`. The store is the class `Store.TodoStore`. Its fields
  are the state variables, and there is one method per handler. Each method
  is proved to move the state exactly as a pure transition function on
  `StoreState` says: `Add`, `Edit`, `Remove` or `Toggle`. The lemmas about
  the page's behaviour are proved about those functions:
  * an add appends one task and resets the form;
  * removing splices the list;
  * toggling twice restores the list;
  * edit followed by add re-creates the task, now not completed;
  * every handler keeps categories and priorities within the form's choices.
* **The view pipeline.** `filteredTodos` and `sortedTodos` are recomputed
  on every render. Each step builds a new list from `todos`:
  1. a status/category filter;
  2. a case-insensitive `includes` search;
  3. optionally, a sort by priority rank, where High=1, Medium=2 and Low=3.

  These are pure functions in module `TodoView`. The sort is specified
  without reference to how it sorts: the result is a permutation of its
  input, ordered by rank, and tasks of equal rank keep their original
  order. A stable sort is fully determined by these three facts. So the
  model's insertion sort produces the same list as the engine's stable
  `Array.prototype.sort`.

Modules:
* `Text` (`text.dfy`): the ECMAScript string operations the page uses:
  `trim`, `toLowerCase` and `includes`.
* `Todos` (`todos.dfy`): the task record and the values the form offers.
* `Store` (`store.dfy`): the transition functions and the `TodoStore` class.
* `TodoView` (`view.dfy`): filter, search and sort.
* `Scenarios` (`scenarios.dfy`): two worked runs.

The status filter is modelled as the code writes it, with its three early
returns (app/page.tsx:121-123). The filter's option labels 'Active' and
'Completed' (app/page.tsx:226-227) suggest selecting by completion. Line
123, however, also rejects every task whose category is not the filter
string, and no category the form offers (app/page.tsx:185-187) is 'Active'
or 'Completed'. So when categories come from the form, those two filters
show nothing. `TodoView.StatusOnlyFiltersSelectNothing`,
`Scenarios.ActiveShowsNothing` and `Scenarios.ActiveFilterScenario` state
this.

## Model

| member | source | states |
|---|---|---|
| Text.TrimStart | app/page.tsx:53 | the result is a suffix of the input, does not start with white space, and everything dropped is white space |
| Text.TrimEnd | app/page.tsx:53 | the result is a prefix of the input, does not end with white space, and everything dropped is white space |
| Text.Trim | app/page.tsx:53 | `trim()`: no longer than the input, and neither end of the result is ECMAScript white space or a line terminator; `Text.TrimIsSlice` states what is cut |
| Text.TrimIsSlice | app/page.tsx:53 | the result of `trim()` is a slice `s[i..j]` of the input, and everything before `i` and after `j` is white space |
| Text.IsBlank | app/page.tsx:53 | the test `newTodo.trim() === ''`; `Text.BlankIffAllWhiteSpace` states its meaning |
| Text.BlankIffAllWhiteSpace | app/page.tsx:53 | `text.trim() !== ''` fails exactly when every character of the text is white space; the empty text is blank |
| Text.LowerChar | app/page.tsx:126 | the case mapping of one character, ASCII capitals to small letters; `Text.ToLower` applies it at every position |
| Text.ToLower | app/page.tsx:126 | `toLowerCase()` keeps the length and lower-cases each character in place |
| Text.ToLowerIdempotent | app/page.tsx:126 | lower-casing twice equals lower-casing once |
| Text.Includes | app/page.tsx:126 | `includes`; `Text.IncludesIff` and `Text.IncludesEmpty` state its meaning |
| Text.IncludesIff | app/page.tsx:126 | `includes(sub)` holds exactly when `sub` occurs at some position of the string |
| Text.IncludesEmpty | app/page.tsx:126 | every string includes the empty string |
| Store.NewTask | app/page.tsx:54-61 | the task `addTodo` builds from the draft, not completed; `Store.Add` states where it goes |
| Store.DraftOf | app/page.tsx:73-78 | the draft fields `editTodo` copies from a task; `Store.Edit` and `Store.EditThenAdd` state that adding it back re-creates the task uncompleted |
| Store.RemoveAt | app/page.tsx:84 | `filter((_, i) => i !== index)` drops one task when `index` is a position of the list and none otherwise |
| Store.RemoveAtSplice | app/page.tsx:84 | for a valid index the result is the list before `index` followed by the list after it |
| Store.RemoveAtOutOfRange | app/page.tsx:84 | an index that is not a position of the list, whether negative or too large, removes nothing |
| Store.RemoveAtMultiset | app/page.tsx:84 | removing a valid position takes exactly one copy of that task out of the list's multiset |
| Store.RemoveAtKeepsMembers | app/page.tsx:84 | every task left after a removal was in the list before |
| Store.ToggleAt | app/page.tsx:89-90 | the task at `index` has `completed` negated and all its other fields kept; every other task and the length are unchanged |
| Store.Add | app/page.tsx:52-69 | blank text: the state is unchanged; otherwise exactly one task is appended after the unchanged old tasks, built from the draft with untrimmed text and `completed` false, and the draft is reset to Work/Medium/empty |
| Store.Edit | app/page.tsx:72-80 | the list loses exactly the task at `index`, the others keeping their order (the list before `index` followed by the list after it), and the draft holds that task's text, category, due date, priority and notes |
| Store.Remove | app/page.tsx:83-85 | the draft is untouched; the list shrinks by one exactly when the index is a position of the list |
| Store.Toggle | app/page.tsx:88-92 | only the task at `index` changes, and only in its `completed` flag, which is negated; the draft and the list length are untouched |
| Store.RemoveShifts | app/page.tsx:83-85 | for a valid index, tasks before it keep their positions and tasks after it move down by one; for any other index the state is unchanged |
| Store.AddThenRemoveLast | app/page.tsx:52-85 | removing the task an add has just appended gives back the old list |
| Store.ToggleTwice | app/page.tsx:88-92 | toggling the same task twice restores the whole state |
| Store.EditThenAdd | app/page.tsx:52-80 | edit then add moves the task to the end of the list with `completed` false: one copy of the old task is replaced by its uncompleted copy, and the form is reset |
| Store.EditBlankThenAddLoses | app/page.tsx:52-80 | when the edited task's text is blank, the add that follows does nothing and the task stays lost |
| Store.AddKeepsValid | app/page.tsx:52-69 | an add keeps every task's and the draft's category and priority among the form's choices |
| Store.RemoveKeepsValid | app/page.tsx:83-85 | a removal keeps every category and priority among the form's choices |
| Store.EditKeepsValid | app/page.tsx:72-80 | an edit keeps every category and priority among the form's choices, the draft's included |
| Store.ToggleKeepsValid | app/page.tsx:88-92 | a toggle keeps every category and priority among the form's choices |
| Store.TodoStore.constructor | app/page.tsx:16-21 | the initial state is no tasks, an empty text, Work, no due date, Medium and no notes, and it is valid |
| Store.TodoStore.SetDraft | app/page.tsx:176-206 | the form's change handlers set the five draft fields and leave the list alone; a draft whose category and priority are the form's keeps the state valid |
| Store.TodoStore.AddTodo | app/page.tsx:52-69 | the new state is `Add` of the old state; validity is preserved |
| Store.TodoStore.EditTodo | app/page.tsx:72-80 | copying the task into the draft and then calling `removeTodo` yields `Edit` of the old state; validity is preserved |
| Store.TodoStore.RemoveTodo | app/page.tsx:83-85 | the new state is `Remove` of the old state; validity is preserved |
| Store.TodoStore.ToggleComplete | app/page.tsx:88-92 | the new state is `Toggle` of the old state; validity is preserved |
| TodoView.Select | app/page.tsx:120-126 | `filter(keep)` never grows the list, and every task it returns is accepted by `keep` |
| TodoView.SelectMembership | app/page.tsx:120-126 | a task is in the filtered list exactly when it is in the list and the callback accepts it |
| TodoView.SelectIsSubsequence | app/page.tsx:120-126 | filtering keeps the relative order of the tasks it keeps |
| TodoView.SelectAllKept | app/page.tsx:120-126 | a callback that accepts every task returns the list itself |
| TodoView.SelectNoneKept | app/page.tsx:120-126 | a callback that accepts no task returns the empty list |
| TodoView.SelectAppend | app/page.tsx:120-126 | filtering a concatenation is the concatenation of the filtered parts |
| TodoView.SelectAgreeing | app/page.tsx:120-126 | two callbacks that agree on every task of the list give the same result |
| TodoView.SelectSelect | app/page.tsx:119-126 | two filters in a row equal one filter by the conjunction of their callbacks |
| TodoView.StatusKeeps | app/page.tsx:120-125 | the status callback with its three early returns as written; `TodoView.StatusFilterAll`, `TodoView.StatusFilterOther` and `TodoView.StatusOnlyFiltersSelectNothing` state what it accepts |
| TodoView.StatusFilter | app/page.tsx:119-125 | the first `filter` call; its meaning is in the lemmas named for `TodoView.StatusKeeps` |
| TodoView.SearchKeeps | app/page.tsx:126 | the search callback; `TodoView.SearchKeepsMeaning` states when it accepts a task |
| TodoView.SearchFilter | app/page.tsx:126 | the second `filter` call; `TodoView.SearchMeaning`, `TodoView.SearchEmptyKeepsAll` and `TodoView.SearchCaseInsensitive` state its meaning |
| TodoView.FilteredTodos | app/page.tsx:119-126 | `filteredTodos`, the status filter then the search; `TodoView.FilteredTodosSpec` states its meaning |
| TodoView.StatusFilterAll | app/page.tsx:121-124 | the filter 'All' keeps every task, in order |
| TodoView.StatusFilterOther | app/page.tsx:120-125 | any other filter keeps only tasks whose category equals the filter string; a category filter keeps exactly those tasks, completed or not |
| TodoView.StatusOnlyFiltersSelectNothing | app/page.tsx:121-123 | when every category is Work, Personal or Urgent, the filters 'Active' and 'Completed' both select nothing |
| TodoView.SearchKeepsMeaning | app/page.tsx:126 | one task passes the search exactly when the lower-cased term occurs somewhere in its lower-cased text |
| TodoView.SearchMeaning | app/page.tsx:126 | the search keeps a task exactly when the lower-cased term occurs somewhere in the lower-cased text |
| TodoView.SearchEmptyKeepsAll | app/page.tsx:126 | an empty search term keeps every task, in order |
| TodoView.SearchCaseInsensitive | app/page.tsx:126 | searching for a term and for its lower-cased form give the same list |
| TodoView.FilteredTodosSpec | app/page.tsx:119-126 | `filteredTodos` is an order-preserving sub-list of `todos` holding exactly the tasks both callbacks accept |
| TodoView.PriorityOrder | app/page.tsx:110-114 | the `priorityOrder` table, High 1, Medium 2, Low 3, and no rank for any other string; `TodoView.SortTodosByPrioritySpec` states the order it induces |
| TodoView.Compare | app/page.tsx:115 | the comparator, negative when the first task's rank is smaller and zero on a tie; `TodoView.InsertBetween` and `TodoView.SortStable` state how the sort uses it |
| TodoView.Insert | app/page.tsx:115 | one insertion step adds exactly one copy of the task to the sorted list's multiset |
| TodoView.SortTodosByPriority | app/page.tsx:109-116 | the sorted list is a permutation of its input |
| TodoView.InsertBetween | app/page.tsx:115 | a task is inserted after every task of lower rank and before the first task of equal or higher rank |
| TodoView.SortIsGrouped | app/page.tsx:109-116 | the sorted list is the High tasks, then the Medium tasks, then the Low tasks, each group in input order |
| TodoView.InsertIntoGroups | app/page.tsx:115 | inserting a task into the groups of the rest of the list puts it at the front of its own rank group |
| TodoView.GroupsSorted | app/page.tsx:110-114 | a High group, then a Medium group, then a Low group is ordered by rank |
| TodoView.GroupOfRank | app/page.tsx:110-115 | selecting rank `k` from the group of rank `j` gives the whole group when `j` is `k`, and nothing otherwise |
| TodoView.OfRankAppend | app/page.tsx:110-115 | taking a rank group of a concatenation takes it of each part |
| TodoView.SortStable | app/page.tsx:115 | for every rank, the tasks of that rank appear in the sorted list in the same order as in the input |
| TodoView.SortTodosByPrioritySpec | app/page.tsx:109-116 | the sort is a permutation, ordered by rank, and stable |
| TodoView.SortedTodos | app/page.tsx:129 | `sortedTodos`; `TodoView.SortedTodosSpec` states its meaning |
| TodoView.SortedTodosSpec | app/page.tsx:119-129 | the displayed list holds exactly the tasks both filters accept. With sorting off it is `filteredTodos` itself, in list order. With sorting on it is a stable, rank-ordered permutation of `filteredTodos` |
| Scenarios.SortExample | app/page.tsx:109-116 | High A, Medium B, High C, Medium D sort to A, C, B, D |
| Scenarios.ActiveShowsNothing | app/page.tsx:119-129 | with valid categories, under the filter 'Active' both `filteredTodos` and the displayed list are empty, whatever the search term and with sorting on or off |
| Scenarios.CompleteFirstThenFilterActive | app/page.tsx:52-129 | adding two tasks with the form's categories and priorities through the store, completing the first and choosing 'Active' displays nothing, not even the uncompleted second task, with sorting on or off; the categories' validity comes from the store's invariant |
| Scenarios.ActiveFilterScenario | app/page.tsx:121-123 | the run above with 'Buy milk' (Personal, Low) and 'Fix bug' (Work, High), sorting on, displays nothing |

## Left out

- Loading from and saving to `localStorage` through JSON (app/page.tsx:28-49) is not modelled. It is browser I/O. If the stored value is malformed, the code lets `JSON.parse` throw; it does not reset to an empty list.
- Dark mode (app/page.tsx:24, 35-43, 132-141) is left out: it only touches the DOM and storage.
- `getPriorityClass` and the JSX rendering (app/page.tsx:95-106, 143-287) are left out: they are presentation.
- The view parameters `filter`, `searchTerm` and `sortByPriority` are component state in the source. Here they are arguments of the view functions, because no handler other than their setters changes them.
- The list rows pass their index in `sortedTodos` to the handlers (app/page.tsx:244-269), but the handlers index `todos`. The model takes list indices and does not model this wiring.
- React's batching of `setX` calls and the stale closure inside `editTodo` are not modelled. `editTodo` calls `removeTodo`, which filters the `todos` of the same render. The model applies each handler's updates at once, in order, which gives the same result.
- Store.TodoStore.ToggleComplete: the source writes the flipped flag into the task object that the old array shares. The aliasing between the old and the new state is not modelled; the task is modelled as a value.
- Store.TodoStore.EditTodo, Store.Edit, Store.TodoStore.ToggleComplete and Store.Toggle require a valid index. The source throws a `TypeError` on `undefined` at any other index, and the page only passes indices of rendered rows.
- Indices are integers. A fractional JavaScript index is not modelled.
- `toLowerCase` is modelled for ASCII letters only. Full Unicode case mapping is left out, and characters are Unicode scalar values rather than UTF-16 code units.
- TodoView.SortTodosByPriority and TodoView.SortedTodos require every task of the sorted list to have priority High, Medium or Low. For any other priority the comparator returns `NaN`, and the engine's order is then implementation-defined.
- `sortTodosByPriority` sorts the array it is given in place and returns it. That array is the fresh one built by `filter`, so the in-place update is not visible to `todos`. The model returns the sorted list as a new value.
