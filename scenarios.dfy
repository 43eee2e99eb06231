/** Two worked runs of the page, checked against the contracts of the store
    and the view. */
module Scenarios {
  import opened Text
  import opened Todos
  import opened Store
  import opened TodoView

  /** Tasks High A, Medium B, High C, Medium D sort to A, C, B, D. */
  lemma SortExample(s: seq<Todo>)
    requires |s| == 4
    requires s[0].priority == "High" && s[1].priority == "Medium"
    requires s[2].priority == "High" && s[3].priority == "Medium"
    ensures SortTodosByPriority(s) == [s[0], s[2], s[1], s[3]]
  {
    ExampleGroups(s);
    SortIsGrouped(s);
  }

  /** The rank groups of the sort example. */
  lemma ExampleGroups(s: seq<Todo>)
    requires |s| == 4
    requires s[0].priority == "High" && s[1].priority == "Medium"
    requires s[2].priority == "High" && s[3].priority == "Medium"
    ensures Ranked(s)
    ensures OfRank(s, 1) == [s[0], s[2]] && OfRank(s, 2) == [s[1], s[3]] && OfRank(s, 3) == []
  {
    var a, b, c, d := s[0], s[1], s[2], s[3];
    assert s == [a, b, c, d];
    assert HasRank(a, 1) && HasRank(b, 2) && HasRank(c, 1) && HasRank(d, 2);
    assert s[1..] == [b, c, d] && [b, c, d][1..] == [c, d] && [c, d][1..] == [d] && [d][1..] == [];
    assert OfRank(s, 1) == [a, c] by {
      OfRankCons(s, 1); OfRankCons([b, c, d], 1); OfRankCons([c, d], 1); OfRankCons([d], 1);
    }
    assert OfRank(s, 2) == [b, d] by {
      OfRankCons(s, 2); OfRankCons([b, c, d], 2); OfRankCons([c, d], 2); OfRankCons([d], 2);
    }
    assert OfRank(s, 3) == [] by {
      OfRankCons(s, 3); OfRankCons([b, c, d], 3); OfRankCons([c, d], 3); OfRankCons([d], 3);
    }
  }

  /** A text that starts with a letter is not blank. */
  lemma NotBlank(s: string)
    requires s != [] && 'A' <= s[0] <= 'Z'
    ensures !IsBlank(s)
  {
    assert !IsWhiteSpace(s[0]);
    BlankIffAllWhiteSpace(s);
  }

  /** With every category one the form offers, the filter 'Active' shows
      nothing, whatever the search term and whether or not the list is
      sorted by priority. */
  lemma ActiveShowsNothing(todos: seq<Todo>, searchTerm: string, sortByPriority: bool)
    requires forall t :: t in todos ==> ValidCategory(t.category)
    ensures FilteredTodos(todos, "Active", searchTerm) == []
    ensures SortedTodos(todos, "Active", searchTerm, sortByPriority) == []
  {
    StatusOnlyFiltersSelectNothing(todos);
  }

  /** A fresh page to which one task has been added through the form. */
  method AddFirst(a: Todo) returns (store: TodoStore)
    requires !a.completed && !IsBlank(a.text) && ValidTodo(a)
    ensures fresh(store) && store.Valid()
    ensures store.todos == [a]
  {
    store := new TodoStore();
    store.SetDraft(DraftOf(a));
    store.AddTodo();
  }

  /** A second task is added through the form and the first is marked
      completed. */
  method AddSecondCompleteFirst(store: TodoStore, b: Todo)
    requires store.Valid() && |store.todos| == 1
    requires !b.completed && !IsBlank(b.text) && ValidTodo(b)
    modifies store
    ensures store.Valid()
    ensures store.todos == [old(store.todos[0]).(completed := !old(store.todos[0]).completed), b]
  {
    store.SetDraft(DraftOf(b));
    store.AddTodo();
    store.ToggleComplete(0);
  }

  /** Two tasks are added through the form and the first is marked
      completed; choosing the filter 'Active' then shows nothing, not even
      the uncompleted second task, because 'Active' is also compared with
      each task's category. The categories are the form's, which the store
      keeps valid. */
  method CompleteFirstThenFilterActive(a: Todo, b: Todo, sortByPriority: bool) returns (shown: seq<Todo>)
    requires !a.completed && !IsBlank(a.text) && ValidTodo(a)
    requires !b.completed && !IsBlank(b.text) && ValidTodo(b)
    ensures shown == []
  {
    var store := AddFirst(a);
    AddSecondCompleteFirst(store, b);
    ActiveShowsNothing(store.todos, "", sortByPriority);
    shown := SortedTodos(store.todos, "Active", "", sortByPriority);
  }

  /** The run above with 'Buy milk' (Personal, Low) and 'Fix bug'
      (Work, High), with the priority sort switched on. */
  method ActiveFilterScenario() returns (shown: seq<Todo>)
    ensures shown == []
  {
    var milk := Todo("Buy milk", false, "Personal", "", "Low", "");
    var bug := Todo("Fix bug", false, "Work", "", "High", "");
    NotBlank(milk.text);
    NotBlank(bug.text);
    shown := CompleteFirstThenFilterActive(milk, bug, true);
  }
}
