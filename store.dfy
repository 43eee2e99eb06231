/** The task store of the to-do page: the list of tasks and the draft form,
    changed by the four handlers addTodo, editTodo, removeTodo and
    toggleComplete. Each handler is one atomic transition. A task has no
    identity of its own; its position in the list is its only handle. */
module Store {
  import opened Text
  import opened Todos

  /** The form fields the next task is built from: the task text (newTodo),
      category, due date, priority and notes. */
  datatype Draft = Draft(
    text: string,
    category: string,
    dueDate: string,
    priority: string,
    notes: string)

  /** The form as the page starts and as a successful add leaves it. */
  const DefaultDraft: Draft := Draft("", "Work", "", "Medium", "")

  predicate ValidDraft(d: Draft) {
    ValidCategory(d.category) && ValidPriority(d.priority)
  }

  /** The task addTodo builds from the draft: the text as typed, untrimmed,
      and not completed. */
  function NewTask(d: Draft): Todo {
    Todo(d.text, false, d.category, d.dueDate, d.priority, d.notes)
  }

  /** The draft editTodo fills in from a task. */
  function DraftOf(t: Todo): Draft {
    Draft(t.text, t.category, t.dueDate, t.priority, t.notes)
  }

  /** `s.filter((_, i) => i !== index)`: keeps every task whose position is
      not `index`; an index that is no position of `s` removes nothing. */
  function RemoveAt(s: seq<Todo>, index: int): (r: seq<Todo>)
    ensures |r| == if 0 <= index < |s| then |s| - 1 else |s|
  {
    if s == [] then []
    else (if index == 0 then [] else [s[0]]) + RemoveAt(s[1..], index - 1)
  }

  /** Flips the completion flag of the task at `index`, and nothing else. */
  function ToggleAt(s: seq<Todo>, index: int): (r: seq<Todo>)
    requires 0 <= index < |s|
    ensures |r| == |s|
    ensures r[index].completed == !s[index].completed
    ensures r[index].(completed := s[index].completed) == s[index]
    ensures forall k :: 0 <= k < |s| && k != index ==> r[k] == s[k]
  {
    s[index := s[index].(completed := !s[index].completed)]
  }

  /** Removing a valid position splices the list around it. */
  lemma {:induction false} RemoveAtSplice(s: seq<Todo>, index: int)
    requires 0 <= index < |s|
    ensures RemoveAt(s, index) == s[..index] + s[index + 1..]
  {
    if index == 0 {
      RemoveAtOutOfRange(s[1..], -1);
      assert s[..0] + s[1..] == s[1..];
    } else {
      var tail, before, after := s[1..], s[1..index], s[index + 1..];
      RemoveAtSplice(tail, index - 1);
      assert tail[..index - 1] == before && tail[index..] == after;
      assert RemoveAt(s, index) == [s[0]] + (before + after);
      SeqAssoc([s[0]], before, after);
      assert [s[0]] + before == s[..index];
    }
  }

  /** Removing at an index that is no position of the list leaves it as it is. */
  lemma {:induction false} RemoveAtOutOfRange(s: seq<Todo>, index: int)
    requires !(0 <= index < |s|)
    ensures RemoveAt(s, index) == s
  {
    if s != [] {
      RemoveAtOutOfRange(s[1..], index - 1);
      assert [s[0]] + s[1..] == s;
    }
  }

  /** Cutting one element out of a sequence takes one copy of it out of its multiset. */
  lemma SpliceMultiset<T>(s: seq<T>, index: int)
    requires 0 <= index < |s|
    ensures multiset(s[..index] + s[index + 1..]) == multiset(s) - multiset{s[index]}
  {
    var before, after := s[..index], s[index + 1..];
    assert s == before + [s[index]] + after;
    assert multiset(s) == multiset(before) + multiset{s[index]} + multiset(after);
  }

  /** Removing a valid position takes exactly one copy of that task out. */
  lemma RemoveAtMultiset(s: seq<Todo>, index: int)
    requires 0 <= index < |s|
    ensures multiset(RemoveAt(s, index)) == multiset(s) - multiset{s[index]}
  {
    RemoveAtSplice(s, index);
    SpliceMultiset(s, index);
  }

  /** The whole component state the handlers change. */
  datatype StoreState = StoreState(todos: seq<Todo>, draft: Draft)

  /** Every task, and the draft, carries a category and a priority the form offers. */
  predicate ValidState(st: StoreState) {
    (forall t :: t in st.todos ==> ValidTodo(t)) && ValidDraft(st.draft)
  }

  /** addTodo: with a non-blank draft text, one task built from the draft is
      appended after the unchanged earlier tasks and the form is reset;
      with a blank text nothing changes. */
  function Add(st: StoreState): (r: StoreState)
    ensures IsBlank(st.draft.text) ==> r == st
    ensures !IsBlank(st.draft.text) ==>
      && |r.todos| == |st.todos| + 1
      && r.todos[..|st.todos|] == st.todos
      && DraftOf(r.todos[|st.todos|]) == st.draft
      && !r.todos[|st.todos|].completed
      && r.draft == DefaultDraft
  {
    if IsBlank(st.draft.text) then st
    else StoreState(st.todos + [NewTask(st.draft)], DefaultDraft)
  }

  /** editTodo: the task at `index` moves into the draft and out of the list. */
  function Edit(st: StoreState, index: int): (r: StoreState)
    requires 0 <= index < |st.todos|
    ensures r.todos == st.todos[..index] + st.todos[index + 1..]
    ensures NewTask(r.draft) == st.todos[index].(completed := false)
  {
    RemoveAtSplice(st.todos, index);
    StoreState(RemoveAt(st.todos, index), DraftOf(st.todos[index]))
  }

  /** removeTodo: the list loses the task at `index`, if there is one; the
      draft is untouched. */
  function Remove(st: StoreState, index: int): (r: StoreState)
    ensures r.draft == st.draft
    ensures |r.todos| == if 0 <= index < |st.todos| then |st.todos| - 1 else |st.todos|
  {
    StoreState(RemoveAt(st.todos, index), st.draft)
  }

  /** toggleComplete: the task at `index` has its completion flag flipped. */
  function Toggle(st: StoreState, index: int): (r: StoreState)
    requires 0 <= index < |st.todos|
    ensures r.draft == st.draft && |r.todos| == |st.todos|
    ensures r.todos[index] == st.todos[index].(completed := !st.todos[index].completed)
    ensures forall k :: 0 <= k < |st.todos| && k != index ==> r.todos[k] == st.todos[k]
  {
    StoreState(ToggleAt(st.todos, index), st.draft)
  }

  /** A removal keeps the tasks before the position, shifts those after it
      down by one, and leaves the list alone for any other index. */
  lemma RemoveShifts(st: StoreState, index: int)
    ensures var r := Remove(st, index);
      if 0 <= index < |st.todos| then
        && (forall k :: 0 <= k < index ==> r.todos[k] == st.todos[k])
        && (forall k :: index <= k < |r.todos| ==> r.todos[k] == st.todos[k + 1])
      else r == st
  {
    if 0 <= index < |st.todos| {
      RemoveAtSplice(st.todos, index);
    } else {
      RemoveAtOutOfRange(st.todos, index);
    }
  }

  /** Removing the task an add has just appended gives back the old list. */
  lemma AddThenRemoveLast(st: StoreState)
    requires !IsBlank(st.draft.text)
    ensures Remove(Add(st), |st.todos|).todos == st.todos
  {
    var s := Add(st).todos;
    RemoveAtSplice(s, |st.todos|);
    assert s[..|st.todos|] == st.todos;
  }

  /** Toggling the same task twice restores the whole state. */
  lemma ToggleTwice(st: StoreState, index: int)
    requires 0 <= index < |st.todos|
    ensures Toggle(Toggle(st, index), index) == st
  {
  }

  /** Editing a task and adding the draft back re-creates the task, not
      completed, at the end of the list: one copy of the old task is
      replaced by its uncompleted copy, and the form is reset. */
  lemma EditThenAdd(st: StoreState, index: int)
    requires 0 <= index < |st.todos|
    requires !IsBlank(st.todos[index].text)
    ensures var r := Add(Edit(st, index));
      && r.todos == RemoveAt(st.todos, index) + [st.todos[index].(completed := false)]
      && multiset(r.todos)
         == multiset(st.todos) - multiset{st.todos[index]} + multiset{st.todos[index].(completed := false)}
      && r.draft == DefaultDraft
  {
    RemoveAtMultiset(st.todos, index);
  }

  /** An edited task whose text is blank cannot be added back: it is gone
      from the list for good. */
  lemma EditBlankThenAddLoses(st: StoreState, index: int)
    requires 0 <= index < |st.todos|
    requires IsBlank(st.todos[index].text)
    ensures var r := Add(Edit(st, index));
      && r.todos == RemoveAt(st.todos, index)
      && multiset(r.todos) == multiset(st.todos) - multiset{st.todos[index]}
      && r.draft == DraftOf(st.todos[index])
  {
    RemoveAtMultiset(st.todos, index);
  }

  /** A removal only drops tasks: whatever is left was in the list. */
  lemma RemoveAtKeepsMembers(s: seq<Todo>, index: int)
    ensures forall t :: t in RemoveAt(s, index) ==> t in s
  {
  }

  /** Adding keeps the categories and priorities to those the form offers. */
  lemma AddKeepsValid(st: StoreState)
    requires ValidState(st)
    ensures ValidState(Add(st))
  {
  }

  /** Removing keeps the categories and priorities to those the form offers. */
  lemma RemoveKeepsValid(st: StoreState, index: int)
    requires ValidState(st)
    ensures ValidState(Remove(st, index))
  {
    RemoveAtKeepsMembers(st.todos, index);
  }

  /** Editing keeps the categories and priorities to those the form offers:
      the draft takes them from a task of the list. */
  lemma EditKeepsValid(st: StoreState, index: int)
    requires ValidState(st) && 0 <= index < |st.todos|
    ensures ValidState(Edit(st, index))
  {
    RemoveAtKeepsMembers(st.todos, index);
    assert st.todos[index] in st.todos;
  }

  /** Toggling keeps the categories and priorities to those the form offers. */
  lemma ToggleKeepsValid(st: StoreState, index: int)
    requires ValidState(st) && 0 <= index < |st.todos|
    ensures ValidState(Toggle(st, index))
  {
    var r := ToggleAt(st.todos, index);
    forall t | t in r ensures ValidTodo(t) {
      var k :| 0 <= k < |r| && r[k] == t;
      assert st.todos[k] in st.todos;
    }
  }

  /** The page's component state: the task list and the draft form fields. */
  class TodoStore {
    var todos: seq<Todo>
    var newTodo: string
    var category: string
    var dueDate: string
    var priority: string
    var notes: string

    function CurrentDraft(): Draft
      reads this
    {
      Draft(newTodo, category, dueDate, priority, notes)
    }

    function Current(): StoreState
      reads this
    {
      StoreState(todos, CurrentDraft())
    }

    ghost predicate Valid()
      reads this
    {
      ValidState(Current())
    }

    /** The initial state: no tasks and the default form. */
    constructor ()
      ensures Current() == StoreState([], DefaultDraft)
      ensures Valid()
    {
      todos := [];
      newTodo := "";
      category := "Work";
      dueDate := "";
      priority := "Medium";
      notes := "";
    }

    /** The form's change handlers: the user types or selects draft values. */
    method SetDraft(d: Draft)
      modifies this
      ensures Current() == StoreState(old(todos), d)
      ensures old(Valid()) && ValidDraft(d) ==> Valid()
    {
      newTodo := d.text;
      category := d.category;
      dueDate := d.dueDate;
      priority := d.priority;
      notes := d.notes;
    }

    method AddTodo()
      modifies this
      ensures Current() == Add(old(Current()))
      ensures old(Valid()) ==> Valid()
    {
      if !IsBlank(newTodo) {
        var newTask := Todo(newTodo, false, category, dueDate, priority, notes);
        todos := todos + [newTask];
        newTodo := "";
        category := "Work";
        dueDate := "";
        priority := "Medium";
        notes := "";
      }
      if ValidState(old(Current())) {
        AddKeepsValid(old(Current()));
      }
    }

    method EditTodo(index: int)
      requires 0 <= index < |todos|
      modifies this
      ensures Current() == Edit(old(Current()), index)
      ensures old(Valid()) ==> Valid()
    {
      var todo := todos[index];
      newTodo := todo.text;
      category := todo.category;
      dueDate := todo.dueDate;
      priority := todo.priority;
      notes := todo.notes;
      ghost var drafted := Current();
      assert drafted == StoreState(old(todos), DraftOf(old(todos)[index]));
      RemoveTodo(index);
      assert Current() == Remove(drafted, index);
      if ValidState(old(Current())) {
        EditKeepsValid(old(Current()), index);
      }
    }

    method RemoveTodo(index: int)
      modifies this
      ensures Current() == Remove(old(Current()), index)
      ensures old(Valid()) ==> Valid()
    {
      todos := RemoveAt(todos, index);
      if ValidState(old(Current())) {
        RemoveKeepsValid(old(Current()), index);
      }
    }

    method ToggleComplete(index: int)
      requires 0 <= index < |todos|
      modifies this
      ensures Current() == Toggle(old(Current()), index)
      ensures old(Valid()) ==> Valid()
    {
      var updatedTodos := todos;
      updatedTodos := updatedTodos[index := updatedTodos[index].(completed := !updatedTodos[index].completed)];
      todos := updatedTodos;
      if ValidState(old(Current())) {
        ToggleKeepsValid(old(Current()), index);
      }
    }
  }
}
