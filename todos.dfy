/** The task record of the to-do list and the values its string fields are
    meant to take. */
module Todos {

  /** One task. Category and priority stay strings, as in the record the
      application stores, so that the view's string comparisons can be
      stated as written. */
  datatype Todo = Todo(
    text: string,
    completed: bool,
    category: string,
    dueDate: string,
    priority: string,
    notes: string)

  /** The categories the form offers. */
  predicate ValidCategory(c: string) {
    c == "Work" || c == "Personal" || c == "Urgent"
  }

  /** The priorities the form offers. */
  predicate ValidPriority(p: string) {
    p == "High" || p == "Medium" || p == "Low"
  }

  /** A task whose category and priority were chosen from the form. */
  predicate ValidTodo(t: Todo) {
    ValidCategory(t.category) && ValidPriority(t.priority)
  }

  /** Concatenation is associative; stated once so that proofs about lists
      can regroup a concatenation by a call instead of extensionality. */
  lemma SeqAssoc<T>(x: seq<T>, y: seq<T>, z: seq<T>)
    ensures x + (y + z) == (x + y) + z
  {
  }
}
