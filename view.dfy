/** The derived view of the to-do page, recomputed on every render: the
    status/category filter, then the case-insensitive search, then the
    optional stable sort by priority. Every step builds a new sequence, so
    the task list itself is never reordered. */
module TodoView {
  import opened Text
  import opened Todos

  datatype Option<T> = None | Some(value: T)

  // ---------------------------------------------------------------------
  // Array.prototype.filter
  // ---------------------------------------------------------------------

  /** `s.filter(keep)`: the tasks of `s` that `keep` accepts, in their order. */
  function Select(s: seq<Todo>, keep: Todo -> bool): (r: seq<Todo>)
    ensures |r| <= |s|
    ensures forall k :: 0 <= k < |r| ==> keep(r[k])
  {
    if s == [] then []
    else (if keep(s[0]) then [s[0]] else []) + Select(s[1..], keep)
  }

  /** Filtering keeps exactly the tasks the callback accepts. */
  lemma {:induction false} SelectMembership(s: seq<Todo>, keep: Todo -> bool)
    ensures forall t :: t in Select(s, keep) <==> t in s && keep(t)
  {
    if s != [] {
      SelectMembership(s[1..], keep);
      assert s == [s[0]] + s[1..];
    }
  }

  /** `r` is `s` with some tasks left out and the rest in their order. */
  ghost predicate IsSubsequence(r: seq<Todo>, s: seq<Todo>)
    decreases |s|
  {
    || r == []
    || (s != [] && ((r[0] == s[0] && IsSubsequence(r[1..], s[1..])) || IsSubsequence(r, s[1..])))
  }

  /** Filtering keeps the relative order of what it keeps. */
  lemma {:induction false} SelectIsSubsequence(s: seq<Todo>, keep: Todo -> bool)
    ensures IsSubsequence(Select(s, keep), s)
  {
    if s != [] {
      SelectIsSubsequence(s[1..], keep);
      var r := Select(s, keep);
      if keep(s[0]) {
        assert r == [s[0]] + Select(s[1..], keep);
        assert r[0] == s[0] && r[1..] == Select(s[1..], keep);
      } else {
        assert r == Select(s[1..], keep);
      }
    }
  }

  /** A filter that accepts every task returns its input. */
  lemma {:induction false} SelectAllKept(s: seq<Todo>, keep: Todo -> bool)
    requires forall k :: 0 <= k < |s| ==> keep(s[k])
    ensures Select(s, keep) == s
  {
    if s != [] {
      SelectAllKept(s[1..], keep);
      assert [s[0]] + s[1..] == s;
    }
  }

  /** A filter that accepts no task returns nothing. */
  lemma {:induction false} SelectNoneKept(s: seq<Todo>, keep: Todo -> bool)
    requires forall k :: 0 <= k < |s| ==> !keep(s[k])
    ensures Select(s, keep) == []
  {
    if s != [] {
      SelectNoneKept(s[1..], keep);
    }
  }

  /** Filtering a concatenation filters each part. */
  lemma {:induction false} SelectAppend(a: seq<Todo>, b: seq<Todo>, keep: Todo -> bool)
    ensures Select(a + b, keep) == Select(a, keep) + Select(b, keep)
  {
    if a == [] {
      assert a + b == b;
    } else {
      SelectAppend(a[1..], b, keep);
      SelectAppendStep(a, b, keep);
    }
  }

  /** One step of `SelectAppend`: the first task of `a` is kept or dropped
      alike on both sides. */
  lemma SelectAppendStep(a: seq<Todo>, b: seq<Todo>, keep: Todo -> bool)
    requires a != []
    requires Select(a[1..] + b, keep) == Select(a[1..], keep) + Select(b, keep)
    ensures Select(a + b, keep) == Select(a, keep) + Select(b, keep)
  {
    var ab := a + b;
    assert ab[0] == a[0] && ab[1..] == a[1..] + b;
    var ra, rb := Select(a[1..], keep), Select(b, keep);
    if keep(a[0]) {
      assert Select(ab, keep) == [a[0]] + (ra + rb);
      assert Select(a, keep) == [a[0]] + ra;
      SeqAssoc([a[0]], ra, rb);
    } else {
      assert Select(ab, keep) == ra + rb;
      assert Select(a, keep) == ra;
    }
  }

  /** Two filters that agree on every task of `s` select the same tasks. */
  lemma {:induction false} SelectAgreeing(s: seq<Todo>, p: Todo -> bool, q: Todo -> bool)
    requires forall t :: t in s ==> p(t) == q(t)
    ensures Select(s, p) == Select(s, q)
  {
    if s != [] {
      assert s[0] in s;
      SelectAgreeing(s[1..], p, q);
    }
  }

  /** Two filters in a row are one filter by the conjunction. */
  lemma {:induction false} SelectSelect(s: seq<Todo>, p: Todo -> bool, q: Todo -> bool)
    ensures Select(Select(s, p), q) == Select(s, t => p(t) && q(t))
  {
    if s != [] {
      SelectSelect(s[1..], p, q);
      var rest := Select(s[1..], p);
      if p(s[0]) {
        var sp := [s[0]] + rest;
        assert Select(s, p) == sp;
        assert sp[0] == s[0] && sp[1..] == rest;
        assert Select(sp, q) == (if q(s[0]) then [s[0]] else []) + Select(rest, q);
      } else {
        assert Select(s, p) == rest;
      }
    }
  }

  // ---------------------------------------------------------------------
  // The status/category filter and the search
  // ---------------------------------------------------------------------

  /** The status filter's callback, with its three early returns as written:
      any filter other than 'All' also demands that the task's category
      equal the filter string. */
  predicate StatusKeeps(filter: string, t: Todo) {
    if filter == "Active" && t.completed then false
    else if filter == "Completed" && !t.completed then false
    else if filter != "All" && t.category != filter then false
    else true
  }

  function StatusFilter(s: seq<Todo>, filter: string): seq<Todo> {
    Select(s, t => StatusKeeps(filter, t))
  }

  /** The search callback: the lower-cased text includes the lower-cased term. */
  predicate SearchKeeps(searchTerm: string, t: Todo) {
    Includes(ToLower(t.text), ToLower(searchTerm))
  }

  function SearchFilter(s: seq<Todo>, searchTerm: string): seq<Todo> {
    Select(s, t => SearchKeeps(searchTerm, t))
  }

  /** `filteredTodos`: the status filter, then the search. */
  function FilteredTodos(todos: seq<Todo>, filter: string, searchTerm: string): seq<Todo> {
    SearchFilter(StatusFilter(todos, filter), searchTerm)
  }

  /** The filter 'All' keeps every task. */
  lemma StatusFilterAll(s: seq<Todo>)
    ensures StatusFilter(s, "All") == s
  {
    SelectAllKept(s, t => StatusKeeps("All", t));
  }

  /** Any other filter keeps a task only if its category is the filter
      string; a category filter therefore keeps exactly the tasks of that
      category, completed or not. */
  lemma StatusFilterOther(s: seq<Todo>, filter: string)
    requires filter != "All"
    ensures forall t :: t in StatusFilter(s, filter) ==> t in s && t.category == filter
    ensures filter != "Active" && filter != "Completed" ==>
      forall t :: t in StatusFilter(s, filter) <==> t in s && t.category == filter
  {
    SelectMembership(s, t => StatusKeeps(filter, t));
  }

  /** When every category is one the form offers, the filters 'Active' and
      'Completed' show nothing at all. */
  lemma StatusOnlyFiltersSelectNothing(s: seq<Todo>)
    requires forall t :: t in s ==> ValidCategory(t.category)
    ensures StatusFilter(s, "Active") == []
    ensures StatusFilter(s, "Completed") == []
  {
    forall k | 0 <= k < |s| ensures !StatusKeeps("Active", s[k]) && !StatusKeeps("Completed", s[k]) {
      assert s[k] in s;
    }
    SelectNoneKept(s, t => StatusKeeps("Active", t));
    SelectNoneKept(s, t => StatusKeeps("Completed", t));
  }

  /** One task passes the search exactly when the lower-cased term occurs
      in its lower-cased text. */
  lemma SearchKeepsMeaning(searchTerm: string, t: Todo)
    ensures SearchKeeps(searchTerm, t) ==> exists i :: OccursAt(ToLower(t.text), ToLower(searchTerm), i)
    ensures (exists i :: OccursAt(ToLower(t.text), ToLower(searchTerm), i)) ==> SearchKeeps(searchTerm, t)
  {
    var text, term := ToLower(t.text), ToLower(searchTerm);
    IncludesIff(text, term);
    if Includes(text, term) {
      var i :| OccursAt(text, term, i);
      assert OccursAt(ToLower(t.text), ToLower(searchTerm), i);
    }
  }

  /** The search keeps a task exactly when the lower-cased term occurs in
      the lower-cased text. */
  lemma SearchMeaning(s: seq<Todo>, searchTerm: string)
    ensures forall t :: t in SearchFilter(s, searchTerm) <==>
      t in s && exists i :: OccursAt(ToLower(t.text), ToLower(searchTerm), i)
  {
    SelectMembership(s, t => SearchKeeps(searchTerm, t));
    forall t
      ensures SearchKeeps(searchTerm, t) <==> exists i :: OccursAt(ToLower(t.text), ToLower(searchTerm), i)
    {
      SearchKeepsMeaning(searchTerm, t);
    }
  }

  /** An empty search term keeps every task. */
  lemma SearchEmptyKeepsAll(s: seq<Todo>)
    ensures SearchFilter(s, "") == s
  {
    forall k | 0 <= k < |s| ensures SearchKeeps("", s[k]) {
      IncludesEmpty(ToLower(s[k].text));
    }
    SelectAllKept(s, t => SearchKeeps("", t));
  }

  /** The search ignores the letter case of the term. */
  lemma SearchCaseInsensitive(s: seq<Todo>, searchTerm: string)
    ensures SearchFilter(s, searchTerm) == SearchFilter(s, ToLower(searchTerm))
  {
    ToLowerIdempotent(searchTerm);
    SelectAgreeing(s, t => SearchKeeps(searchTerm, t), t => SearchKeeps(ToLower(searchTerm), t));
  }

  /** The filtered view lists the tasks both filters accept, in list order. */
  lemma FilteredTodosSpec(todos: seq<Todo>, filter: string, searchTerm: string)
    ensures var f := FilteredTodos(todos, filter, searchTerm);
      && IsSubsequence(f, todos)
      && forall t :: t in f <==> t in todos && StatusKeeps(filter, t) && SearchKeeps(searchTerm, t)
  {
    var p := t => StatusKeeps(filter, t);
    var q := t => SearchKeeps(searchTerm, t);
    SelectSelect(todos, p, q);
    SelectIsSubsequence(todos, t => p(t) && q(t));
    SelectMembership(todos, p);
    SelectMembership(StatusFilter(todos, filter), q);
  }

  // ---------------------------------------------------------------------
  // sortTodosByPriority
  // ---------------------------------------------------------------------

  /** The `priorityOrder` table; a priority it lacks has no rank. */
  function PriorityOrder(priority: string): Option<int> {
    if priority == "High" then Some(1)
    else if priority == "Medium" then Some(2)
    else if priority == "Low" then Some(3)
    else None
  }

  /** The task's priority is in the table, so comparing it gives a number
      and not NaN. */
  predicate IsRanked(t: Todo) {
    PriorityOrder(t.priority).Some?
  }

  predicate Ranked(s: seq<Todo>) {
    forall t :: t in s ==> IsRanked(t)
  }

  /** The rank of a ranked task. */
  function Rank(t: Todo): int
    requires IsRanked(t)
  {
    PriorityOrder(t.priority).value
  }

  predicate HasRank(t: Todo, k: int) {
    PriorityOrder(t.priority) == Some(k)
  }

  /** The comparator: negative when `a` goes first, zero on a tie. */
  function Compare(a: Todo, b: Todo): int
    requires IsRanked(a) && IsRanked(b)
  {
    Rank(a) - Rank(b)
  }

  /** A permutation of ranked tasks is ranked. */
  lemma RankedPermutation(a: seq<Todo>, b: seq<Todo>)
    requires multiset(a) == multiset(b) && Ranked(b)
    ensures Ranked(a)
  {
    forall t | t in a ensures IsRanked(t) {
      assert t in multiset(b);
    }
  }

  /** Inserts `t` before the first task it does not compare above, so that
      it stays ahead of the tasks it ties with. */
  function Insert(t: Todo, sorted: seq<Todo>): (r: seq<Todo>)
    requires IsRanked(t) && Ranked(sorted)
    ensures multiset(r) == multiset(sorted) + multiset{t}
  {
    if sorted == [] || Compare(t, sorted[0]) <= 0 then [t] + sorted
    else
      assert sorted == [sorted[0]] + sorted[1..];
      [sorted[0]] + Insert(t, sorted[1..])
  }

  /** `todos.sort(comparator)`, a stable sort, as an insertion sort from the
      back: the result is a permutation of the input. */
  function SortTodosByPriority(s: seq<Todo>): (r: seq<Todo>)
    requires Ranked(s)
    ensures multiset(r) == multiset(s)
  {
    if s == [] then []
    else
      assert s == [s[0]] + s[1..];
      assert s[0] in s;
      var sortedTail := SortTodosByPriority(s[1..]);
      RankedPermutation(sortedTail, s[1..]);
      Insert(s[0], sortedTail)
  }

  /** The tasks of `s` whose priority has rank `k`, in their order. */
  function OfRank(s: seq<Todo>, k: int): seq<Todo> {
    Select(s, t => HasRank(t, k))
  }

  /** Ranks never decrease along `s`. */
  predicate SortedByRank(s: seq<Todo>)
    requires Ranked(s)
  {
    forall i, j :: 0 <= i < j < |s| ==> Rank(s[i]) <= Rank(s[j])
  }

  /** Inserting behind tasks of lower rank and ahead of the rest. */
  lemma {:induction false} InsertBetween(t: Todo, lower: seq<Todo>, rest: seq<Todo>)
    requires IsRanked(t) && Ranked(lower) && Ranked(rest)
    requires forall u :: u in lower ==> Rank(u) < Rank(t)
    requires rest == [] || Rank(t) <= Rank(rest[0])
    ensures Insert(t, lower + rest) == lower + [t] + rest
  {
    if lower == [] {
      assert lower + rest == rest;
    } else {
      var lr, low := lower + rest, lower[1..];
      assert lower[0] in lower;
      assert lr[0] == lower[0] && lr[1..] == low + rest;
      InsertBetween(t, low, rest);
      assert Insert(t, lr) == [lower[0]] + (low + [t] + rest);
      SeqAssoc([lower[0]], low + [t], rest);
      SeqAssoc([lower[0]], low, [t]);
      assert [lower[0]] + low == lower;
    }
  }

  /** Unfolds `OfRank` once. */
  lemma OfRankCons(s: seq<Todo>, k: int)
    requires s != []
    ensures OfRank(s, k) == (if HasRank(s[0], k) then [s[0]] else []) + OfRank(s[1..], k)
  {
  }

  /** Every task of the group of rank `k` has rank `k`. */
  lemma OfRankHasRank(s: seq<Todo>, k: int)
    ensures forall u :: u in OfRank(s, k) ==> IsRanked(u) && Rank(u) == k
  {
  }

  /** The sorted list is the High tasks, then the Medium tasks, then the
      Low tasks, each group in its original order. */
  lemma {:induction false} SortIsGrouped(s: seq<Todo>)
    requires Ranked(s)
    ensures SortTodosByPriority(s) == OfRank(s, 1) + OfRank(s, 2) + OfRank(s, 3)
  {
    if s != [] {
      var tail := s[1..];
      assert s[0] in s;
      SortIsGrouped(tail);
      InsertIntoGroups(s);
    }
  }

  /** Inserting the first task of `s` into the groups of the rest of `s`
      yields the groups of `s`. */
  lemma InsertIntoGroups(s: seq<Todo>)
    requires s != [] && Ranked(s)
    ensures Insert(s[0], OfRank(s[1..], 1) + OfRank(s[1..], 2) + OfRank(s[1..], 3))
         == OfRank(s, 1) + OfRank(s, 2) + OfRank(s, 3)
  {
    var t, tail := s[0], s[1..];
    assert t in s;
    var b1, b2, b3 := OfRank(tail, 1), OfRank(tail, 2), OfRank(tail, 3);
    OfRankHasRank(tail, 1);
    OfRankHasRank(tail, 2);
    OfRankHasRank(tail, 3);
    assert Groups(b1, b2, b3);
    OfRankCons(s, 1);
    OfRankCons(s, 2);
    OfRankCons(s, 3);
    if Rank(t) == 1 {
      assert OfRank(s, 1) == [t] + b1 && OfRank(s, 2) == b2 && OfRank(s, 3) == b3;
      InsertHigh(t, b1, b2, b3);
    } else if Rank(t) == 2 {
      assert OfRank(s, 1) == b1 && OfRank(s, 2) == [t] + b2 && OfRank(s, 3) == b3;
      InsertMedium(t, b1, b2, b3);
    } else {
      assert OfRank(s, 1) == b1 && OfRank(s, 2) == b2 && OfRank(s, 3) == [t] + b3;
      InsertLow(t, b1, b2, b3);
    }
  }

  /** The High, Medium and Low groups a task is inserted into. */
  ghost predicate Groups(b1: seq<Todo>, b2: seq<Todo>, b3: seq<Todo>) {
    && (forall u :: u in b1 ==> IsRanked(u) && Rank(u) == 1)
    && (forall u :: u in b2 ==> IsRanked(u) && Rank(u) == 2)
    && (forall u :: u in b3 ==> IsRanked(u) && Rank(u) == 3)
  }

  /** A High task goes in front of all three groups. */
  lemma InsertHigh(t: Todo, b1: seq<Todo>, b2: seq<Todo>, b3: seq<Todo>)
    requires IsRanked(t) && Rank(t) == 1 && Groups(b1, b2, b3)
    ensures Insert(t, b1 + b2 + b3) == [t] + b1 + b2 + b3
  {
    var rest := b1 + b2 + b3;
    assert Ranked(rest);
    if rest != [] {
      assert rest[0] in rest;
      assert Compare(t, rest[0]) <= 0;
    }
  }

  /** A Medium task goes behind the High group, in front of the others. */
  lemma InsertMedium(t: Todo, b1: seq<Todo>, b2: seq<Todo>, b3: seq<Todo>)
    requires IsRanked(t) && Rank(t) == 2 && Groups(b1, b2, b3)
    ensures Insert(t, b1 + b2 + b3) == b1 + ([t] + b2) + b3
  {
    var rest := b2 + b3;
    assert rest != [] ==> rest[0] in rest;
    InsertBetween(t, b1, rest);
    assert b1 + b2 + b3 == b1 + rest;
  }

  /** A Low task goes behind the High and Medium groups. */
  lemma InsertLow(t: Todo, b1: seq<Todo>, b2: seq<Todo>, b3: seq<Todo>)
    requires IsRanked(t) && Rank(t) == 3 && Groups(b1, b2, b3)
    ensures Insert(t, b1 + b2 + b3) == b1 + b2 + ([t] + b3)
  {
    assert b3 != [] ==> b3[0] in b3;
    InsertBetween(t, b1 + b2, b3);
  }

  /** High tasks, then Medium tasks, then Low tasks are in rank order. */
  lemma GroupsSorted(b1: seq<Todo>, b2: seq<Todo>, b3: seq<Todo>)
    requires forall t :: t in b1 ==> HasRank(t, 1)
    requires forall t :: t in b2 ==> HasRank(t, 2)
    requires forall t :: t in b3 ==> HasRank(t, 3)
    ensures Ranked(b1 + b2 + b3) && SortedByRank(b1 + b2 + b3)
  {
    var r := b1 + b2 + b3;
    forall i | 0 <= i < |r|
      ensures HasRank(r[i], if i < |b1| then 1 else if i < |b1| + |b2| then 2 else 3)
    {
      if i < |b1| {
        assert r[i] == b1[i] && b1[i] in b1;
      } else if i < |b1| + |b2| {
        assert r[i] == b2[i - |b1|] && b2[i - |b1|] in b2;
      } else {
        assert r[i] == b3[i - |b1| - |b2|] && b3[i - |b1| - |b2|] in b3;
      }
    }
  }

  /** Selecting rank `k` from the group of rank `j` gives the group itself
      when `j == k` and nothing otherwise. */
  lemma GroupOfRank(s: seq<Todo>, j: int, k: int)
    ensures OfRank(OfRank(s, j), k) == if j == k then OfRank(s, j) else []
  {
    var g := OfRank(s, j);
    if j == k {
      SelectAllKept(g, t => HasRank(t, k));
    } else {
      SelectNoneKept(g, t => HasRank(t, k));
    }
  }

  /** Taking a rank group of a concatenation takes it of each part. */
  lemma OfRankAppend(a: seq<Todo>, b: seq<Todo>, k: int)
    ensures OfRank(a + b, k) == OfRank(a, k) + OfRank(b, k)
  {
    SelectAppend(a, b, t => HasRank(t, k));
  }

  /** Sorting keeps the tasks of each rank in their original order. */
  lemma SortStable(s: seq<Todo>, k: int)
    requires Ranked(s)
    ensures OfRank(SortTodosByPriority(s), k) == OfRank(s, k)
  {
    SortIsGrouped(s);
    var b1, b2, b3 := OfRank(s, 1), OfRank(s, 2), OfRank(s, 3);
    OfRankAppend(b1 + b2, b3, k);
    OfRankAppend(b1, b2, k);
    var g1, g2, g3 := OfRank(b1, k), OfRank(b2, k), OfRank(b3, k);
    assert OfRank(SortTodosByPriority(s), k) == g1 + g2 + g3;
    GroupOfRank(s, 1, k);
    GroupOfRank(s, 2, k);
    GroupOfRank(s, 3, k);
    if k == 1 {
      assert g1 + g2 + g3 == b1 + [] + [];
    } else if k == 2 {
      assert g1 + g2 + g3 == [] + b2 + [];
    } else if k == 3 {
      assert g1 + g2 + g3 == [] + [] + b3;
    } else {
      OfRankUnranked(s, k);
      assert g1 + g2 + g3 == [];
    }
  }

  /** No ranked task has a rank outside High, Medium and Low. */
  lemma OfRankUnranked(s: seq<Todo>, k: int)
    requires Ranked(s) && k != 1 && k != 2 && k != 3
    ensures OfRank(s, k) == []
  {
    forall i | 0 <= i < |s| ensures !HasRank(s[i], k) {
      assert s[i] in s;
    }
    SelectNoneKept(s, t => HasRank(t, k));
  }

  /** Priority sort is a permutation, orders by rank (High, then Medium,
      then Low) and keeps tasks of equal rank in their original order. */
  lemma SortTodosByPrioritySpec(s: seq<Todo>)
    requires Ranked(s)
    ensures var r := SortTodosByPriority(s);
      && multiset(r) == multiset(s)
      && Ranked(r)
      && SortedByRank(r)
      && forall k :: OfRank(r, k) == OfRank(s, k)
  {
    SortIsGrouped(s);
    GroupsSorted(OfRank(s, 1), OfRank(s, 2), OfRank(s, 3));
    forall k ensures OfRank(SortTodosByPriority(s), k) == OfRank(s, k) {
      SortStable(s, k);
    }
  }

  // ---------------------------------------------------------------------
  // sortedTodos
  // ---------------------------------------------------------------------

  /** `sortedTodos`: the filtered view, sorted by priority when the toggle is on. */
  function SortedTodos(todos: seq<Todo>, filter: string, searchTerm: string, sortByPriority: bool): seq<Todo>
    requires sortByPriority ==> Ranked(FilteredTodos(todos, filter, searchTerm))
  {
    var filtered := FilteredTodos(todos, filter, searchTerm);
    if sortByPriority then SortTodosByPriority(filtered) else filtered
  }

  /** The displayed list: the tasks both filters accept; in list order when
      sorting is off; otherwise a permutation of that list ordered by rank
      with ties in list order. */
  lemma SortedTodosSpec(todos: seq<Todo>, filter: string, searchTerm: string, sortByPriority: bool)
    requires sortByPriority ==> Ranked(FilteredTodos(todos, filter, searchTerm))
    ensures var f := FilteredTodos(todos, filter, searchTerm);
      var r := SortedTodos(todos, filter, searchTerm, sortByPriority);
      && (forall t :: t in r <==> t in todos && StatusKeeps(filter, t) && SearchKeeps(searchTerm, t))
      && (!sortByPriority ==> r == f && IsSubsequence(r, todos))
      && (sortByPriority ==>
            && multiset(r) == multiset(f)
            && Ranked(r) && SortedByRank(r)
            && forall k :: OfRank(r, k) == OfRank(f, k))
  {
    var f := FilteredTodos(todos, filter, searchTerm);
    FilteredTodosSpec(todos, filter, searchTerm);
    if sortByPriority {
      SortTodosByPrioritySpec(f);
      var r := SortTodosByPriority(f);
      forall t ensures t in r <==> t in f {
        assert t in r <==> t in multiset(r);
      }
    }
  }
}
