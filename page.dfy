/** The home page's in-memory todo list and the three updaters it hands to
    its children. React replaces the list whole (`setTodos(prev => ...)`), so
    each updater is a function from the previous list to the next one. */
module Page {
  import opened Shared

  /** Number of todos in `s` whose id is `id`. */
  function Occurrences(s: seq<Todo>, id: string): (n: nat)
    ensures n <= |s|
    ensures n == 0 <==> forall i :: 0 <= i < |s| ==> s[i].id != id
  {
    if s == [] then 0
    else (if s[0].id == id then 1 else 0) + Occurrences(s[1..], id)
  }

  /** `handleTodoAdded`: the todo returned by the server goes to the front. */
  function TodoAdded(prev: seq<Todo>, newTodo: Todo): (r: seq<Todo>)
    ensures |r| == |prev| + 1
    ensures r[0] == newTodo
    ensures forall i :: 0 <= i < |prev| ==> r[i + 1] == prev[i]
  {
    [newTodo] + prev
  }

  /** `handleToggleTodo`: `prev.map(t => t.id === id ? updatedTodo : t)`.
      Every todo carrying the id is replaced, every other one stays put. */
  function ToggleTodo(prev: seq<Todo>, id: string, updated: Todo): (r: seq<Todo>)
    ensures |r| == |prev|
    ensures forall i :: 0 <= i < |prev| && prev[i].id == id ==> r[i] == updated
    ensures forall i :: 0 <= i < |prev| && prev[i].id != id ==> r[i] == prev[i]
  {
    if prev == [] then []
    else [if prev[0].id == id then updated else prev[0]] + ToggleTodo(prev[1..], id, updated)
  }

  /** `handleDeleteTodo`: `prev.filter(t => t.id !== id)`. */
  function DeleteTodo(prev: seq<Todo>, id: string): (r: seq<Todo>)
    ensures |r| <= |prev|
    ensures forall i :: 0 <= i < |r| ==> r[i].id != id
  {
    if prev == [] then []
    else (if prev[0].id == id then [] else [prev[0]]) + DeleteTodo(prev[1..], id)
  }

  /** Adding puts the old list, unchanged and in order, behind the new todo. */
  lemma AddedKeepsOrder(prev: seq<Todo>, newTodo: Todo)
    ensures TodoAdded(prev, newTodo)[1..] == prev
  {
    var r := TodoAdded(prev, newTodo);
    assert forall i :: 0 <= i < |prev| ==> r[1..][i] == r[i + 1];
  }

  /** Toggling an id that is not in the list gives back the same list. */
  lemma ToggleAbsent(prev: seq<Todo>, id: string, updated: Todo)
    requires Occurrences(prev, id) == 0
    ensures ToggleTodo(prev, id, updated) == prev
  {
    var r := ToggleTodo(prev, id, updated);
    assert forall i :: 0 <= i < |prev| ==> r[i] == prev[i];
  }

  /** Toggling twice with the same todo changes nothing the first toggle
      has not already done, whatever id that todo carries. */
  lemma ToggleIdempotent(prev: seq<Todo>, id: string, updated: Todo)
    ensures ToggleTodo(ToggleTodo(prev, id, updated), id, updated) == ToggleTodo(prev, id, updated)
  {
    var once := ToggleTodo(prev, id, updated);
    var twice := ToggleTodo(once, id, updated);
    assert forall i :: 0 <= i < |prev| ==> twice[i] == once[i];
  }

  /** Toggling keeps the number of todos carrying the id when the server
      returns the row with that id. */
  lemma {:induction false} ToggleKeepsOccurrences(prev: seq<Todo>, id: string, updated: Todo)
    requires updated.id == id
    ensures Occurrences(ToggleTodo(prev, id, updated), id) == Occurrences(prev, id)
  {
    if prev != [] {
      ToggleKeepsOccurrences(prev[1..], id, updated);
      var r := ToggleTodo(prev, id, updated);
      assert r[1..] == ToggleTodo(prev[1..], id, updated);
    }
  }

  /** Unfolds one step of DeleteTodo on a list with a todo in front. */
  lemma DeleteCons(t: Todo, rest: seq<Todo>, id: string)
    ensures DeleteTodo([t] + rest, id) == (if t.id == id then [] else [t]) + DeleteTodo(rest, id)
  {
    assert ([t] + rest)[1..] == rest;
  }

  /** Filtering a concatenation filters each part and keeps them in order:
      the survivors keep their original relative order. With
      DeleteSingleton this fixes the result of every delete. */
  lemma {:induction false} DeleteAppend(a: seq<Todo>, b: seq<Todo>, id: string)
    ensures DeleteTodo(a + b, id) == DeleteTodo(a, id) + DeleteTodo(b, id)
  {
    if a == [] {
      assert a + b == b;
    } else {
      var head := if a[0].id == id then [] else [a[0]];
      assert a == [a[0]] + a[1..];
      assert a + b == [a[0]] + (a[1..] + b);
      DeleteCons(a[0], a[1..] + b, id);
      DeleteCons(a[0], a[1..], id);
      DeleteAppend(a[1..], b, id);
      assert head + (DeleteTodo(a[1..], id) + DeleteTodo(b, id))
          == (head + DeleteTodo(a[1..], id)) + DeleteTodo(b, id);
    }
  }

  /** Deleting shortens the list by exactly the number of todos carrying
      the id. */
  lemma {:induction false} DeleteLength(prev: seq<Todo>, id: string)
    ensures |DeleteTodo(prev, id)| == |prev| - Occurrences(prev, id)
  {
    if prev != [] {
      DeleteLength(prev[1..], id);
    }
  }

  /** A todo survives the delete iff it was in the list and its id differs. */
  lemma {:induction false} DeleteMembers(prev: seq<Todo>, id: string, t: Todo)
    ensures t in DeleteTodo(prev, id) <==> t in prev && t.id != id
  {
    if prev != [] {
      DeleteMembers(prev[1..], id, t);
      assert prev == [prev[0]] + prev[1..];
    }
  }

  /** On a single todo, deleting keeps it iff its id differs. */
  lemma DeleteSingleton(t: Todo, id: string)
    ensures DeleteTodo([t], id) == if t.id == id then [] else [t]
  {
    var r := DeleteTodo([t], id);
    DeleteLength([t], id);
    DeleteMembers([t], id, t);
    if t.id != id {
      assert r[0] in r;
      DeleteMembers([t], id, r[0]);
    }
  }

  /** Deleting an id that is not in the list gives back the same list. */
  lemma {:induction false} DeleteAbsent(prev: seq<Todo>, id: string)
    requires Occurrences(prev, id) == 0
    ensures DeleteTodo(prev, id) == prev
  {
    if prev != [] {
      DeleteAbsent(prev[1..], id);
    }
  }

  /** Deleting the same id twice is the same as deleting it once. */
  lemma DeleteIdempotent(prev: seq<Todo>, id: string)
    ensures DeleteTodo(DeleteTodo(prev, id), id) == DeleteTodo(prev, id)
  {
    DeleteAbsent(DeleteTodo(prev, id), id);
  }

  /** Toggling a todo and then deleting it leaves the same list as deleting
      it straight away, provided the server's copy carries the same id. */
  lemma {:induction false} ToggleThenDelete(prev: seq<Todo>, id: string, updated: Todo)
    requires updated.id == id
    ensures DeleteTodo(ToggleTodo(prev, id, updated), id) == DeleteTodo(prev, id)
  {
    if prev != [] {
      ToggleThenDelete(prev[1..], id, updated);
      var r := ToggleTodo(prev, id, updated);
      assert r[1..] == ToggleTodo(prev[1..], id, updated);
    }
  }

  /** Adding a todo and then deleting its id is the same as deleting that id
      from the old list. */
  lemma AddThenDelete(prev: seq<Todo>, newTodo: Todo)
    ensures DeleteTodo(TodoAdded(prev, newTodo), newTodo.id) == DeleteTodo(prev, newTodo.id)
  {
    assert TodoAdded(prev, newTodo)[1..] == prev;
  }
}
