/**
 * The todo list component's state transitions: each handler builds a new list from the old
 * one, and the header counts completed and total todos.
 */
module TodoList {
  import Text
  import Sequences

  datatype Todo = Todo(id: string, text: string, completed: bool)

  /** The component's two pieces of state: the list and the text box. */
  datatype TodoState = TodoState(todos: seq<Todo>, inputValue: string)

  /**
   * The state the component starts in: the completed and total counts both start at 0 (so the
   * header shows its placeholder text), and with the text box empty pressing Add changes nothing.
   */
  function Initial(): (st: TodoState)
    ensures TotalCount(st.todos) == 0 && CompletedCount(st.todos) == 0
    ensures forall now: nat :: AddTodo(st, now) == st
  {
    assert Text.Trim("") == "";
    TodoState([], "")
  }

  /**
   * `addTodo`: a blank text box changes nothing; otherwise a todo with the id `now` in decimal,
   * the trimmed text and `completed = false` is appended and the text box is cleared.
   */
  function AddTodo(st: TodoState, now: nat): (r: TodoState)
    ensures Text.Trim(st.inputValue) == "" ==> r == st
    ensures Text.Trim(st.inputValue) != "" ==>
              && r.todos == st.todos + [Todo(Text.DecimalString(now), Text.Trim(st.inputValue), false)]
              && r.inputValue == ""
  {
    if Text.Trim(st.inputValue) == "" then st
    else TodoState(st.todos + [Todo(Text.DecimalString(now), Text.Trim(st.inputValue), false)], "")
  }

  /** `toggleTodo`: every todo carrying `id` has `completed` negated; the others are kept. */
  function ToggleTodo(todos: seq<Todo>, id: string): (r: seq<Todo>)
    ensures |r| == |todos|
    ensures forall i :: 0 <= i < |r| ==> r[i].id == todos[i].id && r[i].text == todos[i].text
  {
    seq(|todos|, i requires 0 <= i < |todos| =>
      if todos[i].id == id then todos[i].(completed := !todos[i].completed) else todos[i])
  }

  /** `deleteTodo`: the todos not carrying `id`, in their order. */
  function DeleteTodo(todos: seq<Todo>, id: string): (r: seq<Todo>)
    ensures Sequences.IsSubsequence(r, todos)
    ensures forall x :: x in r <==> x in todos && x.id != id
    ensures forall x :: multiset(r)[x] == if x.id == id then 0 else multiset(todos)[x]
  {
    if todos == [] then []
    else
      var init := DeleteTodo(todos[..|todos| - 1], id);
      assert todos == todos[..|todos| - 1] + [todos[|todos| - 1]];
      if todos[|todos| - 1].id != id then init + [todos[|todos| - 1]] else init
  }

  /** `completedCount`: the number of completed todos. */
  function CompletedCount(todos: seq<Todo>): (n: nat)
    ensures n <= |todos|
  {
    if todos == [] then 0
    else CompletedCount(todos[..|todos| - 1]) + (if todos[|todos| - 1].completed then 1 else 0)
  }

  /** `totalCount`: never below the completed count shown beside it. */
  function TotalCount(todos: seq<Todo>): (n: nat)
    ensures CompletedCount(todos) <= n
  {
    |todos|
  }

  /** Toggling flips exactly the todos carrying `id`, leaving length, order and text alone. */
  lemma ToggleFlipsOnlyId(todos: seq<Todo>, id: string)
    ensures forall i :: 0 <= i < |todos| ==>
              ToggleTodo(todos, id)[i].completed == (todos[i].completed != (todos[i].id == id))
    ensures (forall i :: 0 <= i < |todos| ==> todos[i].id != id) ==> ToggleTodo(todos, id) == todos
  {
  }

  /** Toggling the same id twice restores the list. */
  lemma ToggleTwice(todos: seq<Todo>, id: string)
    ensures ToggleTodo(ToggleTodo(todos, id), id) == todos
  {
  }

  /** Deleting from a list with one more todo at the end. */
  lemma DeleteSnoc(init: seq<Todo>, x: Todo, id: string)
    ensures DeleteTodo(init + [x], id) == if x.id != id then DeleteTodo(init, id) + [x] else DeleteTodo(init, id)
  {
    assert (init + [x])[..|init|] == init;
  }

  /** After a delete no todo carries the id, and a second delete changes nothing. */
  lemma {:induction false} DeleteIdempotent(todos: seq<Todo>, id: string)
    ensures forall i :: 0 <= i < |DeleteTodo(todos, id)| ==> DeleteTodo(todos, id)[i].id != id
    ensures DeleteTodo(DeleteTodo(todos, id), id) == DeleteTodo(todos, id)
  {
    if todos != [] {
      var init, last := todos[..|todos| - 1], todos[|todos| - 1];
      assert todos == init + [last];
      DeleteIdempotent(init, id);
      DeleteSnoc(init, last, id);
      if last.id != id {
        DeleteSnoc(DeleteTodo(init, id), last, id);
      }
    }
  }

  /** Deleting an id no todo carries changes nothing. */
  lemma {:induction false} DeleteAbsent(todos: seq<Todo>, id: string)
    requires forall i :: 0 <= i < |todos| ==> todos[i].id != id
    ensures DeleteTodo(todos, id) == todos
  {
    if todos != [] {
      var init, last := todos[..|todos| - 1], todos[|todos| - 1];
      assert todos == init + [last];
      forall i | 0 <= i < |init|
        ensures init[i].id != id
      {
        assert init[i] == todos[i];
      }
      DeleteAbsent(init, id);
      DeleteSnoc(init, last, id);
    }
  }

  /**
   * Adding a todo whose id no other todo carries and then deleting it restores the list; the
   * code does not guarantee such an id, since two adds in the same millisecond share one.
   */
  lemma AddThenDelete(st: TodoState, now: nat)
    requires Text.Trim(st.inputValue) != ""
    requires forall i :: 0 <= i < |st.todos| ==> st.todos[i].id != Text.DecimalString(now)
    ensures DeleteTodo(AddTodo(st, now).todos, Text.DecimalString(now)) == st.todos
  {
    var added := AddTodo(st, now).todos;
    assert added[..|added| - 1] == st.todos;
    DeleteAbsent(st.todos, Text.DecimalString(now));
  }

  /** Adding a todo raises the total by one and leaves the completed count alone. */
  lemma AddCounts(st: TodoState, now: nat)
    requires Text.Trim(st.inputValue) != ""
    ensures TotalCount(AddTodo(st, now).todos) == TotalCount(st.todos) + 1
    ensures CompletedCount(AddTodo(st, now).todos) == CompletedCount(st.todos)
  {
    var added := AddTodo(st, now).todos;
    assert added[..|added| - 1] == st.todos;
  }

  /** Toggling an id carried by exactly one todo moves the completed count by exactly one. */
  lemma {:induction false} ToggleOneCount(todos: seq<Todo>, id: string, k: int)
    requires 0 <= k < |todos| && todos[k].id == id
    requires forall i :: 0 <= i < |todos| && i != k ==> todos[i].id != id
    ensures CompletedCount(ToggleTodo(todos, id)) ==
            if todos[k].completed then CompletedCount(todos) - 1 else CompletedCount(todos) + 1
    decreases |todos|
  {
    var init := todos[..|todos| - 1];
    var toggled := ToggleTodo(todos, id);
    assert toggled[..|toggled| - 1] == ToggleTodo(init, id);
    if k == |todos| - 1 {
      assert ToggleTodo(init, id) == init;
    } else {
      ToggleOneCount(init, id, k);
    }
  }
}
