/** The shared in-memory task store: an ordered list of tasks and the counter for their ids. */
module TasksStore {
  import opened Wrappers
  import Sequences

  datatype Task = Task(id: int, title: string, completed: bool)

  /** No two tasks share an id. */
  predicate IdsDistinct(s: seq<Task>) {
    forall i, j :: 0 <= i < j < |s| ==> s[i].id != s[j].id
  }

  /** `tasks.findIndex(t => t.id === id)`: the first position holding `id`, or -1. */
  function IndexOfId(s: seq<Task>, id: int): (k: int)
    ensures -1 <= k < |s|
    ensures k == -1 ==> forall j :: 0 <= j < |s| ==> s[j].id != id
    ensures 0 <= k ==> s[k].id == id && forall j :: 0 <= j < k ==> s[j].id != id
  {
    if s == [] then -1
    else if s[0].id == id then 0
    else
      var k := IndexOfId(s[1..], id);
      if k == -1 then -1 else k + 1
  }

  /** Two lists with the same ids in the same places agree on every lookup. */
  lemma {:induction false} IndexOfIdSameIds(s: seq<Task>, t: seq<Task>, id: int)
    requires |s| == |t|
    requires forall j :: 0 <= j < |s| ==> s[j].id == t[j].id
    ensures IndexOfId(s, id) == IndexOfId(t, id)
  {
    if s != [] && s[0].id != id {
      IndexOfIdSameIds(s[1..], t[1..], id);
    }
  }

  /** The list after `toggleTask(id)`: the first task with `id` has `completed` negated. */
  function Toggled(s: seq<Task>, id: int): (r: seq<Task>)
    ensures |r| == |s|
    ensures forall j :: 0 <= j < |s| ==> r[j].id == s[j].id && r[j].title == s[j].title
  {
    var k := IndexOfId(s, id);
    if k < 0 then s else s[k := s[k].(completed := !s[k].completed)]
  }

  /** The list after `deleteTask(id)`: the first task with `id` spliced out. */
  function Without(s: seq<Task>, id: int): (r: seq<Task>)
    ensures IndexOfId(s, id) < 0 ==> r == s
    ensures IndexOfId(s, id) >= 0 ==> |r| == |s| - 1
    ensures forall j :: 0 <= j < |r| ==> r[j] in s
  {
    var k := IndexOfId(s, id);
    if k < 0 then s else s[..k] + s[k + 1..]
  }

  /** The two tasks the store starts with. */
  function SeedTasks(): (r: seq<Task>)
    ensures |r| == 2 && IdsDistinct(r)
    ensures forall j :: 0 <= j < |r| ==> r[j].id == j + 1
  {
    [Task(1, "Learn Next.js", false), Task(2, "Build an API", true)]
  }

  /** A toggle of a present id flips that task only; of an absent id, nothing. */
  lemma ToggleFrame(s: seq<Task>, id: int, j: int)
    requires IdsDistinct(s)
    requires 0 <= j < |s|
    ensures Toggled(s, id)[j].completed == (s[j].completed != (s[j].id == id))
    ensures IndexOfId(s, id) < 0 ==> Toggled(s, id) == s
  {
  }

  /** Toggling the same id twice restores the original list. */
  lemma ToggleTwice(s: seq<Task>, id: int)
    ensures Toggled(Toggled(s, id), id) == s
  {
    IndexOfIdSameIds(s, Toggled(s, id), id);
  }

  /** Splicing out position `k` of a list with distinct ids removes exactly the record at `k`. */
  lemma SpliceContents(s: seq<Task>, k: int)
    requires IdsDistinct(s)
    requires 0 <= k < |s|
    ensures forall x :: x in s[..k] + s[k + 1..] <==> x in s && x.id != s[k].id
    ensures IdsDistinct(s[..k] + s[k + 1..])
  {
    var r := s[..k] + s[k + 1..];
    assert forall i :: 0 <= i < |r| ==> r[i] == s[if i < k then i else i + 1];
    forall x
      ensures x in r <==> x in s && x.id != s[k].id
    {
      if x in s && x.id != s[k].id {
        var i :| 0 <= i < |s| && s[i] == x;
        assert r[if i < k then i else i - 1] == x;
      }
    }
    forall i, j | 0 <= i < j < |r|
      ensures r[i].id != r[j].id
    {
      assert r[i] == s[if i < k then i else i + 1];
      assert r[j] == s[if j < k then j else j + 1];
    }
  }

  /**
   * Deleting a present id removes exactly that task and keeps the order of the others;
   * deleting an absent id changes nothing.
   */
  lemma DeleteRemovesOnlyId(s: seq<Task>, id: int)
    requires IdsDistinct(s)
    ensures IndexOfId(s, id) < 0 ==> Without(s, id) == s
    ensures IndexOfId(s, id) >= 0 ==> |Without(s, id)| == |s| - 1
    ensures forall x :: x in Without(s, id) <==> x in s && x.id != id
    ensures Sequences.IsSubsequence(Without(s, id), s)
    ensures IdsDistinct(Without(s, id))
  {
    var k := IndexOfId(s, id);
    if k < 0 {
      Sequences.SubsequenceReflexive(s);
    } else {
      Sequences.SpliceIsSubsequence(s, k);
      SpliceContents(s, k);
    }
  }

  class TaskStore {
    var tasks: seq<Task>
    var nextId: int
    /** Every id the store has ever handed out, deleted ones included. */
    ghost var issued: set<int>

    /** Ids are distinct, every stored id was issued, and every issued id lies below `nextId`. */
    ghost predicate Valid()
      reads this
    {
      && IdsDistinct(tasks)
      && (forall j :: 0 <= j < |tasks| ==> tasks[j].id in issued)
      && (forall id :: id in issued ==> id < nextId)
    }

    /** The module's initial state: the two seed tasks and `nextId = 3`. */
    constructor ()
      ensures Valid()
      ensures tasks == SeedTasks() && nextId == 3 && issued == {1, 2}
    {
      tasks := SeedTasks();
      nextId := 3;
      issued := {1, 2};
    }

    /** `getTasks`: the list itself, in insertion order. */
    method GetTasks() returns (r: seq<Task>)
      ensures r == tasks
    {
      r := tasks;
    }

    /** `addTask`: a task with the current `nextId`, the title and `completed = false`, appended. */
    method AddTask(title: string) returns (r: Task)
      requires Valid()
      modifies this
      ensures Valid()
      ensures r == Task(old(nextId), title, false)
      ensures tasks == old(tasks) + [r]
      ensures nextId == old(nextId) + 1
      ensures r.id !in old(issued) && issued == old(issued) + {r.id}
    {
      r := Task(nextId, title, false);
      nextId := nextId + 1;
      tasks := tasks + [r];
      issued := issued + {r.id};
    }

    /** `toggleTask`: `None` and no change when `id` is absent; otherwise the toggled task. */
    method ToggleTask(id: int) returns (r: Option<Task>)
      requires Valid()
      modifies this
      ensures Valid()
      ensures tasks == Toggled(old(tasks), id)
      ensures nextId == old(nextId) && issued == old(issued)
      ensures r.None? <==> forall j :: 0 <= j < |old(tasks)| ==> old(tasks)[j].id != id
      ensures r.Some? ==> r.value.id == id && r.value in tasks
      ensures r.Some? ==> Task(id, r.value.title, !r.value.completed) in old(tasks)
    {
      var k := IndexOfId(tasks, id);
      if k < 0 {
        r := None;
      } else {
        var toggled := tasks[k].(completed := !tasks[k].completed);
        tasks := tasks[k := toggled];
        r := Some(toggled);
      }
    }

    /** `deleteTask`: `false` and no change when `id` is absent; otherwise the task is spliced out. */
    method DeleteTask(id: int) returns (deleted: bool)
      requires Valid()
      modifies this
      ensures Valid()
      ensures deleted <==> exists j :: 0 <= j < |old(tasks)| && old(tasks)[j].id == id
      ensures tasks == Without(old(tasks), id)
      ensures forall j :: 0 <= j < |tasks| ==> tasks[j].id != id
      ensures nextId == old(nextId) && issued == old(issued)
    {
      DeleteRemovesOnlyId(tasks, id);
      var k := IndexOfId(tasks, id);
      if k == -1 {
        deleted := false;
      } else {
        tasks := tasks[..k] + tasks[k + 1..];
        deleted := true;
      }
    }
  }
}
