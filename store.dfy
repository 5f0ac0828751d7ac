/**
 * The shared `Todos` array of app.js and its five resolvers. `List` returns
 * the field itself; every other method is proved against the functions of
 * module Todos that describe its outcome.
 */
module Store {
  import opened Wrappers
  import opened Todos

  /** The in-memory collection, read and changed in place by the resolvers. */
  class TodoStore {
    var todos: seq<Todo>

    /** Startup: the records parsed from the data file, given as a parameter. */
    constructor (initial: seq<Todo>)
      ensures todos == initial
    {
      todos := initial;
    }

    /** The `todos` query: the whole collection, in stored order. */
    method List() returns (r: seq<Todo>)
      ensures r == todos
    {
      r := todos;
    }

    /** The linear scan behind `find`: the first position holding id `id`. */
    method FindFirst(id: int) returns (k: Option<nat>)
      ensures k == FindIndex(todos, id)
    {
      var i := 0;
      while i < |todos|
        invariant 0 <= i <= |todos|
        invariant forall j :: 0 <= j < i ==> todos[j].id != id
      {
        if todos[i].id == id {
          assert FindIndex(todos, id).Some?;
          return Some(i);
        }
        i := i + 1;
      }
      return None;
    }

    /** The linear scan behind `indexOf`: the first position holding `t`, or -1. */
    method IndexOf(t: Todo) returns (k: int)
      ensures k == Todos.IndexOf(todos, t)
    {
      var i := 0;
      while i < |todos|
        invariant 0 <= i <= |todos|
        invariant forall j :: 0 <= j < i ==> todos[j] != t
      {
        if todos[i] == t {
          return i;
        }
        i := i + 1;
      }
      return -1;
    }

    /** The `todo` query: the first record with id `id`, or nothing; the
        collection is only read. */
    method Get(id: int) returns (r: Option<Todo>)
      ensures r == Lookup(todos, id)
    {
      var k := FindFirst(id);
      r := if k.Some? then Some(todos[k.value]) else None;
    }

    /** The `addTodo` mutation: push a record whose id is the old length plus one. */
    method Add(name: string, description: string) returns (t: Todo)
      modifies this
      ensures t == NewTodo(old(todos), name, description)
      ensures todos == Added(old(todos), name, description)
      ensures t == Todo(|old(todos)| + 1, name, description)
      ensures todos == old(todos) + [t]
    {
      t := Todo(|todos| + 1, name, description);
      todos := todos + [t];
    }

    /** The `updateTodo` mutation: assign name and description of the first
        record with id `id`; with no such record the assignment dereferences
        `undefined` and throws before anything changes. */
    method Update(id: int, name: string, description: string) returns (r: Result<Todo, Error>)
      modifies this
      ensures match FindIndex(old(todos), id)
        case None => r == Failure(TypeError) && todos == old(todos)
        case Some(i) =>
          && r == Success(Todo(id, name, description))
          && todos == Updated(old(todos), i, name, description)
    {
      var k := FindFirst(id);
      if k.None? {
        return Failure(TypeError);
      }
      var i := k.value;
      var updated := Renamed(todos[i], name, description);
      todos := todos[i := updated];
      r := Success(updated);
    }

    /** The `deleteTodo` mutation: find the record, splice it out at its
        `indexOf` and return it; with no such record, throw. */
    method Delete(id: int) returns (r: Result<Todo, Error>)
      modifies this
      ensures match FindIndex(old(todos), id)
        case None => r == Failure(NotFound(NotFoundMessage)) && todos == old(todos)
        case Some(i) => r == Success(old(todos)[i]) && todos == Removed(old(todos), i)
    {
      var k := FindFirst(id);
      if k.None? {
        return Failure(NotFound(NotFoundMessage));
      }
      var todo := todos[k.value];
      var at := IndexOf(todo);
      FoundIndexOf(todos, id);
      todos := todos[..at] + todos[at + 1..];
      r := Success(todo);
    }
  }

  /** The example scenarios of the store, proved statically: a seeded add
      and delete, a miss on an empty store, and an update of an absent id. */
  method Scenarios()
  {
    var store := new TodoStore([Todo(1, "A", "first")]);
    var added := store.Add("B", "second");
    assert added == Todo(2, "B", "second") && |store.todos| == 2;

    var deleted := store.Delete(1);
    assert deleted == Success(Todo(1, "A", "first"));
    assert store.todos == [Todo(2, "B", "second")];

    var empty := new TodoStore([]);
    var miss := empty.Get(99);
    assert miss == None;

    var failed := store.Update(99, "X", "Y");
    assert failed == Failure(TypeError) && store.todos == [Todo(2, "B", "second")];
  }
}
