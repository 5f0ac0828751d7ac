/**
 * The todo records and the pure view of the `Todos` array that the GraphQL
 * resolvers of app.js read and change: lookup by id (`Array.prototype.find`),
 * position of a record (`Array.prototype.indexOf`), and the collection after
 * an add (`push`), an update (field assignment) and a delete (`splice`).
 */
module Todos {
  import opened Wrappers

  /** One record `{ id, name, description }` of the collection. */
  datatype Todo = Todo(id: int, name: string, description: string)

  /** What a resolver throws. */
  datatype Error =
    | NotFound(message: string)  // deleteTodo on an id that no record has
    | TypeError                  // updateTodo assigning a field of the `undefined` that `find` gave

  /** The message deleteTodo throws when no record has the id. */
  const NotFoundMessage := "Todo not found!!!"

  /** The first position whose record has id `id` (`find` with `todo.id === id`). */
  function FindIndex(s: seq<Todo>, id: int): (r: Option<nat>)
    ensures r.Some? ==> r.value < |s| && s[r.value].id == id
    ensures r.Some? ==> forall j :: 0 <= j < r.value ==> s[j].id != id
    ensures r.None? <==> forall j :: 0 <= j < |s| ==> s[j].id != id
  {
    if s == [] then None
    else if s[0].id == id then Some(0)
    else match FindIndex(s[1..], id)
      case None => None
      case Some(k) => Some(k + 1)
  }

  /** The `todo` query: the first record with id `id`, or nothing. */
  function Lookup(s: seq<Todo>, id: int): (r: Option<Todo>)
    ensures r.Some? ==> r.value.id == id
    ensures r.Some? ==> exists i :: 0 <= i < |s| && s[i] == r.value && forall j :: 0 <= j < i ==> s[j].id != id
    ensures r.None? <==> forall t :: t in s ==> t.id != id
  {
    match FindIndex(s, id)
    case None => None
    case Some(i) => Some(s[i])
  }

  /** `indexOf`: the first position holding `t`, or -1 when `t` is absent. */
  function IndexOf(s: seq<Todo>, t: Todo): (r: int)
    ensures -1 <= r < |s|
    ensures r >= 0 ==> s[r] == t && forall j :: 0 <= j < r ==> s[j] != t
    ensures r == -1 <==> t !in s
  {
    if s == [] then -1
    else if s[0] == t then 0
    else
      var k := IndexOf(s[1..], t);
      if k == -1 then -1 else k + 1
  }

  /** The record addTodo builds: its id is the current length plus one. */
  function NewTodo(s: seq<Todo>, name: string, description: string): Todo
  {
    Todo(|s| + 1, name, description)
  }

  /** The collection after addTodo's `push`: the old records, then the new one. */
  function Added(s: seq<Todo>, name: string, description: string): (r: seq<Todo>)
    ensures |r| == |s| + 1
    ensures r[..|s|] == s
    ensures r[|s|] == Todo(|s| + 1, name, description)
  {
    s + [NewTodo(s, name, description)]
  }

  /** A record after updateTodo has assigned its `name` and `description`. */
  function Renamed(t: Todo, name: string, description: string): Todo
  {
    t.(name := name, description := description)
  }

  /** The collection after updateTodo changed the record at position `i`:
      only that record's name and description differ; the length, its id and
      every other record stay as they were. */
  function Updated(s: seq<Todo>, i: nat, name: string, description: string): (r: seq<Todo>)
    requires i < |s|
    ensures |r| == |s|
    ensures r[i] == Todo(s[i].id, name, description)
    ensures forall j :: 0 <= j < |s| && j != i ==> r[j] == s[j]
  {
    s[i := Renamed(s[i], name, description)]
  }

  /** The collection after deleteTodo's `splice(i, 1)`: one record fewer,
      the records before `i` in place, those after it moved down by one. */
  function Removed(s: seq<Todo>, i: nat): (r: seq<Todo>)
    requires i < |s|
    ensures |r| == |s| - 1
    ensures forall j :: 0 <= j < i ==> r[j] == s[j]
    ensures forall j :: i <= j < |s| - 1 ==> r[j] == s[j + 1]
  {
    s[..i] + s[i + 1..]
  }

  /** No two records share an id. */
  ghost predicate UniqueIds(s: seq<Todo>)
  {
    forall j, k :: 0 <= j < k < |s| ==> s[j].id != s[k].id
  }

  /** Every id lies in 1..n. */
  ghost predicate IdsWithin(s: seq<Todo>, n: int)
  {
    forall j :: 0 <= j < |s| ==> 1 <= s[j].id <= n
  }

  // ---------------------------------------------------------------------
  // find, then indexOf

  /** `indexOf` of the record `find` returned is the position `find` found it at. */
  lemma FoundIndexOf(s: seq<Todo>, id: int)
    requires FindIndex(s, id).Some?
    ensures IndexOf(s, s[FindIndex(s, id).value]) == FindIndex(s, id).value
  {
    var i := FindIndex(s, id).value;
    var k := IndexOf(s, s[i]);
    assert s[i] in s;
    assert s[k].id == id;
  }

  // ---------------------------------------------------------------------
  // add

  /** Finding in a collection with one record appended. */
  lemma {:induction false} FindIndexAppend(s: seq<Todo>, x: Todo, id: int)
    ensures FindIndex(s + [x], id) ==
      if FindIndex(s, id).Some? then FindIndex(s, id)
      else if x.id == id then Some(|s|)
      else None
  {
    if s != [] && s[0].id != id {
      FindIndexAppend(s[1..], x, id);
      assert (s + [x])[1..] == s[1..] + [x];
    }
  }

  /** After an add, a lookup finds what it found before; only an id that no
      record had and that equals the new length finds the new record. */
  lemma AddedLookup(s: seq<Todo>, name: string, description: string, id: int)
    ensures Lookup(Added(s, name, description), id) ==
      if Lookup(s, id).Some? then Lookup(s, id)
      else if id == |s| + 1 then Some(Todo(id, name, description))
      else None
  {
    FindIndexAppend(s, NewTodo(s, name, description), id);
  }

  /** Adding keeps ids unique while they are exactly 1..length: the new id
      length + 1 is then fresh. */
  lemma AddedKeepsUniqueIds(s: seq<Todo>, name: string, description: string)
    requires UniqueIds(s) && IdsWithin(s, |s|)
    ensures UniqueIds(Added(s, name, description))
    ensures IdsWithin(Added(s, name, description), |s| + 1)
  {
    var a := Added(s, name, description);
    forall j, k | 0 <= j < k < |a| ensures a[j].id != a[k].id {
      if k == |s| {
        assert a[j] == s[j];
      } else {
        assert a[j] == s[j] && a[k] == s[k];
      }
    }
  }

  // ---------------------------------------------------------------------
  // update

  /** After updating the record that `id` finds, looking `id` up gives the
      new name and description, and every other id finds what it found before. */
  lemma UpdatedLookup(s: seq<Todo>, id: int, name: string, description: string, other: int)
    requires FindIndex(s, id).Some?
    ensures Lookup(Updated(s, FindIndex(s, id).value, name, description), id) == Some(Todo(id, name, description))
    ensures other != id ==>
      Lookup(Updated(s, FindIndex(s, id).value, name, description), other) == Lookup(s, other)
  {
    var i := FindIndex(s, id).value;
    var u := Updated(s, i, name, description);
    assert forall j :: 0 <= j < |s| ==> s[j].id == u[j].id by {
      forall j | 0 <= j < |s| ensures s[j].id == u[j].id {
        if j == i { assert u[i].id == s[i].id; }
      }
    }
    SameIdsFindIndex(s, u, id);
    SameIdsFindIndex(s, u, other);
  }

  /** Two collections with the same ids at the same positions find alike. */
  lemma {:induction false} SameIdsFindIndex(s: seq<Todo>, u: seq<Todo>, id: int)
    requires |s| == |u|
    requires forall j :: 0 <= j < |s| ==> s[j].id == u[j].id
    ensures FindIndex(s, id) == FindIndex(u, id)
  {
    if s != [] && s[0].id != id {
      SameIdsFindIndex(s[1..], u[1..], id);
    }
  }

  /** An update never breaks unique ids. */
  lemma UpdatedKeepsUniqueIds(s: seq<Todo>, i: nat, name: string, description: string)
    requires i < |s| && UniqueIds(s)
    ensures UniqueIds(Updated(s, i, name, description))
  {
    var u := Updated(s, i, name, description);
    forall j, k | 0 <= j < k < |u| ensures u[j].id != u[k].id {
      assert u[j].id == s[j].id && u[k].id == s[k].id;
    }
  }

  // ---------------------------------------------------------------------
  // delete

  /** A delete removes exactly the record at `i`: the records left are those
      of the collection, that one taken away once. */
  lemma RemovedMultiset(s: seq<Todo>, i: nat)
    requires i < |s|
    ensures multiset(Removed(s, i)) + multiset{s[i]} == multiset(s)
  {
    calc {
      multiset(s);
      { assert s == s[..i] + [s[i]] + s[i + 1..]; }
      multiset(s[..i]) + multiset{s[i]} + multiset(s[i + 1..]);
    }
  }

  /** Finding past a prefix in which no record has the id. */
  lemma {:induction false} FindIndexPastPrefix(p: seq<Todo>, t: seq<Todo>, id: int)
    requires forall j :: 0 <= j < |p| ==> p[j].id != id
    ensures FindIndex(p + t, id) ==
      match FindIndex(t, id)
      case None => None
      case Some(k) => Some(|p| + k)
  {
    if p == [] {
      assert p + t == t;
    } else {
      assert (p + t)[0] == p[0] && (p + t)[1..] == p[1..] + t;
      FindIndexPastPrefix(p[1..], t, id);
    }
  }

  /** After deleting the record that `id` finds, looking `id` up finds the next
      record with that id, if the collection held a second one. */
  lemma RemovedLookup(s: seq<Todo>, id: int)
    requires FindIndex(s, id).Some?
    ensures Lookup(Removed(s, FindIndex(s, id).value), id) == Lookup(s[FindIndex(s, id).value + 1..], id)
  {
    var i := FindIndex(s, id).value;
    var t := s[i + 1..];
    FindIndexPastPrefix(s[..i], t, id);
    match FindIndex(t, id)
    case None =>
    case Some(k) =>
      assert Removed(s, i)[i + k] == t[k];
  }

  /** With unique ids, a delete leaves no record with that id and keeps ids unique. */
  lemma RemovedLookupUnique(s: seq<Todo>, id: int)
    requires UniqueIds(s) && FindIndex(s, id).Some?
    ensures Lookup(Removed(s, FindIndex(s, id).value), id).None?
    ensures UniqueIds(Removed(s, FindIndex(s, id).value))
  {
    var i := FindIndex(s, id).value;
    var r := Removed(s, i);
    RemovedLookup(s, id);
    RemovedMultiset(s, i);
    var t := s[i + 1..];
    forall j | 0 <= j < |t| ensures t[j].id != id {
      assert t[j] == s[i + 1 + j];
    }
    forall j, k | 0 <= j < k < |r| ensures r[j].id != r[k].id {
      var j', k' := if j < i then j else j + 1, if k < i then k else k + 1;
      assert r[j] == s[j'] && r[k] == s[k'];
    }
  }

  // ---------------------------------------------------------------------
  // ids from the length

  /** Ids are not unique in general: deleting any record and then adding one
      gives the new record the id of the surviving record whose id is the old
      length. */
  lemma DeleteThenAddDuplicatesId(s: seq<Todo>, i: nat, j: nat, name: string, description: string)
    requires i < |s| && j < |s| && i != j && s[j].id == |s|
    ensures !UniqueIds(Added(Removed(s, i), name, description))
    ensures NewTodo(Removed(s, i), name, description).id == s[j].id
  {
    var r := Removed(s, i);
    var a := Added(r, name, description);
    RemovedMultiset(s, i);
    var j' := if j < i then j else j - 1;
    assert r[j'] == s[j];
    assert a[j'] == s[j] && a[|r|] == NewTodo(r, name, description);
  }

  /** A concrete run: with records 1 and 2, deleting 1 and adding gives two
      records with id 2, and looking up 2 does not reach the new one. */
  lemma DuplicateIdExample()
    ensures var s := [Todo(1, "A", "first"), Todo(2, "B", "second")];
      var after := Added(Removed(s, 0), "C", "third");
      && UniqueIds(s)
      && after == [Todo(2, "B", "second"), Todo(2, "C", "third")]
      && !UniqueIds(after)
      && Lookup(after, 2) == Some(Todo(2, "B", "second"))
  {
    var s := [Todo(1, "A", "first"), Todo(2, "B", "second")];
    var after := Added(Removed(s, 0), "C", "third");
    assert Removed(s, 0) == [Todo(2, "B", "second")];
    assert after[0].id == after[1].id;
  }

  /** Ids can collide without any delete: the new id ignores the ids the
      initial records carry, so a record already holding id length + 1 clashes. */
  lemma InitialIdsCollideExample()
    ensures var s := [Todo(2, "A", "a")];
      var after := Added(s, "B", "b");
      && UniqueIds(s)
      && after == [Todo(2, "A", "a"), Todo(2, "B", "b")]
      && !UniqueIds(after)
  {
    var after := Added([Todo(2, "A", "a")], "B", "b");
    assert after[0].id == after[1].id;
  }
}
