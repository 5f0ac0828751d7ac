# Todo store of the GraphQL server

This project models the in-memory todo store behind the GraphQL API in `app.js`.
The data file is parsed once at startup into a JavaScript array `Todos`, and
five resolvers then read and change it in place:

- the `todos` query returns the whole array;
- the `todo(id)` query returns the first record whose `id` matches, or nothing;
- the `addTodo(name, description)` mutation pushes a record whose id is the array length plus one;
- the `updateTodo(id, name, description)` mutation assigns `name` and `description` on the first matching record;
- the `deleteTodo(id)` mutation finds the record, splices it out at its `indexOf`, and returns it, or throws `"Todo not found!!!"`.

Layout:

- `wrappers.dfy` (module `Wrappers`): `Option` for a result that may be `undefined`, `Result` for a resolver that may throw.
- `todos.dfy` (module `Todos`): the `Todo` record, the error kinds, and the pure description of each operation's outcome. `FindIndex` and `Lookup` model `find`, `IndexOf` models `indexOf`. `Added`, `Updated` and `Removed` give the collection after each mutation. The lemmas state what each mutation keeps and what it changes.
- `store.dfy` (module `Store`): class `TodoStore`, whose field `todos` is the shared array. It has one method per resolver, plus the two linear scans (`find`, `indexOf`) they use. `List` returns the field itself. Every other method is proved against the functions of `Todos`: the scans against `FindIndex` and `IndexOf`, `Get` against `Lookup`, and `Add`, `Update` and `Delete` against `NewTodo`/`Added`, `Updated` and `Removed`. `Scenarios` walks the store through a seeded add and delete, a miss on an empty store, and an update of an absent id. Its assertions are proved statically.

Behaviour worth knowing:

- `updateTodo` is declared twice in the mutation object (app.js:87 and app.js:110), with identical bodies. The later key wins, so there is a single update behaviour.
- `updateTodo` on an id that no record has assigns a field of `undefined` at app.js:104. That throws a JavaScript `TypeError` before any assignment, so the collection is unchanged. The model returns `Failure(TypeError)`.
- `deleteTodo` on an absent id throws an `Error` with message "Todo not found!!!" and changes nothing. The model returns `Failure(NotFound("Todo not found!!!"))`. Its trailing `return null` (app.js:149) can never be reached.
- A record's id is derived from the collection length, not from the ids already present. One might expect ids to be unique and never reused, but the code does not guarantee this. Adding keeps ids unique while they are exactly 1..length (`AddedKeepsUniqueIds`). Initial records whose ids are not 1..length can clash with the very first add (`InitialIdsCollideExample`). Deleting a record other than the one whose id is the length, then adding, duplicates an id (`DeleteThenAddDuplicatesId`, `DuplicateIdExample`). After that, the `todos` query still lists both records, but `todo(id)` finds the older one. It reaches the new one only once the older one is deleted (`RemovedLookup`).
- `splice(indexOf(todo), 1)` would remove the last element if `indexOf` returned -1. `FoundIndexOf` proves that this never happens: the record `find` returned is always found by `indexOf`, at the same position.

## Model

| member | source | states |
|---|---|---|
| `Todos.FindIndex` | app.js:56 | the position found holds the id, no earlier record has it, and there is no position exactly when no record has the id |
| `Todos.Lookup` | app.js:55-57 | the `todo` query gives a record with the id that is the first such record, and gives nothing exactly when no record has the id |
| `Todos.IndexOf` | app.js:144 | `indexOf` gives the first position holding the record, or -1 exactly when the record is absent |
| `Todos.FoundIndexOf` | app.js:142-144 | `indexOf` of the record `find` returned is the position `find` found, so the splice never starts at -1 |
| `Todos.AddedLookup` | app.js:78-84 | after an add, every lookup finds what it found before; an id that found nothing now finds the new record exactly when it equals the old length plus one |
| `Todos.AddedKeepsUniqueIds` | app.js:79 | if ids are unique and lie in 1..length, the added record keeps them unique and within 1..length+1 |
| `Todos.Added` | app.js:78-83 | the collection after the push: the old records unchanged in place, then one record with id old length plus one and the given name and description |
| `Todos.Updated` | app.js:104-105 | the collection after the two assignments: same length, the record at the position keeps its id and takes the new name and description, every other record as it was |
| `Todos.Removed` | app.js:144 | the collection after `splice(i, 1)`: one record fewer, the records before `i` in place, those after it moved down by one |
| `Todos.UpdatedLookup` | app.js:102-107 | after an update, looking up the id gives the new name and description; every other id finds what it found before |
| `Todos.UpdatedKeepsUniqueIds` | app.js:104-105 | an update never breaks unique ids |
| `Todos.RemovedMultiset` | app.js:144 | a splice of one record removes exactly that record, once, from the multiset of records |
| `Todos.RemovedLookup` | app.js:142-145 | after a delete, looking up the id finds the next record with that id after the deleted one, if there is one |
| `Todos.RemovedLookupUnique` | app.js:142-145 | with unique ids, after a delete no record has the id and ids stay unique |
| `Todos.DeleteThenAddDuplicatesId` | app.js:79 | deleting any record and then adding gives the new record the id of the surviving record whose id was the old length, so ids are no longer unique |
| `Todos.DuplicateIdExample` | app.js:79 | starting from records 1 and 2, deleting 1 and adding yields two records with id 2, and looking up 2 finds the old record |
| `Todos.InitialIdsCollideExample` | app.js:79 | with no delete at all, an initial record with id 2 and an add yield two records with id 2, since the new id ignores the ids present |
| `Store.TodoStore.constructor` | app.js:19-20 | the store starts with the given records |
| `Store.TodoStore.List` | app.js:45 | the `todos` query returns the whole collection, in stored order, without changing it |
| `Store.TodoStore.FindFirst` | app.js:56 | the scan returns the position `FindIndex` describes |
| `Store.TodoStore.IndexOf` | app.js:144 | the scan returns the position `Todos.IndexOf` describes, -1 included |
| `Store.TodoStore.Get` | app.js:55-57 | the `todo` query returns `Lookup` of the collection and changes nothing |
| `Store.TodoStore.Add` | app.js:77-85 | the returned record is `NewTodo` of the old collection (id old length plus one, the given name and description), and the new collection is `Added` of the old one, that record appended |
| `Store.TodoStore.Update` | app.js:124-131 | on a present id, returns the record with that id and the new name and description, and the collection becomes `Updated` at the first match; on an absent id, fails with `TypeError` and changes nothing (the same body as app.js:101-108) |
| `Store.TodoStore.Delete` | app.js:141-150 | on a present id, returns the first matching record and the collection becomes `Removed` at its position; on an absent id, fails with `NotFound("Todo not found!!!")` and changes nothing |

## Left out

- Reading and parsing `db.json` at startup (app.js:19-20). The parsed array is the constructor's parameter. Records are assumed to have the shape `{ id: integer, name, description }`.
- The Express server, CORS, the port setting and the `graphqlHTTP` mounting (app.js:183-194). These are HTTP plumbing.
- The GraphQL schema and types, and the non-null argument coercion done by the `graphql` library (app.js:22-36, app.js:177-181). The `graphql` library is not part of this model. Arguments arrive already typed, and the 32-bit range of GraphQL `Int` is not modelled.
- The subscription type and its `PubSub` (app.js:16-17, app.js:155-175). Nothing is ever published to it.
- Object identity. JavaScript records are objects. `indexOf` compares references, and the update assigns fields on the very object stored in the array. Here records are values, and the update replaces the stored element. `FoundIndexOf` shows the position is the same under value equality. The aliasing between a returned record and the stored one is not modelled. GraphQL serialises each result when the resolver returns, so the aliasing cannot be observed through the API.
- Store.TodoStore.Update: the thrown error is modelled as the kind `TypeError`, without the message text the JavaScript engine would produce.
