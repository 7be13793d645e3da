# Session-scoped todo store, modelled in Dafny

This project models `SessionPersistence`, the in-memory store behind a todo-list
web application. The store holds an ordered sequence of todo-lists. Each list
has an id, a title and an ordered sequence of todos. Each todo has an id, a
title and a `done` flag. The operations create, rename, delete, complete and
toggle. None of them throws: "not found" comes back as `false` or as an
absent value.

The model is functional:

- `Todo`, `TodoList` and `Store = seq<TodoList>` are immutable values.
- Every mutating method of the class is a pure function. It returns
  `Outcome(ok, store)`: the boolean the method returns and the store as it is
  after the call.
- Lookups (`find` / `findIndex`) are `ListIndex` and `TodoIndex`. Each scans
  from the front and returns the first match. Every operation acts only on
  the first list or todo with a given id, and the model does the same.
- `loadTodo` / `loadTodoList` return an `Option`. `deepCopy` is the identity on
  values, so they coincide with `_findTodo` / `_findTodoList`.
- The id `nextId()` would produce is a `freshId` parameter. The operations do
  not require it to be fresh, because the source never asks that of its
  callers. Only the lemmas that need freshness require it, such as
  `CreateTodoListKeepsValid` and `CreateTodoThenLoadTodo`.
- The store invariant `Valid` says list ids are unique in the store and todo
  ids are unique within each list. Every operation preserves it.

Files:

- `options.dfy`: `Option`.
- `seqs.dfy`: removing one element (`splice(i, 1)`) and `filter`, plus a
  separate subsequence definition and the partition lemma.
- `session_persistence.dfy`: the data model, the operations, the derived views
  and the invariant.
- `session_persistence_properties.dfy`: the properties that relate several calls.

## Model

| member | source | states |
|---|---|---|
| SessionPersistence.ListIndex | lib/session-persistence.js:90-92 | `None` exactly when no list has the id; otherwise the index of the first list with that id (every earlier list has a different id) |
| SessionPersistence.TodoIndex | lib/session-persistence.js:94-99 | `None` exactly when no todo has the id; otherwise the index of the first todo with that id |
| SessionPersistence.LoadTodoList | lib/session-persistence.js:113-116 | present iff some list has the id, and then it is the first such list, unchanged |
| SessionPersistence.LoadTodo | lib/session-persistence.js:101-104 | present iff the first list with `listId` holds a todo with `todoId`, and then it is the first such todo of that list |
| SessionPersistence.CreateTodoList | lib/session-persistence.js:16-24 | always returns true; the store grows by one, all earlier lists keep their positions unchanged, and the new last list has the given id and title and no todos |
| SessionPersistence.ExistsTodoListTitle | lib/session-persistence.js:26-28 | true iff some list's title equals the given title exactly |
| SessionPersistence.SetTodoListTitle | lib/session-persistence.js:29-35 | false iff no list has the id; only the first list with the id gets the new title, with its id and todos kept; every other list is unchanged |
| SessionPersistence.DeleteTodoList | lib/session-persistence.js:37-46 | false iff no list has the id, and then nothing changes; otherwise exactly the first matching list is removed and the rest keep their relative order |
| SessionPersistence.CreateTodo | lib/session-persistence.js:48-59 | false iff no list has the id; the first matching list gets `Todo(freshId, title, false)` appended at the end of its todos; every other list is unchanged |
| SessionPersistence.CompleteAll | lib/session-persistence.js:65-66 | same length; each todo keeps its id and title and is done afterwards |
| SessionPersistence.CompleteAllTodos | lib/session-persistence.js:61-69 | false iff no list has the id; every todo of the first matching list is done, with ids, titles and order unchanged; other lists untouched |
| SessionPersistence.DeleteTodo | lib/session-persistence.js:71-80 | false, with no change, iff the list or the todo is missing; otherwise only the first matching todo of the first matching list is removed and the remaining todos keep their order |
| SessionPersistence.ToggleDoneTodo | lib/session-persistence.js:82-88 | false, with no change, iff the list or the todo is missing; otherwise only that todo's `done` flips, and everything else stays the same |
| SessionPersistence.AnyUndone | lib/session-persistence.js:118-120 | true iff some todo is not done |
| SessionPersistence.AllDone | lib/session-persistence.js:122-124 | true iff every todo is done (vacuously for none) |
| SessionPersistence.TodoGroups | lib/session-persistence.js:106-111 | the undone group holds only undone todos and the done group only done ones; together they are a permutation of the list's todos, and each is a subsequence of it |
| SessionPersistence.TodoListGroups | lib/session-persistence.js:126-131 | the same for lists, split by `isDoneTodoList` |
| Seqs.RemoveAt | lib/session-persistence.js:44 | `splice(i, 1)`: one element shorter; the elements before `i` stay in place and those after it shift down by one |
| Seqs.Filter | lib/session-persistence.js:108-109 | keeps only elements satisfying the predicate, and keeps every one that does |
| Seqs.FilterIsSubsequence | lib/session-persistence.js:108-109 | filtering keeps relative order: the result is a subsequence of the input |
| Seqs.FilterPartition | lib/session-persistence.js:128-129 | filtering by a predicate and by its complement gives groups whose multisets add up to the input's |
| SessionPersistenceProperties.SameListIdsSameFirst | lib/session-persistence.js:90-92 | an update that keeps every list id in place leaves every list lookup where it was |
| SessionPersistenceProperties.SameTodoIdsSameFirst | lib/session-persistence.js:94-99 | the same for todo lookups within one list |
| SessionPersistenceProperties.CreateTodoListThenExists | lib/session-persistence.js:16-28 | after `createTodoList(t)`, `existsTodoListTitle(t)` is true |
| SessionPersistenceProperties.CreateTodoListThenLoad | lib/session-persistence.js:16-24 | with a fresh id, `loadTodoList` of that id returns the new empty list |
| SessionPersistenceProperties.CreateTodoListKeepsValid | lib/session-persistence.js:16-24 | with a fresh id, id uniqueness is preserved |
| SessionPersistenceProperties.SetTodoListTitleThenLoad | lib/session-persistence.js:29-35 | after a rename, `loadTodoList` sees the new title and the old todos |
| SessionPersistenceProperties.SetTodoListTitleKeepsValid | lib/session-persistence.js:29-35 | id uniqueness is preserved |
| SessionPersistenceProperties.DeleteTodoListThenLoadAbsent | lib/session-persistence.js:37-46 | with unique ids, `loadTodoList(id)` is absent after `deleteTodoList(id)` |
| SessionPersistenceProperties.DeleteTodoListKeepsValid | lib/session-persistence.js:37-46 | id uniqueness is preserved |
| SessionPersistenceProperties.CreateTodoThenLoadList | lib/session-persistence.js:48-59 | `loadTodoList` afterwards shows the old todos followed by the new undone todo |
| SessionPersistenceProperties.CreateTodoThenLoadTodo | lib/session-persistence.js:48-59 | with a todo id unused in the store, `loadTodo` finds the new todo, undone |
| SessionPersistenceProperties.CreateTodoKeepsValid | lib/session-persistence.js:48-59 | with a todo id unused in the store, id uniqueness is preserved |
| SessionPersistenceProperties.CompleteAllIdempotent | lib/session-persistence.js:65-66 | completing a todo sequence twice is the same as once |
| SessionPersistenceProperties.CompleteAllTodosIdempotent | lib/session-persistence.js:61-69 | `completeAllTodos` twice gives the same result and store as once |
| SessionPersistenceProperties.CompleteAllTodosThenDone | lib/session-persistence.js:61-69 | afterwards the list has no undone todo, and it is done exactly when it is non-empty |
| SessionPersistenceProperties.CompleteAllTodosKeepsValid | lib/session-persistence.js:61-69 | id uniqueness is preserved |
| SessionPersistenceProperties.DeleteTodoThenLoadAbsent | lib/session-persistence.js:71-80 | with unique ids, `loadTodo` of the deleted ids is absent afterwards |
| SessionPersistenceProperties.DeleteTodoKeepsValid | lib/session-persistence.js:71-80 | id uniqueness is preserved |
| SessionPersistenceProperties.ToggleDoneTodoTwice | lib/session-persistence.js:82-88 | toggling the same todo twice restores the original store, whether or not it was found |
| SessionPersistenceProperties.ToggleDoneTodoThenLoad | lib/session-persistence.js:82-104 | `loadTodo` afterwards returns the same todo with `done` flipped |
| SessionPersistenceProperties.ToggleDoneTodoKeepsValid | lib/session-persistence.js:82-88 | id uniqueness is preserved |
| SessionPersistenceProperties.DoneIffNonEmptyAndNoUndone | lib/session-persistence.js:118-124 | `isDoneTodoList` iff the list is non-empty and `hasUndoneTodos` is false; so an empty list is never done, and for a non-empty list the two are complements |
| SessionPersistenceProperties.TodoListGroupsExample | lib/session-persistence.js:126-131 | an undone list "B" stored before a done list "A" goes into the undone group, and "A" into the done group |

## Left out

- The constructor (lib/session-persistence.js:7-10). It aliases the session object's `todoLists` field and loads `./seed-data` when that field is absent. Object identity has no counterpart in a value model, and the seed data is not part of this model. A store is an explicit `Store` value.
- `isUniqueConstraintViolation` (lib/session-persistence.js:12-14): a stub that always returns false and has no behaviour to verify.
- `./sort` (`sortTodos`, `sortTodoLists`) is not part of this model. Only the done/undone partition that feeds it is modelled (`TodoGroups`, `TodoListGroups`). The case-insensitive title ordering inside each group is not modelled.
- `./deep-copy` is not part of this model. With immutable values a copy equals its original, so no returned value can alias the store.
- `./next-id` is not part of this model. Each new id is a `freshId` parameter. Freshness is a precondition only of the lemmas that need it.
- JavaScript's loose typing of ids is not modelled. A number and a string never compare equal under `===`; the model has only `nat` ids.
- The surrounding web and session framework is not modelled.
- `HasUndoneTodos` and `IsDoneTodoList` carry no contract of their own. They apply `AnyUndone` / `AllDone` to a list, and `DoneIffNonEmptyAndNoUndone` states what they mean together.
