/** Properties relating several calls of the store's operations: what a later
    lookup sees after an update, round trips (toggling twice, completing twice),
    and the id-uniqueness invariant every operation preserves. */
module SessionPersistenceProperties {
  import opened Options
  import opened SessionPersistence

  // ---------------------------------------------------------------------------
  // Lookup depends only on ids
  // ---------------------------------------------------------------------------

  /** Two stores whose lists carry the same ids at the same positions. */
  ghost predicate SameListIds(a: Store, b: Store) {
    |a| == |b| && forall i :: 0 <= i < |a| ==> a[i].id == b[i].id
  }

  /** Two todo sequences whose todos carry the same ids at the same positions. */
  ghost predicate SameTodoIds(a: seq<Todo>, b: seq<Todo>) {
    |a| == |b| && forall k :: 0 <= k < |a| ==> a[k].id == b[k].id
  }

  /** An update that keeps every list's id in place does not move any lookup. */
  lemma SameListIdsSameFirst(a: Store, b: Store, id: nat)
    requires SameListIds(a, b)
    ensures HasList(a, id) <==> HasList(b, id)
    ensures forall i :: IsFirstList(a, id, i) <==> IsFirstList(b, id, i)
    ensures ListIndex(a, id) == ListIndex(b, id)
  {
  }

  /** The same for the todos of one list. */
  lemma SameTodoIdsSameFirst(a: seq<Todo>, b: seq<Todo>, id: nat)
    requires SameTodoIds(a, b)
    ensures HasTodo(a, id) <==> HasTodo(b, id)
    ensures forall k :: IsFirstTodo(a, id, k) <==> IsFirstTodo(b, id, k)
    ensures TodoIndex(a, id) == TodoIndex(b, id)
  {
  }

  // ---------------------------------------------------------------------------
  // createTodoList / existsTodoListTitle / setTodoListTitle / deleteTodoList
  // ---------------------------------------------------------------------------

  /** After `createTodoList(t)` a list titled `t` exists. */
  lemma CreateTodoListThenExists(lists: Store, title: string, freshId: nat)
    ensures ExistsTodoListTitle(CreateTodoList(lists, title, freshId).store, title)
  {
  }

  /** With a fresh id, the new list is what `loadTodoList` returns for it. */
  lemma CreateTodoListThenLoad(lists: Store, title: string, freshId: nat)
    requires !HasList(lists, freshId)
    ensures LoadTodoList(CreateTodoList(lists, title, freshId).store, freshId)
            == Some(TodoList(freshId, title, []))
  {
  }

  lemma CreateTodoListKeepsValid(lists: Store, title: string, freshId: nat)
    requires Valid(lists) && !HasList(lists, freshId)
    ensures Valid(CreateTodoList(lists, title, freshId).store)
  {
  }

  /** `loadTodoList` after a successful `setTodoListTitle` sees the new title and the
      old todos. */
  lemma SetTodoListTitleThenLoad(lists: Store, id: nat, title: string)
    requires HasList(lists, id)
    ensures LoadTodoList(SetTodoListTitle(lists, id, title).store, id)
            == Some(TodoList(id, title, LoadTodoList(lists, id).value.todos))
  {
  }

  lemma SetTodoListTitleKeepsValid(lists: Store, id: nat, title: string)
    requires Valid(lists)
    ensures Valid(SetTodoListTitle(lists, id, title).store)
  {
  }

  /** `deleteTodoList(id)` then `loadTodoList(id)` finds nothing, given unique ids. */
  lemma DeleteTodoListThenLoadAbsent(lists: Store, id: nat)
    requires Valid(lists)
    ensures LoadTodoList(DeleteTodoList(lists, id).store, id).None?
  {
  }

  lemma DeleteTodoListKeepsValid(lists: Store, id: nat)
    requires Valid(lists)
    ensures Valid(DeleteTodoList(lists, id).store)
  {
  }

  // ---------------------------------------------------------------------------
  // createTodo / completeAllTodos / deleteTodo / toggleDoneTodo
  // ---------------------------------------------------------------------------

  /** `createTodo` then `loadTodoList` shows the list with the new undone todo at its end. */
  lemma CreateTodoThenLoadList(lists: Store, listId: nat, title: string, freshId: nat)
    requires HasList(lists, listId)
    ensures var l := LoadTodoList(lists, listId).value;
            LoadTodoList(CreateTodo(lists, listId, title, freshId).store, listId)
            == Some(TodoList(listId, l.title, l.todos + [Todo(freshId, title, false)]))
  {
  }

  /** With an id no todo of the store carries, `loadTodo` finds the new todo undone. */
  lemma CreateTodoThenLoadTodo(lists: Store, listId: nat, title: string, freshId: nat)
    requires HasList(lists, listId) && FreshTodoId(lists, freshId)
    ensures LoadTodo(CreateTodo(lists, listId, title, freshId).store, listId, freshId)
            == Some(Todo(freshId, title, false))
  {
    var s := CreateTodo(lists, listId, title, freshId).store;
    SameListIdsSameFirst(lists, s, listId);
    var i := ListIndex(lists, listId).value;
    var old_todos := lists[i].todos;
    assert !HasTodo(old_todos, freshId);
    assert IsFirstTodo(s[i].todos, freshId, |old_todos|);
  }

  lemma CreateTodoKeepsValid(lists: Store, listId: nat, title: string, freshId: nat)
    requires Valid(lists) && FreshTodoId(lists, freshId)
    ensures Valid(CreateTodo(lists, listId, title, freshId).store)
  {
  }

  /** Completing all todos of a list twice leaves the same store as once. */
  lemma CompleteAllTodosIdempotent(lists: Store, listId: nat)
    ensures var once := CompleteAllTodos(lists, listId);
            CompleteAllTodos(once.store, listId) == once
  {
    var once := CompleteAllTodos(lists, listId);
    var twice := CompleteAllTodos(once.store, listId);
    SameListIdsSameFirst(lists, once.store, listId);
    if once.ok {
      var i := ListIndex(lists, listId).value;
      CompleteAllIdempotent(lists[i].todos);
      assert twice.store[i] == once.store[i];
    }
  }

  /** On one list's todos: every todo is already done after the first pass. */
  lemma CompleteAllIdempotent(todos: seq<Todo>)
    ensures CompleteAll(CompleteAll(todos)) == CompleteAll(todos)
  {
  }

  /** After `completeAllTodos` the list has no undone todo, and is done unless empty. */
  lemma CompleteAllTodosThenDone(lists: Store, listId: nat)
    requires HasList(lists, listId)
    ensures var l := LoadTodoList(CompleteAllTodos(lists, listId).store, listId).value;
            !HasUndoneTodos(l) && (IsDoneTodoList(l) <==> |LoadTodoList(lists, listId).value.todos| > 0)
  {
  }

  lemma CompleteAllTodosKeepsValid(lists: Store, listId: nat)
    requires Valid(lists)
    ensures Valid(CompleteAllTodos(lists, listId).store)
  {
  }

  /** `deleteTodo` then `loadTodo` of the same ids finds nothing, given unique todo ids. */
  lemma DeleteTodoThenLoadAbsent(lists: Store, listId: nat, todoId: nat)
    requires Valid(lists)
    ensures LoadTodo(DeleteTodo(lists, listId, todoId).store, listId, todoId).None?
  {
  }

  lemma DeleteTodoKeepsValid(lists: Store, listId: nat, todoId: nat)
    requires Valid(lists)
    ensures Valid(DeleteTodo(lists, listId, todoId).store)
  {
  }

  /** Toggling the same todo twice restores the store exactly. */
  lemma ToggleDoneTodoTwice(lists: Store, listId: nat, todoId: nat)
    ensures var once := ToggleDoneTodo(lists, listId, todoId);
            ToggleDoneTodo(once.store, listId, todoId).store == lists
  {
    var once := ToggleDoneTodo(lists, listId, todoId);
    var twice := ToggleDoneTodo(once.store, listId, todoId);
    SameListIdsSameFirst(lists, once.store, listId);
    if once.ok {
      var i := ListIndex(lists, listId).value;
      SameTodoIdsSameFirst(lists[i].todos, once.store[i].todos, todoId);
      assert twice.store[i] == lists[i];
    }
  }

  /** `loadTodo` after a successful `toggleDoneTodo` sees the flag flipped. */
  lemma ToggleDoneTodoThenLoad(lists: Store, listId: nat, todoId: nat)
    requires TodoFound(lists, listId, todoId)
    ensures var t := LoadTodo(lists, listId, todoId).value;
            LoadTodo(ToggleDoneTodo(lists, listId, todoId).store, listId, todoId)
            == Some(Todo(todoId, t.title, !t.done))
  {
  }

  lemma ToggleDoneTodoKeepsValid(lists: Store, listId: nat, todoId: nat)
    requires Valid(lists)
    ensures Valid(ToggleDoneTodo(lists, listId, todoId).store)
  {
  }

  // ---------------------------------------------------------------------------
  // Derived views
  // ---------------------------------------------------------------------------

  /** `isDoneTodoList` holds exactly for non-empty lists without undone todos;
      in particular it is false for an empty list. */
  lemma DoneIffNonEmptyAndNoUndone(l: TodoList)
    ensures IsDoneTodoList(l) <==> |l.todos| > 0 && !HasUndoneTodos(l)
  {
  }

  /** The example of a store with one undone list "B" before a done list "A":
      the undone group is ["B"], the done group ["A"]. */
  lemma TodoListGroupsExample()
    ensures var b := TodoList(1, "B", [Todo(2, "x", false)]);
            var a := TodoList(3, "A", [Todo(4, "y", true)]);
            TodoListGroups([b, a]) == Groups([b], [a])
  {
  }

}
