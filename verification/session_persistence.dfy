/** The session-scoped todo store: an ordered sequence of todo-lists, each holding
    an ordered sequence of todos. Every operation is a pure function; a mutating
    operation returns an `Outcome` carrying the success flag the store reports and
    the store as it is afterwards. Lookups scan linearly and stop at the first
    element with the requested id, exactly as `find` / `findIndex` do. */
module SessionPersistence {
  import opened Options
  import Seqs

  datatype Todo = Todo(id: nat, title: string, done: bool)

  datatype TodoList = TodoList(id: nat, title: string, todos: seq<Todo>)

  /** The collection the store owns, in insertion order. */
  type Store = seq<TodoList>

  /** What a mutating operation reports (`ok`) and the store it leaves behind. */
  datatype Outcome = Outcome(ok: bool, store: Store)

  // ---------------------------------------------------------------------------
  // Lookup by id
  // ---------------------------------------------------------------------------

  /** Some list in the store carries id `id`. */
  ghost predicate HasList(lists: Store, id: nat) {
    exists i :: 0 <= i < |lists| && lists[i].id == id
  }

  /** `i` is the position of the first list carrying id `id`. */
  ghost predicate IsFirstList(lists: Store, id: nat, i: int) {
    && 0 <= i < |lists|
    && lists[i].id == id
    && forall j :: 0 <= j < i ==> lists[j].id != id
  }

  /** Some todo in `todos` carries id `id`. */
  ghost predicate HasTodo(todos: seq<Todo>, id: nat) {
    exists k :: 0 <= k < |todos| && todos[k].id == id
  }

  /** `k` is the position of the first todo carrying id `id`. */
  ghost predicate IsFirstTodo(todos: seq<Todo>, id: nat, k: int) {
    && 0 <= k < |todos|
    && todos[k].id == id
    && forall j :: 0 <= j < k ==> todos[j].id != id
  }

  /** The first list with id `listId` exists and holds a todo with id `todoId`. */
  ghost predicate TodoFound(lists: Store, listId: nat, todoId: nat) {
    exists i :: IsFirstList(lists, listId, i) && HasTodo(lists[i].todos, todoId)
  }

  /** `findIndex` over the lists by id: the first match, or `None`. */
  function ListIndex(lists: Store, id: nat): (r: Option<nat>)
    ensures r.None? <==> !HasList(lists, id)
    ensures r.Some? ==> IsFirstList(lists, id, r.value)
    decreases |lists|
  {
    if |lists| == 0 then None
    else if lists[0].id == id then Some(0)
    else
      match ListIndex(lists[1..], id)
      case None => None
      case Some(i) => Some(i + 1)
  }

  /** `findIndex` over a list's todos by id: the first match, or `None`. */
  function TodoIndex(todos: seq<Todo>, id: nat): (r: Option<nat>)
    ensures r.None? <==> !HasTodo(todos, id)
    ensures r.Some? ==> IsFirstTodo(todos, id, r.value)
    decreases |todos|
  {
    if |todos| == 0 then None
    else if todos[0].id == id then Some(0)
    else
      match TodoIndex(todos[1..], id)
      case None => None
      case Some(k) => Some(k + 1)
  }

  /** `loadTodoList`: the first list with the id (copying is the identity on values). */
  function LoadTodoList(lists: Store, id: nat): (r: Option<TodoList>)
    ensures r.Some? <==> HasList(lists, id)
    ensures forall i | IsFirstList(lists, id, i) :: r == Some(lists[i])
  {
    match ListIndex(lists, id)
    case None => None
    case Some(i) => Some(lists[i])
  }

  /** `loadTodo`: the first todo with `todoId` inside the first list with `listId`. */
  function LoadTodo(lists: Store, listId: nat, todoId: nat): (r: Option<Todo>)
    ensures r.Some? <==> TodoFound(lists, listId, todoId)
    ensures forall i, k | IsFirstList(lists, listId, i) && IsFirstTodo(lists[i].todos, todoId, k) ::
              r == Some(lists[i].todos[k])
  {
    match ListIndex(lists, listId)
    case None => None
    case Some(i) =>
      match TodoIndex(lists[i].todos, todoId)
      case None => None
      case Some(k) => Some(lists[i].todos[k])
  }

  // ---------------------------------------------------------------------------
  // Operations on lists
  // ---------------------------------------------------------------------------

  /** `createTodoList`: always succeeds; appends one empty list with the new id. */
  function CreateTodoList(lists: Store, title: string, freshId: nat): (r: Outcome)
    ensures r.ok
    ensures |r.store| == |lists| + 1
    ensures r.store[..|lists|] == lists
    ensures r.store[|lists|] == TodoList(freshId, title, [])
  {
    Outcome(true, lists + [TodoList(freshId, title, [])])
  }

  /** `existsTodoListTitle`: exact (case-sensitive) title match on some list, as `some` scans. */
  function ExistsTodoListTitle(lists: Store, title: string): (r: bool)
    ensures r <==> exists i :: 0 <= i < |lists| && lists[i].title == title
    decreases |lists|
  {
    |lists| > 0 && (lists[0].title == title || ExistsTodoListTitle(lists[1..], title))
  }

  /** `setTodoListTitle`: retitles the first list with the id; `false` and no change if absent. */
  function SetTodoListTitle(lists: Store, id: nat, title: string): (r: Outcome)
    ensures r.ok <==> HasList(lists, id)
    ensures |r.store| == |lists|
    ensures forall i | IsFirstList(lists, id, i) ::
              r.store[i] == TodoList(lists[i].id, title, lists[i].todos)
    ensures forall j | 0 <= j < |lists| && !IsFirstList(lists, id, j) :: r.store[j] == lists[j]
  {
    match ListIndex(lists, id)
    case None => Outcome(false, lists)
    case Some(i) => Outcome(true, lists[i := lists[i].(title := title)])
  }

  /** `deleteTodoList`: removes only the first list with the id; `false` and no change if absent. */
  function DeleteTodoList(lists: Store, id: nat): (r: Outcome)
    ensures r.ok <==> HasList(lists, id)
    ensures !r.ok ==> r.store == lists
    ensures forall i | IsFirstList(lists, id, i) :: r.store == lists[..i] + lists[i + 1..]
  {
    match ListIndex(lists, id)
    case None => Outcome(false, lists)
    case Some(i) => Outcome(true, Seqs.RemoveAt(lists, i))
  }

  // ---------------------------------------------------------------------------
  // Operations on the todos of one list
  // ---------------------------------------------------------------------------

  /** `createTodo`: appends an undone todo with the new id to the first list with `listId`. */
  function CreateTodo(lists: Store, listId: nat, title: string, freshId: nat): (r: Outcome)
    ensures r.ok <==> HasList(lists, listId)
    ensures |r.store| == |lists|
    ensures forall i | IsFirstList(lists, listId, i) ::
              r.store[i] == TodoList(lists[i].id, lists[i].title,
                                     lists[i].todos + [Todo(freshId, title, false)])
    ensures forall j | 0 <= j < |lists| && !IsFirstList(lists, listId, j) :: r.store[j] == lists[j]
  {
    match ListIndex(lists, listId)
    case None => Outcome(false, lists)
    case Some(i) =>
      var l := lists[i];
      Outcome(true, lists[i := l.(todos := l.todos + [Todo(freshId, title, false)])])
  }

  /** The todos after `filter(todo => !todo.done).forEach(todo => todo.done = true)`:
      every todo is done, and nothing else about any todo changes. */
  function CompleteAll(todos: seq<Todo>): (r: seq<Todo>)
    ensures |r| == |todos|
    ensures forall k :: 0 <= k < |r| ==> r[k] == Todo(todos[k].id, todos[k].title, true)
    decreases |todos|
  {
    if |todos| == 0 then []
    else
      var t := todos[0];
      [if t.done then t else t.(done := true)] + CompleteAll(todos[1..])
  }

  /** `completeAllTodos`: marks every todo of the first list with `listId` as done. */
  function CompleteAllTodos(lists: Store, listId: nat): (r: Outcome)
    ensures r.ok <==> HasList(lists, listId)
    ensures |r.store| == |lists|
    ensures forall i | IsFirstList(lists, listId, i) ::
              && r.store[i].id == lists[i].id
              && r.store[i].title == lists[i].title
              && |r.store[i].todos| == |lists[i].todos|
              && forall k :: 0 <= k < |lists[i].todos| ==>
                   r.store[i].todos[k] == Todo(lists[i].todos[k].id, lists[i].todos[k].title, true)
    ensures forall j | 0 <= j < |lists| && !IsFirstList(lists, listId, j) :: r.store[j] == lists[j]
  {
    match ListIndex(lists, listId)
    case None => Outcome(false, lists)
    case Some(i) => Outcome(true, lists[i := lists[i].(todos := CompleteAll(lists[i].todos))])
  }

  /** `deleteTodo`: removes only the first todo with `todoId` from the first list with
      `listId`; `false` and no change if either is missing. */
  function DeleteTodo(lists: Store, listId: nat, todoId: nat): (r: Outcome)
    ensures r.ok <==> TodoFound(lists, listId, todoId)
    ensures !r.ok ==> r.store == lists
    ensures |r.store| == |lists|
    ensures forall i, k | IsFirstList(lists, listId, i) && IsFirstTodo(lists[i].todos, todoId, k) ::
              r.store[i] == TodoList(lists[i].id, lists[i].title,
                                     lists[i].todos[..k] + lists[i].todos[k + 1..])
    ensures forall j | 0 <= j < |lists| && !IsFirstList(lists, listId, j) :: r.store[j] == lists[j]
  {
    match ListIndex(lists, listId)
    case None => Outcome(false, lists)
    case Some(i) =>
      match TodoIndex(lists[i].todos, todoId)
      case None => Outcome(false, lists)
      case Some(k) => Outcome(true, lists[i := lists[i].(todos := Seqs.RemoveAt(lists[i].todos, k))])
  }

  /** `toggleDoneTodo`: flips `done` of the todo `loadTodo` would find; `false` and no
      change if the list or the todo is missing. */
  function ToggleDoneTodo(lists: Store, listId: nat, todoId: nat): (r: Outcome)
    ensures r.ok <==> TodoFound(lists, listId, todoId)
    ensures !r.ok ==> r.store == lists
    ensures |r.store| == |lists|
    ensures forall i, k | IsFirstList(lists, listId, i) && IsFirstTodo(lists[i].todos, todoId, k) ::
              && r.store[i].id == lists[i].id
              && r.store[i].title == lists[i].title
              && |r.store[i].todos| == |lists[i].todos|
              && r.store[i].todos[k] == Todo(todoId, lists[i].todos[k].title, !lists[i].todos[k].done)
              && forall m | 0 <= m < |lists[i].todos| && m != k :: r.store[i].todos[m] == lists[i].todos[m]
    ensures forall j | 0 <= j < |lists| && !IsFirstList(lists, listId, j) :: r.store[j] == lists[j]
  {
    match ListIndex(lists, listId)
    case None => Outcome(false, lists)
    case Some(i) =>
      var todos := lists[i].todos;
      match TodoIndex(todos, todoId)
      case None => Outcome(false, lists)
      case Some(k) =>
        Outcome(true, lists[i := lists[i].(todos := todos[k := todos[k].(done := !todos[k].done)])])
  }

  // ---------------------------------------------------------------------------
  // Derived views
  // ---------------------------------------------------------------------------

  /** JavaScript's `todos.some(todo => !todo.done)`. */
  function AnyUndone(todos: seq<Todo>): (r: bool)
    ensures r <==> exists k :: 0 <= k < |todos| && !todos[k].done
    decreases |todos|
  {
    |todos| > 0 && (!todos[0].done || AnyUndone(todos[1..]))
  }

  /** JavaScript's `todos.every(todo => todo.done)`: vacuously true when empty. */
  function AllDone(todos: seq<Todo>): (r: bool)
    ensures r <==> forall k :: 0 <= k < |todos| ==> todos[k].done
    decreases |todos|
  {
    |todos| == 0 || (todos[0].done && AllDone(todos[1..]))
  }

  /** `hasUndoneTodos`. */
  function HasUndoneTodos(l: TodoList): bool {
    AnyUndone(l.todos)
  }

  /** `isDoneTodoList`: a list with no todos is never done. */
  function IsDoneTodoList(l: TodoList): bool {
    |l.todos| > 0 && AllDone(l.todos)
  }

  /** The two groups handed to the sorter, each in its original relative order. */
  datatype Groups<T> = Groups(undone: seq<T>, done: seq<T>)

  /** The partition step of `sortedTodos`: the undone todos, then the done ones. */
  function TodoGroups(l: TodoList): (g: Groups<Todo>)
    ensures forall k :: 0 <= k < |g.undone| ==> !g.undone[k].done
    ensures forall k :: 0 <= k < |g.done| ==> g.done[k].done
    ensures multiset(g.undone) + multiset(g.done) == multiset(l.todos)
    ensures Seqs.IsSubsequence(g.undone, l.todos) && Seqs.IsSubsequence(g.done, l.todos)
  {
    var isUndone := (t: Todo) => !t.done;
    var isDone := (t: Todo) => t.done;
    Seqs.FilterPartition(l.todos, isUndone, isDone);
    Seqs.FilterIsSubsequence(l.todos, isUndone);
    Seqs.FilterIsSubsequence(l.todos, isDone);
    Groups(Seqs.Filter(l.todos, isUndone), Seqs.Filter(l.todos, isDone))
  }

  /** The partition step of `sortedTodoLists`: the lists not done, then the done ones. */
  function TodoListGroups(lists: Store): (g: Groups<TodoList>)
    ensures forall i :: 0 <= i < |g.undone| ==> !IsDoneTodoList(g.undone[i])
    ensures forall i :: 0 <= i < |g.done| ==> IsDoneTodoList(g.done[i])
    ensures multiset(g.undone) + multiset(g.done) == multiset(lists)
    ensures Seqs.IsSubsequence(g.undone, lists) && Seqs.IsSubsequence(g.done, lists)
  {
    var isUndone := (l: TodoList) => !IsDoneTodoList(l);
    var isDone := (l: TodoList) => IsDoneTodoList(l);
    Seqs.FilterPartition(lists, isUndone, isDone);
    Seqs.FilterIsSubsequence(lists, isUndone);
    Seqs.FilterIsSubsequence(lists, isDone);
    Groups(Seqs.Filter(lists, isUndone), Seqs.Filter(lists, isDone))
  }

  // ---------------------------------------------------------------------------
  // The store invariant
  // ---------------------------------------------------------------------------

  /** Todo ids are unique within one list. */
  ghost predicate UniqueTodoIds(todos: seq<Todo>) {
    forall a, b :: 0 <= a < b < |todos| ==> todos[a].id != todos[b].id
  }

  /** List ids are unique across the store, and todo ids within each list. */
  ghost predicate Valid(lists: Store) {
    && (forall a, b :: 0 <= a < b < |lists| ==> lists[a].id != lists[b].id)
    && (forall i :: 0 <= i < |lists| ==> UniqueTodoIds(lists[i].todos))
  }

  /** No todo anywhere in the store carries `id` (what `nextId` guarantees). */
  ghost predicate FreshTodoId(lists: Store, id: nat) {
    forall i :: 0 <= i < |lists| ==> !HasTodo(lists[i].todos, id)
  }

}
