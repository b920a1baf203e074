/** End-to-end runs of the view-model over a store, as a client sees them:
    what the contracts of the two classes let a caller conclude. */
module Scenarios {
  import opened Wrappers
  import opened TodoItems
  import opened CoreDataService
  import opened TodoListViewModel

  /** An empty store is seeded from the remote list: the one fetched task is
      shown and stored, with its text as description and a title naming it. */
  method SeedEmptyStore(now: nat) returns (vm: ViewModel)
    ensures |vm.todos| == 1 && vm.filteredTodos == vm.todos
    ensures vm.todos[0].description == "wash car" && !vm.todos[0].isCompleted
    ensures TitleId(vm.todos[0].title) == Some(1)
    ensures vm.store.records == [RecordOf(vm.todos[0])]
    ensures vm.notifications == [TodosUpdated]
  {
    var store := new TaskStore(true, []);
    vm := new ViewModel(store);
    var seeded := FromRemote(RemoteTodo(1, "wash car", false), now);
    vm.LoadTodos(Success([seeded]));
    assert RecordsOf([seeded]) == [RecordOf(seeded)];
  }

  /** A store that already holds two tasks is shown newest first, and the
      remote list is not used, whatever it would have been. */
  method LoadTwoStoredTasks(older: TodoItem, newer: TodoItem, remote: Result<seq<TodoItem>, string>)
    returns (vm: ViewModel)
    requires older.createdAt < newer.createdAt
    ensures vm.todos == [newer, older] && vm.filteredTodos == vm.todos
    ensures vm.store.records == [RecordOf(older), RecordOf(newer)]
    ensures vm.notifications == [TodosUpdated]
  {
    var store := new TaskStore(true, [RecordOf(older), RecordOf(newer)]);
    vm := new ViewModel(store);
    var shown := store.AllTodos();
    assert ItemsOf(store.records) == [older, newer];
    assert shown[0] in multiset(shown) && shown[1] in multiset(shown);
    assert shown == [newer, older];
    vm.LoadTodos(remote);
  }

  /** Adding a task with empty title and description shows the placeholders,
      first; in a store holding ids 3 and 7 the new task gets id 8. */
  method AddUntitledTask(a: TodoItem, b: TodoItem, now: nat) returns (vm: ViewModel)
    requires a.id == 3 && b.id == 7
    ensures vm.NumberOfTodos() == 1
    ensures vm.TodoAt(0).title == DefaultTitle && vm.TodoAt(0).description == DefaultDescription
    ensures vm.TodoAt(0).id == 8
  {
    var store := new TaskStore(true, [RecordOf(a), RecordOf(b)]);
    vm := new ViewModel(store);
    var next := store.NextAvailableId();
    assert next == 8;
    vm.AddNewTodo("", "", now);
  }
}
