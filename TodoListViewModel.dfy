/** The list view-model (`TodoListViewModel`): a working set `todos`, the
    list on screen `filteredTodos`, and the notifications sent to observers.

    Each operation is one sequential step: the store call, then the change to
    the lists, then the notification. The store is the shared
    `CoreDataService` instance; the remote list arrives as a parameter. */
module TodoListViewModel {
  import opened Wrappers
  import opened Sequences
  import opened TodoItems
  import opened CoreDataService

  const DefaultTitle: string := "Новая задача"
  const DefaultDescription: string := "Описание"
  const LoadErrorPrefix: string := "Ошибка загрузки: "
  const UpdateErrorMessage: string := "Ошибка обновления задачи"
  const DeleteErrorMessage: string := "Ошибка удаления задачи"

  /** A call of `onTodosUpdated` or of `onError(message)`. */
  datatype Notification = TodosUpdated | Error(message: string)

  /** The `firstIndex(where: { $0.id == id })` test. */
  function TodoIdIs(id: int): TodoItem -> bool
  {
    (t: TodoItem) => t.id == id
  }

  /** The `removeAll(where: { $0.id == id })` test, negated: what is kept. */
  function TodoIdIsNot(id: int): TodoItem -> bool
  {
    (t: TodoItem) => t.id != id
  }

  /** Position of the first task with that id. */
  function IndexOfTodo(s: seq<TodoItem>, id: int): (r: Option<nat>)
    ensures r.None? <==> forall i :: 0 <= i < |s| ==> s[i].id != id
    ensures r.Some? ==> r.value < |s| && s[r.value].id == id
    ensures r.Some? ==> forall i :: 0 <= i < r.value ==> s[i].id != id
  {
    var k := FirstIndex(s, TodoIdIs(id));
    assert forall i :: 0 <= i < |s| ==> (TodoIdIs(id)(s[i]) <==> s[i].id == id);
    k
  }

  /** No two tasks of the list share an id. */
  predicate DistinctIds(s: seq<TodoItem>)
  {
    forall i, j :: 0 <= i < j < |s| ==> s[i].id != s[j].id
  }

  /** `todo.isCompleted.toggle()` on a copy. */
  function Toggled(t: TodoItem): (r: TodoItem)
    ensures r.isCompleted == !t.isCompleted
    ensures r.(isCompleted := t.isCompleted) == t
  {
    t.(isCompleted := !t.isCompleted)
  }

  /** The two lists together. */
  datatype Lists = Lists(todos: seq<TodoItem>, filtered: seq<TodoItem>)

  /** What `toggleCompletion(at: index)` does to the lists, given whether the
      store accepted the write: the toggled copy of the filtered entry replaces
      that entry and the first working-set entry with the same id. */
  function ToggleStep(s: Lists, index: nat, stored: bool): (r: Lists)
    requires index < |s.filtered|
    ensures |r.todos| == |s.todos| && |r.filtered| == |s.filtered|
  {
    var t := Toggled(s.filtered[index]);
    if !stored then s
    else
      match IndexOfTodo(s.todos, t.id)
      case None => s
      case Some(k) => Lists(s.todos[k := t], s.filtered[index := t])
  }

  /** The working-set entry with the chosen entry's id is that entry. */
  predicate EntryAgrees(s: Lists, index: nat)
    requires index < |s.filtered|
  {
    match IndexOfTodo(s.todos, s.filtered[index].id)
    case None => true
    case Some(k) => s.todos[k] == s.filtered[index]
  }

  /** Toggling changes the chosen entry on screen and the first working-set
      entry with its id, and nothing else. The chosen entry differs only in its
      negated flag; the working-set entry becomes the toggled screen copy, which
      differs from it only in the flag when the two agreed. */
  lemma ToggleChangesOnlyTheFlag(s: Lists, index: nat)
    requires index < |s.filtered|
    ensures var r := ToggleStep(s, index, true);
            var id := s.filtered[index].id;
            (forall j :: 0 <= j < |s.filtered| && j != index ==> r.filtered[j] == s.filtered[j]) &&
            (forall j :: 0 <= j < |s.todos| && s.todos[j].id != id ==> r.todos[j] == s.todos[j]) &&
            (IndexOfTodo(s.todos, id).Some? ==>
               r.filtered[index].isCompleted == !s.filtered[index].isCompleted &&
               r.filtered[index].(isCompleted := s.filtered[index].isCompleted) == s.filtered[index]) &&
            (IndexOfTodo(s.todos, id).None? ==> r == s)
    ensures var r := ToggleStep(s, index, true);
            var id := s.filtered[index].id;
            IndexOfTodo(s.todos, id).Some? ==>
              var k := IndexOfTodo(s.todos, id).value;
              r.todos[k] == Toggled(s.filtered[index]) &&
              (forall j :: 0 <= j < |s.todos| && j != k ==> r.todos[j] == s.todos[j]) &&
              (EntryAgrees(s, index) ==> r.todos[k] == Toggled(s.todos[k]))
  {
  }

  /** Toggling twice (both accepted by the store) restores the list on screen,
      and restores the working set too when it agreed with the screen. */
  lemma ToggleTwiceRestores(s: Lists, index: nat)
    requires index < |s.filtered|
    ensures ToggleStep(ToggleStep(s, index, true), index, true).filtered == s.filtered
    ensures EntryAgrees(s, index) ==> ToggleStep(ToggleStep(s, index, true), index, true) == s
  {
    var id := s.filtered[index].id;
    var once := ToggleStep(s, index, true);
    match IndexOfTodo(s.todos, id)
    case None =>
    case Some(k) =>
      assert once.filtered[index] == Toggled(s.filtered[index]);
      assert once.todos[k].id == id;
      assert forall i :: 0 <= i < k ==> once.todos[i] == s.todos[i];
      assert IndexOfTodo(once.todos, id) == Some(k);
      var twice := ToggleStep(once, index, true);
      assert twice.filtered == s.filtered;
      assert twice.todos == s.todos[k := s.filtered[index]];
  }

  class ViewModel {
    /** The shared store. */
    const store: TaskStore
    /** `todos`: the working set. */
    var todos: seq<TodoItem>
    /** `filteredTodos`: the list the screen shows. */
    var filteredTodos: seq<TodoItem>
    /** Every notification sent so far, oldest first. */
    var notifications: seq<Notification>

    constructor (store: TaskStore)
      ensures this.store == store
      ensures todos == [] && filteredTodos == [] && notifications == []
    {
      this.store := store;
      todos, filteredTodos, notifications := [], [], [];
    }

    /** `loadTodos`: the stored tasks when there are any; otherwise the remote
        list (see LoadFromServer), which is consulted only then. */
    method LoadTodos(remote: Result<seq<TodoItem>, string>)
      modifies this, store
      ensures old(store.AllTodos()) != [] ==>
                todos == old(store.AllTodos()) && filteredTodos == todos && NewestFirst(todos) &&
                store.records == old(store.records) &&
                notifications == old(notifications) + [TodosUpdated]
      ensures old(store.AllTodos()) == [] && remote.Success? ==>
                todos == remote.value && filteredTodos == remote.value &&
                store.records == (if store.ready then RecordsOf(remote.value) else old(store.records)) &&
                notifications == old(notifications) + [TodosUpdated]
      ensures old(store.AllTodos()) == [] && remote.Success? && store.ready && DistinctIds(remote.value) ==>
                UniqueIds(store.records)
      ensures old(store.AllTodos()) == [] && remote.Failure? ==>
                todos == old(todos) && filteredTodos == old(filteredTodos) &&
                store.records == old(store.records) &&
                notifications == old(notifications) + [Error(LoadErrorPrefix + remote.error)]
    {
      var localTodos := store.AllTodos();
      if localTodos != [] {
        todos := localTodos;
        filteredTodos := localTodos;
        notifications := notifications + [TodosUpdated];
      } else {
        LoadFromServer(remote);
      }
    }

    /** `loadFromServer`: on success, stores every fetched task, one after the
        other, and shows exactly the fetched list; on failure, reports the
        error and leaves both lists as they were. */
    method LoadFromServer(remote: Result<seq<TodoItem>, string>)
      modifies this, store
      ensures remote.Success? ==>
                todos == remote.value && filteredTodos == remote.value &&
                store.records == (if store.ready then old(store.records) + RecordsOf(remote.value)
                                  else old(store.records)) &&
                notifications == old(notifications) + [TodosUpdated]
      ensures remote.Failure? ==>
                todos == old(todos) && filteredTodos == old(filteredTodos) &&
                store.records == old(store.records) &&
                notifications == old(notifications) + [Error(LoadErrorPrefix + remote.error)]
    {
      match remote
      case Success(serverTodos) =>
        for i := 0 to |serverTodos|
          modifies store
          invariant store.records == if store.ready then old(store.records) + RecordsOf(serverTodos[..i])
                                     else old(store.records)
        {
          store.AddTodo(serverTodos[i]);
          assert RecordsOf(serverTodos[..i + 1]) == RecordsOf(serverTodos[..i]) + [RecordOf(serverTodos[i])];
        }
        assert serverTodos[..|serverTodos|] == serverTodos;
        todos := serverTodos;
        filteredTodos := serverTodos;
        notifications := notifications + [TodosUpdated];
      case Failure(error) =>
        notifications := notifications + [Error(LoadErrorPrefix + error)];
    }

    /** `addNewTodo`: a task with the store's next id, the placeholder text for
        an empty title or description, not completed, created `now`; stored,
        then put first in the working set, which the screen then mirrors. */
    method AddNewTodo(title: string, description: string, now: nat)
      modifies this, store
      ensures todos == [New(old(store.NextAvailableId()),
                            if title == [] then DefaultTitle else title,
                            if description == [] then DefaultDescription else description,
                            now)] + old(todos)
      ensures filteredTodos == todos
      ensures todos[0].title != [] && todos[0].description != [] && !todos[0].isCompleted
      ensures NumberOfTodos() == |old(todos)| + 1 && TodoAt(0) == todos[0]
      ensures store.records == if store.ready then old(store.records) + [RecordOf(todos[0])]
                               else old(store.records)
      ensures UniqueIds(old(store.records)) ==> UniqueIds(store.records)
      ensures NewestFirst(old(todos)) && (forall i :: 0 <= i < |old(todos)| ==> old(todos)[i].createdAt <= now) ==>
                NewestFirst(todos)
      ensures notifications == old(notifications) + [TodosUpdated]
    {
      var nextId := store.NextAvailableId();
      var newTodo := New(nextId,
                         if title == [] then DefaultTitle else title,
                         if description == [] then DefaultDescription else description,
                         now);
      store.AddTodo(newTodo);
      todos := [newTodo] + todos;
      filteredTodos := todos;
      notifications := notifications + [TodosUpdated];
    }

    /** `updateTodo`: when the store accepts the write, the first working-set
        entry with the task's id becomes the task and the screen mirrors the
        working set; when it does not, an error is reported and nothing
        changes. */
    method UpdateTodo(item: TodoItem)
      modifies this, store
      ensures store.records == if store.ready then Overwritten(old(store.records), item)
                               else old(store.records)
      ensures !(store.ready && HasId(old(store.records), item.id)) ==>
                todos == old(todos) && filteredTodos == old(filteredTodos) &&
                notifications == old(notifications) + [Error(UpdateErrorMessage)]
      ensures store.ready && HasId(old(store.records), item.id) ==>
                match IndexOfTodo(old(todos), item.id)
                case None =>
                  todos == old(todos) && filteredTodos == old(filteredTodos) &&
                  notifications == old(notifications)
                case Some(k) =>
                  todos == old(todos)[k := item] && filteredTodos == todos &&
                  notifications == old(notifications) + [TodosUpdated]
    {
      var success := store.UpdateTodo(item);
      if success {
        match IndexOfTodo(todos, item.id)
        case None =>
        case Some(k) =>
          todos := todos[k := item];
          filteredTodos := todos;
          notifications := notifications + [TodosUpdated];
      } else {
        notifications := notifications + [Error(UpdateErrorMessage)];
      }
    }

    /** `deleteTodo(at:)`: deletes the task shown at `index`; when the store
        had it, every working-set entry with its id and exactly the entry at
        `index` leave the lists; otherwise an error is reported. */
    method DeleteTodo(index: nat)
      requires index < |filteredTodos|
      modifies this, store
      ensures var id := old(filteredTodos[index]).id;
              store.records == if store.ready then Removed(old(store.records), id) else old(store.records)
      ensures var id := old(filteredTodos[index]).id;
              store.ready && HasId(old(store.records), id) ==>
                todos == Filter(old(todos), TodoIdIsNot(id)) &&
                (forall i :: 0 <= i < |todos| ==> todos[i].id != id) &&
                filteredTodos == RemoveAt(old(filteredTodos), index) &&
                notifications == old(notifications) + [TodosUpdated]
      ensures var id := old(filteredTodos[index]).id;
              !(store.ready && HasId(old(store.records), id)) ==>
                todos == old(todos) && filteredTodos == old(filteredTodos) &&
                notifications == old(notifications) + [Error(DeleteErrorMessage)]
    {
      var todoToDelete := filteredTodos[index];
      var success := store.DeleteTodo(todoToDelete.id);
      if success {
        todos := Filter(todos, TodoIdIsNot(todoToDelete.id));
        filteredTodos := RemoveAt(filteredTodos, index);
        notifications := notifications + [TodosUpdated];
      } else {
        notifications := notifications + [Error(DeleteErrorMessage)];
      }
    }

    /** `toggleCompletion(at:)`: writes the toggled copy of the task shown at
        `index`; the lists change as ToggleStep says. A rejected write is
        dropped without a notification. */
    method ToggleCompletion(index: nat)
      requires index < |filteredTodos|
      modifies this, store
      ensures var t := Toggled(old(filteredTodos[index]));
              store.records == if store.ready then Overwritten(old(store.records), t) else old(store.records)
      ensures var stored := store.ready && HasId(old(store.records), old(filteredTodos[index]).id);
              Lists(todos, filteredTodos) == ToggleStep(old(Lists(todos, filteredTodos)), index, stored)
      ensures var id := old(filteredTodos[index]).id;
              notifications == old(notifications) +
                (if store.ready && HasId(old(store.records), id) && IndexOfTodo(old(todos), id).Some?
                 then [TodosUpdated] else [])
    {
      var todo := Toggled(filteredTodos[index]);
      var success := store.UpdateTodo(todo);
      if success {
        match IndexOfTodo(todos, todo.id)
        case None =>
        case Some(mainIndex) =>
          todos := todos[mainIndex := todo];
          filteredTodos := filteredTodos[index := todo];
          notifications := notifications + [TodosUpdated];
      }
    }

    /** `searchTodos(with:)`: the empty query shows the whole working set;
        any other query shows the store's search result. Searching never
        changes the working set or the store. */
    method SearchTodos(query: string)
      modifies this
      ensures todos == old(todos)
      ensures filteredTodos == if query == [] then todos else store.SearchTodos(query)
      ensures query != [] ==> forall i :: 0 <= i < |filteredTodos| ==> MatchesQuery(filteredTodos[i], query)
      ensures notifications == old(notifications) + [TodosUpdated]
    {
      var searchResults := store.SearchTodos(query);
      if query == [] {
        filteredTodos := todos;
      } else {
        filteredTodos := searchResults;
      }
      notifications := notifications + [TodosUpdated];
    }

    /** `numberOfTodos`: how many rows the screen shows. */
    function NumberOfTodos(): (n: nat)
      reads this
      ensures n == |filteredTodos|
    {
      |filteredTodos|
    }

    /** `todo(at:)`: the task shown at `index`. */
    function TodoAt(index: nat): (t: TodoItem)
      reads this
      requires index < |filteredTodos|
      ensures t == filteredTodos[index] && t in filteredTodos
    {
      filteredTodos[index]
    }
  }
}
