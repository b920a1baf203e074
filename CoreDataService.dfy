/** The local task store (`CoreDataService`), as an abstract table of `Entity`
    rows held by a managed object context.

    The table is the field `records`, in the context's own (unspecified) order.
    Writes (`AddTodo`, `UpdateTodo`, `DeleteTodo`, `DeleteAllTodos`) are methods
    that reassign it; queries are functions of it. Every operation first asks
    whether the store is ready (`isContextReady`): when it is not, reads give
    `[]`, 0, false or 1 and writes leave the table alone. */
module CoreDataService {
  import opened Wrappers
  import opened Sequences
  import opened TodoItems
  import opened TextMatch

  /** The single owner every row is written with. */
  const OwnerUserId: int := 1

  /** One `Entity` row. */
  datatype Record = Record(
    id: int,
    title: string,
    todoDescription: string,
    createdAt: nat,
    isCompleted: bool,
    userId: int
  )

  /** The task a row is read back as (every fetch maps rows this way). */
  function ItemOf(r: Record): TodoItem
  {
    TodoItem(r.id, r.title, r.todoDescription, r.createdAt, r.isCompleted)
  }

  /** The row `addTodo` writes for a task. */
  function RecordOf(item: TodoItem): (r: Record)
    ensures ItemOf(r) == item && r.userId == OwnerUserId
  {
    Record(item.id, item.title, item.description, item.createdAt, item.isCompleted, OwnerUserId)
  }

  function ItemsOf(s: seq<Record>): (r: seq<TodoItem>)
    ensures |r| == |s| && forall i :: 0 <= i < |s| ==> r[i] == ItemOf(s[i])
  {
    seq(|s|, i requires 0 <= i < |s| => ItemOf(s[i]))
  }

  function RecordsOf(items: seq<TodoItem>): (r: seq<Record>)
    ensures |r| == |items| && forall i :: 0 <= i < |items| ==> r[i] == RecordOf(items[i])
  {
    seq(|items|, i requires 0 <= i < |items| => RecordOf(items[i]))
  }

  // ---------------------------------------------------------------------
  // Ids
  // ---------------------------------------------------------------------

  predicate HasId(s: seq<Record>, id: int)
  {
    exists i :: 0 <= i < |s| && s[i].id == id
  }

  /** No two rows share an id. The store does not check this on insert; the
      methods below say when they keep it. */
  predicate UniqueIds(s: seq<Record>)
  {
    forall i, j :: 0 <= i < j < |s| ==> s[i].id != s[j].id
  }

  /** The fetch predicate `id == %d`. */
  function IdIs(id: int): Record -> bool
  {
    (r: Record) => r.id == id
  }

  /** The row that a fetch with predicate `id == %d` returns `first`. */
  function IndexOfId(s: seq<Record>, id: int): (r: Option<nat>)
    ensures r.Some? <==> HasId(s, id)
    ensures r.Some? ==> r.value < |s| && s[r.value].id == id
    ensures r.Some? ==> forall i :: 0 <= i < r.value ==> s[i].id != id
  {
    var k := FirstIndex(s, IdIs(id));
    assert forall i :: 0 <= i < |s| ==> (IdIs(id)(s[i]) <==> s[i].id == id);
    k
  }

  /** The number of rows with that id (a count request with predicate `id == %d`). */
  function CountWithId(s: seq<Record>, id: int): (n: nat)
    ensures n <= |s|
    ensures n > 0 <==> HasId(s, id)
    ensures UniqueIds(s) ==> n <= 1
  {
    if s == [] then 0
    else
      var rest := CountWithId(s[1..], id);
      assert forall i :: 1 <= i < |s| ==> s[i] == s[1..][i - 1];
      assert HasId(s[1..], id) ==> HasId(s, id);
      assert UniqueIds(s) ==> UniqueIds(s[1..]);
      assert UniqueIds(s) && s[0].id == id ==> !HasId(s[1..], id);
      (if s[0].id == id then 1 else 0) + rest
  }

  /** The largest id in a non-empty table (the first row of a fetch sorted by
      id, descending, with a limit of one). */
  function MaxId(s: seq<Record>): (m: int)
    requires s != []
    ensures HasId(s, m)
    ensures forall i :: 0 <= i < |s| ==> s[i].id <= m
  {
    if |s| == 1 then s[0].id
    else
      var rest := MaxId(s[1..]);
      assert forall i :: 1 <= i < |s| ==> s[i] == s[1..][i - 1];
      if s[0].id >= rest then s[0].id else rest
  }

  /** The table after `updateTodo(item)`: the first row with the task's id
      takes the task's title, description and completion flag. */
  function Overwritten(s: seq<Record>, item: TodoItem): (r: seq<Record>)
    ensures |r| == |s|
    ensures forall i :: 0 <= i < |s| ==>
              r[i].id == s[i].id && r[i].createdAt == s[i].createdAt && r[i].userId == s[i].userId
    ensures !HasId(s, item.id) ==> r == s
    ensures forall i :: 0 <= i < |s| && r[i] != s[i] ==> IndexOfId(s, item.id) == Some(i)
    ensures HasId(s, item.id) ==>
              var k := IndexOfId(s, item.id).value;
              r[k].title == item.title && r[k].todoDescription == item.description &&
              r[k].isCompleted == item.isCompleted
    ensures UniqueIds(s) ==> UniqueIds(r)
  {
    match IndexOfId(s, item.id)
    case None => s
    case Some(k) =>
      s[k := s[k].(title := item.title, todoDescription := item.description, isCompleted := item.isCompleted)]
  }

  /** The table after `deleteTodo(by: id)`: the first row with that id is gone. */
  function Removed(s: seq<Record>, id: int): (r: seq<Record>)
    ensures !HasId(s, id) ==> r == s
    ensures HasId(s, id) ==> |r| == |s| - 1 && multiset(r) == multiset(s) - multiset{s[IndexOfId(s, id).value]}
    ensures UniqueIds(s) ==> UniqueIds(r) && !HasId(r, id)
  {
    match IndexOfId(s, id)
    case None => s
    case Some(k) =>
      var r := RemoveAt(s, k);
      assert UniqueIds(s) ==> forall i :: 0 <= i < |r| ==> r[i].id != id by {
        if UniqueIds(s) {
          forall i | 0 <= i < |r| ensures r[i].id != id {
            if i >= k { assert r[i] == s[i + 1]; }
          }
        }
      }
      r
  }

  // ---------------------------------------------------------------------
  // Order: sort descriptor on createdAt, descending
  // ---------------------------------------------------------------------

  predicate NewestFirst(s: seq<TodoItem>)
  {
    forall i, j :: 0 <= i < j < |s| ==> s[i].createdAt >= s[j].createdAt
  }

  function InsertNewestFirst(x: TodoItem, s: seq<TodoItem>): (r: seq<TodoItem>)
    requires NewestFirst(s)
    ensures NewestFirst(r)
    ensures multiset(r) == multiset{x} + multiset(s)
    ensures |r| == |s| + 1
    ensures forall i :: 0 <= i < |r| ==> r[i] == x || r[i] in s
  {
    if s == [] || x.createdAt >= s[0].createdAt then [x] + s
    else
      var rest := InsertNewestFirst(x, s[1..]);
      assert s == [s[0]] + s[1..];
      [s[0]] + rest
  }

  /** The rows' tasks, newest first. Ties keep no particular order. */
  function SortNewestFirst(s: seq<TodoItem>): (r: seq<TodoItem>)
    ensures NewestFirst(r)
    ensures multiset(r) == multiset(s)
    ensures |r| == |s|
  {
    if s == [] then []
    else
      assert s == [s[0]] + s[1..];
      InsertNewestFirst(s[0], SortNewestFirst(s[1..]))
  }

  /** Sorting neither loses nor invents a task. */
  lemma SortKeepsElements(s: seq<TodoItem>)
    ensures forall i :: 0 <= i < |SortNewestFirst(s)| ==> SortNewestFirst(s)[i] in s
    ensures forall i :: 0 <= i < |s| ==> s[i] in SortNewestFirst(s)
  {
    var r := SortNewestFirst(s);
    forall i | 0 <= i < |r| ensures r[i] in s {
      assert r[i] in multiset(r);
    }
    forall i | 0 <= i < |s| ensures s[i] in r {
      assert s[i] in multiset(s);
    }
  }

  // ---------------------------------------------------------------------
  // Search: `title CONTAINS[cd] q OR todoDescription CONTAINS[cd] q`
  // ---------------------------------------------------------------------

  predicate MatchesQuery(item: TodoItem, query: string)
  {
    MatchesFolded(item.title, query) || MatchesFolded(item.description, query)
  }

  function Matching(query: string): TodoItem -> bool
  {
    (t: TodoItem) => MatchesQuery(t, query)
  }

  /** The fetch behind `searchTodos`: no predicate for the empty query, the
      `[cd]` predicate otherwise, then newest first. */
  function Search(items: seq<TodoItem>, query: string): seq<TodoItem>
  {
    if query == [] then SortNewestFirst(items)
    else SortNewestFirst(Filter(items, Matching(query)))
  }

  /** The empty query matches every task, so "no predicate" and "the
      predicate" agree on it. */
  lemma EmptyQueryMatchesEveryTask(item: TodoItem)
    ensures MatchesQuery(item, "")
  {
    EmptyQueryMatches(item.title);
  }

  /** Leaving out the predicate for the empty query is the same as applying
      it: the empty query filters nothing out. */
  lemma EmptyQueryNeedsNoPredicate(items: seq<TodoItem>)
    ensures Search(items, "") == SortNewestFirst(Filter(items, Matching("")))
  {
    forall i | 0 <= i < |items| ensures Matching("")(items[i]) {
      EmptyQueryMatchesEveryTask(items[i]);
    }
    FilterKeepsAll(items, Matching(""));
  }

  /** The search finds exactly the matching tasks, newest first. */
  lemma SearchFindsExactlyMatches(items: seq<TodoItem>, query: string)
    ensures NewestFirst(Search(items, query))
    ensures forall i :: 0 <= i < |Search(items, query)| ==>
              MatchesQuery(Search(items, query)[i], query) && Search(items, query)[i] in items
    ensures forall i :: 0 <= i < |items| && MatchesQuery(items[i], query) ==> items[i] in Search(items, query)
  {
    var r := Search(items, query);
    if query == [] {
      SortKeepsElements(items);
      forall i | 0 <= i < |r| ensures MatchesQuery(r[i], query) {
        EmptyQueryMatchesEveryTask(r[i]);
      }
    } else {
      var found := Filter(items, Matching(query));
      SortKeepsElements(found);
      forall i | 0 <= i < |r| ensures MatchesQuery(r[i], query) && r[i] in items {
        assert r[i] in found;
        var j :| 0 <= j < |found| && found[j] == r[i];
        assert Matching(query)(found[j]);
      }
      forall i | 0 <= i < |items| && MatchesQuery(items[i], query) ensures items[i] in r {
        assert Matching(query)(items[i]);
        assert items[i] in found;
        var j :| 0 <= j < |found| && found[j] == items[i];
      }
    }
  }

  /** The manager of the table. */
  class TaskStore {
    /** Whether the persistent store coordinator exists. It is fixed when the
        container is built and no operation changes it. */
    const ready: bool
    /** The rows of the entity `Entity`. */
    var records: seq<Record>

    /** A store over whatever the persistent file already holds. */
    constructor (ready: bool, records: seq<Record>)
      ensures this.ready == ready && this.records == records
    {
      this.ready := ready;
      this.records := records;
    }

    /** `addTodo`: inserts one row carrying the task's fields and the owner 1. */
    method AddTodo(item: TodoItem)
      modifies this
      ensures records == if ready then old(records) + [RecordOf(item)] else old(records)
      ensures TodosCount() == if ready then old(TodosCount()) + 1 else 0
      ensures ready ==> TodoExists(item.id)
      ensures UniqueIds(old(records)) && !HasId(old(records), item.id) ==> UniqueIds(records)
    {
      if ready {
        records := records + [RecordOf(item)];
        assert records[|records| - 1].id == item.id;
      }
    }

    /** `getAllTodos`: every row's task, newest `createdAt` first. */
    function AllTodos(): (r: seq<TodoItem>)
      reads this
      ensures !ready ==> r == []
      ensures ready ==> NewestFirst(r) && multiset(r) == multiset(ItemsOf(records))
      ensures ready ==> |r| == |records|
    {
      if ready then SortNewestFirst(ItemsOf(records)) else []
    }

    /** `updateTodo`: overwrites the title, description and completion flag of
        the first row with the task's id, and says whether there was one. */
    method UpdateTodo(item: TodoItem) returns (ok: bool)
      modifies this
      ensures ok <==> ready && HasId(old(records), item.id)
      ensures records == if ready then Overwritten(old(records), item) else old(records)
    {
      if !ready {
        return false;
      }
      match IndexOfId(records, item.id)
      case None =>
        ok := false;
      case Some(k) =>
        records := records[k := records[k].(title := item.title, todoDescription := item.description,
                                            isCompleted := item.isCompleted)];
        ok := true;
    }

    /** `deleteTodo(by:)`: removes the first row with that id, and says whether
        there was one. */
    method DeleteTodo(id: int) returns (ok: bool)
      modifies this
      ensures ok <==> ready && HasId(old(records), id)
      ensures records == if ready then Removed(old(records), id) else old(records)
      ensures TodosCount() == old(TodosCount()) - (if ok then 1 else 0)
    {
      if !ready {
        return false;
      }
      match IndexOfId(records, id)
      case None =>
        ok := false;
      case Some(k) =>
        records := RemoveAt(records, k);
        ok := true;
    }

    /** `searchTodos(query:)`: the tasks that match the query, newest first;
        the empty query applies no predicate at all. */
    function SearchTodos(query: string): (r: seq<TodoItem>)
      reads this
      ensures !ready ==> r == []
      ensures query == [] ==> r == AllTodos()
      ensures ready ==> NewestFirst(r)
      ensures ready ==> forall i :: 0 <= i < |r| ==> MatchesQuery(r[i], query) && r[i] in ItemsOf(records)
      ensures ready ==> forall i :: 0 <= i < |records| && MatchesQuery(ItemOf(records[i]), query)
                          ==> ItemOf(records[i]) in r
      ensures ready && query != [] ==> multiset(r) == multiset(Filter(ItemsOf(records), Matching(query)))
    {
      if ready then
        SearchFindsExactlyMatches(ItemsOf(records), query);
        Search(ItemsOf(records), query)
      else []
    }

    /** `getNextAvailableId`: one more than the largest id, or 1 for an empty
        (or not ready) store. */
    function NextAvailableId(): (n: int)
      reads this
      ensures !ready || records == [] ==> n == 1
      ensures ready ==> forall i :: 0 <= i < |records| ==> records[i].id < n
      ensures ready && records != [] ==> HasId(records, n - 1)
      ensures ready ==> !TodoExists(n)
    {
      if ready && records != [] then MaxId(records) + 1 else 1
    }

    /** `deleteAllTodos`: a batch delete of every row. */
    method DeleteAllTodos()
      modifies this
      ensures records == if ready then [] else old(records)
      ensures ready ==> TodosCount() == 0 && AllTodos() == [] && forall id :: !TodoExists(id)
    {
      if ready {
        records := [];
      }
    }

    /** `getTodosCount`. */
    function TodosCount(): (n: nat)
      reads this
      ensures n == if ready then |records| else 0
    {
      if ready then |records| else 0
    }

    /** `todoExists(id:)`: whether counting the rows with that id gives more than zero. */
    function TodoExists(id: int): (b: bool)
      reads this
      ensures b <==> ready && HasId(records, id)
    {
      ready && CountWithId(records, id) > 0
    }
  }
}
