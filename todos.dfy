/**
 * The values of the task list: priorities, tasks, the filter choice, and the pure
 * derivations the component computes from them (deletion by id, the filtered view,
 * the badge class of a priority, the list loaded at start-up).
 */
module Todos {
  import opened Text
  import opened Sequences

  /** The closed set of priority labels. */
  datatype Priority = Urgent | Moyenne | Basse

  /** A task. `id` is a millisecond timestamp in the component; nothing makes it unique. */
  datatype Todo = Todo(id: int, text: string, priority: Priority)

  /** The filter state `Priority | "Tous"`: every task, or only those of one priority. */
  datatype PriorityFilter = Tous | Only(priority: Priority)

  /** The storage entry the list is loaded from. */
  const StorageKey: string := "Todos"

  /** What `JSON.parse` does with the stored string: a value taken as the task list, or a thrown error. */
  datatype ParseOutcome = Parsed(todos: seq<Todo>) | SyntaxError

  /** Text the add form can produce: non-empty and already trimmed. */
  predicate IsTaskText(text: string)
  {
    text != [] && Trim(text) == text
  }

  /** Every task carries text the add form can produce. */
  predicate WellFormed(todos: seq<Todo>)
  {
    forall t :: t in todos ==> IsTaskText(t.text)
  }

  /** Putting a task with task text in front of a well-formed list keeps it well-formed. */
  lemma PrependWellFormed(t: Todo, todos: seq<Todo>)
    requires IsTaskText(t.text) && WellFormed(todos)
    ensures WellFormed([t] + todos)
  {
    forall u | u in [t] + todos ensures IsTaskText(u.text) {
      assert u == t || u in todos;
    }
  }

  /** The text `addTodo` stores for a non-blank input is task text. */
  lemma {:induction false} TrimmedInputIsTaskText(input: string)
    requires !IsBlank(input)
    ensures IsTaskText(Trim(input))
  {
    TrimIdempotent(input);
  }

  /** `todos.filter(todo => todo.id !== id)`. */
  function RemoveId(todos: seq<Todo>, id: int): (r: seq<Todo>)
    ensures forall t :: t in r ==> t.id != id
    ensures forall t :: t in r <==> t in todos && t.id != id
    ensures forall t: Todo :: multiset(r)[t] == if t.id != id then multiset(todos)[t] else 0
    ensures IsSubsequence(r, todos) && |r| <= |todos|
    ensures (forall t :: t in todos ==> t.id != id) ==> r == todos
  {
    var r := Keep(todos, (t: Todo) => t.id != id);
    assert (forall t :: t in todos ==> t.id != id) ==> r == todos by {
      if forall t :: t in todos ==> t.id != id {
        KeepAll(todos, (t: Todo) => t.id != id);
      }
    }
    r
  }

  /** The tasks that carry `id`, in list order. */
  function WithId(todos: seq<Todo>, id: int): seq<Todo>
  {
    Keep(todos, (t: Todo) => t.id == id)
  }

  /** Deletion removes every task carrying the id: the list shrinks by exactly their number. */
  lemma {:induction false} RemoveIdLength(todos: seq<Todo>, id: int)
    ensures |RemoveId(todos, id)| == |todos| - |WithId(todos, id)|
  {
    if todos != [] {
      RemoveIdLength(todos[1..], id);
    }
  }

  /** No task is left with the id, whatever the list: deleting twice is deleting once. */
  lemma {:induction false} RemoveIdIdempotent(todos: seq<Todo>, id: int)
    ensures RemoveId(RemoveId(todos, id), id) == RemoveId(todos, id)
  {
    KeepIdempotent(todos, (t: Todo) => t.id != id);
  }

  /**
   * Tasks that share an id (additions stamped in one millisecond) go together: deleting the
   * id leaves exactly the tasks of the list that do not carry it, and none of `WithId`.
   */
  lemma {:induction false} SameIdDeletedTogether(todos: seq<Todo>, id: int)
    ensures forall t :: t in WithId(todos, id) ==> t !in RemoveId(todos, id)
    ensures RemoveId(todos, id) == [] <==> WithId(todos, id) == todos
  {
    if RemoveId(todos, id) == [] {
      KeepAll(todos, (t: Todo) => t.id == id);
    }
  }

  /** No two tasks share an id. */
  predicate UniqueIds(todos: seq<Todo>)
  {
    forall i, j :: 0 <= i < j < |todos| ==> todos[i].id != todos[j].id
  }

  /** When ids are unique, deleting an id that is present removes exactly one task. */
  lemma {:induction false} RemoveUniqueId(todos: seq<Todo>, id: int)
    requires UniqueIds(todos)
    requires exists t :: t in todos && t.id == id
    ensures |RemoveId(todos, id)| == |todos| - 1
  {
    assert todos != [];
    if todos[0].id == id {
      forall t | t in todos[1..] ensures t.id != id {
        var j :| 0 <= j < |todos[1..]| && todos[1..][j] == t;
        assert todos[j + 1] == t;
      }
      assert RemoveId(todos, id) == RemoveId(todos[1..], id);
    } else {
      var t :| t in todos && t.id == id;
      assert t in todos[1..] by {
        var j :| 0 <= j < |todos| && todos[j] == t;
        assert j != 0;
        assert todos[1..][j - 1] == t;
      }
      assert UniqueIds(todos[1..]) by {
        forall i, j | 0 <= i < j < |todos[1..]| ensures todos[1..][i].id != todos[1..][j].id {
          assert todos[1..][i] == todos[i + 1] && todos[1..][j] == todos[j + 1];
        }
      }
      RemoveUniqueId(todos[1..], id);
    }
  }

  /** `filteredTodos`: the whole list for `Tous`, else the tasks of that priority in list order. */
  function FilteredTodos(todos: seq<Todo>, filter: PriorityFilter): (r: seq<Todo>)
    ensures filter == Tous ==> r == todos
    ensures filter.Only? ==> forall t :: t in r <==> t in todos && t.priority == filter.priority
    ensures filter.Only? ==> forall t: Todo :: t.priority == filter.priority ==> multiset(r)[t] == multiset(todos)[t]
    ensures IsSubsequence(r, todos)
  {
    match filter
    case Tous =>
      SubsequenceReflexive(todos);
      todos
    case Only(p) => Keep(todos, (t: Todo) => t.priority == p)
  }

  /**
   * The view for a priority is the ONLY subsequence of the list that holds every task of
   * that priority, as often as the list does, and nothing else.
   */
  lemma {:induction false} FilteredTodosUnique(todos: seq<Todo>, p: Priority, view: seq<Todo>)
    requires IsSubsequence(view, todos)
    requires forall t :: t in view ==> t.priority == p
    requires forall t: Todo :: t.priority == p ==> multiset(view)[t] == multiset(todos)[t]
    ensures view == FilteredTodos(todos, Only(p))
  {
    KeepUnique(todos, (t: Todo) => t.priority == p, view);
  }

  /** Every task shows under exactly one priority: the three views together are as long as the list. */
  lemma {:induction false} PriorityViewsPartition(todos: seq<Todo>)
    ensures |FilteredTodos(todos, Only(Urgent))| + |FilteredTodos(todos, Only(Moyenne))|
            + |FilteredTodos(todos, Only(Basse))| == |todos|
  {
    if todos != [] {
      PriorityViewsPartition(todos[1..]);
    }
  }

  /** Deleting a task and then filtering gives the old view with that task deleted. */
  lemma {:induction false} FilterAfterRemove(todos: seq<Todo>, id: int, filter: PriorityFilter)
    ensures FilteredTodos(RemoveId(todos, id), filter) == RemoveId(FilteredTodos(todos, filter), id)
  {
    if filter.Only? && todos != [] {
      FilterAfterRemove(todos[1..], id, filter);
    }
  }

  /** `getPriorityBadgeClass`: the badge style of a priority. */
  function PriorityBadgeClass(priority: Priority): (r: string)
    ensures |r| > 12 && r[..12] == "badge badge-"
  {
    if priority == Urgent then "badge badge-error"
    else if priority == Moyenne then "badge badge-warning"
    else "badge badge-success"
  }

  /** The badge table: error style for Urgent, warning for Moyenne, success for Basse. */
  lemma BadgeClassTable()
    ensures PriorityBadgeClass(Urgent) == "badge badge-error"
    ensures PriorityBadgeClass(Moyenne) == "badge badge-warning"
    ensures PriorityBadgeClass(Basse) == "badge badge-success"
  {
  }

  /** Different priorities never share a badge. */
  lemma BadgeClassInjective(p: Priority, q: Priority)
    requires p != q
    ensures PriorityBadgeClass(p) != PriorityBadgeClass(q)
  {
    assert PriorityBadgeClass(p)[12] != PriorityBadgeClass(q)[12];
  }

  /**
   * The initial list: `localStorage.getItem("Todos")` is the lookup of `StorageKey` in
   * `storage`; a missing or empty entry gives `[]`, and so does a stored string that `parse`
   * rejects; otherwise the parsed list is taken as it is.
   */
  function InitialTodos(storage: map<string, string>, parse: string -> ParseOutcome): (r: seq<Todo>)
    ensures StorageKey !in storage ==> r == []
    ensures StorageKey in storage && storage[StorageKey] == "" ==> r == []
    ensures StorageKey in storage && parse(storage[StorageKey]).SyntaxError? ==> r == []
    ensures StorageKey in storage && storage[StorageKey] != "" && parse(storage[StorageKey]).Parsed?
            ==> r == parse(storage[StorageKey]).todos
    ensures r != [] ==> StorageKey in storage && parse(storage[StorageKey]) == Parsed(r)
  {
    if StorageKey !in storage || storage[StorageKey] == "" then []
    else
      match parse(storage[StorageKey])
      case Parsed(todos) => todos
      case SyntaxError => []
  }
}
