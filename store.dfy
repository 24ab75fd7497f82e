/** The state of the `App` component and the handlers that change it. */
module Store {
  import opened Text
  import opened Sequences
  import opened Todos

  /**
   * The component's four state variables. Each `set...` call of the component
   * becomes an assignment to the matching field.
   */
  class TodoStore {
    var todos: seq<Todo>
    var input: string
    var priority: Priority
    var filter: PriorityFilter

    /** Mounting: the text field is empty, the selector shows Moyenne, the filter is Tous, and the list comes from storage. */
    constructor (storage: map<string, string>, parse: string -> ParseOutcome)
      ensures todos == InitialTodos(storage, parse)
      ensures input == "" && priority == Moyenne && filter == Tous
    {
      todos := InitialTodos(storage, parse);
      input := "";
      priority := Moyenne;
      filter := Tous;
    }

    /** The text field's change handler. */
    method SetInput(value: string)
      modifies this`input
      ensures input == value
      ensures todos == old(todos) && priority == old(priority) && filter == old(filter)
    {
      input := value;
    }

    /** The priority selector's change handler. */
    method SetPriority(value: Priority)
      modifies this`priority
      ensures priority == value
      ensures todos == old(todos) && input == old(input) && filter == old(filter)
    {
      priority := value;
    }

    /** The handler of the four filter buttons. */
    method SetFilter(value: PriorityFilter)
      modifies this`filter
      ensures filter == value
      ensures todos == old(todos) && input == old(input) && priority == old(priority)
    {
      filter := value;
    }

    /**
     * `addTodo`: blank input changes nothing; otherwise a task with the given id, the
     * trimmed input and the selected priority goes to the front of the list, and the form
     * is reset to an empty text and priority Moyenne.
     */
    method AddTodo(freshId: int)
      modifies this`todos, this`input, this`priority
      ensures IsBlank(old(input)) ==>
                todos == old(todos) && input == old(input) && priority == old(priority)
      ensures !IsBlank(old(input)) ==>
                todos == [Todo(freshId, Trim(old(input)), old(priority))] + old(todos)
                && input == "" && priority == Moyenne
      ensures !IsBlank(old(input)) ==>
                |todos| == |old(todos)| + 1 && todos[1..] == old(todos) && IsTaskText(todos[0].text)
      ensures WellFormed(old(todos)) ==> WellFormed(todos)
    {
      if Trim(input) == "" {
        return;
      }
      ghost var before := todos;
      var newTodo := Todo(freshId, Trim(input), priority);
      TrimmedInputIsTaskText(input);
      if WellFormed(todos) {
        PrependWellFormed(newTodo, todos);
      }
      todos := [newTodo] + todos;
      assert todos[0] == newTodo && todos[1..] == before;
      input := "";
      priority := Moyenne;
    }

    /**
     * `deleteTodo`: every task carrying `id` goes, the others stay, as often as before and in their order; an
     * absent id leaves the list as it was.
     */
    method DeleteTodo(id: int)
      modifies this`todos
      ensures todos == RemoveId(old(todos), id)
      ensures forall t :: t in todos ==> t.id != id
      ensures forall t :: t in todos <==> t in old(todos) && t.id != id
      ensures forall t: Todo :: multiset(todos)[t] == if t.id != id then multiset(old(todos))[t] else 0
      ensures IsSubsequence(todos, old(todos))
      ensures |todos| == |old(todos)| - |WithId(old(todos), id)|
      ensures (forall t :: t in old(todos) ==> t.id != id) ==> todos == old(todos)
      ensures WellFormed(old(todos)) ==> WellFormed(todos)
      ensures input == old(input) && priority == old(priority) && filter == old(filter)
    {
      RemoveIdLength(todos, id);
      todos := RemoveId(todos, id);
    }
  }
}
