/** The session of the task list worked through from empty storage to a deletion. */
module Scenario {
  import opened Text
  import opened Todos
  import Store

  /**
   * A session from empty storage: add `report` ("Write report") as Urgent, then `desk`
   * ("Clean desk") as Basse, which puts `desk` in front; the Urgent view shows only the
   * first; after deleting it the
   * Urgent view is empty and the Tous view shows only the second. The two ids must differ:
   * were both additions stamped in the same millisecond, the deletion would remove both tasks.
   */
  method EndToEndScenario(reportId: int, report: string, deskId: int, desk: string)
    returns (afterAdds: seq<Todo>, urgentBefore: seq<Todo>, urgentAfter: seq<Todo>, allAfter: seq<Todo>)
    requires reportId != deskId
    requires IsTaskText(report) && IsTaskText(desk)
    ensures afterAdds == [Todo(deskId, desk, Basse)] + [Todo(reportId, report, Urgent)]
    ensures urgentBefore == [Todo(reportId, report, Urgent)]
    ensures urgentAfter == []
    ensures allAfter == [Todo(deskId, desk, Basse)]
  {
    var store := new Store.TodoStore(map[], (raw: string) => SyntaxError);
    assert store.todos == [];
    ghost var deskTodo, reportTodo := Todo(deskId, desk, Basse), Todo(reportId, report, Urgent);
    store.SetInput(report);
    store.SetPriority(Urgent);
    assert !IsBlank(store.input) && Trim(store.input) == report;
    store.AddTodo(reportId);
    assert store.todos == [reportTodo];
    store.SetInput(desk);
    store.SetPriority(Basse);
    assert !IsBlank(store.input) && Trim(store.input) == desk;
    store.AddTodo(deskId);
    assert store.todos == [deskTodo] + [reportTodo];
    afterAdds := store.todos;
    ScenarioViews(deskTodo, reportTodo);
    store.SetFilter(Only(Urgent));
    urgentBefore := FilteredTodos(store.todos, store.filter);
    store.DeleteTodo(reportId);
    urgentAfter := FilteredTodos(store.todos, store.filter);
    store.SetFilter(Tous);
    allAfter := FilteredTodos(store.todos, store.filter);
  }

  /** The two texts of the session, "Write report" and "Clean desk", are what the add form stores for them. */
  lemma ScenarioTexts()
    ensures IsTaskText("Write report") && IsTaskText("Clean desk")
  {
    TrimFixpoint("Write report");
    TrimFixpoint("Clean desk");
  }

  /** The views of the two-task list of the scenario, before and after deleting the Urgent task. */
  lemma ScenarioViews(desk: Todo, report: Todo)
    requires desk.priority == Basse && report.priority == Urgent && desk.id != report.id
    ensures FilteredTodos([desk] + [report], Only(Urgent)) == [report]
    ensures RemoveId([desk] + [report], report.id) == [desk]
    ensures FilteredTodos([desk], Only(Urgent)) == []
  {
    var todos := [desk] + [report];
    assert todos[0] == desk && todos[1..] == [report];
    assert [report][1..] == [];
    assert [desk][1..] == [];
  }
}
