/**
 * The task controller: per request it validates the submitted record, decides
 * the one store write it performs (if any) and how the request ends, and
 * turns rows into the colour and label the pages show.
 *
 * Superglobals become parameters: the record the task model extracted from
 * the POST body, the raw `id` query parameter, the request method and whether
 * the delete button was submitted. Exceptions become `Failed` responses or
 * `Failure` results.
 */
module TaskControl {
  import opened Wrappers
  import opened TaskAuth
  import opened TaskStore

  datatype TaskError =
    | InvalidTitle
    | InvalidDescription
    | TaskNotFound
      /** A status that neither `match` on it covers (PHP's UnhandledMatchError). */
    | UnhandledMatch(status: string)

  /** The create record: empty unless the create form was submitted. */
  datatype RegisterData = NoRegisterData | RegisterData(title: string, description: string)

  /** The update record: empty unless the update form was submitted. */
  datatype UpdateData = NoUpdateData | UpdateData(title: string, description: string, status: string)

  /** How an action ends the request: carry on, redirect (and maybe exit), or throw. */
  datatype Response = Continue | Redirect(location: string, exits: bool) | Failed(error: TaskError)

  /** The store write an action performs. */
  datatype Write =
    | NoWrite
    | InsertRow(title: string, description: string)
    | UpdateRows(id: int, title: string, description: string, status: string)
    | DeleteRows(id: int)

  datatype Plan = Plan(write: Write, response: Response)

  const IndexPage: string := "../../public/index.php"
  const SamePage: string := ""
  const Post: string := "POST"

  /** The table after a write; an insert receives `freshId` from the database. */
  function Apply(rows: seq<Task>, freshId: int, w: Write): seq<Task>
  {
    match w
    case NoWrite => rows
    case InsertRow(title, description) => Inserted(rows, freshId, title, description)
    case UpdateRows(id, title, description, status) => Updated(rows, id, title, description, status)
    case DeleteRows(id) => Deleted(rows, id)
  }

  /** The checks run before any write: the title first, then the description. */
  function CheckFields(title: string, description: string): (r: Option<TaskError>)
    ensures r.None? <==> AuthTitleLength(title) && AuthDescriptionLength(description)
    ensures r.Some? ==> r.value == InvalidTitle || r.value == InvalidDescription
    ensures r == Some(InvalidDescription) ==> AuthTitleLength(title)
    ensures !AuthTitleLength(title) ==> r == Some(InvalidTitle)
    ensures AuthTitleLength(title) && !AuthDescriptionLength(description) ==> r == Some(InvalidDescription)
  {
    if !AuthTitleLength(title) then Some(InvalidTitle)
    else if !AuthDescriptionLength(description) then Some(InvalidDescription)
    else None
  }

  /** What `newTask` does with the create record. */
  function NewTaskPlan(data: RegisterData): (p: Plan)
    ensures data.NoRegisterData? ==> p == Plan(NoWrite, Continue)
    ensures p.write != NoWrite <==>
      data.RegisterData? && AuthTitleLength(data.title) && AuthDescriptionLength(data.description)
    ensures p.write != NoWrite ==>
      p.write == InsertRow(data.title, data.description) && p.response == Redirect(IndexPage, true)
    ensures data.RegisterData? && !AuthTitleLength(data.title) ==> p.response == Failed(InvalidTitle)
    ensures data.RegisterData? && AuthTitleLength(data.title) && !AuthDescriptionLength(data.description) ==>
      p.response == Failed(InvalidDescription)
    ensures p.response.Failed? ==> p.write == NoWrite
  {
    match data
    case NoRegisterData => Plan(NoWrite, Continue)
    case RegisterData(title, description) =>
      match CheckFields(title, description)
      case Some(e) => Plan(NoWrite, Failed(e))
      case None => Plan(InsertRow(title, description), Redirect(IndexPage, true))
  }

  /** What `updateTask` does with the update record and the raw `id` query parameter. */
  function UpdateTaskPlan(data: UpdateData, getId: string): (p: Plan)
    ensures data.NoUpdateData? ==> p == Plan(NoWrite, Continue)
    ensures p.write != NoWrite <==>
      data.UpdateData? && AuthTitleLength(data.title) && AuthDescriptionLength(data.description)
    ensures p.write != NoWrite ==>
      && p.write == UpdateRows(SanitizeTaskIDFromGET(getId), data.title, data.description, data.status)
      && p.response == Redirect(SamePage, false)
    ensures data.UpdateData? && !AuthTitleLength(data.title) ==> p.response == Failed(InvalidTitle)
    ensures data.UpdateData? && AuthTitleLength(data.title) && !AuthDescriptionLength(data.description) ==>
      p.response == Failed(InvalidDescription)
    ensures p.response.Failed? ==> p.write == NoWrite
  {
    match data
    case NoUpdateData => Plan(NoWrite, Continue)
    case UpdateData(title, description, status) =>
      match CheckFields(title, description)
      case Some(e) => Plan(NoWrite, Failed(e))
      case None =>
        Plan(UpdateRows(SanitizeTaskIDFromGET(getId), title, description, status), Redirect(SamePage, false))
  }

  /** What `deleteTask` does for a request. */
  function DeleteTaskPlan(requestMethod: string, submitDelete: bool, getId: string): (p: Plan)
    ensures p.write != NoWrite <==> requestMethod == Post && submitDelete
    ensures p.write != NoWrite ==>
      p.write == DeleteRows(SanitizeTaskIDFromGET(getId)) && p.response == Redirect(IndexPage, true)
    ensures p.write == NoWrite ==> p.response == Continue
  {
    if requestMethod == Post && submitDelete then
      Plan(DeleteRows(SanitizeTaskIDFromGET(getId)), Redirect(IndexPage, true))
    else
      Plan(NoWrite, Continue)
  }

  // ---------------------------------------------------------------------------
  // Status colour and label

  predicate KnownStatus(status: string)
  {
    status == ToDo || status == Done
  }

  /** The card background for a status; None where the `match` has no arm. */
  function StatusColor(status: string): (r: Option<string>)
    ensures r.Some? <==> KnownStatus(status)
  {
    if status == ToDo then Some("#ff8181")
    else if status == Done then Some("#60c088")
    else None
  }

  /** The label shown for a status; None where the `match` has no arm. */
  function StatusLabel(status: string): (r: Option<string>)
    ensures r.Some? <==> KnownStatus(status)
  {
    if status == ToDo then Some("Por Fazer")
    else if status == Done then Some("Realizado")
    else None
  }

  /** Both lookups are defined on the same two statuses and tell them apart. */
  lemma StatusLookupsTotalOnKnown()
    ensures forall s :: StatusColor(s).Some? <==> StatusLabel(s).Some?
    ensures StatusColor(ToDo) != StatusColor(Done) && StatusLabel(ToDo) != StatusLabel(Done)
    ensures StatusColor(ToDo) == Some("#ff8181") && StatusColor(Done) == Some("#60c088")
    ensures StatusLabel(ToDo) == Some("Por Fazer") && StatusLabel(Done) == Some("Realizado")
  {
  }

  /** The data the update/delete form shows for one task. */
  datatype TaskForm = TaskForm(task: Task, background: string, statusLabel: string)

  /** The form for a fetched row; the colour `match` runs first, so it raises the error. */
  function FormFor(t: Task): (r: Result<TaskForm, TaskError>)
    ensures r.Success? <==> KnownStatus(t.status)
    ensures r.Success? ==> r.value.task == t
    ensures r.Success? ==>
      r.value.background == StatusColor(t.status).value && r.value.statusLabel == StatusLabel(t.status).value
    ensures r.Failure? ==> r.error == UnhandledMatch(t.status)
  {
    match StatusColor(t.status)
    case None => Failure(UnhandledMatch(t.status))
    case Some(background) =>
      match StatusLabel(t.status)
      case None => Failure(UnhandledMatch(t.status))
      case Some(text) => Success(TaskForm(t, background, text))
  }

  /** One summary card of the listing. */
  datatype Card = Card(id: int, title: string, description: string, background: string)

  function CardOf(t: Task): Card
    requires KnownStatus(t.status)
  {
    Card(t.id, t.title, t.description, StatusColor(t.status).value)
  }

  /** The cards emitted for `tasks` and, when a row has an unknown status, the error that stops the loop there. */
  datatype Listing = Listing(cards: seq<Card>, failure: Option<TaskError>)

  /**
   * The listing: one card per row, in the order given, up to the first row
   * whose status has no colour.
   */
  function RenderCards(tasks: seq<Task>): (r: Listing)
    ensures |r.cards| <= |tasks|
    ensures forall k :: 0 <= k < |r.cards| ==> KnownStatus(tasks[k].status) && r.cards[k] == CardOf(tasks[k])
    ensures r.failure.None? ==> |r.cards| == |tasks|
    ensures r.failure.Some? ==>
      && |r.cards| < |tasks|
      && !KnownStatus(tasks[|r.cards|].status)
      && r.failure == Some(UnhandledMatch(tasks[|r.cards|].status))
  {
    if tasks == [] then Listing([], None)
    else if !KnownStatus(tasks[0].status) then Listing([], Some(UnhandledMatch(tasks[0].status)))
    else
      var rest := RenderCards(tasks[1..]);
      Listing([CardOf(tasks[0])] + rest.cards, rest.failure)
  }

  /** The properties of RenderCards single out its result. */
  lemma ListingDetermined(tasks: seq<Task>, l: Listing)
    requires |l.cards| <= |tasks|
    requires forall k :: 0 <= k < |l.cards| ==> KnownStatus(tasks[k].status) && l.cards[k] == CardOf(tasks[k])
    requires l.failure.None? ==> |l.cards| == |tasks|
    requires l.failure.Some? ==>
      && |l.cards| < |tasks|
      && !KnownStatus(tasks[|l.cards|].status)
      && l.failure == Some(UnhandledMatch(tasks[|l.cards|].status))
    ensures l == RenderCards(tasks)
  {
    assert RenderCards(tasks).cards == l.cards;
  }

  /** When every stored status is known, the listing has one card per row, 'done' cards before 'to-do' ones. */
  lemma {:induction false} ListingOfKnownStatuses(rows: seq<Task>)
    requires forall i :: 0 <= i < |rows| ==> KnownStatus(rows[i].status)
    ensures RenderCards(SortByStatus(rows)).failure.None?
    ensures |RenderCards(SortByStatus(rows)).cards| == |rows|
    ensures var cards := RenderCards(SortByStatus(rows)).cards;
      forall i, j :: (0 <= i < |cards| && 0 <= j < |cards| &&
        cards[i].background == StatusColor(Done).value && cards[j].background == StatusColor(ToDo).value) ==> i < j
  {
    var sorted := SortByStatus(rows);
    assert |sorted| == |rows| by {
      assert |multiset(sorted)| == |multiset(rows)|;
    }
    forall k | 0 <= k < |sorted| ensures KnownStatus(sorted[k].status) {
      assert sorted[k] in multiset(rows);
      var i :| 0 <= i < |rows| && rows[i] == sorted[k];
    }
    var r := RenderCards(sorted);
    DoneRowsFirst(sorted);
    forall i, j | 0 <= i < |rows| && 0 <= j < |rows|
      && r.cards[i].background == StatusColor(Done).value && r.cards[j].background == StatusColor(ToDo).value
      ensures i < j
    {
      assert sorted[i].status == Done && sorted[j].status == ToDo;
    }
  }

  /**
   * An update passes its status through unchecked: with valid fields and an
   * existing id, any string ends up stored, and a status other than the two
   * known ones makes the form for that task fail.
   */
  lemma UnvalidatedStatusReachesStore(rows: seq<Task>, freshId: int, data: UpdateData, getId: string, i: nat)
    requires data.UpdateData? && AuthTitleLength(data.title) && AuthDescriptionLength(data.description)
    requires i < |rows| && rows[i].id == SanitizeTaskIDFromGET(getId)
    ensures Apply(rows, freshId, UpdateTaskPlan(data, getId).write)[i]
         == Task(rows[i].id, data.title, data.description, data.status)
    ensures !KnownStatus(data.status) ==>
      FormFor(Apply(rows, freshId, UpdateTaskPlan(data, getId).write)[i]) == Failure(UnhandledMatch(data.status))
  {
  }

  // ---------------------------------------------------------------------------
  // The controller object

  class TaskController {
    /** The DAO the last action was given. */
    var taskDAO: TaskDAO?

    constructor ()
      ensures taskDAO == null
    {
      taskDAO := null;
    }

    method NewTask(dao: TaskDAO, data: RegisterData) returns (r: Response)
      requires dao.Valid()
      modifies this, dao
      ensures taskDAO == dao && dao.Valid()
      ensures r == NewTaskPlan(data).response
      ensures dao.rows == Apply(old(dao.rows), old(dao.nextId), NewTaskPlan(data).write)
      ensures dao.nextId == old(dao.nextId) + (if NewTaskPlan(data).write.InsertRow? then 1 else 0)
    {
      taskDAO := dao;
      match data {
        case NoRegisterData =>
          r := Continue;
        case RegisterData(title, description) =>
          if !AuthTitleLength(title) {
            return Failed(InvalidTitle);
          }
          if !AuthDescriptionLength(description) {
            return Failed(InvalidDescription);
          }
          dao.NewTaskDB(title, description);
          r := Redirect(IndexPage, true);
      }
    }

    method UpdateTask(dao: TaskDAO, data: UpdateData, getId: string) returns (r: Response)
      requires dao.Valid()
      modifies this, dao
      ensures taskDAO == dao && dao.Valid()
      ensures r == UpdateTaskPlan(data, getId).response
      ensures dao.rows == Apply(old(dao.rows), old(dao.nextId), UpdateTaskPlan(data, getId).write)
      ensures dao.nextId == old(dao.nextId)
    {
      taskDAO := dao;
      match data {
        case NoUpdateData =>
          r := Continue;
        case UpdateData(title, description, status) =>
          if !AuthTitleLength(title) {
            return Failed(InvalidTitle);
          }
          if !AuthDescriptionLength(description) {
            return Failed(InvalidDescription);
          }
          var id := SanitizeTaskIDFromGET(getId);
          dao.UpdateTaskDB(id, title, description, status);
          r := Redirect(SamePage, false);
      }
    }

    method DeleteTask(dao: TaskDAO, requestMethod: string, submitDelete: bool, getId: string) returns (r: Response)
      requires dao.Valid()
      modifies this, dao
      ensures taskDAO == dao && dao.Valid()
      ensures r == DeleteTaskPlan(requestMethod, submitDelete, getId).response
      ensures dao.rows == Apply(old(dao.rows), old(dao.nextId), DeleteTaskPlan(requestMethod, submitDelete, getId).write)
      ensures dao.nextId == old(dao.nextId)
    {
      taskDAO := dao;
      r := Continue;
      if requestMethod == Post && submitDelete {
        var id := SanitizeTaskIDFromGET(getId);
        assert DeleteTaskPlan(requestMethod, submitDelete, getId).write == DeleteRows(id);
        dao.DeleteTaskDB(id);
        r := Redirect(IndexPage, true);
      }
    }

    /** Checks that the task exists before fetching it; the store is only read. */
    method ShowUpdateDeleteTaskForm(dao: TaskDAO, getId: string) returns (r: Result<TaskForm, TaskError>)
      modifies this
      ensures taskDAO == dao
      ensures r == Failure(TaskNotFound) <==> !dao.VerifyByIdTaskExistsDB(SanitizeTaskIDFromGET(getId))
      ensures dao.VerifyByIdTaskExistsDB(SanitizeTaskIDFromGET(getId)) ==>
        r == FormFor(dao.GetAllTaskDataByID(SanitizeTaskIDFromGET(getId)))
    {
      taskDAO := dao;
      var id := SanitizeTaskIDFromGET(getId);
      if !dao.VerifyByIdTaskExistsDB(id) {
        return Failure(TaskNotFound);
      }
      var task := dao.GetAllTaskDataByID(id);
      var background := StatusColor(task.status);
      if background.None? {
        return Failure(UnhandledMatch(task.status));
      }
      var text := StatusLabel(task.status);
      if text.None? {
        return Failure(UnhandledMatch(task.status));
      }
      r := Success(TaskForm(task, background.value, text.value));
    }

    /** Emits one card per listed row, stopping at the first status with no colour. */
    method ShowAllTasks(dao: TaskDAO) returns (cards: seq<Card>, failure: Option<TaskError>)
      modifies this
      ensures taskDAO == dao
      ensures Listing(cards, failure) == RenderCards(dao.GetAllTasksDataDB())
    {
      taskDAO := dao;
      var tasks := dao.GetAllTasksDataDB();
      cards, failure := [], None;
      var i := 0;
      while i < |tasks|
        invariant 0 <= i <= |tasks| && |cards| == i
        invariant forall k :: 0 <= k < i ==> KnownStatus(tasks[k].status) && cards[k] == CardOf(tasks[k])
      {
        var background := StatusColor(tasks[i].status);
        if background.None? {
          failure := Some(UnhandledMatch(tasks[i].status));
          break;
        }
        cards := cards + [Card(tasks[i].id, tasks[i].title, tasks[i].description, background.value)];
        i := i + 1;
      }
      ListingDetermined(tasks, Listing(cards, failure));
    }
  }

  /**
   * The table of the two scenarios below: task 5 ("pay") is 'to-do', and task
   * 6 ("milk") is 'to-do' with a title and a description the form accepts.
   */
  predicate ScenarioTasks(pay: Task, milk: Task)
  {
    pay.id == 5 && pay.status == ToDo && milk.id == 6 && milk.status == ToDo &&
    AuthTitleLength(milk.title) && AuthDescriptionLength(milk.description)
  }

  /**
   * The two listings of the scenarios: ORDER BY status, then one card per row.
   * Two 'to-do' rows may come in either order, since ORDER BY leaves ties open.
   */
  lemma ScenarioListings(pay: Task, milk: Task)
    requires ScenarioTasks(pay, milk)
    ensures var red5, red6 := Card(5, pay.title, pay.description, "#ff8181"), Card(6, milk.title, milk.description, "#ff8181");
      RenderCards(SortByStatus([pay, milk])) == Listing([red5, red6], None) ||
      RenderCards(SortByStatus([pay, milk])) == Listing([red6, red5], None)
    ensures RenderCards(SortByStatus([pay, milk.(status := Done)])) ==
      Listing([Card(6, milk.title, milk.description, "#60c088"), Card(5, pay.title, pay.description, "#ff8181")], None)
  {
    DoneBeforeToDo();
    StatusLeReflexive(ToDo);
    assert [pay, milk][..1] == [pay];
    assert [pay, milk.(status := Done)][..1] == [pay];
    var first := SortByStatus([pay, milk]);
    assert first == [pay, milk];
    assert first[1..] == [milk];
    var second := SortByStatus([pay, milk.(status := Done)]);
    assert second == [milk.(status := Done), pay];
    assert second[1..] == [pay];
  }

  /** Registering task 6 plans its insert, which appends it with the next id. */
  lemma CreatePlan(pay: Task, milk: Task)
    requires ScenarioTasks(pay, milk)
    ensures NewTaskPlan(RegisterData(milk.title, milk.description)) ==
      Plan(InsertRow(milk.title, milk.description), Redirect(IndexPage, true))
    ensures Apply([pay], 6, InsertRow(milk.title, milk.description)) == [pay, milk]
  {
  }

  /** Registering task 6 on a table that holds task 5 lists both, red, in some order. */
  method CreateThenListScenario(pay: Task, milk: Task) returns (cards: seq<Card>)
    requires ScenarioTasks(pay, milk)
    ensures var red5, red6 := Card(5, pay.title, pay.description, "#ff8181"), Card(6, milk.title, milk.description, "#ff8181");
      cards == [red5, red6] || cards == [red6, red5]
  {
    ScenarioTables(pay, milk);
    CreatePlan(pay, milk);
    var dao := new TaskDAO([pay], 6);
    var controller := new TaskController();
    var r := controller.NewTask(dao, RegisterData(milk.title, milk.description));
    assert r == Redirect(IndexPage, true);
    assert dao.rows == [pay, milk];

    ScenarioListings(pay, milk);
    assert dao.GetAllTasksDataDB() == SortByStatus([pay, milk]);
    var failure;
    cards, failure := controller.ShowAllTasks(dao);
  }

  /** Both tables of the scenarios have unique ids below the next AUTO_INCREMENT value. */
  lemma ScenarioTables(pay: Task, milk: Task)
    requires ScenarioTasks(pay, milk)
    ensures TableInvariant([pay], 6) && TableInvariant([pay, milk], 7)
  {
  }

  /**
   * The form that marks task 6 done, requested with `?id=6`, plans exactly
   * that update.
   */
  lemma MarkDonePlan(pay: Task, milk: Task)
    requires ScenarioTasks(pay, milk)
    ensures UpdateTaskPlan(UpdateData(milk.title, milk.description, Done), "6") ==
      Plan(UpdateRows(6, milk.title, milk.description, Done), Redirect(SamePage, false))
  {
    assert SanitizeTaskIDFromGET("6") == 6 by {
      AcceptsLiteral("6", false, "6");
      SanitizeMeaning("6");
    }
  }

  /** Marking task 6 done changes task 6 only. */
  lemma MarkDoneUpdate(pay: Task, milk: Task)
    requires ScenarioTasks(pay, milk)
    ensures Apply([pay, milk], 7, UpdateRows(6, milk.title, milk.description, Done)) == [pay, milk.(status := Done)]
  {
    var after := Updated([pay, milk], 6, milk.title, milk.description, Done);
    assert after[0] == pay && after[1] == milk.(status := Done);
  }

  /** Marking task 6 done through the form moves it, green, ahead of the remaining 'to-do' task. */
  method MarkDoneThenListScenario(pay: Task, milk: Task) returns (cards: seq<Card>)
    requires ScenarioTasks(pay, milk)
    ensures cards == [Card(6, milk.title, milk.description, "#60c088"), Card(5, pay.title, pay.description, "#ff8181")]
  {
    ScenarioTables(pay, milk);
    MarkDonePlan(pay, milk);
    MarkDoneUpdate(pay, milk);
    var dao := new TaskDAO([pay, milk], 7);
    var controller := new TaskController();
    var r := controller.UpdateTask(dao, UpdateData(milk.title, milk.description, Done), "6");
    assert r == Redirect(SamePage, false);
    assert dao.rows == [pay, milk.(status := Done)];

    ScenarioListings(pay, milk);
    assert dao.GetAllTasksDataDB() == SortByStatus([pay, milk.(status := Done)]);
    var failure;
    cards, failure := controller.ShowAllTasks(dao);
  }
}
