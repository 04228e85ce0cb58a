/**
 * The task screen: which status changes it offers for the status a task
 * has, and how it applies the server's answer to the task it shows.
 */
module TaskScreen {
  import opened Records
  import opened ServerStore

  /** The three statuses the screens know. */
  predicate IsStatus(s: string) {
    s == ToDo || s == InProgress || s == Done
  }

  /**
   * The statuses the screen offers to move to: "Начать выполнение" from
   * to-do; "Нет" (back to to-do) and "Да" (done) in the dialog of
   * "Завершить" from in progress; nothing otherwise.
   */
  function OfferedMoves(status: string): (moves: seq<string>)
    ensures forall m :: m in moves ==> IsStatus(m) && m != status
    ensures moves != [] <==> status == ToDo || status == InProgress
    ensures Done in moves <==> status == InProgress
    ensures InProgress in moves <==> status == ToDo
    ensures ToDo in moves <==> status == InProgress
  {
    if status == ToDo then [InProgress]
    else if status == InProgress then [ToDo, Done]
    else []
  }

  /** Every step of `rs` is a move the screen offered for the status before it. */
  predicate Run(rs: seq<string>) {
    forall i :: 0 < i < |rs| ==> rs[i] in OfferedMoves(rs[i - 1])
  }

  /**
   * Along a run from to-do, the task is in progress exactly at the odd
   * steps: it is started, then sent back or finished, and done ends the run.
   */
  lemma {:induction false} RunAlternates(rs: seq<string>)
    requires Run(rs) && rs != [] && rs[0] == ToDo
    ensures forall i :: 0 <= i < |rs| ==> IsStatus(rs[i]) && (rs[i] == InProgress <==> i % 2 == 1)
    ensures forall i :: 0 <= i < |rs| && rs[i] == Done ==> i == |rs| - 1 && i % 2 == 0 && i > 0
    decreases |rs|
  {
    if |rs| > 1 {
      var init := rs[..|rs| - 1];
      assert Run(init) by {
        forall i | 0 < i < |init|
          ensures init[i] in OfferedMoves(init[i - 1])
        {
          assert init[i] == rs[i] && init[i - 1] == rs[i - 1];
        }
      }
      RunAlternates(init);
      var n := |rs| - 1;
      assert rs[n] in OfferedMoves(rs[n - 1]);
      forall i | 0 <= i < |rs|
        ensures IsStatus(rs[i]) && (rs[i] == InProgress <==> i % 2 == 1)
      {
        if i < n {
          assert rs[i] == init[i];
        }
      }
    }
  }

  /**
   * The open task screen: the task fetched by `GET /tasks/:id` for the id
   * it was opened with, and whether that fetch is still outstanding.
   */
  class TaskView {
    const taskId: nat
    var task: Option<Task>
    var loading: bool

    constructor (taskId: nat)
      ensures this.taskId == taskId && task == None && loading
    {
      this.taskId := taskId;
      task := None;
      loading := true;
    }

    /** The shown task is the server's current row for the id. */
    predicate Synced(store: Store)
      reads this, store
    {
      task.Some? && taskId in store.tasks && store.tasks[taskId] == task.value
    }

    /**
     * `fetchTask`: shows the row on success; on "Task not found" (which axios
     * raises as an error) stops loading and shows nothing.
     */
    method Load(store: Store)
      modifies this
      ensures !loading
      ensures taskId in store.tasks ==> Synced(store)
      ensures taskId !in store.tasks ==> task == old(task)
    {
      var r := store.GetTask(taskId);
      if r.Success? {
        task := Some(r.value);
      }
      loading := false;
    }

    /**
     * `handleStatusChange`: sends `PUT /tasks/:id`, and changes the status
     * of the shown task, and nothing else of it, only when the server
     * answers with success.
     */
    method HandleStatusChange(store: Store, newStatus: string)
      requires store.Valid() && task.Some?
      modifies this, store
      ensures store.Valid()
      ensures store.users == old(store.users) && store.nextId == old(store.nextId)
      ensures loading == old(loading)
      ensures taskId in old(store.tasks) ==>
        && store.tasks == old(store.tasks)[taskId := old(store.tasks)[taskId].(status := newStatus)]
        && task == Some(old(task).value.(status := newStatus))
      ensures taskId !in old(store.tasks) ==> store.tasks == old(store.tasks) && task == old(task)
      ensures old(Synced(store)) ==> Synced(store)
    {
      var r := store.UpdateStatus(taskId, newStatus);
      if r.Pass? {
        task := Some(task.value.(status := newStatus));
      }
    }
  }

  /**
   * Pressing an offered button on a synced screen moves the task, on the
   * server and on the screen, along one step of a run.
   */
  method PressOffered(view: TaskView, store: Store, choice: nat) returns (next: string)
    requires store.Valid() && view.Synced(store)
    requires choice < |OfferedMoves(view.task.value.status)|
    modifies view, store
    ensures store.Valid() && view.Synced(store)
    ensures Run([old(view.task.value.status), view.task.value.status])
    ensures next == view.task.value.status && next != old(view.task.value.status)
  {
    next := OfferedMoves(view.task.value.status)[choice];
    view.HandleStatusChange(store, next);
  }
}
