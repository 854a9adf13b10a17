/**
 * The task list page: the derived view of each task card (overdue test,
 * status badge, colour scheme), the statistics row, and the controller state
 * that the refresh, delete and modal handlers update.
 */
module TasksPageClient {
  import opened Wrappers
  import opened TaskData
  import opened Backend

  /**
   * `new Date(s)` moved to local midnight, as a day number: `None` for an
   * Invalid Date, which compares false with every date.
   */
  type DayParser = string -> Option<int>

  /**
   * `isOverdue(completionDate)`: a missing or empty date is never overdue;
   * otherwise the task is overdue exactly when its due day comes strictly
   * before `today` (both taken at midnight, so the time of day plays no part).
   */
  function IsOverdue(completionDate: Option<string>, today: int, parseDay: DayParser): (b: bool)
    ensures completionDate == None || completionDate == Some("") ==> !b
    ensures b <==> completionDate.Some? && completionDate.value != ""
                   && parseDay(completionDate.value).Some? && parseDay(completionDate.value).value < today
  {
    match completionDate
    case None => false
    case Some(date) =>
      if date == "" then false
      else match parseDay(date)
        case None => false
        case Some(due) => due < today
  }

  /** A task due today is not overdue, and one that is overdue stays overdue on every later day. */
  lemma OverdueIsMonotone(completionDate: Option<string>, today: int, later: int, parseDay: DayParser)
    requires today <= later
    ensures IsOverdue(completionDate, today, parseDay) ==> IsOverdue(completionDate, later, parseDay)
    ensures completionDate.Some? && parseDay(completionDate.value) == Some(today) ==> !IsOverdue(completionDate, today, parseDay)
  {
  }

  /** `task.completion_date` is truthy. */
  predicate HasDueDate(task: Task) {
    task.completionDate.Some? && task.completionDate.value != ""
  }

  datatype Badge = Completed | Overdue | Pending

  /**
   * The status badge: 'Completed' whenever the task is done, even past its
   * due date; 'Overdue' exactly when it is not done and overdue; otherwise
   * 'Pending'.
   */
  function BadgeOf(task: Task, today: int, parseDay: DayParser): (b: Badge)
    ensures b == Completed <==> task.status
    ensures b == Overdue <==> !task.status && IsOverdue(task.completionDate, today, parseDay)
    ensures b == Pending <==> !task.status && !IsOverdue(task.completionDate, today, parseDay)
  {
    if task.status then Completed
    else if HasDueDate(task) && IsOverdue(task.completionDate, today, parseDay) then Overdue
    else Pending
  }

  /** The footer's due-date text is red exactly when the task has a date, is overdue and is not done. */
  function DueDateIsRed(task: Task, today: int, parseDay: DayParser): (red: bool)
    ensures red <==> BadgeOf(task, today, parseDay) == Overdue
  {
    HasDueDate(task) && IsOverdue(task.completionDate, today, parseDay) && !task.status
  }

  /** The colour families of the five card schemes, and the red of an overdue badge. */
  datatype Palette = Blue | Purple | Green | Orange | Teal | Red

  const SchemePalettes: seq<Palette> := [Blue, Purple, Green, Orange, Teal]

  /** A card's scheme: the family of its background, border and accent, and the colour of its badge. */
  datatype Scheme = Scheme(family: Palette, badge: Palette)

  /**
   * `getCardColors(index, isCompleted)`: card `index` takes scheme
   * `index % 5`; its badge is green for a completed task and the scheme's own
   * colour otherwise.
   */
  function CardColors(index: nat, isCompleted: bool): (s: Scheme)
    ensures s.family == SchemePalettes[index % |SchemePalettes|]
    ensures s.family != Red
    ensures isCompleted ==> s.badge == Green
    ensures !isCompleted ==> s.badge == s.family
  {
    var family := SchemePalettes[index % |SchemePalettes|];
    Scheme(family, if isCompleted then Green else family)
  }

  /** The schemes repeat every five cards. */
  lemma CardColorsCycle(index: nat, isCompleted: bool)
    ensures CardColors(index + 5, isCompleted) == CardColors(index, isCompleted)
  {
  }

  /** The colour of a card's badge: red for an overdue task, the scheme's badge colour otherwise. */
  function BadgeColor(task: Task, index: nat, today: int, parseDay: DayParser): (p: Palette)
    ensures p == Red <==> BadgeOf(task, today, parseDay) == Overdue
    ensures task.status ==> p == Green
    ensures BadgeOf(task, today, parseDay) != Overdue ==> p == CardColors(index, task.status).badge
  {
    var colors := CardColors(index, task.status);
    if task.status then colors.badge
    else if HasDueDate(task) && IsOverdue(task.completionDate, today, parseDay) then Red
    else colors.badge
  }

  /** `tasks.filter(task => task.status)`. */
  function CompletedTasks(tasks: seq<Task>): (r: seq<Task>)
    ensures |r| <= |tasks|
    ensures forall i :: 0 <= i < |r| ==> r[i].status
  {
    if tasks == [] then []
    else (if tasks[0].status then [tasks[0]] else []) + CompletedTasks(tasks[1..])
  }

  /** `tasks.filter(task => !task.status)`. */
  function PendingTasks(tasks: seq<Task>): (r: seq<Task>)
    ensures |r| <= |tasks|
    ensures forall i :: 0 <= i < |r| ==> !r[i].status
  {
    if tasks == [] then []
    else (if tasks[0].status then [] else [tasks[0]]) + PendingTasks(tasks[1..])
  }

  /** The two filters split the list: together they hold every task exactly once. */
  lemma {:induction false} FiltersPartition(tasks: seq<Task>)
    ensures multiset(CompletedTasks(tasks)) + multiset(PendingTasks(tasks)) == multiset(tasks)
  {
    if tasks != [] {
      var rest := tasks[1..];
      FiltersPartition(rest);
      assert tasks == [tasks[0]] + rest;
      assert multiset(tasks) == multiset{tasks[0]} + multiset(rest);
      if tasks[0].status {
        assert CompletedTasks(tasks) == [tasks[0]] + CompletedTasks(rest);
        assert PendingTasks(tasks) == PendingTasks(rest);
      } else {
        assert CompletedTasks(tasks) == CompletedTasks(rest);
        assert PendingTasks(tasks) == [tasks[0]] + PendingTasks(rest);
      }
    }
  }

  /** The completed count reaches the total exactly when every task is done. */
  lemma {:induction false} AllCompletedCount(tasks: seq<Task>)
    ensures |CompletedTasks(tasks)| == |tasks| <==> forall i :: 0 <= i < |tasks| ==> tasks[i].status
  {
    if tasks != [] {
      AllCompletedCount(tasks[1..]);
      assert forall i :: 1 <= i < |tasks| ==> tasks[i] == tasks[1..][i - 1];
    }
  }

  datatype Stats = Stats(total: nat, completed: nat, pending: nat)

  /** The statistics row: the list length and the lengths of the two filters, which always add up. */
  function StatsOf(tasks: seq<Task>): (s: Stats)
    ensures s.total == |tasks|
    ensures s.completed == |CompletedTasks(tasks)| && s.pending == |PendingTasks(tasks)|
    ensures s.completed + s.pending == s.total
    ensures s.completed == |tasks| <==> forall i :: 0 <= i < |tasks| ==> tasks[i].status
  {
    FiltersPartition(tasks);
    assert |multiset(CompletedTasks(tasks))| + |multiset(PendingTasks(tasks))| == |multiset(tasks)|;
    AllCompletedCount(tasks);
    Stats(|tasks|, |CompletedTasks(tasks)|, |PendingTasks(tasks)|)
  }

  /** The open flag and the selected task of the delete-confirmation and detail modals, kept together. */
  datatype ModalRecord = ModalRecord(isOpen: bool, task: Option<Task>)

  const ClosedModal: ModalRecord := ModalRecord(false, None)

  predicate IsConsistent(m: ModalRecord) {
    m.isOpen <==> m.task.Some?
  }

  /** The backend calls and alerts a handler issues, in order. */
  datatype Call = SelectTasks | DeleteTask(id: string) | Alert(message: string)

  const DeleteFailedMessage: string := "Failed to delete task. Please try again."

  /** The page's state: the task list, the refresh flag and the two modal records. */
  class TasksPage {
    var tasks: seq<Task>
    var isLoading: bool
    var deleteModal: ModalRecord
    var detailModal: ModalRecord

    /** Each modal is open exactly when it holds a task. */
    ghost predicate Valid()
      reads this
    {
      IsConsistent(deleteModal) && IsConsistent(detailModal)
    }

    constructor(initialTasks: seq<Task>)
      ensures Valid()
      ensures tasks == initialTasks && !isLoading
      ensures deleteModal == ClosedModal && detailModal == ClosedModal
    {
      tasks := initialTasks;
      isLoading := false;
      deleteModal := ClosedModal;
      detailModal := ClosedModal;
    }

    /**
     * `refreshTasks`: a failed fetch leaves the list as it was; a successful
     * one replaces it with the rows, or with [] when no data came back. The
     * loading flag is cleared on every path.
     */
    method RefreshTasks(fetch: FetchResult) returns (calls: seq<Call>)
      requires Valid()
      modifies this
      ensures Valid()
      ensures calls == [SelectTasks]
      ensures fetch.FetchFailed? ==> tasks == old(tasks)
      ensures fetch.Fetched? ==> tasks == fetch.data.GetOr([])
      ensures !isLoading
      ensures deleteModal == old(deleteModal) && detailModal == old(detailModal)
    {
      isLoading := true;
      calls := [SelectTasks];
      if fetch.Fetched? {
        tasks := fetch.data.GetOr([]);
      }
      isLoading := false;
    }

    /** `handleDeleteTask`: opens the confirmation for this task. */
    method HandleDeleteTask(task: Task)
      requires Valid()
      modifies this
      ensures Valid()
      ensures deleteModal == ModalRecord(true, Some(task))
      ensures tasks == old(tasks) && isLoading == old(isLoading) && detailModal == old(detailModal)
    {
      deleteModal := ModalRecord(true, Some(task));
    }

    /** `handleCloseDeleteModal`. */
    method HandleCloseDeleteModal()
      requires Valid()
      modifies this
      ensures Valid()
      ensures deleteModal == ClosedModal
      ensures tasks == old(tasks) && isLoading == old(isLoading) && detailModal == old(detailModal)
    {
      deleteModal := ClosedModal;
    }

    /** `handleViewTask`: opens the detail modal on this task. */
    method HandleViewTask(task: Task)
      requires Valid()
      modifies this
      ensures Valid()
      ensures detailModal == ModalRecord(true, Some(task))
      ensures tasks == old(tasks) && isLoading == old(isLoading) && deleteModal == old(deleteModal)
    {
      detailModal := ModalRecord(true, Some(task));
    }

    /** `handleCloseTaskDetailModal`. */
    method HandleCloseTaskDetailModal()
      requires Valid()
      modifies this
      ensures Valid()
      ensures detailModal == ClosedModal
      ensures tasks == old(tasks) && isLoading == old(isLoading) && deleteModal == old(deleteModal)
    {
      detailModal := ClosedModal;
    }

    /**
     * `handleConfirmDelete`, with the refresh it starts on success run to
     * completion. With no selected task nothing happens. Otherwise the selected
     * task's row is deleted by id; on failure an alert is shown and the modal
     * stays open on the same task; on success the modal closes and the list is
     * refreshed.
     */
    method HandleConfirmDelete(result: WriteResult, fetch: FetchResult) returns (calls: seq<Call>)
      requires Valid()
      modifies this
      ensures Valid()
      ensures old(deleteModal.task).None? ==> calls == [] && unchanged(this)
      ensures old(deleteModal.task).Some? && !result.Written? ==>
        calls == [DeleteTask(old(deleteModal.task).value.id), Alert(DeleteFailedMessage)] && unchanged(this)
      ensures old(deleteModal.task).Some? && result.Written? ==>
        calls == [DeleteTask(old(deleteModal.task).value.id), SelectTasks]
        && deleteModal == ClosedModal && detailModal == old(detailModal) && !isLoading
        && tasks == (if fetch.FetchFailed? then old(tasks) else fetch.data.GetOr([]))
    {
      if deleteModal.task.None? {
        return [];
      }
      calls := [DeleteTask(deleteModal.task.value.id)];
      if !result.Written? {
        calls := calls + [Alert(DeleteFailedMessage)];
        return;
      }
      deleteModal := ClosedModal;
      var refresh := RefreshTasks(fetch);
      calls := calls + refresh;
    }
  }
}
