/**
 * The task detail modal: the editable copy of the task, the edit and
 * loading flags, the effect that copies the task into the form, cancel,
 * and the save handler with its authentication and ownership checks.
 */
module TaskDetailModal {
  import opened Wrappers
  import opened Text
  import opened Nullable
  import opened TaskData
  import opened Backend

  /** The form's copy of the task: optional columns become '' here. */
  datatype EditedTask = EditedTask(title: string, description: string, completionDate: string, status: bool)

  const BlankEdit: EditedTask := EditedTask("", "", "", false)

  /** The columns the save handler updates. */
  datatype UpdateRow = UpdateRow(title: string, description: Option<string>, completionDate: Option<string>, status: bool)

  /** The backend calls, alerts and callbacks a save issues, in order. */
  datatype Call =
    | GetUser
    | Update(id: string, row: UpdateRow)
    | Alert(message: string)
    | OnTaskUpdated
    | OnClose

  const LoginRequiredMessage: string := "You must be logged in to update tasks."
  const NotOwnerMessage: string := "You can only update your own tasks."
  const UpdateRetryMessage: string := "Failed to update task. Please try again."

  /** The alert for an update error: its message, or 'Unknown error' when the message is empty. */
  function UpdateErrorMessage(message: string): (m: string)
    ensures |m| > |"Failed to update task: "|
    ensures m[..|"Failed to update task: "|] == "Failed to update task: "
    ensures message != "" ==> m[|"Failed to update task: "|..] == message
    ensures message == "" ==> m[|"Failed to update task: "|..] == "Unknown error"
  {
    "Failed to update task: " + (if message == "" then "Unknown error" else message)
  }

  /** The form copy of a task: title and status as they are, a null description or date as ''. */
  function EditedFrom(task: Task): (e: EditedTask)
    ensures e.title == task.title && e.status == task.status
    ensures e.description == task.description.GetOr("")
    ensures e.completionDate == task.completionDate.GetOr("")
  {
    EditedTask(task.title, OrEmpty(task.description), OrEmpty(task.completionDate), task.status)
  }

  /**
   * The update payload: the title as edited, untrimmed; an empty description
   * or date sent as null; the status as edited.
   */
  function UpdateRowOf(e: EditedTask): (row: UpdateRow)
    ensures row.title == e.title && row.status == e.status
    ensures row.description.None? <==> e.description == ""
    ensures row.description.Some? ==> row.description.value == e.description
    ensures row.completionDate.None? <==> e.completionDate == ""
    ensures row.completionDate.Some? ==> row.completionDate.value == e.completionDate
  {
    UpdateRow(e.title, OrNull(e.description), OrNull(e.completionDate), e.status)
  }

  /**
   * Saving without editing writes the task's own values back, except that a
   * description or date stored as '' comes back as null.
   */
  lemma UnchangedSaveWritesBack(task: Task)
    ensures UpdateRowOf(EditedFrom(task)) == UpdateRow(
      task.title,
      if task.description == Some("") then None else task.description,
      if task.completionDate == Some("") then None else task.completionDate,
      task.status)
  {
    OrNullOrEmpty(task.description);
    OrNullOrEmpty(task.completionDate);
  }

  /** The save button's `disabled`: a save in progress, or an edited title that is blank. */
  function SaveDisabled(isLoading: bool, e: EditedTask): (disabled: bool)
    ensures !disabled ==> !isLoading && Trim(e.title) != []
    ensures disabled ==> isLoading || AllWhitespace(e.title)
  {
    isLoading || IsBlank(e.title)
  }

  class TaskDetail {
    var isEditing: bool
    var isLoading: bool
    var edited: EditedTask

    constructor()
      ensures !isEditing && !isLoading && edited == BlankEdit
    {
      isEditing, isLoading := false, false;
      edited := BlankEdit;
    }

    /** The effect on the `task` prop: a non-null task is copied into the form; null leaves the form alone. */
    method SyncFromTask(task: Option<Task>)
      modifies this
      ensures edited == (if task.Some? then EditedFrom(task.value) else old(edited))
      ensures isEditing == old(isEditing) && isLoading == old(isLoading)
    {
      if task.Some? {
        edited := EditedFrom(task.value);
      }
    }

    /** The Edit button. */
    method StartEditing()
      modifies this
      ensures isEditing
      ensures edited == old(edited) && isLoading == old(isLoading)
    {
      isEditing := true;
    }

    /** `handleCancel`: the form goes back to the task's values, and edit mode ends. */
    method HandleCancel(task: Option<Task>)
      modifies this
      ensures edited == (if task.Some? then EditedFrom(task.value) else old(edited))
      ensures !isEditing && isLoading == old(isLoading)
    {
      if task.Some? {
        edited := EditedFrom(task.value);
      }
      isEditing := false;
    }

    /**
     * `handleSave`. With no task nothing happens. Otherwise the user is
     * looked up; with no user, or a user who does not own the task, an alert
     * is shown and no update is issued. The update targets the task's id.
     * On failure the alert is shown and the modal stays as it was, edits
     * kept; on success edit mode ends, then `onTaskUpdated` runs, then
     * `onClose`. The edits themselves are never changed by a save, and the
     * loading flag is clear at the end of every path that set it.
     */
    method HandleSave(task: Option<Task>, lookup: UserLookup, result: WriteResult) returns (calls: seq<Call>)
      modifies this
      ensures edited == old(edited)
      ensures task.None? ==> calls == [] && unchanged(this)
      ensures task.Some? ==> !isLoading && |calls| >= 2 && calls[0] == GetUser
      ensures task.Some? && lookup.NoUser? ==> calls == [GetUser, Alert(LoginRequiredMessage)] && isEditing == old(isEditing)
      ensures task.Some? && lookup.LookupThrew? ==> calls == [GetUser, Alert(UpdateRetryMessage)] && isEditing == old(isEditing)
      ensures task.Some? && lookup.Found? && lookup.user.id != task.value.userId ==>
        calls == [GetUser, Alert(NotOwnerMessage)] && isEditing == old(isEditing)
      ensures task.Some? && lookup.Found? && lookup.user.id == task.value.userId ==>
        calls[..2] == [GetUser, Update(task.value.id, UpdateRowOf(old(edited)))]
      ensures task.Some? && lookup.Found? && lookup.user.id == task.value.userId && result.Written? ==>
        calls[2..] == [OnTaskUpdated, OnClose] && !isEditing
      ensures task.Some? && lookup.Found? && lookup.user.id == task.value.userId && result.WriteError? ==>
        calls[2..] == [Alert(UpdateErrorMessage(result.message))] && isEditing == old(isEditing)
      ensures task.Some? && lookup.Found? && lookup.user.id == task.value.userId && result.WriteThrew? ==>
        calls[2..] == [Alert(UpdateRetryMessage)] && isEditing == old(isEditing)
    {
      if task.None? {
        return [];
      }
      isLoading := true;
      match lookup {
        case LookupThrew =>
          calls := [GetUser, Alert(UpdateRetryMessage)];
        case NoUser =>
          calls := [GetUser, Alert(LoginRequiredMessage)];
        case Found(user) =>
          if task.value.userId != user.id {
            calls := [GetUser, Alert(NotOwnerMessage)];
          } else {
            var update := Update(task.value.id, UpdateRowOf(edited));
            match result {
              case WriteError(message) =>
                calls := [GetUser, update, Alert(UpdateErrorMessage(message))];
              case WriteThrew =>
                calls := [GetUser, update, Alert(UpdateRetryMessage)];
              case Written =>
                isEditing := false;
                calls := [GetUser, update, OnTaskUpdated, OnClose];
            }
          }
      }
      isLoading := false;
    }
  }

  /** A save the button allows never sends a blank title. */
  lemma EnabledSaveSendsTitle(isLoading: bool, e: EditedTask)
    requires !SaveDisabled(isLoading, e)
    ensures !IsBlank(UpdateRowOf(e).title)
  {
  }
}
