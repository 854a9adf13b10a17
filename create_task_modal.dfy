/**
 * The create-task form: its three text fields, its loading flag, and the
 * submit handler that validates the title, checks for a signed-in user and
 * inserts the normalised row.
 */
module CreateTaskModal {
  import opened Wrappers
  import opened Text
  import opened Nullable
  import opened TaskData
  import opened Backend

  /** The row the form sends to the `tasks` insert. */
  datatype InsertRow = InsertRow(
    title: string,
    description: Option<string>,
    status: bool,
    userId: string,
    completionDate: Option<string>)

  /** The backend calls, alerts and callbacks a submit issues, in order. */
  datatype Call =
    | GetUser
    | Insert(row: InsertRow)
    | Alert(message: string)
    | OnTaskCreated
    | OnClose

  const SignInMessage: string := "Please sign in to create tasks"
  const CreateFailedMessage: string := "Failed to create task. Please try again."

  /**
   * The inserted row: the title trimmed; the description trimmed, or null
   * when nothing is left; the completion date as typed, or null when empty;
   * a new task is never complete, and it belongs to the signed-in user.
   */
  function InsertRowOf(title: string, description: string, completionDate: string, user: User): (row: InsertRow)
    ensures Trim(row.title) == row.title
    ensures !IsBlank(title) ==> row.title != []
    ensures row.title == Trim(title)
    ensures row.description.None? <==> IsBlank(description)
    ensures row.description.Some? ==> row.description.value == Trim(description)
    ensures row.description.Some? ==> row.description.value != [] && Trim(row.description.value) == row.description.value
    ensures row.completionDate.None? <==> completionDate == ""
    ensures row.completionDate.Some? ==> row.completionDate.value == completionDate
    ensures !row.status && row.userId == user.id
  {
    TrimIdempotent(title);
    TrimIdempotent(description);
    InsertRow(Trim(title), OrNull(Trim(description)), false, user.id, OrNull(completionDate))
  }

  /** The submit button's `disabled`: a blank title, or a submit in progress. */
  function SubmitDisabled(title: string, isLoading: bool): (disabled: bool)
    ensures !disabled ==> Trim(title) != [] && !isLoading
    ensures disabled ==> AllWhitespace(title) || isLoading
  {
    IsBlank(title) || isLoading
  }

  class CreateTaskForm {
    var title: string
    var description: string
    var completionDate: string
    var isLoading: bool

    constructor()
      ensures title == "" && description == "" && completionDate == "" && !isLoading
    {
      title, description, completionDate := "", "", "";
      isLoading := false;
    }

    /**
     * `handleSubmit`. A blank title returns at once: no call, no change. With
     * no signed-in user the form shows an alert and keeps its fields; an
     * exception from the user lookup or a failed insert shows the failure
     * alert and keeps them too. A successful insert clears the three fields,
     * then runs `onTaskCreated` and then `onClose`. Every path that set the
     * loading flag clears it.
     */
    method HandleSubmit(lookup: UserLookup, result: WriteResult) returns (calls: seq<Call>)
      modifies this
      ensures IsBlank(old(title)) ==> calls == [] && unchanged(this)
      ensures !IsBlank(old(title)) ==> !isLoading && |calls| >= 2 && calls[0] == GetUser
      ensures !IsBlank(old(title)) && lookup.NoUser? ==>
        calls == [GetUser, Alert(SignInMessage)]
        && title == old(title) && description == old(description) && completionDate == old(completionDate)
      ensures !IsBlank(old(title)) && lookup.LookupThrew? ==>
        calls == [GetUser, Alert(CreateFailedMessage)]
        && title == old(title) && description == old(description) && completionDate == old(completionDate)
      ensures !IsBlank(old(title)) && lookup.Found? && result.Written? ==>
        calls == [GetUser, Insert(InsertRowOf(old(title), old(description), old(completionDate), lookup.user)), OnTaskCreated, OnClose]
        && title == "" && description == "" && completionDate == ""
      ensures !IsBlank(old(title)) && lookup.Found? && !result.Written? ==>
        calls == [GetUser, Insert(InsertRowOf(old(title), old(description), old(completionDate), lookup.user)), Alert(CreateFailedMessage)]
        && title == old(title) && description == old(description) && completionDate == old(completionDate)
    {
      if IsBlank(title) {
        return [];
      }
      isLoading := true;
      match lookup {
        case LookupThrew =>
          calls := [GetUser, Alert(CreateFailedMessage)];
        case NoUser =>
          calls := [GetUser, Alert(SignInMessage)];
        case Found(user) =>
          var row := InsertRowOf(title, description, completionDate, user);
          if result.Written? {
            title, description, completionDate := "", "", "";
            calls := [GetUser, Insert(row), OnTaskCreated, OnClose];
          } else {
            calls := [GetUser, Insert(row), Alert(CreateFailedMessage)];
          }
      }
      isLoading := false;
    }
  }

  /** A submit the button allows gets past the blank-title check, and whatever else the form holds, the row's title is not blank. */
  lemma EnabledSubmitPassesValidation(title: string, isLoading: bool)
    requires !SubmitDisabled(title, isLoading)
    ensures !IsBlank(title)
    ensures forall description, completionDate, user :: !IsBlank(InsertRowOf(title, description, completionDate, user).title)
  {
    TrimOfNonBlankIsNonBlank(title);
  }
}
