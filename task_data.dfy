/** The records the task components pass around. */
module TaskData {
  import opened Wrappers

  /**
   * A row of the `tasks` table. The generated row type has no
   * `completion_date`, but every component reads and writes that column, so
   * it is here as an optional field. Dates and timestamps stay the strings
   * the backend returns.
   */
  datatype Task = Task(
    id: string,
    userId: string,
    title: string,
    description: Option<string>,
    status: bool,
    createdAt: string,
    updatedAt: string,
    completionDate: Option<string>)

  /** The signed-in user as the auth client reports it. */
  datatype User = User(id: string, email: Option<string>)
}

/**
 * What the hosted backend answers. Every handler takes these answers as
 * parameters, so each handler is one deterministic step.
 */
module Backend {
  import opened Wrappers
  import opened TaskData

  /** `supabase.auth.getUser()`: a user, no user (also when it reports an auth error), or a thrown exception. */
  datatype UserLookup = Found(user: User) | NoUser | LookupThrew

  /** An insert, update or delete: success, an error object carrying a message, or a thrown exception. */
  datatype WriteResult = Written | WriteError(message: string) | WriteThrew

  /** The task `select`: the rows (`null` when no data came back), or an error returned or thrown. */
  datatype FetchResult = Fetched(data: Option<seq<Task>>) | FetchFailed
}
