# Task tracker front end: route guard, task handlers and theme state in Dafny

This project models the decision logic and handler state machines of a small
Next.js task tracker. The app's real work is done by a hosted auth and
database service, so every answer from that service is a parameter here. Each
event handler is one deterministic step, and it returns the ordered list of
calls it made: backend requests, alerts and parent callbacks.

What is modelled, one Dafny module per source file:

- **Middleware** (`middleware.ts`): the route guard. It takes whether a user
  is signed in and the request pathname. It returns pass-through, a redirect
  to `/login`, or a redirect to `/dashboard`.
- **LoginActions** (`src/app/login/actions.ts`): the `login` and `signup`
  server actions. Each one ends in exactly one redirect. The auth error
  message is URL-encoded by **Uri**, which models `encodeURIComponent`
  (UTF-8, then percent-encoding). Uri also has a reference decoder, used to
  prove that no information is lost: decoding the query value gives back
  exactly the message that was encoded.
- **TasksPageClient** (`src/components/TasksPageClient.tsx`): the pure view
  functions: the overdue test, the badge, the red due date, the card colour
  schemes and the statistics. It also has a `TasksPage` class for the page
  state: the task list, the loading flag, and the delete and detail modal
  records.
- **CreateTaskModal** and **TaskDetailModal**: the form classes and their
  submit, save, cancel and sync handlers, and the insert and update payloads
  they build. **Text** models JavaScript's `trim`. **Nullable** models the
  `s || null` and `x || ''` conversions.
- **Nav** (`src/components/Nav.tsx`): where the navbar is hidden, which link
  is active, the render decision, sign-out, and the `user`/`loading` state.
- **ThemeStore** (`src/lib/store.ts`), **ThemeToggle** and
  **SimpleThemeToggle**: the theme state machines. The root and body class
  lists are sets (module **Dom**). localStorage is a map. JSON values are the
  `Json` datatype, and `JSON.parse`/`JSON.stringify` are a `Codec` passed in
  as a parameter.

Where the code behaves differently from what one might expect, the model follows the code:

- `isOverdue` ignores the task's status and looks only at the date. The
  status is checked separately by the badge and the due-date colour.
  `IsOverdue`, `BadgeOf` and `DueDateIsRed` keep that split.
- `handleSave` sends the edited title untrimmed and never checks it. Only
  the disabled Save button keeps a blank title from being sent
  (`EnabledSaveSendsTitle`).
- A successful create need not add exactly one task to the list. The code
  only calls `onTaskCreated`, and the refresh then shows whatever the backend
  returns. The model proves no more than that.

## Model

| member | source | states |
|---|---|---|
| `Middleware.IsPublicRoute` | middleware.ts:11-12 | a path is public exactly when it equals `/`, `/login` or `/error`; there is no prefix matching |
| `Middleware.Guard` | middleware.ts:14-24 | redirect to login iff signed out on a protected path; redirect to dashboard iff signed in on exactly `/login`; pass-through in every other case |
| `Middleware.NoRedirectLoop` | middleware.ts:15-24 | running the guard again on a redirect's target, with the same session, always passes through |
| `Middleware.SignedOutOutcomes` | middleware.ts:11-17 | signed out: `/`, `/login` and `/error` pass; every other path goes to `/login` |
| `Middleware.SignedInOutcomes` | middleware.ts:20-24 | signed in: only `/login` redirects, and it goes to the dashboard; `/` and `/error` pass |
| `Middleware.ExtendedPublicPathsAreProtected` | middleware.ts:11-12 | `/login/` and `/error/x` are protected |
| `LoginActions.Submit` | src/app/login/actions.ts:8-30 | missing or empty credentials give only the fixed error redirect, with no auth call; an auth error gives the auth call, then the error page with the encoded message; success gives the auth call, then revalidation of `/`, then `/account`; every trace ends in its only redirect |
| `LoginActions.SubmitOutcomes` | src/app/login/actions.ts:12-29 | the last redirect is `/account` iff both fields are filled and auth succeeded; the auth service is called iff both fields are filled |
| `LoginActions.Login` | src/app/login/actions.ts:8-30 | `login` ends in exactly one redirect; it reaches `/account` only on success; it signs in only when both credentials are present |
| `LoginActions.Signup` | src/app/login/actions.ts:32-54 | the same three outcomes for `signup`, with a sign-up call |
| `LoginActions.ErrorUrlCarriesMessage` | src/app/login/actions.ts:24-26 | the error URL is `/error?message=`, then only URI-safe characters, and that query value decodes to exactly the auth message |
| `Uri.EncodeURIComponent` | src/app/login/actions.ts:25 | the output is never shorter than the input; it contains only unreserved characters, `%` and hex digits; strings of unreserved characters are left unchanged |
| `Uri.DecodeEncode` | src/app/login/actions.ts:25 | percent-decoding the encoded text gives back the original string, for every string |
| `Uri.EncodeInjective` | src/app/login/actions.ts:49 | two different error messages never produce the same redirect URL |
| `Text.Trim` | src/components/CreateTaskModal.tsx:21 | `trim` returns the slice of the input that starts after the leading whitespace; it neither starts nor ends with whitespace; only whitespace is cut; the result is empty iff the input is all whitespace |
| `Text.IsBlank` | src/components/CreateTaskModal.tsx:21 | `!s.trim()` holds exactly when the string is empty or all whitespace |
| `Text.TrimIdempotent` | src/components/CreateTaskModal.tsx:37 | trimming a trimmed string changes nothing |
| `Text.TrimOfNonBlankIsNonBlank` | src/components/CreateTaskModal.tsx:21 | a title that passes the blank check still has content after trimming |
| `Nullable.OrNull` | src/components/CreateTaskModal.tsx:41 | `s \|\| null` is null exactly for the empty string and otherwise keeps `s` |
| `Nullable.OrEmpty` | src/components/TaskDetailModal.tsx:37-38 | `x \|\| ''` maps null to the empty string and otherwise keeps `x` |
| `Nullable.OrNullOrEmpty` | src/components/TaskDetailModal.tsx:78-79 | converting null to `''` and back restores every value except a stored empty string, which comes back as null |
| `TasksPageClient.IsOverdue` | src/components/TasksPageClient.tsx:21-29 | a null or empty date is never overdue; otherwise a date is overdue iff its due day is strictly before today; an unparsable date is never overdue |
| `TasksPageClient.OverdueIsMonotone` | src/components/TasksPageClient.tsx:21-29 | a task due today is not overdue; a task that is overdue stays overdue on every later day |
| `TasksPageClient.BadgeOf` | src/components/TasksPageClient.tsx:259-264 | the badge is Completed iff status is true, even when the date has passed; Overdue iff not completed and overdue; Pending otherwise |
| `TasksPageClient.DueDateIsRed` | src/components/TasksPageClient.tsx:291-295 | the due-date text is red exactly when the badge reads Overdue |
| `TasksPageClient.BadgeColor` | src/components/TasksPageClient.tsx:252-258 | the badge is red exactly for an Overdue badge, always green for a completed task, and otherwise the card scheme's own badge colour |
| `TasksPageClient.CardColors` | src/components/TasksPageClient.tsx:122-156 | card `i` uses scheme `i % 5`; the badge is green for a completed task and the scheme's own colour otherwise |
| `TasksPageClient.CardColorsCycle` | src/components/TasksPageClient.tsx:155 | the colour schemes repeat every five cards |
| `TasksPageClient.CompletedTasks` | src/components/TasksPageClient.tsx:214 | the completed filter keeps only tasks whose status is true |
| `TasksPageClient.PendingTasks` | src/components/TasksPageClient.tsx:228 | the pending filter keeps only tasks whose status is false |
| `TasksPageClient.FiltersPartition` | src/components/TasksPageClient.tsx:201-228 | together, the two filters contain every task exactly once (as multisets) |
| `TasksPageClient.AllCompletedCount` | src/components/TasksPageClient.tsx:213-215 | the Completed count equals the total iff every task is done |
| `TasksPageClient.StatsOf` | src/components/TasksPageClient.tsx:193-233 | total is the list length, completed and pending are the lengths of the two filters, and completed + pending = total |
| `TasksPageClient.TasksPage.constructor` | src/components/TasksPageClient.tsx:38-48 | the page starts with the server-rendered tasks, not loading, and both modals closed |
| `TasksPageClient.TasksPage.RefreshTasks` | src/components/TasksPageClient.tsx:50-70 | a failed fetch keeps the list; a successful fetch replaces it with the rows, or with [] when no data came back; loading is false afterwards; the modals are untouched |
| `TasksPageClient.TasksPage.HandleDeleteTask` | src/components/TasksPageClient.tsx:76-78 | opening the delete confirmation stores the chosen task with the open flag |
| `TasksPageClient.TasksPage.HandleCloseDeleteModal` | src/components/TasksPageClient.tsx:105-107 | closing the confirmation clears the flag and the task together |
| `TasksPageClient.TasksPage.HandleViewTask` | src/components/TasksPageClient.tsx:109-111 | opening the detail modal stores the chosen task with the open flag |
| `TasksPageClient.TasksPage.HandleCloseTaskDetailModal` | src/components/TasksPageClient.tsx:113-115 | closing the detail modal clears the flag and the task together |
| `TasksPageClient.TasksPage.HandleConfirmDelete` | src/components/TasksPageClient.tsx:80-103 | with no selected task, nothing happens; otherwise the row is deleted by the task's id; on failure an alert is shown and the modal stays open on the same task; on success the modal closes and a refresh follows |
| `CreateTaskModal.InsertRowOf` | src/components/CreateTaskModal.tsx:35-43 | title is the trimmed title (non-empty when the title is not blank); the description is the trimmed description, or null when blank; the date is sent as typed, or null when empty; status is false; user_id is the signed-in user's id |
| `CreateTaskModal.SubmitDisabled` | src/components/CreateTaskModal.tsx:147 | submit is disabled iff the title is blank or a submit is in progress |
| `CreateTaskModal.EnabledSubmitPassesValidation` | src/components/CreateTaskModal.tsx:147 | a submit that the button allows passes the blank-title check, and whatever description, date and user go with it, the inserted row's title is not blank |
| `CreateTaskModal.CreateTaskForm.constructor` | src/components/CreateTaskModal.tsx:14-17 | the form starts empty and not loading |
| `CreateTaskModal.CreateTaskForm.HandleSubmit` | src/components/CreateTaskModal.tsx:19-63 | a blank title makes no call and no change; no user gives the sign-in alert, no insert, and the fields are kept; an insert error or exception gives the failure alert and the fields are kept; success sends the insert, clears all three fields, then calls onTaskCreated before onClose; loading is false at the end of every path that set it |
| `TaskDetailModal.EditedFrom` | src/components/TaskDetailModal.tsx:33-42 | the form copies title and status, and shows a null description or date as '' |
| `TaskDetailModal.UpdateRowOf` | src/components/TaskDetailModal.tsx:76-81 | the update sends the title untrimmed and the status as edited; an empty description or date is sent as null |
| `TaskDetailModal.UnchangedSaveWritesBack` | src/components/TaskDetailModal.tsx:76-81 | saving without edits writes the task's own values back, except that a stored '' becomes null |
| `TaskDetailModal.UpdateErrorMessage` | src/components/TaskDetailModal.tsx:87 | the update-error alert is "Failed to update task: " followed by the error's message, or by "Unknown error" when that message is empty |
| `TaskDetailModal.SaveDisabled` | src/components/TaskDetailModal.tsx:271 | save is disabled iff loading is in progress or the edited title is blank |
| `TaskDetailModal.EnabledSaveSendsTitle` | src/components/TaskDetailModal.tsx:271 | a save that the button allows never sends a blank title |
| `TaskDetailModal.TaskDetail.constructor` | src/components/TaskDetailModal.tsx:23-30 | the modal starts not editing, not loading, with a blank form |
| `TaskDetailModal.TaskDetail.SyncFromTask` | src/components/TaskDetailModal.tsx:33-42 | a non-null task is copied into the form; null leaves the form unchanged |
| `TaskDetailModal.TaskDetail.StartEditing` | src/components/TaskDetailModal.tsx:146 | the Edit button enters edit mode and changes nothing else |
| `TaskDetailModal.TaskDetail.HandleCancel` | src/components/TaskDetailModal.tsx:102-112 | cancel restores the form from the task, in the same way as the sync, and leaves edit mode |
| `TaskDetailModal.TaskDetail.HandleSave` | src/components/TaskDetailModal.tsx:44-100 | with no task, nothing happens; with no user, or a user who does not own the task, an alert is shown and no update is made; the update targets task.id; on error the modal stays in edit mode with the edits kept; on success edit mode ends, then onTaskUpdated, then onClose; loading ends false |
| `Nav.ShouldHideNavbar` | src/components/Nav.tsx:16-17 | the navbar is hidden iff the path is exactly `/login` or `/error` |
| `Nav.IsActive` | src/components/Nav.tsx:57 | a link is active only on its own page; such a page shows the navbar and lets a signed-in user through the guard |
| `Nav.NavHrefsDistinct` | src/components/Nav.tsx:49-55 | the five links point to different paths |
| `Nav.AtMostOneActive` | src/components/Nav.tsx:57 | no two links are active at the same time |
| `Nav.HiddenOnlyOnPublicRoutes` | src/components/Nav.tsx:16-17 | the navbar is hidden only on routes that the guard never redirects to login |
| `Nav.ViewOf` | src/components/Nav.tsx:38-71 | the navbar renders nothing iff it is hidden; a placeholder iff it is shown and still loading; otherwise the links, each active iff it equals the path, and the signed-in menu iff there is a user |
| `Nav.SignOutCalls` | src/components/Nav.tsx:43-47 | sign-out happens first, then navigation to `/login`, a page that a signed-out visitor may open and where the navbar is hidden |
| `Nav.NavState.constructor` | src/components/Nav.tsx:12-13 | the navbar starts with no user and loading |
| `Nav.NavState.OnInitialUser` | src/components/Nav.tsx:22-26 | the first lookup records its user, or null, and loading ends |
| `Nav.NavState.OnAuthStateChange` | src/components/Nav.tsx:30-33 | an auth event sets the user to the session's user, or null without a session, and loading ends |
| `ThemeStore.Name` | src/lib/store.ts:5 | each theme's name is its own class, `light` or `dark` |
| `ThemeStore.Toggled` | src/lib/store.ts:20-22 | toggling always gives the other theme |
| `ThemeStore.ToggleInvolution` | src/lib/store.ts:20-22 | toggling twice is the identity |
| `ThemeStore.Partialize` | src/lib/store.ts:26 | only the theme is persisted |
| `ThemeStore.PersistedValue` | src/lib/store.ts:24-26 | the stored entry is an object with exactly `state` and `version`, and its `state.theme` is the theme's name |
| `ThemeStore.AppStore.constructor` | src/lib/store.ts:18 | the store starts with the light theme |
| `ThemeStore.AppStore.SetTheme` | src/lib/store.ts:19 | the theme becomes the argument, and only the `lifesync-theme-storage` entry is rewritten |
| `ThemeStore.AppStore.ToggleTheme` | src/lib/store.ts:20-22 | light becomes dark and dark becomes light, and the new theme is saved under the store's key |
| `ThemeStore.SetThemeIdempotent` | src/lib/store.ts:19 | calling setTheme twice with the same theme leaves the same state as one call |
| `Json.Member` | src/components/ThemeToggle.tsx:16 | `value?.key` is present exactly when the value is an object that has the key, and it is then that key's value |
| `Dom.GetItem` | src/components/ThemeToggle.tsx:12 | `getItem` returns the stored string when the key exists, and null otherwise |
| `Dom.WithThemeClass` | src/components/ThemeToggle.tsx:31-42 | after the swap, the class list holds the new class and no other theme class, and every other class it had before |
| `Dom.IsValidToken` | src/components/ThemeToggle.tsx:40-41 | a token `classList.add` accepts is non-empty, and `light` and `dark` are always accepted |
| `Dom.ExactlyOneThemeClass` | src/components/SimpleThemeToggle.tsx:21-30 | after swapping in `light` or `dark`, exactly one theme class is present |
| `Dom.LastSwapWins` | src/components/SimpleThemeToggle.tsx:42-53 | a later swap fully replaces an earlier one |
| `ThemeToggle.MountedTheme` | src/components/ThemeToggle.tsx:11-28 | a missing entry, an empty entry, an unparsable entry, a parsed null, or a missing or falsy `state.theme` all give light; a truthy stored theme that is a valid class is applied as it is, and any other result comes from the store; the applied class is always a valid token, because the catch falls back to light |
| `ThemeToggle.ToggleValue` | src/components/ThemeToggle.tsx:57-59 | the saved object's `state.theme` is the new theme's name |
| `ThemeToggle.NextTheme` | src/components/ThemeToggle.tsx:46 | a click switches from light to dark, and from anything else to light |
| `ThemeToggle.Toggle.constructor` | src/components/ThemeToggle.tsx:7-8 | the component starts light and not mounted |
| `ThemeToggle.Toggle.ApplyTheme` | src/components/ThemeToggle.tsx:31-42 | root and body both swap to the given class; everything else is unchanged |
| `ThemeToggle.Toggle.Mount` | src/components/ThemeToggle.tsx:11-28 | the state and both class lists take the mounted theme; storage is unchanged |
| `ThemeToggle.Toggle.HandleToggle` | src/components/ThemeToggle.tsx:45-62 | the state, both class lists and the saved `{state:{theme}}` entry all move to the new theme together |
| `ThemeToggle.MountAfterToggle` | src/components/ThemeToggle.tsx:12-18 | given a faithful JSON codec, mounting after a toggle gives the toggled theme |
| `ThemeToggle.MountReadsStoreEntry` | src/components/ThemeToggle.tsx:12-16 | given a faithful JSON codec, mounting reads the store's own persisted entry back as the same theme |
| `ThemeToggle.ForeignStoredThemeIsApplied` | src/components/ThemeToggle.tsx:16-18 | any stored theme name other than `light` and `dark` that `classList.add` accepts (such as "blue") is applied as it is, and then neither `light` nor `dark` is present |
| `SimpleThemeToggle.ThemeName` | src/components/SimpleThemeToggle.tsx:45-53 | the class and stored text are `dark` iff isDark is true |
| `SimpleThemeToggle.StoredIsDark` | src/components/SimpleThemeToggle.tsx:13-14 | isDark starts true iff the stored `theme` entry is exactly `dark` |
| `SimpleThemeToggle.SimpleToggle.constructor` | src/components/SimpleThemeToggle.tsx:7 | the component starts with isDark false |
| `SimpleThemeToggle.SimpleToggle.Mount` | src/components/SimpleThemeToggle.tsx:9-32 | isDark comes from storage, root and body get the matching class, and other classes are untouched |
| `SimpleThemeToggle.SimpleToggle.ToggleTheme` | src/components/SimpleThemeToggle.tsx:34-56 | isDark flips, and both class lists and the stored `theme` entry follow it |
| `SimpleThemeToggle.StoredFlagReadsBack` | src/components/SimpleThemeToggle.tsx:13-53 | the entry that a click writes is read back as the same flag on the next mount |
| `SimpleThemeToggle.MountThenToggleTwice` | src/components/SimpleThemeToggle.tsx:13-53 | mounting and then clicking twice leaves the flag and both class lists as mounting alone would, and the stored entry reads back as that flag |

## Left out

- Backend calls are not executed. `getUser`, select, insert, update, delete, `signInWithPassword`, `signUp`, `signOut` and auth-change events are parameters of the handlers. Row-level policies, sessions, token refresh and cookie forwarding (middleware.ts:5-8) are not modelled.
- The matcher pattern in `middleware.ts` is framework routing configuration. The guard is modelled for every path the matcher sends to it.
- React scheduling is out of scope: effects, batched state updates, async interleaving and unmount races. Each handler is one atomic step.
- The refresh that a successful delete starts without awaiting is run to completion inside `HandleConfirmDelete`.
- `handleTaskCreated` and `handleTaskUpdated` only call `refreshTasks`, so `RefreshTasks` models them.
- Date parsing and the clock are parameters. `new Date(s)` at local midnight is `parseDay`: a day number, or none for an Invalid Date. Today is an integer. Time zones and `formatDate` are not modelled.
- Rendering is not modelled beyond the render decisions above: JSX, Tailwind classes beyond the chosen palette, icons, the mobile menu button and the user's initial. `console` output is not modelled. Alerts are `Alert` entries in the call traces.
- `JSON.parse` and `JSON.stringify` are the `Codec` parameter. The read-back lemmas require the codec to be faithful. JSON numbers, booleans and arrays keep only their truthiness and their `String()` text.
- `encodeURIComponent` throws `URIError` on a lone surrogate. That cannot happen here, because a Dafny `char` is a Unicode scalar value.
- `Uri.DecodeURIComponent` is a reference decoder that exists only to state the round trip. It accepts some malformed UTF-8 that the browser's decoder would reject.
- Form entries that are files, rather than strings, are not modelled for `formData.get`.
- The zustand persistence middleware also reloads the store from storage when the store is created. That library behaviour is not modelled, so `ThemeStore.AppStore.constructor` always starts light.
- The `typeof window` check in `SimpleThemeToggle` matters only for server rendering, so it is not modelled.
- `ThemeToggle` renders no button before mount, so no click happens then. The model does not forbid calling `HandleToggle` before `Mount`.
- `SimpleThemeToggle` renders its button whether or not the mount effect has run. So `SimpleToggle.ToggleTheme` may run before `Mount`, both in the source and in the model. A later `Mount` then replaces the flag with the stored value.
- `ThemeToggle.Toggle.Mount`: when adding the stored class throws, the source removes the theme classes from the root and then re-applies light. The model goes straight to the final state.
- That a successful create adds exactly one task to the list depends on the backend's answer to the refresh, so it is not stated.
- The same goes for "a deleted task is absent after the refresh".
- Theme providers, static pages, the account and error pages, the delete-confirmation modal, the create-task button and the type declarations are not modelled.
