# MindTrail core in Dafny

MindTrail is a single-page app where a developer keeps track of side
projects. Each project has a status (`active`, `paused`, `planned`, ...), a
progress percentage, tags and an optional GitHub repository. Each project also
has Kanban tasks (`todo`, `in-progress`, `done`) and "memory snapshots" of
what the developer was thinking when they last stopped. This project models
the logic underneath the screens and proves properties about it:

- **Sync engine** (`Sync`, `DataService`). Every mutation of the dataset is
  optimistic. The local state changes at once. The database's answer then
  either confirms the change (a temporary entry becomes the server row) or
  rolls it back. Without a signed-in user every mutation is a silent no-op.
  The database adapter refuses every write when no client is configured.
  Loading prefers the remote rows and caches them; otherwise it falls back
  to the browser cache.
- **View model** (`ViewModel`). This is the search and status filter of the
  project list and its sort by recency, progress or title in either
  direction. It also covers the tasks of the visible projects and the
  overview's completed-task count.
- **Views and forms**:
  - the Kanban grouping and drag-and-drop status change (`Kanban`);
  - the relative-time, status-badge and statistics helpers (`Formatters`);
  - the status-filter toggle (`FilterDropdown`);
  - the comma-separated tag field (`Tags`);
  - the edit form's diff-on-save (`EditProject`);
  - the creation forms (`NewModals`);
  - the timeline's grouping by day (`Timeline`);
  - the GitHub URL parser and commit metadata (`Github`);
  - the avatar initial (`Sidebar`);
  - the password-change validation (`Settings`).

The database, the clock, `crypto.randomUUID`, GitHub's API and the browser's
date formatting are not called. Each enters as a parameter:
- a `Response` is the database's `{ data, error }` answer;
- `now` and `tempId` are the clock and the temporary id;
- `dayKey` is `toLocaleDateString`;
- `time` is `Date.getTime`;
- `defaultBranch` and `headCommit` are the two Octokit calls.

Toasts become a `Notice` (`Silent`, `Succeeded`, `Failed`).

Shared helpers: `Seqs` holds `Option`, `Filter`, find/replace/remove by key
and subsequence facts. `Text` holds the JavaScript string operations used:
`trim`, `split`, `join`, `includes`, and ASCII `toLowerCase`/`toUpperCase`.
`Types` holds the entities and database rows.

## Model

| member | source | states |
|---|---|---|
| DataService.Deliver | src/services/dataService.ts:53-60 | When no client is configured the caller sees `{ data: null, error }` whatever the database would have said; a sent call yields the database's answer unchanged. |
| DataService.ProjectUpdate | src/services/dataService.ts:62-75 | The project update payload keeps every field. `lastWorkedOn` moves to `last_worked_on` exactly when it is truthy, and a falsy one stays under its in-memory name. The repository URL is sent as given. |
| DataService.TaskUpdate | src/services/dataService.ts:101-111 | The task update payload keeps title and status. `projectId` moves to `project_id` exactly when it is truthy. |
| DataService.UpdatePayloadsRoundTrip | src/services/dataService.ts:62-111 | Neither update payload loses information: reading it back gives the original patch. |
| DataService.UnconfiguredRefusesEveryWrite | src/services/dataService.ts:53-116 | Without a configured client, all seven write adapters send nothing and each resolves to a failure with no data. |
| DataService.FetchRemoteData | src/services/dataService.ts:25-51 | The remote load yields data exactly when a client exists, a user is signed in and none of the three selects fails. Missing `data` reads as an empty list. |
| DataService.SaveLocalData | src/services/dataService.ts:6-13 | Saving touches only the `mindtrail_data` key. A failing write is swallowed and storage stays as it was. |
| DataService.LoadLocalData | src/services/dataService.ts:15-23 | The cache yields a dataset exactly when the key holds parseable serialized data; it yields null otherwise. |
| DataService.LocalCacheRoundTrip | src/services/dataService.ts:6-23 | A dataset that was saved successfully is loaded back unchanged. |
| Sync.InsertPayloadsRoundTrip | src/hooks/useMindTrailStorage.ts:7-35 | Mapping an insert payload back through `mapToProject`, `mapToTask` or `mapToSnapshot` gives the entity that was sent. |
| Sync.RowsRoundTrip | src/hooks/useMindTrailStorage.ts:7-35 | The row mappers lose nothing from a row whose description and colour are strings, except that null tags become `[]`. |
| Sync.AddProjectLocal | src/hooks/useMindTrailStorage.ts:70-84 | The optimistic step puts a new project at the head and leaves the rest of the list untouched. The new project is `planned`, has 0 progress, the temporary id, the current time, the signed-in owner and the typed fields. With no user nothing changes. |
| Sync.AddProject | src/hooks/useMindTrailStorage.ts:70-105 | With a user, the success toast shows exactly when a configured client answers with a row and no error, otherwise the error toast. Tasks and snapshots never change. Without a user nothing happens. |
| Sync.AddProjectConfirmed | src/hooks/useMindTrailStorage.ts:84-92 | A saved project takes the temporary entry's place at the head, nothing else moves, and the success toast shows. |
| Sync.AddProjectRejected | src/hooks/useMindTrailStorage.ts:84-96 | Any failure removes the temporary entry, so the dataset is exactly as before, and the error toast shows. |
| Sync.SaveSnapshotLocal | src/hooks/useMindTrailStorage.ts:164-178 | A new snapshot goes at the tail with the project, thoughts, metadata, time and owner given; nothing else changes. |
| Sync.SaveSnapshot | src/hooks/useMindTrailStorage.ts:164-198 | With a user, the success toast shows exactly when a configured client answers with a row and no error, otherwise the error toast. Projects and tasks never change. |
| Sync.SaveSnapshotConfirmed | src/hooks/useMindTrailStorage.ts:178-186 | A saved snapshot replaces the temporary entry at the tail. |
| Sync.SaveSnapshotRejected | src/hooks/useMindTrailStorage.ts:178-190 | A failed save leaves the dataset exactly as before. |
| Sync.AddTaskLocal | src/hooks/useMindTrailStorage.ts:200-212 | A new task in `todo` goes at the head with the temporary id and the owner; nothing else changes. |
| Sync.AddTask | src/hooks/useMindTrailStorage.ts:200-231 | With a user, the success toast shows exactly when a configured client answers with a row and no error, otherwise the error toast. Projects and snapshots never change. |
| Sync.AddTaskConfirmed | src/hooks/useMindTrailStorage.ts:212-219 | A saved task replaces the temporary entry at the head. |
| Sync.AddTaskRejected | src/hooks/useMindTrailStorage.ts:212-223 | A failed add leaves the dataset exactly as before. |
| Sync.MergeLaws | src/hooks/useMindTrailStorage.ts:111-117 | The spread merge `{ ...p, ...u }` keeps id and owner, does nothing with an empty patch, and is idempotent. The same holds for tasks. |
| Sync.UpdateProjectLocal | src/hooks/useMindTrailStorage.ts:107-117 | Only projects with the id change; each becomes the first such project merged with the patch. Tasks and snapshots are untouched. An unknown id or no user changes nothing. |
| Sync.UpdateProject | src/hooks/useMindTrailStorage.ts:107-137 | With a user, the error toast shows exactly when the call is refused or fails, and then the dataset is as before. Any other answer ends in the success toast. The list keeps its length, and tasks and snapshots never change. |
| Sync.UpdateProjectRolledBack | src/hooks/useMindTrailStorage.ts:118-124 | A rejected update restores the whole dataset as it was before the call. |
| Sync.UpdateProjectConfirmed | src/hooks/useMindTrailStorage.ts:118-131 | A saved update leaves the server row wherever the id was; every other project is as before. |
| Sync.UpdateProjectUnanswered | src/hooks/useMindTrailStorage.ts:118-136 | No error but no row: the promise resolves, so the optimistic merge stays and the success toast shows. |
| Sync.UpdateTaskLocal | src/hooks/useMindTrailStorage.ts:233-241 | Only tasks with the id change, to the first such task merged with the patch. |
| Sync.UpdateTask | src/hooks/useMindTrailStorage.ts:233-258 | With a user, the error toast shows exactly when the call is refused or fails, and then the dataset is as before. The list keeps its length, and projects and snapshots never change. |
| Sync.UpdateTaskNotice | src/hooks/useMindTrailStorage.ts:243-257 | The success toast shows exactly for a saved edit that carries no status. The error toast shows exactly for a rejected call. |
| Sync.UpdateTaskUnanswered | src/hooks/useMindTrailStorage.ts:243-257 | No error but no row: the optimistic merge stays and no toast shows. |
| Sync.UpdateTaskRolledBack | src/hooks/useMindTrailStorage.ts:243-247 | A rejected task update restores the dataset. |
| Sync.UpdateTaskConfirmed | src/hooks/useMindTrailStorage.ts:243-253 | A saved task update leaves the server row wherever the id was. |
| Sync.DeleteProject | src/hooks/useMindTrailStorage.ts:139-162 | On success the projects are exactly those whose id differs, in their order and multiplicity, and never a task or snapshot goes. The error toast shows exactly on failure, and then the dataset is restored. |
| Sync.DeleteTask | src/hooks/useMindTrailStorage.ts:260-283 | On success the tasks are exactly those whose id differs, in their order. Projects and snapshots never change. The error toast shows exactly on failure, and then the dataset is restored. |
| Sync.NoUserNoChange | src/hooks/useMindTrailStorage.ts:43-283 | Signed out, every mutation is a silent no-op, and loading yields the empty dataset. |
| Sync.LoadData | src/hooks/useMindTrailStorage.ts:42-68 | Signed out, the data is empty. Remote rows are mapped and shown, and cached when storage is writable. Without remote data, the cached dataset or else the current one is shown, and storage is untouched. |
| Sync.RemoteLoadIsCached | src/hooks/useMindTrailStorage.ts:43-59 | After a remote load the cache holds exactly the mapped data that is shown. |
| Sync.FetchErrorFallsBack | src/hooks/useMindTrailStorage.ts:50-63 | An error on any collection falls back to the cache, or keeps the current data; storage is not written. |
| Sync.OfflineReloadRestoresSaved | src/hooks/useMindTrailStorage.ts:50-63 | Save, then load offline: the saved dataset is shown. |
| ViewModel.SearchFilter | src/App.tsx:103-109 | A project passes the search exactly when the term is empty, or the term lower-cased occurs in the lower-cased title, description or one of its tags. |
| ViewModel.StatusFilter | src/App.tsx:112-114 | A project passes exactly when no status is selected or its status is among those selected. |
| ViewModel.FilterStagesAgree | src/App.tsx:99-114 | The two filter stages together equal one filter by the combined condition. |
| ViewModel.LexCompare | src/App.tsx:124 | The title comparison has the sign convention of `localeCompare` and is 0 exactly for equal titles. |
| ViewModel.CompareAntisymmetric | src/App.tsx:117-128 | Swapping two projects negates the comparator, for every key and order. |
| ViewModel.CompareTransitive | src/App.tsx:117-128 | The comparator is transitive, for every key and order, so sorting by it is well defined. |
| ViewModel.SortProjects | src/App.tsx:117-128 | The sort is a permutation of its input, and neighbours are in comparator order. |
| ViewModel.SortedEverywhere | src/App.tsx:117-128 | Neighbour order extends to every pair. |
| ViewModel.FilteredAndSorted | src/App.tsx:99-131 | The list shown holds exactly the projects passing both filters, each as often as in the input, with every pair in comparator order. |
| ViewModel.ProgressOrdered | src/App.tsx:117-128 | Sorted by progress: non-increasing under `desc`, non-decreasing under `asc`. |
| ViewModel.RecencyOrdered | src/App.tsx:117-128 | Sorted by last worked on: most recent first under `desc`, oldest first under `asc`. |
| ViewModel.TitleOrdered | src/App.tsx:117-128 | Sorted by title, `desc` (the default) gives A to Z and `asc` Z to A. This is because the title comparison is not reversed like the other two. |
| ViewModel.FilteredTasks | src/App.tsx:133-136 | The Kanban tasks are exactly the tasks whose project is visible, each as often as it occurs and in task order. |
| ViewModel.TasksIgnoreSortOrder | src/App.tsx:133-136 | Which tasks show depends only on which projects are visible, not on their order. |
| ViewModel.CompletedTasks | src/components/OverviewView.tsx:18 | The completed count is at most the number of tasks. It is 0 exactly when no task is done, and equals the number of tasks exactly when all are done. |
| ViewModel.CompletedTasksCounted | src/components/OverviewView.tsx:18 | The completed count equals the number of done tasks, counted one task at a time. |
| ViewModel.CompletedIgnoresFilters | src/App.tsx:150-153 | The overview gets the unfiltered tasks, so its completed count is never below the count over the visible tasks. |
| Kanban.GroupByColumn | src/components/KanbanView.tsx:89-97 | Each column gets exactly the tasks with its status, in input order. |
| Kanban.ColumnMembership | src/components/KanbanView.tsx:89-97 | A task with a column status is in that column and no other. A task with any other status is in no column. Each column is a subsequence of the input. |
| Kanban.ColumnSizes | src/components/KanbanView.tsx:30-34 | The three columns together hold as many tasks as carry one of the three statuses. |
| Kanban.DragEnd | src/components/KanbanView.tsx:105-127 | A drag updates nothing without a drop target, when dropped on itself, or for an unknown task. Otherwise it is a status-only patch for the dragged task, to a target column that is set and differs from its status. |
| Kanban.TargetColumn | src/components/KanbanView.tsx:118-122 | A drop on a column id targets that column. A drop on anything else targets the container of the card under the cursor, which may be absent. |
| Kanban.DropOnOwnColumn | src/components/KanbanView.tsx:120-126 | Dropping a task onto its own column issues nothing. |
| Kanban.DragIssuesUpdate | src/components/KanbanView.tsx:113-126 | A drop issues an update exactly when the target is set and differs from the status of the first task with the dragged id. |
| Kanban.DragUpdateIsSilent | src/components/KanbanView.tsx:124-126 | A drag-driven update always carries a status, so `updateTask` never shows its success toast for it. |
| Formatters.TimeAgo | src/utils/formatters.ts:3-28 | Each unit covers its interval: under a minute is "Just now", then minutes 1-59, hours 1-23, days 1-6 and weeks. The count is the whole number of units elapsed. |
| Formatters.TimeAgoMonotone | src/utils/formatters.ts:3-28 | More elapsed time never lands in a shorter unit, nor on a smaller count of the same unit. |
| Formatters.DecimalRoundTrip | src/utils/formatters.ts:13-27 | The printed count reads back as the same number. |
| Formatters.FormatTimeAgoShape | src/utils/formatters.ts:3-28 | Under a minute, including a date in the future, the text is "Just now". Otherwise it is the elapsed time floored by the largest fitting unit, capped at weeks. The count is in decimal without a leading zero, followed by `m`, `h`, `d` or `w` and " ago". The chained floors equal one floor by the unit. |
| Formatters.FormatTimeAgo | src/utils/formatters.ts:3-28 | The text is "Just now" exactly when less than a minute has passed. |
| Formatters.StatusColor | src/utils/formatters.ts:30-41 | The muted badge is used exactly for statuses other than active, paused and planned. |
| Formatters.StatusColorsDistinct | src/utils/formatters.ts:30-41 | The three known statuses get three different badges. |
| Formatters.SumProgressBounds | src/utils/formatters.ts:45-47 | With percentages only, the progress sum lies between 0 and 100 per project. |
| Formatters.RoundHalfUp | src/utils/formatters.ts:46 | The result is the integer nearest to the quotient, with halves rounding up, as `Math.round` does. |
| Formatters.ProjectStats | src/utils/formatters.ts:43-50 | The active count is at most the number of projects and is 0 exactly when none is active. The average is 0 for no projects; otherwise it is the sum over the count, rounded half up. |
| Formatters.ActiveProjectsCounted | src/utils/formatters.ts:44 | The active count equals the number of active projects, counted one project at a time. |
| Formatters.AverageIsPercentage | src/utils/formatters.ts:43-50 | With percentages only, the average progress is a percentage. |
| FilterDropdown.Without | src/components/FilterDropdown.tsx:41 | Removing a status keeps every other status as often as it occurs and in order. It is the filter by `s !== status`. |
| FilterDropdown.Toggle | src/components/FilterDropdown.tsx:39-44 | The toggled status is selected afterwards exactly when it was not before; every other status is unaffected. |
| FilterDropdown.ToggleKeepsOthers | src/components/FilterDropdown.tsx:39-44 | The other statuses keep their relative order. |
| FilterDropdown.ToggleKeepsNoDup | src/components/FilterDropdown.tsx:39-44 | A selection without repeats stays without repeats. |
| FilterDropdown.ToggleTwice | src/components/FilterDropdown.tsx:39-44 | Toggling twice from absence restores the selection; from presence it restores the same statuses. |
| Tags.TrimmedPieces | src/components/NewProjectModal.tsx:34 | Splitting on commas and trimming gives one trimmed piece per comma-separated part. |
| Tags.ParseTags | src/components/NewProjectModal.tsx:34 | The parsed tags are exactly the non-empty trimmed pieces, each as often as typed and in input order. Each is free of commas and surrounding blanks. |
| Tags.ParseJoin | src/components/EditProjectModal.tsx:109 | Showing tags joined with ", " and parsing the field again gives the same tags, for tags that are non-empty, trimmed and comma-free. |
| EditProject.UrlForForm | src/components/EditProjectModal.tsx:113 | The form holds a URL exactly when the project's URL is a non-empty string. |
| EditProject.Diff | src/components/EditProjectModal.tsx:144-152 | A field is in the update exactly when its edited value differs from the project's. Tags are compared as whole lists. A changed URL is never sent as null; it is sent as `undefined` exactly when the form's URL is null or empty. |
| EditProject.DiffThenMerge | src/components/EditProjectModal.tsx:142-155 | Merging the update into the project yields the edited values and keeps id and timestamp. |
| EditProject.HandleSave | src/components/EditProjectModal.tsx:142-160 | Save does nothing without a project or with a blank title. It only closes when nothing changed; otherwise it sends the non-empty diff for the project's id. |
| EditProject.UntouchedFormOnlyCloses | src/components/EditProjectModal.tsx:105-160 | Opening and saving at once only closes, provided the tags survive a show-and-parse cycle and the URL is null or non-empty. |
| EditProject.OpenEditForm | src/components/EditProjectModal.tsx:105-116 | Opening fills the fields as stored. The tags are joined for display and parse back to the stored tags when each is canonical. The URL is present exactly when it is a non-empty string. |
| EditProject.UndefinedUrlIsAlwaysSent | src/components/EditProjectModal.tsx:113-152 | A project whose URL is undefined is always saved, even untouched, with `github_repo_url: undefined`. |
| EditProject.FilterRepos | src/components/EditProjectModal.tsx:162 | The repository search keeps exactly the repositories whose lower-cased name contains the lower-cased term, each as often as listed and in order. An empty term keeps all. |
| NewModals.ProjectFormAfter | src/components/NewProjectModal.tsx:20-27 | Closing resets every field, with the first palette colour; opening keeps the fields. |
| NewModals.SaveNewProject | src/components/NewProjectModal.tsx:29-38 | A payload is made exactly for a non-blank title. It carries title, description and colour as typed, and exactly the tags the field parses to. |
| NewModals.BlankProjectFormNeverSaves | src/components/NewProjectModal.tsx:20-38 | A freshly reset form cannot be saved. |
| NewModals.TaskFormAfter | src/components/NewTaskModal.tsx:17-22 | Opening blanks the title and selects the first project, or none. |
| NewModals.SaveNewTask | src/components/NewTaskModal.tsx:24-31 | A task is saved exactly for a non-blank title and a selected project. |
| NewModals.NoProjectsNoTask | src/components/NewTaskModal.tsx:17-31 | With no projects, nothing is saved whatever title is typed. |
| NewModals.FirstProjectIsDefault | src/components/NewTaskModal.tsx:17-31 | With projects, a non-blank title saves under the first project. |
| Timeline.KeyIndexFound | src/components/TimelineView.tsx:26 | The lookup finds a group exactly when a group with that day exists. |
| Timeline.AddToGroupsProjects | src/components/TimelineView.tsx:26-29 | One push grows only the group with the day, by the project at its end. |
| Timeline.AddToGroupsKeys | src/components/TimelineView.tsx:26-29 | One push adds a group, at the end, only for a new day. |
| Timeline.GroupByDateKeys | src/components/TimelineView.tsx:16-36 | The groups are keyed by the distinct days, in order of first appearance. |
| Timeline.GroupByDate | src/components/TimelineView.tsx:16-36 | There are no groups for no projects, otherwise at least one and at most one per project, and no group is empty. |
| Timeline.GroupByDateProjects | src/components/TimelineView.tsx:16-36 | Each group holds exactly the projects of its day, in input order. |
| Timeline.GroupByDateFlatten | src/components/TimelineView.tsx:16-33 | The groups together hold every project, each as often as in the input. |
| Timeline.ExactlyOneGroup | src/components/TimelineView.tsx:16-36 | Each project is in the group of its day and in no other, and days are not repeated. |
| Timeline.GroupsEmptyIffNoProjects | src/components/TimelineView.tsx:35-40 | There are no groups exactly when there are no projects. |
| Github.MatchAt | src/services/githubService.ts:8 | A match at a position is the host, a non-empty slash-free owner, a slash and a non-empty slash-free repository that ends at a slash or the end. |
| Github.MatchAtComplete | src/services/githubService.ts:8 | Whatever the pattern describes at a position is what the matcher finds there. |
| Github.ParseRepoUrl | src/services/githubService.ts:7-11 | The parse fails exactly when the pattern matches nowhere. Otherwise it returns the leftmost match, with non-empty, slash-free owner and repository. |
| Github.LeftmostMatch | src/services/githubService.ts:7-11 | A match with none before it is what the parser returns. |
| Github.ParseRepoUrlRoundTrip | src/services/githubService.ts:7-11 | A URL of the form `https://github.com/owner/repo`, optionally followed by a path, parses back to that owner and repository. |
| Github.GitSuffixKept | src/services/githubService.ts:8-10 | A `.git` suffix stays part of the repository name. |
| Github.LatestCommitInfo | src/services/githubService.ts:37-58 | Metadata exists exactly when the URL parses and both API calls succeed. It then names `owner/repo`, the default branch and that branch's head commit. |
| Github.MetadataRepoParses | src/services/githubService.ts:37-53 | The recorded `owner/repo` parses back to the same repository. |
| Sidebar.UserInitial | src/components/Sidebar.tsx:23-29 | The initial is one character. It is the upper-cased first letter of a non-empty string name; otherwise the upper-cased first letter of the email; otherwise `?`. |
| Sidebar.IgnoredNamesAgree | src/components/Sidebar.tsx:24-28 | A missing name, a name that is not a string and an empty name are ignored alike. |
| Sidebar.InitialNotLowercase | src/components/Sidebar.tsx:26-28 | The initial is never a lower-case ASCII letter. |
| Sidebar.NoSourceGivesQuestionMark | src/components/Sidebar.tsx:28 | Signed out, or with neither name nor email, the avatar shows `?`. |
| Settings.CheckPassword | src/components/SettingsView.tsx:42-56 | The check does nothing without a user or client. Otherwise it reports a mismatch first, even for a short password, then a password shorter than six characters, and only then sends the password, which equals its confirmation. |
| Settings.FinishPasswordUpdate | src/components/SettingsView.tsx:59-65 | Success clears both fields; failure keeps them. |
| Settings.ClearedFormIsRejected | src/components/SettingsView.tsx:50-65 | After a successful change the cleared form is rejected as too short. |
| Settings.FailedChangeCanBeRetried | src/components/SettingsView.tsx:46-65 | After a failed change the same click gives the same outcome. |

## Left out

- Network, database and GitHub API: the Supabase client and Octokit are not modelled. Their answers are inputs, and `getUserRepos`, `getRepoDetails` and `handleFetchRepos` only fetch and display.
- Asynchrony: overlapping mutations are not modelled. These are a second call that starts before the first settles, or a rollback to a list captured by a stale closure. Each hook call is read sequentially, local step then settle step.
- Clock, random ids and dates: `new Date()`, `crypto.randomUUID()`, `Date.getTime` and `toLocaleDateString` are parameters. Invalid dates (`NaN`) are not modelled.
- JSON and `localStorage`: serialization is a `Serialized` slot that reads back exactly. Unparseable text is one opaque value, and a throwing `setItem` is the `writable` flag.
- Toasts and rendering: `toast.promise` messages become a `Notice`. Animation, layout and the React render cycle are not modelled.
- ViewModel.LexCompare: `localeCompare` is modelled as code-point order. Locale collation rules are not modelled.
- Text.Lower: `toLowerCase` and `toUpperCase` map ASCII letters only. Unicode case mapping is not modelled.
- Sidebar.UserInitial: `charAt(0)` is the first `char`. UTF-16 surrogate pairs are not modelled.
- Settings.CheckPassword: `password.length` is the number of `char`s, not UTF-16 code units.
- `handleProfileUpdate` and the profile form of the settings screen: one `updateUser` call with no logic of its own.
- `Object.keys` order: timeline groups are listed in insertion order. That is the order for keys that are not array indices, which a formatted date never is.
- `KanbanView` `grouped[task.status]`: only the three column ids are looked up. Inherited object keys such as `constructor` are not modelled.
- Sync.RowsRoundTrip: the database row type allows null `description` and `color`, while `ProjectRow` holds both as strings. The round trip is stated only for rows where both are strings.
- ProjectRow: description and color assumed non-null. `mapToProject` would copy a null into fields the entity types declare as strings, and what the views then do with it (`toLowerCase` in the search, the form fields) is not modelled.
- Sync.UpdateProjectSettle: with no error and no row, the queued updater calls `mapToProject(null)` on the next render if a project has the id, and that render throws. The model ends with the optimistic state and the success toast, and does not model the crash.
- ViewModel.SortProjects: the order of projects that compare equal is not stated. The contract gives the permutation and the comparator order only.
- DataService.Stored: cached text that parses as JSON but is not a dataset (`"42"`, `{}`) is not representable. A slot holds either a dataset or unreadable text.
- MemorySnapshotModal, EditTaskModal, ProjectCard, TaskCard, Header, Auth and AuthContext: UI around the modelled operations, not part of this model.
