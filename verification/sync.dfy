/**
 * The optimistic sync engine of `src/hooks/useMindTrailStorage.ts`.
 *
 * Every mutation is two explicit steps: an optimistic local step applied at
 * once, and a settle step that consumes the database's answer and either
 * confirms (the temporary entry becomes the server row) or rolls back (the
 * temporary entry is removed, or the pre-mutation collection is restored).
 * Toasts become a `Notice`. The composite functions (`AddProject`, ...) run
 * both steps back to back, which is the sequential reading of each hook.
 */
module Sync {
  import opened Seqs
  import opened Types
  import opened DataService

  /** The toast an operation ends with. */
  datatype Notice = Silent | Succeeded | Failed

  datatype Outcome = Outcome(data: AppData, notice: Notice)

  // ---------------------------------------------------------------------
  // Row mappers (`mapToProject`, `mapToTask`, `mapToSnapshot`)
  // ---------------------------------------------------------------------

  function MapToProject(row: ProjectRow): Project {
    Project(row.id, row.title, row.description, row.status, row.progress, row.last_worked_on,
            row.tags.GetOr([]), row.color, row.user_id, row.github_repo_url)
  }

  function MapToTask(row: TaskRow): Task {
    Task(row.id, row.title, row.status, row.project_id, row.user_id)
  }

  function MapToSnapshot(row: SnapshotRow): Snapshot {
    Snapshot(row.id, row.project_id, row.thoughts, row.timestamp, row.user_id, row.github_metadata)
  }

  /** Mapping an insert payload back gives the entity that was sent. */
  lemma InsertPayloadsRoundTrip(p: Project, t: Task, s: Snapshot)
    ensures MapToProject(ProjectInsert(p)) == p
    ensures MapToTask(TaskInsert(t)) == t
    ensures MapToSnapshot(SnapshotInsert(s)) == s
  {
  }

  /** The mappers lose nothing either, except that null tags become `[]`. */
  lemma RowsRoundTrip(pr: ProjectRow, tr: TaskRow, sr: SnapshotRow)
    ensures pr.tags.Some? ==> ProjectInsert(MapToProject(pr)) == pr
    ensures pr.tags.None? ==> MapToProject(pr).tags == []
    ensures TaskInsert(MapToTask(tr)) == tr
    ensures SnapshotInsert(MapToSnapshot(sr)) == sr
  {
  }

  // ---------------------------------------------------------------------
  // Creation: prepend (or append) a temporary entry, then settle
  // ---------------------------------------------------------------------

  /** No entry of `s` carries the temporary id. */
  ghost predicate FreshId<T>(s: seq<T>, key: T -> string, id: string) {
    forall x :: x in s ==> key(x) != id
  }

  /**
   * The settle step shared by the three creations: a saved row replaces the
   * temporary entry in place; anything else removes it.
   */
  function SettleCreate<T(!new), R>(current: seq<T>, key: T -> string, tempId: string,
                                   resp: Response<R>, decode: R -> T): (seq<T>, Notice)
  {
    if resp.data.Some? && !resp.failed then (ReplaceKey(current, key, tempId, decode(resp.data.value)), Succeeded)
    else (RemoveKey(current, key, tempId), Failed)
  }

  function NewProject(input: ProjectInput, tempId: string, now: string, owner: string): Project {
    Project(tempId, input.title, input.description, Planned, 0, now, input.tags, input.color, owner, Undefined)
  }

  /** The optimistic step of `addProject`. */
  function AddProjectLocal(user: Option<string>, data: AppData, input: ProjectInput,
                           tempId: string, now: string): (r: AppData)
    ensures user.None? ==> r == data
    ensures user.Some? ==> |r.projects| == |data.projects| + 1 && r.projects[1..] == data.projects
    ensures user.Some? ==> r.projects[0].id == tempId && r.projects[0].status == Planned
                           && r.projects[0].progress == 0 && r.projects[0].userId == user.value
                           && r.projects[0].lastWorkedOn == now
    ensures user.Some? ==> r.projects[0].title == input.title && r.projects[0].description == input.description
                           && r.projects[0].tags == input.tags && r.projects[0].color == input.color
    ensures r.tasks == data.tasks && r.snapshots == data.snapshots
  {
    match user
    case None => data
    case Some(owner) => data.(projects := [NewProject(input, tempId, now, owner)] + data.projects)
  }

  function AddProjectSettle(current: AppData, tempId: string, resp: Response<ProjectRow>): Outcome {
    var (ps, notice) := SettleCreate(current.projects, ProjectKey, tempId, resp, MapToProject);
    Outcome(current.(projects := ps), notice)
  }

  /**
   * `addProject`: the success toast shows exactly when a configured client
   * answers with a row and no error, the error toast otherwise; tasks and
   * snapshots are never touched.
   */
  function AddProject(user: Option<string>, client: Client, data: AppData, input: ProjectInput,
                      tempId: string, now: string, answer: Response<ProjectRow>): (r: Outcome)
    ensures user.None? ==> r == Outcome(data, Silent)
    ensures user.Some? ==> r.notice != Silent
    ensures user.Some? ==> (r.notice == Succeeded <==> client.Configured? && !answer.failed && answer.data.Some?)
    ensures r.data.tasks == data.tasks && r.data.snapshots == data.snapshots
  {
    match user
    case None => Outcome(data, Silent)
    case Some(owner) =>
      var p := NewProject(input, tempId, now, owner);
      var local := AddProjectLocal(user, data, input, tempId, now);
      AddProjectSettle(local, tempId, Deliver(AddProjectToRemote(client, p), answer))
  }

  /** A saved project takes the temporary entry's place at the head; nothing else moves. */
  lemma AddProjectConfirmed(owner: string, data: AppData, input: ProjectInput, tempId: string,
                            now: string, row: ProjectRow)
    requires FreshId(data.projects, ProjectKey, tempId)
    ensures AddProject(Some(owner), Configured, data, input, tempId, now, Response(Some(row), false))
            == Outcome(data.(projects := [MapToProject(row)] + data.projects), Succeeded)
  {
    ReplacePrepended(data.projects, ProjectKey, NewProject(input, tempId, now, owner), MapToProject(row));
  }

  /** Any failure removes the temporary entry, restoring the dataset exactly. */
  lemma AddProjectRejected(owner: string, client: Client, data: AppData, input: ProjectInput,
                           tempId: string, now: string, answer: Response<ProjectRow>)
    requires FreshId(data.projects, ProjectKey, tempId)
    requires client.Unconfigured? || answer.failed || answer.data.None?
    ensures AddProject(Some(owner), client, data, input, tempId, now, answer) == Outcome(data, Failed)
  {
    RemovePrepended(data.projects, ProjectKey, NewProject(input, tempId, now, owner));
  }

  function NewSnapshot(projectId: string, thoughts: string, meta: Nullable<GithubMetadata>,
                       tempId: string, now: string, owner: string): Snapshot {
    Snapshot(tempId, projectId, thoughts, now, owner, meta)
  }

  /** The optimistic step of `saveMemorySnapshot`: the new snapshot goes at the tail. */
  function SaveSnapshotLocal(user: Option<string>, data: AppData, projectId: string, thoughts: string,
                             meta: Nullable<GithubMetadata>, tempId: string, now: string): (r: AppData)
    ensures user.None? ==> r == data
    ensures user.Some? ==> |r.snapshots| == |data.snapshots| + 1 && r.snapshots[..|data.snapshots|] == data.snapshots
    ensures user.Some? ==> var s := r.snapshots[|data.snapshots|];
                           s.id == tempId && s.projectId == projectId && s.thoughts == thoughts
                           && s.timestamp == now && s.userId == user.value && s.githubMetadata == meta
    ensures r.projects == data.projects && r.tasks == data.tasks
  {
    match user
    case None => data
    case Some(owner) => data.(snapshots := data.snapshots + [NewSnapshot(projectId, thoughts, meta, tempId, now, owner)])
  }

  function SaveSnapshotSettle(current: AppData, tempId: string, resp: Response<SnapshotRow>): Outcome {
    var (ss, notice) := SettleCreate(current.snapshots, SnapshotKey, tempId, resp, MapToSnapshot);
    Outcome(current.(snapshots := ss), notice)
  }

  /** `saveMemorySnapshot`: the toasts of `addProject`; projects and tasks are never touched. */
  function SaveSnapshot(user: Option<string>, client: Client, data: AppData, projectId: string,
                        thoughts: string, meta: Nullable<GithubMetadata>, tempId: string, now: string,
                        answer: Response<SnapshotRow>): (r: Outcome)
    ensures user.None? ==> r == Outcome(data, Silent)
    ensures user.Some? ==> r.notice != Silent
    ensures user.Some? ==> (r.notice == Succeeded <==> client.Configured? && !answer.failed && answer.data.Some?)
    ensures r.data.projects == data.projects && r.data.tasks == data.tasks
  {
    match user
    case None => Outcome(data, Silent)
    case Some(owner) =>
      var s := NewSnapshot(projectId, thoughts, meta, tempId, now, owner);
      var local := SaveSnapshotLocal(user, data, projectId, thoughts, meta, tempId, now);
      SaveSnapshotSettle(local, tempId, Deliver(AddSnapshotToRemote(client, s), answer))
  }

  /** A saved snapshot takes the temporary entry's place at the tail. */
  lemma SaveSnapshotConfirmed(owner: string, data: AppData, projectId: string, thoughts: string,
                              meta: Nullable<GithubMetadata>, tempId: string, now: string, row: SnapshotRow)
    requires FreshId(data.snapshots, SnapshotKey, tempId)
    ensures SaveSnapshot(Some(owner), Configured, data, projectId, thoughts, meta, tempId, now, Response(Some(row), false))
            == Outcome(data.(snapshots := data.snapshots + [MapToSnapshot(row)]), Succeeded)
  {
    ReplaceAppended(data.snapshots, SnapshotKey, NewSnapshot(projectId, thoughts, meta, tempId, now, owner), MapToSnapshot(row));
  }

  lemma SaveSnapshotRejected(owner: string, client: Client, data: AppData, projectId: string, thoughts: string,
                             meta: Nullable<GithubMetadata>, tempId: string, now: string, answer: Response<SnapshotRow>)
    requires FreshId(data.snapshots, SnapshotKey, tempId)
    requires client.Unconfigured? || answer.failed || answer.data.None?
    ensures SaveSnapshot(Some(owner), client, data, projectId, thoughts, meta, tempId, now, answer) == Outcome(data, Failed)
  {
    RemoveAppended(data.snapshots, SnapshotKey, NewSnapshot(projectId, thoughts, meta, tempId, now, owner));
  }

  function NewTask(input: TaskInput, tempId: string, owner: string): Task {
    Task(tempId, input.title, Todo, input.projectId, owner)
  }

  /** The optimistic step of `addTask`: the new task goes at the head, in `todo`. */
  function AddTaskLocal(user: Option<string>, data: AppData, input: TaskInput, tempId: string): (r: AppData)
    ensures user.None? ==> r == data
    ensures user.Some? ==> |r.tasks| == |data.tasks| + 1 && r.tasks[1..] == data.tasks
    ensures user.Some? ==> r.tasks[0] == Task(tempId, input.title, Todo, input.projectId, user.value)
    ensures r.projects == data.projects && r.snapshots == data.snapshots
  {
    match user
    case None => data
    case Some(owner) => data.(tasks := [NewTask(input, tempId, owner)] + data.tasks)
  }

  function AddTaskSettle(current: AppData, tempId: string, resp: Response<TaskRow>): Outcome {
    var (ts, notice) := SettleCreate(current.tasks, TaskKey, tempId, resp, MapToTask);
    Outcome(current.(tasks := ts), notice)
  }

  /** `addTask`: the toasts of `addProject`; projects and snapshots are never touched. */
  function AddTask(user: Option<string>, client: Client, data: AppData, input: TaskInput,
                   tempId: string, answer: Response<TaskRow>): (r: Outcome)
    ensures user.None? ==> r == Outcome(data, Silent)
    ensures user.Some? ==> r.notice != Silent
    ensures user.Some? ==> (r.notice == Succeeded <==> client.Configured? && !answer.failed && answer.data.Some?)
    ensures r.data.projects == data.projects && r.data.snapshots == data.snapshots
  {
    match user
    case None => Outcome(data, Silent)
    case Some(owner) =>
      var local := AddTaskLocal(user, data, input, tempId);
      AddTaskSettle(local, tempId, Deliver(AddTaskToRemote(client, NewTask(input, tempId, owner)), answer))
  }

  lemma AddTaskConfirmed(owner: string, data: AppData, input: TaskInput, tempId: string, row: TaskRow)
    requires FreshId(data.tasks, TaskKey, tempId)
    ensures AddTask(Some(owner), Configured, data, input, tempId, Response(Some(row), false))
            == Outcome(data.(tasks := [MapToTask(row)] + data.tasks), Succeeded)
  {
    ReplacePrepended(data.tasks, TaskKey, NewTask(input, tempId, owner), MapToTask(row));
  }

  lemma AddTaskRejected(owner: string, client: Client, data: AppData, input: TaskInput,
                        tempId: string, answer: Response<TaskRow>)
    requires FreshId(data.tasks, TaskKey, tempId)
    requires client.Unconfigured? || answer.failed || answer.data.None?
    ensures AddTask(Some(owner), client, data, input, tempId, answer) == Outcome(data, Failed)
  {
    RemovePrepended(data.tasks, TaskKey, NewTask(input, tempId, owner));
  }

  // ---------------------------------------------------------------------
  // Updates: merge into every entry with the id, then settle
  // ---------------------------------------------------------------------

  /** `{ ...p, ...u }`: present keys of the patch win. */
  function MergeProject(p: Project, u: ProjectPatch): Project {
    p.(title := u.title.GetOr(p.title),
       description := u.description.GetOr(p.description),
       status := u.status.GetOr(p.status),
       progress := u.progress.GetOr(p.progress),
       lastWorkedOn := u.lastWorkedOn.GetOr(p.lastWorkedOn),
       tags := u.tags.GetOr(p.tags),
       color := u.color.GetOr(p.color),
       githubRepoUrl := u.githubRepoUrl.GetOr(p.githubRepoUrl))
  }

  /** `{ ...t, ...u }`. */
  function MergeTask(t: Task, u: TaskPatch): Task {
    t.(title := u.title.GetOr(t.title), status := u.status.GetOr(t.status), projectId := u.projectId.GetOr(t.projectId))
  }

  /**
   * A merge never changes the id or the owner, an empty patch changes
   * nothing, and merging the same patch twice is merging it once.
   */
  lemma MergeLaws(p: Project, u: ProjectPatch, t: Task, v: TaskPatch)
    ensures MergeProject(p, u).id == p.id && MergeProject(p, u).userId == p.userId
    ensures MergeProject(p, NoProjectChanges) == p
    ensures MergeProject(MergeProject(p, u), u) == MergeProject(p, u)
    ensures MergeTask(t, v).id == t.id && MergeTask(t, v).userId == t.userId
    ensures MergeTask(t, TaskPatch(None, None, None)) == t
    ensures MergeTask(MergeTask(t, v), v) == MergeTask(t, v)
  {
  }

  /**
   * The optimistic step of `updateProject`: the first project with the id,
   * merged with the patch, replaces every project with that id; when no
   * project has the id the list is unchanged.
   */
  function UpdateProjectLocal(user: Option<string>, data: AppData, id: string, u: ProjectPatch): (r: AppData)
    ensures r.tasks == data.tasks && r.snapshots == data.snapshots
    ensures |r.projects| == |data.projects|
    ensures user.None? || FreshId(data.projects, ProjectKey, id) ==> r == data
    ensures forall i :: 0 <= i < |data.projects| && data.projects[i].id != id ==> r.projects[i] == data.projects[i]
    ensures user.Some? ==> forall i, f :: (0 <= i < |data.projects| && data.projects[i].id == id
              && FirstWith(data.projects, ProjectKey, id, f)) ==> r.projects[i] == MergeProject(data.projects[f], u)
  {
    if user.None? then data
    else
      match FindKey(data.projects, ProjectKey, id)
      case None => data
      case Some(p) =>
        var r := data.(projects := ReplaceKey(data.projects, ProjectKey, id, MergeProject(p, u)));
        assert forall f | FirstWith(data.projects, ProjectKey, id, f) :: data.projects[f] == p by {
          forall f | FirstWith(data.projects, ProjectKey, id, f) { FindKeyFirst(data.projects, ProjectKey, id, f); }
        }
        r
  }

  /**
   * The settle step of `updateProject`: an error restores the captured
   * list and ends in the error toast; otherwise the promise resolves and the
   * success toast shows. A saved row replaces every entry with the id; with
   * no row the state update is only queued, so the optimistic state stays.
   */
  function UpdateProjectSettle(current: AppData, original: seq<Project>, id: string,
                               resp: Response<ProjectRow>): Outcome
  {
    if resp.failed then Outcome(current.(projects := original), Failed)
    else if resp.data.None? then Outcome(current, Succeeded)
    else Outcome(current.(projects := ReplaceKey(current.projects, ProjectKey, id, MapToProject(resp.data.value))), Succeeded)
  }

  /**
   * `updateProject`: the error toast shows exactly when the call is refused
   * or fails, and then the dataset is as before; every other answer ends in
   * the success toast. The list keeps its length and tasks and snapshots
   * are never touched.
   */
  function UpdateProject(user: Option<string>, client: Client, data: AppData, id: string,
                         u: ProjectPatch, answer: Response<ProjectRow>): (r: Outcome)
    ensures user.None? ==> r == Outcome(data, Silent)
    ensures user.Some? ==> (r.notice == Failed <==> client.Unconfigured? || answer.failed)
    ensures user.Some? ==> r.notice != Silent
    ensures r.notice == Failed ==> r.data == data
    ensures r.data.tasks == data.tasks && r.data.snapshots == data.snapshots
    ensures |r.data.projects| == |data.projects|
  {
    if user.None? then Outcome(data, Silent)
    else
      var local := UpdateProjectLocal(user, data, id, u);
      UpdateProjectSettle(local, data.projects, id, Deliver(UpdateProjectToRemote(client, id, u), answer))
  }

  /** A rejected update restores the whole dataset as it was before the call. */
  lemma UpdateProjectRolledBack(owner: string, client: Client, data: AppData, id: string,
                                u: ProjectPatch, answer: Response<ProjectRow>)
    requires client.Unconfigured? || answer.failed
    ensures UpdateProject(Some(owner), client, data, id, u, answer) == Outcome(data, Failed)
  {
  }

  /** A saved update leaves the server row wherever the id was, and nothing else changed. */
  lemma {:induction false} UpdateProjectConfirmed(owner: string, data: AppData, id: string,
                                                  u: ProjectPatch, row: ProjectRow)
    ensures UpdateProject(Some(owner), Configured, data, id, u, Response(Some(row), false))
            == Outcome(data.(projects := ReplaceKey(data.projects, ProjectKey, id, MapToProject(row))), Succeeded)
  {
    var w := MapToProject(row);
    match FindKey(data.projects, ProjectKey, id)
    case None =>
      assert ReplaceKey(data.projects, ProjectKey, id, w) == data.projects;
    case Some(p) =>
      ReplaceTwice(data.projects, ProjectKey, id, MergeProject(p, u), w);
  }

  /** No error but no row: the optimistic merge stays and the success toast shows. */
  lemma UpdateProjectUnanswered(owner: string, data: AppData, id: string, u: ProjectPatch)
    ensures UpdateProject(Some(owner), Configured, data, id, u, Response(None, false))
            == Outcome(UpdateProjectLocal(Some(owner), data, id, u), Succeeded)
  {
  }

  /** The optimistic step of `updateTask`, like `UpdateProjectLocal`. */
  function UpdateTaskLocal(user: Option<string>, data: AppData, id: string, u: TaskPatch): (r: AppData)
    ensures r.projects == data.projects && r.snapshots == data.snapshots
    ensures |r.tasks| == |data.tasks|
    ensures user.None? || FreshId(data.tasks, TaskKey, id) ==> r == data
    ensures forall i :: 0 <= i < |data.tasks| && data.tasks[i].id != id ==> r.tasks[i] == data.tasks[i]
    ensures user.Some? ==> forall i, f :: (0 <= i < |data.tasks| && data.tasks[i].id == id
              && FirstWith(data.tasks, TaskKey, id, f)) ==> r.tasks[i] == MergeTask(data.tasks[f], u)
  {
    if user.None? then data
    else
      match FindKey(data.tasks, TaskKey, id)
      case None => data
      case Some(t) =>
        var r := data.(tasks := ReplaceKey(data.tasks, TaskKey, id, MergeTask(t, u)));
        assert forall f | FirstWith(data.tasks, TaskKey, id, f) :: data.tasks[f] == t by {
          forall f | FirstWith(data.tasks, TaskKey, id, f) { FindKeyFirst(data.tasks, TaskKey, id, f); }
        }
        r
  }

  /**
   * The settle step of `updateTask`: an error restores the captured list; a
   * saved row replaces the entry, with a success toast only when the patch
   * carries no (truthy) status; no row and no error does nothing.
   */
  function UpdateTaskSettle(current: AppData, original: seq<Task>, id: string, u: TaskPatch,
                            resp: Response<TaskRow>): Outcome
  {
    if resp.failed then Outcome(current.(tasks := original), Failed)
    else if resp.data.Some? then
      Outcome(current.(tasks := ReplaceKey(current.tasks, TaskKey, id, MapToTask(resp.data.value))),
              if Truthy(u.status) then Silent else Succeeded)
    else Outcome(current, Silent)
  }

  /**
   * `updateTask`: the error toast exactly when the call is refused or
   * fails, and then the dataset is as before; the list keeps its length and
   * projects and snapshots are never touched.
   */
  function UpdateTask(user: Option<string>, client: Client, data: AppData, id: string,
                      u: TaskPatch, answer: Response<TaskRow>): (r: Outcome)
    ensures user.None? ==> r == Outcome(data, Silent)
    ensures user.Some? ==> (r.notice == Failed <==> client.Unconfigured? || answer.failed)
    ensures r.notice == Failed ==> r.data == data
    ensures r.data.projects == data.projects && r.data.snapshots == data.snapshots
    ensures |r.data.tasks| == |data.tasks|
  {
    if user.None? then Outcome(data, Silent)
    else
      var local := UpdateTaskLocal(user, data, id, u);
      UpdateTaskSettle(local, data.tasks, id, u, Deliver(UpdateTaskToRemote(client, id, u), answer))
  }

  /** The success toast of `updateTask` shows exactly for saved edits that carry no status. */
  lemma UpdateTaskNotice(owner: string, client: Client, data: AppData, id: string,
                         u: TaskPatch, answer: Response<TaskRow>)
    ensures var r := UpdateTask(Some(owner), client, data, id, u, answer);
            && (r.notice == Succeeded <==> client.Configured? && !answer.failed && answer.data.Some? && !Truthy(u.status))
            && (r.notice == Failed <==> client.Unconfigured? || answer.failed)
  {
  }

  lemma UpdateTaskRolledBack(owner: string, client: Client, data: AppData, id: string,
                             u: TaskPatch, answer: Response<TaskRow>)
    requires client.Unconfigured? || answer.failed
    ensures UpdateTask(Some(owner), client, data, id, u, answer) == Outcome(data, Failed)
  {
  }

  /** No error but no row: the optimistic merge stays and no toast shows. */
  lemma UpdateTaskUnanswered(owner: string, data: AppData, id: string, u: TaskPatch)
    ensures UpdateTask(Some(owner), Configured, data, id, u, Response(None, false))
            == Outcome(UpdateTaskLocal(Some(owner), data, id, u), Silent)
  {
  }

  lemma {:induction false} UpdateTaskConfirmed(owner: string, data: AppData, id: string, u: TaskPatch, row: TaskRow)
    ensures UpdateTask(Some(owner), Configured, data, id, u, Response(Some(row), false)).data
            == data.(tasks := ReplaceKey(data.tasks, TaskKey, id, MapToTask(row)))
  {
    var w := MapToTask(row);
    match FindKey(data.tasks, TaskKey, id)
    case None =>
      assert ReplaceKey(data.tasks, TaskKey, id, w) == data.tasks;
    case Some(t) =>
      ReplaceTwice(data.tasks, TaskKey, id, MergeTask(t, u), w);
  }

  // ---------------------------------------------------------------------
  // Deletions: drop every entry with the id, restore on error
  // ---------------------------------------------------------------------

  function DeleteProjectLocal(user: Option<string>, data: AppData, id: string): AppData {
    if user.None? then data else data.(projects := RemoveKey(data.projects, ProjectKey, id))
  }

  function RollbackOnError<T>(current: seq<T>, original: seq<T>, resp: Response<()>): (seq<T>, Notice) {
    if resp.failed then (original, Failed) else (current, Succeeded)
  }

  /**
   * `deleteProject`: exactly the projects with the id disappear, the others
   * keep their order, and never a task or a snapshot goes; an error puts
   * the captured list back.
   */
  function DeleteProject(user: Option<string>, client: Client, data: AppData, id: string,
                         answer: Response<()>): (r: Outcome)
    ensures r.data.tasks == data.tasks && r.data.snapshots == data.snapshots
    ensures user.Some? ==> (r.notice == Failed <==> client.Unconfigured? || answer.failed)
    ensures user.Some? && r.notice == Failed ==> r.data == data
    ensures user.Some? && r.notice != Failed ==>
              forall p :: p in r.data.projects <==> p in data.projects && p.id != id
    ensures user.Some? && r.notice != Failed ==>
              r.data.projects == Filter(data.projects, KeyIsNot(ProjectKey, id)) && IsSubsequence(r.data.projects, data.projects)
  {
    if user.None? then Outcome(data, Silent)
    else
      FilterIsSubsequence(data.projects, KeyIsNot(ProjectKey, id));
      var local := DeleteProjectLocal(user, data, id);
      var (ps, notice) := RollbackOnError(local.projects, data.projects, Deliver(DeleteProjectFromRemote(client, id), answer));
      Outcome(local.(projects := ps), notice)
  }

  function DeleteTaskLocal(user: Option<string>, data: AppData, id: string): AppData {
    if user.None? then data else data.(tasks := RemoveKey(data.tasks, TaskKey, id))
  }

  /** `deleteTask`: the same protocol on the task list. */
  function DeleteTask(user: Option<string>, client: Client, data: AppData, id: string,
                      answer: Response<()>): (r: Outcome)
    ensures r.data.projects == data.projects && r.data.snapshots == data.snapshots
    ensures user.Some? ==> (r.notice == Failed <==> client.Unconfigured? || answer.failed)
    ensures user.Some? && r.notice == Failed ==> r.data == data
    ensures user.Some? && r.notice != Failed ==>
              forall t :: t in r.data.tasks <==> t in data.tasks && t.id != id
    ensures user.Some? && r.notice != Failed ==>
              r.data.tasks == Filter(data.tasks, KeyIsNot(TaskKey, id)) && IsSubsequence(r.data.tasks, data.tasks)
  {
    if user.None? then Outcome(data, Silent)
    else
      FilterIsSubsequence(data.tasks, KeyIsNot(TaskKey, id));
      var local := DeleteTaskLocal(user, data, id);
      var (ts, notice) := RollbackOnError(local.tasks, data.tasks, Deliver(DeleteTaskFromRemote(client, id), answer));
      Outcome(local.(tasks := ts), notice)
  }

  // ---------------------------------------------------------------------
  // Loading (the `useEffect` on the user)
  // ---------------------------------------------------------------------

  function MapRemote(rd: RemoteData): AppData {
    AppData(Map(rd.projects, MapToProject), Map(rd.tasks, MapToTask), Map(rd.snapshots, MapToSnapshot))
  }

  datatype Loaded = Loaded(data: AppData, storage: Storage)

  /**
   * `loadData`: no user means the empty dataset; remote rows are mapped,
   * shown and cached; otherwise the cached dataset, if any, replaces the
   * current one.
   */
  function LoadData(user: Option<string>, current: AppData, remote: Option<RemoteData>,
                    storage: Storage, writable: bool): (r: Loaded)
    ensures user.None? ==> r == Loaded(EmptyData, storage)
    ensures user.Some? && remote.Some? ==> r.data == MapRemote(remote.value)
    ensures user.Some? && remote.Some? && writable ==> LoadLocalData(r.storage) == Some(r.data)
    ensures user.Some? && remote.None? ==> r.storage == storage && r.data == LoadLocalData(storage).GetOr(current)
  {
    if user.None? then Loaded(EmptyData, storage)
    else match remote
      case Some(rd) =>
        var mapped := MapRemote(rd);
        Loaded(mapped, SaveLocalData(storage, mapped, writable))
      case None =>
        match LoadLocalData(storage)
        case Some(cached) => Loaded(cached, storage)
        case None => Loaded(current, storage)
  }

  /** Without a signed-in user every mutation is a silent no-op and loading yields nothing. */
  lemma NoUserNoChange(client: Client, data: AppData, input: ProjectInput, taskInput: TaskInput,
                       id: string, tempId: string, now: string, u: ProjectPatch, v: TaskPatch,
                       meta: Nullable<GithubMetadata>, remote: Option<RemoteData>, storage: Storage, writable: bool,
                       pa: Response<ProjectRow>, ta: Response<TaskRow>, sa: Response<SnapshotRow>, da: Response<()>)
    ensures AddProject(None, client, data, input, tempId, now, pa) == Outcome(data, Silent)
    ensures UpdateProject(None, client, data, id, u, pa) == Outcome(data, Silent)
    ensures DeleteProject(None, client, data, id, da) == Outcome(data, Silent)
    ensures SaveSnapshot(None, client, data, id, input.title, meta, tempId, now, sa) == Outcome(data, Silent)
    ensures AddTask(None, client, data, taskInput, tempId, ta) == Outcome(data, Silent)
    ensures UpdateTask(None, client, data, id, v, ta) == Outcome(data, Silent)
    ensures DeleteTask(None, client, data, id, da) == Outcome(data, Silent)
    ensures LoadData(None, data, remote, storage, writable) == Loaded(EmptyData, storage)
  {
  }

  /** After a successful remote load the cache holds exactly what is shown. */
  lemma RemoteLoadIsCached(owner: string, current: AppData, rd: RemoteData, storage: Storage)
    ensures var r := LoadData(Some(owner), current, Some(rd), storage, true);
            r.data == MapRemote(rd) && LoadLocalData(r.storage) == Some(r.data)
  {
  }

  /**
   * An error on any of the three collections makes the loader fall back to
   * the cache, or keep the current data when the cache is empty or unreadable.
   */
  lemma FetchErrorFallsBack(owner: string, current: AppData, client: Client, signedIn: bool,
                            ps: Response<seq<ProjectRow>>, ts: Response<seq<TaskRow>>,
                            ss: Response<seq<SnapshotRow>>, storage: Storage, writable: bool)
    requires ps.failed || ts.failed || ss.failed
    ensures var r := LoadData(Some(owner), current, FetchRemoteData(client, signedIn, ps, ts, ss), storage, writable);
            r.storage == storage && r.data == LoadLocalData(storage).GetOr(current)
  {
  }

  /** Saving a dataset and starting again offline shows the saved dataset. */
  lemma OfflineReloadRestoresSaved(owner: string, current: AppData, saved: AppData, storage: Storage, writable: bool)
    ensures LoadData(Some(owner), current, None, SaveLocalData(storage, saved, true), writable).data == saved
  {
  }
}
