/**
 * The remote store adapter and the local cache of `src/services/dataService.ts`.
 *
 * The hosted database itself is not modelled: each adapter function decides
 * whether a request goes out at all and what payload it carries, and the
 * database's answer is an input (`Response`). An unconfigured client answers
 * every write with `{ data: null, error }` without sending anything.
 */
module DataService {
  import opened Seqs
  import opened Types

  /** The browser storage key the whole dataset is cached under. */
  const LocalStorageKey := "mindtrail_data"

  /** Whether `supabase` was created (environment variables present). */
  datatype Client = Unconfigured | Configured

  /** What a database call resolves to: the `{ data, error }` pair. */
  datatype Response<T> = Response(data: Option<T>, failed: bool)

  /** A request that was either refused locally or sent with a payload. */
  datatype Call<P> = Refused | Send(payload: P)

  /** The answer the caller sees: a refused call fails with no data. */
  function Deliver<P, T>(call: Call<P>, answer: Response<T>): (r: Response<T>)
    ensures call.Refused? ==> r.failed && r.data.None?
    ensures call.Send? ==> r == answer
  {
    match call
    case Refused => Response(None, true)
    case Send(_) => answer
  }

  /** The insert payload of `addProjectToRemote`: `lastWorkedOn` travels as `last_worked_on`. */
  function ProjectInsert(p: Project): ProjectRow {
    ProjectRow(p.id, p.title, p.description, p.status, p.progress, p.lastWorkedOn,
               Some(p.tags), p.color, p.userId, p.githubRepoUrl)
  }

  /** The insert payload of `addTaskToRemote`: `projectId` travels as `project_id`. */
  function TaskInsert(t: Task): TaskRow {
    TaskRow(t.id, t.title, t.status, t.projectId, t.userId)
  }

  /** The insert payload of `addSnapshotToRemote`: `projectId` travels as `project_id`. */
  function SnapshotInsert(s: Snapshot): SnapshotRow {
    SnapshotRow(s.id, s.projectId, s.thoughts, s.timestamp, s.userId, s.githubMetadata)
  }

  /**
   * The update payload of `updateProjectToRemote`. It carries both possible
   * spellings of the timestamp key, since a falsy `lastWorkedOn` is passed
   * through under its in-memory name.
   */
  datatype ProjectRowPatch = ProjectRowPatch(
    title: Option<string>,
    description: Option<string>,
    status: Option<string>,
    progress: Option<int>,
    lastWorkedOn: Option<string>,
    last_worked_on: Option<string>,
    tags: Option<seq<string>>,
    color: Option<string>,
    github_repo_url: Option<Nullable<string>>)

  /** The update payload of `updateTaskToRemote`, with both spellings of the project key. */
  datatype TaskRowPatch = TaskRowPatch(
    title: Option<string>,
    status: Option<string>,
    projectId: Option<string>,
    project_id: Option<string>)

  /**
   * `{ ...updates }` with `lastWorkedOn` renamed only when it is truthy; the
   * `github_repo_url` reassignment writes back the value already there.
   */
  function ProjectUpdate(u: ProjectPatch): (w: ProjectRowPatch)
    ensures w.last_worked_on.Some? <==> Truthy(u.lastWorkedOn)
    ensures w.lastWorkedOn.Some? <==> u.lastWorkedOn.Some? && !Truthy(u.lastWorkedOn)
    ensures w.last_worked_on.Some? || w.lastWorkedOn.Some? <==> u.lastWorkedOn.Some?
    ensures w.title == u.title && w.description == u.description && w.status == u.status
    ensures w.progress == u.progress && w.tags == u.tags && w.color == u.color
    ensures w.github_repo_url == u.githubRepoUrl
  {
    var renamed := Truthy(u.lastWorkedOn);
    ProjectRowPatch(u.title, u.description, u.status, u.progress,
                    if renamed then None else u.lastWorkedOn,
                    if renamed then u.lastWorkedOn else None,
                    u.tags, u.color, u.githubRepoUrl)
  }

  /** `{ ...updates }` with `projectId` renamed only when it is truthy. */
  function TaskUpdate(u: TaskPatch): (w: TaskRowPatch)
    ensures w.project_id.Some? <==> Truthy(u.projectId)
    ensures w.projectId.Some? <==> u.projectId.Some? && !Truthy(u.projectId)
    ensures w.title == u.title && w.status == u.status
  {
    if Truthy(u.projectId) then TaskRowPatch(u.title, u.status, None, u.projectId)
    else TaskRowPatch(u.title, u.status, u.projectId, None)
  }

  /** Reads a project update payload back into the in-memory patch shape. */
  function ProjectPatchOf(w: ProjectRowPatch): ProjectPatch {
    ProjectPatch(w.title, w.description, w.status, w.progress,
                 if w.last_worked_on.Some? then w.last_worked_on else w.lastWorkedOn,
                 w.tags, w.color, w.github_repo_url)
  }

  /** Reads a task update payload back into the in-memory patch shape. */
  function TaskPatchOf(w: TaskRowPatch): TaskPatch {
    TaskPatch(w.title, w.status, if w.project_id.Some? then w.project_id else w.projectId)
  }

  /** The update payloads lose nothing: both renamings can be undone. */
  lemma UpdatePayloadsRoundTrip(u: ProjectPatch, v: TaskPatch)
    ensures ProjectPatchOf(ProjectUpdate(u)) == u
    ensures TaskPatchOf(TaskUpdate(v)) == v
  {
  }

  function AddProjectToRemote(client: Client, p: Project): Call<ProjectRow> {
    if client.Unconfigured? then Refused else Send(ProjectInsert(p))
  }

  function UpdateProjectToRemote(client: Client, id: string, u: ProjectPatch): Call<(string, ProjectRowPatch)> {
    if client.Unconfigured? then Refused else Send((id, ProjectUpdate(u)))
  }

  function DeleteProjectFromRemote(client: Client, id: string): Call<string> {
    if client.Unconfigured? then Refused else Send(id)
  }

  function AddSnapshotToRemote(client: Client, s: Snapshot): Call<SnapshotRow> {
    if client.Unconfigured? then Refused else Send(SnapshotInsert(s))
  }

  function AddTaskToRemote(client: Client, t: Task): Call<TaskRow> {
    if client.Unconfigured? then Refused else Send(TaskInsert(t))
  }

  function UpdateTaskToRemote(client: Client, id: string, u: TaskPatch): Call<(string, TaskRowPatch)> {
    if client.Unconfigured? then Refused else Send((id, TaskUpdate(u)))
  }

  function DeleteTaskFromRemote(client: Client, id: string): Call<string> {
    if client.Unconfigured? then Refused else Send(id)
  }

  /**
   * Without a configured client nothing is sent, and whatever the database
   * would have answered, every write resolves to a failure with no data.
   */
  lemma UnconfiguredRefusesEveryWrite(p: Project, t: Task, s: Snapshot, id: string,
                                      u: ProjectPatch, v: TaskPatch,
                                      pa: Response<ProjectRow>, ta: Response<TaskRow>,
                                      sa: Response<SnapshotRow>, da: Response<()>)
    ensures AddProjectToRemote(Unconfigured, p).Refused? && UpdateProjectToRemote(Unconfigured, id, u).Refused?
    ensures DeleteProjectFromRemote(Unconfigured, id).Refused? && AddSnapshotToRemote(Unconfigured, s).Refused?
    ensures AddTaskToRemote(Unconfigured, t).Refused? && UpdateTaskToRemote(Unconfigured, id, v).Refused?
    ensures DeleteTaskFromRemote(Unconfigured, id).Refused?
    ensures Deliver(AddProjectToRemote(Unconfigured, p), pa) == Response(None, true)
    ensures Deliver(UpdateProjectToRemote(Unconfigured, id, u), pa) == Response(None, true)
    ensures Deliver(AddTaskToRemote(Unconfigured, t), ta) == Response(None, true)
    ensures Deliver(UpdateTaskToRemote(Unconfigured, id, v), ta) == Response(None, true)
    ensures Deliver(AddSnapshotToRemote(Unconfigured, s), sa) == Response(None, true)
    ensures Deliver(DeleteProjectFromRemote(Unconfigured, id), da) == Response(None, true)
    ensures Deliver(DeleteTaskFromRemote(Unconfigured, id), da) == Response(None, true)
  {
  }

  /** The raw rows of the three collections, as `fetchRemoteData` returns them. */
  datatype RemoteData = RemoteData(projects: seq<ProjectRow>, tasks: seq<TaskRow>, snapshots: seq<SnapshotRow>)

  function OrEmpty<T>(o: Option<seq<T>>): seq<T> {
    match o
    case Some(s) => s
    case None => []
  }

  /**
   * `fetchRemoteData`: null without a client, without a signed-in user, or
   * when any of the three selects reports an error; otherwise the rows, with
   * a missing `data` read as an empty list.
   */
  function FetchRemoteData(client: Client, signedIn: bool,
                           projects: Response<seq<ProjectRow>>,
                           tasks: Response<seq<TaskRow>>,
                           snapshots: Response<seq<SnapshotRow>>): (r: Option<RemoteData>)
    ensures r.Some? <==> client.Configured? && signedIn && !projects.failed && !tasks.failed && !snapshots.failed
    ensures r.Some? ==> r.value.projects == OrEmpty(projects.data) && r.value.tasks == OrEmpty(tasks.data)
                        && r.value.snapshots == OrEmpty(snapshots.data)
  {
    if client.Unconfigured? || !signedIn then None
    else if projects.failed || tasks.failed || snapshots.failed then None
    else Some(RemoteData(OrEmpty(projects.data), OrEmpty(tasks.data), OrEmpty(snapshots.data)))
  }

  /**
   * One storage slot: either a serialized dataset or text that does not
   * parse (an empty string is read back as absent, like unparseable text).
   */
  datatype Stored = Serialized(data: AppData) | Unreadable

  type Storage = map<string, Stored>

  /**
   * `saveLocalData`: writes the dataset under the cache key; when the write
   * throws (`writable` false, e.g. the quota is exhausted) the error is
   * swallowed and storage is left as it was.
   */
  function SaveLocalData(storage: Storage, data: AppData, writable: bool): (r: Storage)
    ensures forall k :: k != LocalStorageKey ==> (k in r <==> k in storage)
    ensures forall k :: k != LocalStorageKey && k in storage ==> r[k] == storage[k]
    ensures !writable ==> r == storage
  {
    if writable then storage[LocalStorageKey := Serialized(data)] else storage
  }

  /** `loadLocalData`: the cached dataset, or null when absent or unreadable. */
  function LoadLocalData(storage: Storage): (r: Option<AppData>)
    ensures r.Some? <==> LocalStorageKey in storage && storage[LocalStorageKey].Serialized?
  {
    if LocalStorageKey in storage && storage[LocalStorageKey].Serialized? then
      Some(storage[LocalStorageKey].data)
    else None
  }

  /** A successful save is read back unchanged. */
  lemma LocalCacheRoundTrip(storage: Storage, data: AppData)
    ensures LoadLocalData(SaveLocalData(storage, data, true)) == Some(data)
  {
  }
}
