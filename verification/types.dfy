/**
 * The entities of the application and their wire rows.
 *
 * In-memory entities follow `src/types/project.ts`; the rows exchanged with
 * the hosted database follow `src/types/database.types.ts`, whose column
 * names are kept as field names so that the renaming between the two shapes
 * stays visible (`lastWorkedOn` / `last_worked_on`, `projectId` / `project_id`).
 * Timestamps stay the ISO strings the source stores; statuses stay strings
 * because rows arrive with `status: string` and are cast without a check.
 */
module Types {
  import opened Seqs

  /** A JavaScript slot that may be `undefined`, `null`, or hold a value. */
  datatype Nullable<T> = Undefined | Null | Value(value: T)

  const Planned := "planned"
  const Active := "active"
  const Paused := "paused"

  const Todo := "todo"
  const InProgress := "in-progress"
  const Done := "done"

  /** The commit a memory snapshot was taken at. */
  datatype GithubMetadata = GithubMetadata(repo: string, branch: string, commit: string)

  /** `Project`; the source's `user_id` and `github_repo_url` keys are `userId`, `githubRepoUrl` here. */
  datatype Project = Project(
    id: string,
    title: string,
    description: string,
    status: string,
    progress: int,
    lastWorkedOn: string,
    tags: seq<string>,
    color: string,
    userId: string,
    githubRepoUrl: Nullable<string>)

  datatype Task = Task(id: string, title: string, status: string, projectId: string, userId: string)

  datatype Snapshot = Snapshot(
    id: string,
    projectId: string,
    thoughts: string,
    timestamp: string,
    userId: string,
    githubMetadata: Nullable<GithubMetadata>)

  /** `AppData`: the three collections the sync engine owns. */
  datatype AppData = AppData(projects: seq<Project>, tasks: seq<Task>, snapshots: seq<Snapshot>)

  const EmptyData := AppData([], [], [])

  /** A `projects` row; `tags` is nullable on the wire. */
  datatype ProjectRow = ProjectRow(
    id: string,
    title: string,
    description: string,
    status: string,
    progress: int,
    last_worked_on: string,
    tags: Option<seq<string>>,
    color: string,
    user_id: string,
    github_repo_url: Nullable<string>)

  datatype TaskRow = TaskRow(id: string, title: string, status: string, project_id: string, user_id: string)

  datatype SnapshotRow = SnapshotRow(
    id: string,
    project_id: string,
    thoughts: string,
    timestamp: string,
    user_id: string,
    github_metadata: Nullable<GithubMetadata>)

  /** What the new-project form hands to `addProject`. */
  datatype ProjectInput = ProjectInput(title: string, description: string, tags: seq<string>, color: string)

  /** What the new-task form hands to `addTask`. */
  datatype TaskInput = TaskInput(title: string, projectId: string)

  /** `Partial<Omit<Project, 'id' | 'user_id'>>`: `None` is an absent key. */
  datatype ProjectPatch = ProjectPatch(
    title: Option<string>,
    description: Option<string>,
    status: Option<string>,
    progress: Option<int>,
    lastWorkedOn: Option<string>,
    tags: Option<seq<string>>,
    color: Option<string>,
    githubRepoUrl: Option<Nullable<string>>)

  /** `Partial<Omit<Task, 'id' | 'user_id'>>`. */
  datatype TaskPatch = TaskPatch(title: Option<string>, status: Option<string>, projectId: Option<string>)

  const NoProjectChanges := ProjectPatch(None, None, None, None, None, None, None, None)

  /** JavaScript truthiness of an optional string: present and non-empty. */
  predicate Truthy(s: Option<string>) {
    s.Some? && s.value != ""
  }

  function ProjectKey(p: Project): string { p.id }
  function TaskKey(t: Task): string { t.id }
  function SnapshotKey(s: Snapshot): string { s.id }
}
