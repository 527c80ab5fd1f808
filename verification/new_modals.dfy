/**
 * The creation forms of `src/components/NewProjectModal.tsx` and
 * `src/components/NewTaskModal.tsx`: their reset effects and the guards of
 * their `handleSave`.
 */
module NewModals {
  import opened Seqs
  import opened Text
  import opened Types
  import opened Tags

  /** The colour palette; the first entry is the default. */
  const Colors: seq<string> := ["#8b5cf6", "#06b6d4", "#10b981", "#f59e0b", "#ec4899", "#3b82f6"]

  datatype ProjectForm = ProjectForm(title: string, description: string, tags: string, color: string)

  const BlankProjectForm := ProjectForm("", "", "", Colors[0])

  /** The effect on `isOpen`: closing resets every field, opening keeps them. */
  function ProjectFormAfter(f: ProjectForm, isOpen: bool): (r: ProjectForm)
    ensures !isOpen ==> r.title == "" && r.description == "" && r.tags == "" && r.color == Colors[0]
    ensures isOpen ==> r == f
  {
    if isOpen then f else BlankProjectForm
  }

  /**
   * `handleSave` of the new-project form: a payload only for a title that
   * is not blank, with title and description exactly as typed.
   */
  function SaveNewProject(f: ProjectForm): (r: Option<ProjectInput>)
    ensures r.Some? <==> Trim(f.title) != ""
    ensures r.Some? ==> r.value.title == f.title && r.value.description == f.description
                        && r.value.color == f.color
    ensures r.Some? ==> forall t :: t in r.value.tags ==> t != "" && IsTrimmed(t)
    ensures r.Some? ==> IsSubsequence(r.value.tags, TrimmedPieces(f.tags))
    ensures r.Some? ==> r.value.tags == ParseTags(f.tags)
  {
    if Trim(f.title) != "" then Some(ProjectInput(f.title, f.description, ParseTags(f.tags), f.color)) else None
  }

  /** A freshly reset form cannot be saved. */
  lemma BlankProjectFormNeverSaves(f: ProjectForm)
    ensures SaveNewProject(ProjectFormAfter(f, false)).None?
  {
    assert Trim("") == "";
  }

  datatype TaskForm = TaskForm(title: string, projectId: string)

  /** The effect on opening: blank title, first project selected (or none). */
  function TaskFormAfter(f: TaskForm, isOpen: bool, projects: seq<Project>): (r: TaskForm)
    ensures isOpen ==> r.title == ""
    ensures isOpen && |projects| > 0 ==> r.projectId == projects[0].id
    ensures isOpen && |projects| == 0 ==> r.projectId == ""
    ensures !isOpen ==> r == f
  {
    if isOpen then TaskForm("", if |projects| > 0 then projects[0].id else "") else f
  }

  /** `handleSave` of the new-task form: needs a non-blank title and a project. */
  function SaveNewTask(f: TaskForm): (r: Option<TaskInput>)
    ensures r.Some? <==> Trim(f.title) != "" && f.projectId != ""
    ensures r.Some? ==> r.value.title == f.title && r.value.projectId == f.projectId
  {
    if Trim(f.title) != "" && f.projectId != "" then Some(TaskInput(f.title, f.projectId)) else None
  }

  /** With no projects to pick from, whatever title is typed, nothing is saved. */
  lemma NoProjectsNoTask(f: TaskForm, typed: string)
    ensures SaveNewTask(TaskFormAfter(f, true, []).(title := typed)).None?
  {
  }

  /** With projects, a non-blank title typed after opening saves under the first project. */
  lemma FirstProjectIsDefault(f: TaskForm, projects: seq<Project>, typed: string)
    requires |projects| > 0 && projects[0].id != "" && Trim(typed) != ""
    ensures SaveNewTask(TaskFormAfter(f, true, projects).(title := typed)) == Some(TaskInput(typed, projects[0].id))
  {
  }
}
