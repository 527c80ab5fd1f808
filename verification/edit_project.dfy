/**
 * The edit form of `src/components/EditProjectModal.tsx`: filling the form
 * from a project, diffing the form against the project on save, and the
 * repository search.
 */
module EditProject {
  import opened Seqs
  import opened Text
  import opened Types
  import opened Tags
  import Sync

  /** The form's state; the repository URL is `string | null`. */
  datatype EditForm = EditForm(
    title: string,
    description: string,
    tags: string,
    color: string,
    status: string,
    progress: int,
    githubRepoUrl: Option<string>)

  /** `github_repo_url || null`: a missing or empty URL becomes null. */
  function UrlForForm(url: Nullable<string>): (r: Option<string>)
    ensures r.Some? <==> url.Value? && url.value != ""
    ensures r.Some? ==> r.value == url.value
  {
    match url
    case Value(s) => if s != "" then Some(s) else None
    case _ => None
  }

  /** The form's URL read back as a project value: `null` for none. */
  function FormUrl(url: Option<string>): Nullable<string> {
    match url
    case Some(s) => Value(s)
    case None => Null
  }

  /**
   * The effect that fills the form when it opens on a project: the fields
   * as stored, the tags joined for display (reading them back gives the
   * stored tags when each is canonical) and the URL only when it is a
   * non-empty string.
   */
  function OpenEditForm(p: Project): (r: EditForm)
    ensures r.title == p.title && r.description == p.description && r.color == p.color
    ensures r.status == p.status && r.progress == p.progress
    ensures (forall t :: t in p.tags ==> Canonical(t)) ==> ParseTags(r.tags) == p.tags
    ensures r.githubRepoUrl.Some? <==> p.githubRepoUrl.Value? && p.githubRepoUrl.value != ""
  {
    assert (forall t :: t in p.tags ==> Canonical(t)) ==> ParseTags(JoinTags(p.tags)) == p.tags by {
      if forall t :: t in p.tags ==> Canonical(t) {
        ParseJoin(p.tags);
      }
    }
    EditForm(p.title, p.description, JoinTags(p.tags), p.color, p.status, p.progress, UrlForForm(p.githubRepoUrl))
  }

  /** `githubRepoUrl || undefined`: the value sent for a changed URL. */
  function UrlForUpdate(url: Option<string>): Nullable<string> {
    match url
    case Some(s) => if s != "" then Value(s) else Undefined
    case None => Undefined
  }

  /**
   * The `updates` object built by `handleSave`: a key is present exactly
   * when the edited value differs from the project's; tags are compared as
   * whole sequences (`JSON.stringify` of string arrays).
   */
  function Diff(p: Project, f: EditForm): (u: ProjectPatch)
    ensures u.title.Some? <==> f.title != p.title
    ensures u.description.Some? <==> f.description != p.description
    ensures u.tags.Some? <==> ParseTags(f.tags) != p.tags
    ensures u.color.Some? <==> f.color != p.color
    ensures u.status.Some? <==> f.status != p.status
    ensures u.progress.Some? <==> f.progress != p.progress
    ensures u.githubRepoUrl.Some? <==> FormUrl(f.githubRepoUrl) != p.githubRepoUrl
    ensures u.lastWorkedOn.None?
    ensures u.githubRepoUrl.Some? ==> u.githubRepoUrl.value != Null
    ensures u.githubRepoUrl.Some? ==> (u.githubRepoUrl.value == Undefined <==> f.githubRepoUrl.None? || f.githubRepoUrl.value == "")
  {
    var tags := ParseTags(f.tags);
    ProjectPatch(
      if f.title != p.title then Some(f.title) else None,
      if f.description != p.description then Some(f.description) else None,
      if f.status != p.status then Some(f.status) else None,
      if f.progress != p.progress then Some(f.progress) else None,
      None,
      if tags != p.tags then Some(tags) else None,
      if f.color != p.color then Some(f.color) else None,
      if FormUrl(f.githubRepoUrl) != p.githubRepoUrl then Some(UrlForUpdate(f.githubRepoUrl)) else None)
  }

  /** Merging the diff into the project gives the edited values. */
  lemma DiffThenMerge(p: Project, f: EditForm)
    ensures var m := Sync.MergeProject(p, Diff(p, f));
            && m.title == f.title && m.description == f.description && m.tags == ParseTags(f.tags)
            && m.color == f.color && m.status == f.status && m.progress == f.progress
            && m.id == p.id && m.lastWorkedOn == p.lastWorkedOn
            && (FormUrl(f.githubRepoUrl) != p.githubRepoUrl ==> m.githubRepoUrl == UrlForUpdate(f.githubRepoUrl))
  {
  }

  /** What a click on Save does. */
  datatype SaveAction = NoAction | CloseOnly | SaveChanges(id: string, updates: ProjectPatch)

  /**
   * `handleSave`: nothing without a project or with a blank title; close
   * when nothing changed; otherwise hand the changes to `onSave`.
   */
  function HandleSave(project: Option<Project>, f: EditForm): (r: SaveAction)
    ensures r.NoAction? <==> project.None? || Trim(f.title) == ""
    ensures r.CloseOnly? <==> project.Some? && Trim(f.title) != "" && Diff(project.value, f) == NoProjectChanges
    ensures r.SaveChanges? ==> r.id == project.value.id && r.updates != NoProjectChanges
                               && r.updates == Diff(project.value, f)
  {
    match project
    case None => NoAction
    case Some(p) =>
      if Trim(f.title) == "" then NoAction
      else
        var u := Diff(p, f);
        if u == NoProjectChanges then CloseOnly else SaveChanges(p.id, u)
  }

  /**
   * Opening the form and saving at once only closes it, provided the
   * project's tags survive the join-and-parse cycle and its URL is null or
   * a non-empty string.
   */
  lemma UntouchedFormOnlyCloses(p: Project)
    requires Trim(p.title) != ""
    requires forall t :: t in p.tags ==> Canonical(t)
    requires p.githubRepoUrl == Null || (p.githubRepoUrl.Value? && p.githubRepoUrl.value != "")
    ensures HandleSave(Some(p), OpenEditForm(p)) == CloseOnly
  {
    ParseJoin(p.tags);
  }

  /**
   * A project whose URL is `undefined` is always saved, even untouched: the
   * form holds `null`, `null !== undefined`, so `github_repo_url: undefined`
   * is sent.
   */
  lemma UndefinedUrlIsAlwaysSent(p: Project)
    requires Trim(p.title) != ""
    requires p.githubRepoUrl == Undefined
    ensures HandleSave(Some(p), OpenEditForm(p)).SaveChanges?
    ensures HandleSave(Some(p), OpenEditForm(p)).updates.githubRepoUrl == Some(Undefined)
  {
  }

  /** A repository as listed by the GitHub API; only the name is searched. */
  datatype Repo = Repo(name: string, htmlUrl: string)

  function NameMatches(search: string): Repo -> bool {
    (r: Repo) => Includes(Lower(r.name), Lower(search))
  }

  /**
   * `filteredRepos`: case-insensitive substring search on the name; every
   * matching repository stays, as often as listed and in order.
   */
  function FilterRepos(repos: seq<Repo>, search: string): (r: seq<Repo>)
    ensures forall x :: x in r <==> x in repos && Includes(Lower(x.name), Lower(search))
    ensures forall x :: multiset(r)[x] == if Includes(Lower(x.name), Lower(search)) then multiset(repos)[x] else 0
    ensures IsSubsequence(r, repos)
    ensures search == "" ==> r == repos
  {
    FilterIsSubsequence(repos, NameMatches(search));
    FilterCounts(repos, NameMatches(search));
    assert Lower("") == "";
    assert forall x :: search == "" && x in repos ==> Includes(Lower(x.name), "");
    Filter(repos, NameMatches(search))
  }
}
