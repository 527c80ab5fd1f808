/**
 * The derived view model of `src/App.tsx`: the `filteredAndSortedProjects`
 * and `filteredTasks` memos, and the task count the overview shows.
 *
 * `new Date(s).getTime()` is the abstract `time` parameter; `localeCompare`
 * is code-point order (`LexCompare`). `Array.prototype.sort` is modelled by
 * an insertion sort under the same comparator; the contracts state the
 * order and the permutation, not how equal elements are placed.
 */
module ViewModel {
  import opened Seqs
  import opened Text
  import opened Types

  datatype SortKey = LastWorkedOn | ByProgress | ByTitle
  datatype SortOrder = Asc | Desc

  // ---------------------------------------------------------------------
  // Filters
  // ---------------------------------------------------------------------

  /** Case-insensitive search on title, description and tags. */
  predicate Matches(p: Project, term: string) {
    var needle := Lower(term);
    || Includes(Lower(p.title), needle)
    || Includes(Lower(p.description), needle)
    || exists k :: 0 <= k < |p.tags| && Includes(Lower(p.tags[k]), needle)
  }

  /** Step 1: an empty term filters nothing. */
  function SearchFilter(ps: seq<Project>, term: string): (r: seq<Project>)
    ensures term == "" ==> r == ps
    ensures forall p :: p in r <==> p in ps && (term == "" || Matches(p, term))
  {
    if term == "" then ps else Filter(ps, p => Matches(p, term))
  }

  /** Step 2: an empty status list filters nothing. */
  function StatusFilter(ps: seq<Project>, statuses: seq<string>): (r: seq<Project>)
    ensures |statuses| == 0 ==> r == ps
    ensures forall p :: p in r <==> p in ps && (|statuses| == 0 || p.status in statuses)
  {
    if |statuses| == 0 then ps else Filter(ps, (p: Project) => p.status in statuses)
  }

  /** Whether a project survives both filters. */
  predicate Passes(p: Project, term: string, statuses: seq<string>) {
    (term == "" || Matches(p, term)) && (|statuses| == 0 || p.status in statuses)
  }

  /** The reference definition: one filter by the combined condition. */
  function Visible(ps: seq<Project>, term: string, statuses: seq<string>): seq<Project> {
    Filter(ps, p => Passes(p, term, statuses))
  }

  /** The two filter stages together are exactly the one combined filter. */
  lemma FilterStagesAgree(ps: seq<Project>, term: string, statuses: seq<string>)
    ensures StatusFilter(SearchFilter(ps, term), statuses) == Visible(ps, term, statuses)
  {
    var search := (p: Project) => term == "" || Matches(p, term);
    var status := (p: Project) => |statuses| == 0 || p.status in statuses;
    var both := (p: Project) => Passes(p, term, statuses);
    FilterFilter(ps, search, status, both);
    if term == "" {
      assert Filter(ps, search) == ps;
    } else {
      FilterExt(ps, search, p => Matches(p, term));
    }
    var mid := SearchFilter(ps, term);
    if |statuses| == 0 {
      assert Filter(mid, status) == mid;
    } else {
      FilterExt(mid, status, (p: Project) => p.status in statuses);
    }
  }

  // ---------------------------------------------------------------------
  // The comparator
  // ---------------------------------------------------------------------

  /** Code-point order on strings, with the sign convention of `localeCompare`. */
  function LexCompare(a: string, b: string): (r: int)
    ensures -1 <= r <= 1
    ensures r == 0 <==> a == b
  {
    if |a| == 0 && |b| == 0 then 0
    else if |a| == 0 then -1
    else if |b| == 0 then 1
    else if a[0] < b[0] then -1
    else if a[0] > b[0] then 1
    else
      assert a == [a[0]] + a[1..] && b == [b[0]] + b[1..];
      LexCompare(a[1..], b[1..])
  }

  lemma {:induction false} LexAntisymmetric(a: string, b: string)
    ensures LexCompare(a, b) == -LexCompare(b, a)
  {
    if |a| > 0 && |b| > 0 && a[0] == b[0] {
      LexAntisymmetric(a[1..], b[1..]);
    }
  }

  lemma {:induction false} LexTransitive(a: string, b: string, c: string)
    requires LexCompare(a, b) <= 0 && LexCompare(b, c) <= 0
    ensures LexCompare(a, c) <= 0
  {
    if |a| > 0 && |b| > 0 && |c| > 0 && a[0] == b[0] && b[0] == c[0] {
      LexTransitive(a[1..], b[1..], c[1..]);
    }
  }

  /** The comparison before the order flag is applied. */
  function BaseCompare(key: SortKey, time: string -> int, a: Project, b: Project): int {
    match key
    case LastWorkedOn => time(b.lastWorkedOn) - time(a.lastWorkedOn)
    case ByProgress => b.progress - a.progress
    case ByTitle => LexCompare(a.title, b.title)
  }

  /** `sortOrder === 'asc' ? -comparison : comparison`. */
  function Compare(key: SortKey, order: SortOrder, time: string -> int, a: Project, b: Project): int {
    var c := BaseCompare(key, time, a, b);
    if order == Asc then -c else c
  }

  lemma CompareAntisymmetric(key: SortKey, order: SortOrder, time: string -> int, a: Project, b: Project)
    ensures Compare(key, order, time, a, b) == -Compare(key, order, time, b, a)
  {
    if key == ByTitle {
      LexAntisymmetric(a.title, b.title);
    }
  }

  lemma CompareTransitive(key: SortKey, order: SortOrder, time: string -> int, a: Project, b: Project, c: Project)
    requires Compare(key, order, time, a, b) <= 0 && Compare(key, order, time, b, c) <= 0
    ensures Compare(key, order, time, a, c) <= 0
  {
    if key == ByTitle {
      if order == Desc {
        LexTransitive(a.title, b.title, c.title);
      } else {
        LexAntisymmetric(a.title, b.title);
        LexAntisymmetric(b.title, c.title);
        LexAntisymmetric(a.title, c.title);
        LexTransitive(c.title, b.title, a.title);
      }
    }
  }

  // ---------------------------------------------------------------------
  // Sorting
  // ---------------------------------------------------------------------

  /** Every neighbour pair is in comparator order. */
  ghost predicate Sorted(s: seq<Project>, key: SortKey, order: SortOrder, time: string -> int) {
    forall i :: 0 <= i < |s| - 1 ==> Compare(key, order, time, s[i], s[i + 1]) <= 0
  }

  /** Every pair, not only neighbours, is in comparator order. */
  ghost predicate SortedAll(s: seq<Project>, key: SortKey, order: SortOrder, time: string -> int) {
    forall i, j :: 0 <= i < j < |s| ==> Compare(key, order, time, s[i], s[j]) <= 0
  }

  /** Inserts `x` before the first element it does not follow; equal elements keep `x` first. */
  function Insert(x: Project, s: seq<Project>, key: SortKey, order: SortOrder, time: string -> int): (r: seq<Project>)
    requires Sorted(s, key, order, time)
    ensures Sorted(r, key, order, time)
    ensures multiset(r) == multiset(s) + multiset{x}
    ensures |r| == |s| + 1 && (r[0] == x || (|s| > 0 && r[0] == s[0]))
  {
    if |s| == 0 then [x]
    else if Compare(key, order, time, x, s[0]) <= 0 then [x] + s
    else
      CompareAntisymmetric(key, order, time, x, s[0]);
      var rest := Insert(x, s[1..], key, order, time);
      assert s == [s[0]] + s[1..];
      [s[0]] + rest
  }

  /** `processedProjects.sort(...)`: a permutation in comparator order. */
  function SortProjects(s: seq<Project>, key: SortKey, order: SortOrder, time: string -> int): (r: seq<Project>)
    ensures Sorted(r, key, order, time)
    ensures multiset(r) == multiset(s)
  {
    if |s| == 0 then []
    else
      assert s == [s[0]] + s[1..];
      Insert(s[0], SortProjects(s[1..], key, order, time), key, order, time)
  }

  /** Neighbour order extends to every pair, since the comparator is transitive. */
  lemma {:induction false} SortedEverywhere(s: seq<Project>, key: SortKey, order: SortOrder, time: string -> int)
    requires Sorted(s, key, order, time)
    ensures SortedAll(s, key, order, time)
  {
    forall i, j | 0 <= i < j < |s|
      ensures Compare(key, order, time, s[i], s[j]) <= 0
    {
      SortedPair(s, key, order, time, i, j);
    }
  }

  lemma {:induction false} SortedPair(s: seq<Project>, key: SortKey, order: SortOrder, time: string -> int, i: int, j: int)
    requires Sorted(s, key, order, time)
    requires 0 <= i < j < |s|
    ensures Compare(key, order, time, s[i], s[j]) <= 0
    decreases j - i
  {
    if i + 1 < j {
      SortedPair(s, key, order, time, i + 1, j);
      CompareTransitive(key, order, time, s[i], s[i + 1], s[j]);
    }
  }

  /**
   * `filteredAndSortedProjects`: the projects that pass both filters, each
   * as often as in the input, ordered by the comparator.
   */
  function FilteredAndSorted(projects: seq<Project>, term: string, statuses: seq<string>,
                             key: SortKey, order: SortOrder, time: string -> int): (r: seq<Project>)
    ensures multiset(r) == multiset(Visible(projects, term, statuses))
    ensures SortedAll(r, key, order, time)
    ensures forall p :: p in r <==> p in projects && Passes(p, term, statuses)
  {
    FilterStagesAgree(projects, term, statuses);
    var r := SortProjects(StatusFilter(SearchFilter(projects, term), statuses), key, order, time);
    SortedEverywhere(r, key, order, time);
    assert forall p :: p in r <==> p in multiset(r);
    r
  }

  /** Progress: non-increasing under `desc`, non-decreasing under `asc`. */
  lemma ProgressOrdered(projects: seq<Project>, term: string, statuses: seq<string>, order: SortOrder, time: string -> int)
    ensures var r := FilteredAndSorted(projects, term, statuses, ByProgress, order, time);
            forall i, j :: 0 <= i < j < |r| ==>
              if order == Desc then r[i].progress >= r[j].progress else r[i].progress <= r[j].progress
  {
    var r := FilteredAndSorted(projects, term, statuses, ByProgress, order, time);
    assert forall i, j :: 0 <= i < j < |r| ==> Compare(ByProgress, order, time, r[i], r[j]) <= 0;
  }

  /** Last worked on: most recent first under `desc`, oldest first under `asc`. */
  lemma RecencyOrdered(projects: seq<Project>, term: string, statuses: seq<string>, order: SortOrder, time: string -> int)
    ensures var r := FilteredAndSorted(projects, term, statuses, LastWorkedOn, order, time);
            forall i, j :: 0 <= i < j < |r| ==>
              if order == Desc then time(r[i].lastWorkedOn) >= time(r[j].lastWorkedOn)
              else time(r[i].lastWorkedOn) <= time(r[j].lastWorkedOn)
  {
    var r := FilteredAndSorted(projects, term, statuses, LastWorkedOn, order, time);
    assert forall i, j :: 0 <= i < j < |r| ==> Compare(LastWorkedOn, order, time, r[i], r[j]) <= 0;
  }

  /**
   * Title: `desc` (the default) gives ascending titles and `asc` descending
   * ones, because the title comparison is the one not written as `b - a`.
   */
  lemma TitleOrdered(projects: seq<Project>, term: string, statuses: seq<string>, order: SortOrder, time: string -> int)
    ensures var r := FilteredAndSorted(projects, term, statuses, ByTitle, order, time);
            forall i, j :: 0 <= i < j < |r| ==>
              if order == Desc then LexCompare(r[i].title, r[j].title) <= 0
              else LexCompare(r[i].title, r[j].title) >= 0
  {
    var r := FilteredAndSorted(projects, term, statuses, ByTitle, order, time);
    assert forall i, j :: 0 <= i < j < |r| ==> Compare(ByTitle, order, time, r[i], r[j]) <= 0;
  }

  // ---------------------------------------------------------------------
  // Tasks
  // ---------------------------------------------------------------------

  /** Some project in `ps` has the id (`projectIds.has(id)`). */
  predicate HasProject(ps: seq<Project>, id: string) {
    exists p :: p in ps && p.id == id
  }

  /** The predicate `task => projectIds.has(task.projectId)`. */
  function OfVisible(visible: seq<Project>): Task -> bool {
    (t: Task) => HasProject(visible, t.projectId)
  }

  /**
   * `filteredTasks`: the tasks of the visible projects, each as often as it
   * occurs, in task order.
   */
  function FilteredTasks(tasks: seq<Task>, visible: seq<Project>): (r: seq<Task>)
    ensures forall t :: t in r <==> t in tasks && HasProject(visible, t.projectId)
    ensures forall t :: multiset(r)[t] == if HasProject(visible, t.projectId) then multiset(tasks)[t] else 0
    ensures IsSubsequence(r, tasks)
  {
    FilterIsSubsequence(tasks, OfVisible(visible));
    FilterCounts(tasks, OfVisible(visible));
    Filter(tasks, OfVisible(visible))
  }

  /**
   * Only which projects are visible matters, not their order: the sorted
   * list selects the same tasks as the unsorted filter result.
   */
  lemma TasksIgnoreSortOrder(tasks: seq<Task>, projects: seq<Project>, term: string, statuses: seq<string>,
                             key: SortKey, order: SortOrder, time: string -> int)
    ensures FilteredTasks(tasks, FilteredAndSorted(projects, term, statuses, key, order, time))
            == FilteredTasks(tasks, Visible(projects, term, statuses))
  {
    var sorted := FilteredAndSorted(projects, term, statuses, key, order, time);
    var visible := Visible(projects, term, statuses);
    assert forall p :: p in sorted <==> p in visible by {
      assert forall p :: p in sorted <==> p in multiset(sorted);
      assert forall p :: p in visible <==> p in multiset(visible);
    }
    FilterExt(tasks, OfVisible(sorted), OfVisible(visible));
  }

  function IsDone(t: Task): bool { t.status == Done }

  /** The overview's "Tasks Completed": how many tasks are done. */
  function CompletedTasks(tasks: seq<Task>): (n: nat)
    ensures n <= |tasks|
    ensures n == 0 <==> forall t :: t in tasks ==> t.status != Done
    ensures n == |tasks| <==> forall t :: t in tasks ==> t.status == Done
  {
    var done := Filter(tasks, IsDone);
    assert |done| > 0 ==> done[0] in done;
    |done|
  }

  /** The completed count is the number of done tasks, each counted once per occurrence. */
  lemma CompletedTasksCounted(tasks: seq<Task>)
    ensures CompletedTasks(tasks) == CountWhere(tasks, IsDone)
  {
    FilterLengthIsCount(tasks, IsDone);
  }

  /**
   * The overview is handed the unfiltered task list, so its completed count
   * is never below the count over the tasks the filters leave visible.
   */
  lemma CompletedIgnoresFilters(tasks: seq<Task>, projects: seq<Project>, term: string, statuses: seq<string>)
    ensures CompletedTasks(tasks) >= CompletedTasks(FilteredTasks(tasks, Visible(projects, term, statuses)))
  {
    var vt := FilteredTasks(tasks, Visible(projects, term, statuses));
    FilterIsSubsequence(tasks, (t: Task) => HasProject(Visible(projects, term, statuses), t.projectId));
    SubsequenceFilterShorter(vt, tasks, IsDone);
  }
}
