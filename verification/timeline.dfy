/**
 * `groupByDate` of `src/components/TimelineView.tsx`: projects grouped by
 * the calendar day of `lastWorkedOn`, groups in order of first appearance.
 *
 * `toLocaleDateString` is the abstract `dayKey`. The groups live in a plain
 * object whose `Object.keys` order is insertion order for keys that are not
 * array indices, which a formatted date never is.
 */
module Timeline {
  import opened Seqs
  import opened Types

  datatype Group = Group(key: string, projects: seq<Project>)

  function GroupKeys(gs: seq<Group>): (r: seq<string>)
    ensures |r| == |gs|
    ensures forall i :: 0 <= i < |gs| ==> r[i] == gs[i].key
  {
    if |gs| == 0 then [] else [gs[0].key] + GroupKeys(gs[1..])
  }

  /** The groups' projects, one group after another. */
  function Flatten(gs: seq<Group>): seq<Project> {
    if |gs| == 0 then [] else gs[0].projects + Flatten(gs[1..])
  }

  /** The day key of each project, in input order. */
  function DayKeys(ps: seq<Project>, dayKey: string -> string): (r: seq<string>)
    ensures forall k :: k in r <==> exists p :: p in ps && dayKey(p.lastWorkedOn) == k
  {
    if |ps| == 0 then []
    else
      var init := ps[..|ps| - 1];
      assert ps == init + [ps[|ps| - 1]];
      DayKeys(init, dayKey) + [dayKey(ps[|ps| - 1].lastWorkedOn)]
  }

  /** Each key once, at its first appearance. */
  function Dedup(s: seq<string>): (r: seq<string>)
    ensures forall x :: x in r <==> x in s
    ensures NoDup(r)
  {
    if |s| == 0 then []
    else
      var d := Dedup(s[..|s| - 1]);
      assert s == s[..|s| - 1] + [s[|s| - 1]];
      if s[|s| - 1] in d then d else d + [s[|s| - 1]]
  }

  /** The projects of one day, in input order. */
  function OnDay(ps: seq<Project>, dayKey: string -> string, k: string): (r: seq<Project>)
    ensures forall p :: p in r <==> p in ps && dayKey(p.lastWorkedOn) == k
  {
    if |ps| == 0 then []
    else
      var init := ps[..|ps| - 1];
      var last := ps[|ps| - 1];
      assert ps == init + [last];
      OnDay(init, dayKey, k) + (if dayKey(last.lastWorkedOn) == k then [last] else [])
  }

  /** Where the group with key `k` is, or `|gs|` when there is none. */
  function KeyIndex(gs: seq<Group>, k: string): (i: nat)
    ensures i <= |gs|
    ensures i < |gs| ==> gs[i].key == k
    ensures forall j :: 0 <= j < i ==> gs[j].key != k
  {
    if |gs| == 0 then 0
    else if gs[0].key == k then 0
    else 1 + KeyIndex(gs[1..], k)
  }

  /** The index finds the key exactly when the key is present. */
  lemma {:induction false} KeyIndexFound(gs: seq<Group>, k: string)
    ensures KeyIndex(gs, k) < |gs| <==> k in GroupKeys(gs)
  {
    var keys := GroupKeys(gs);
    if k in keys {
      var j :| 0 <= j < |keys| && keys[j] == k;
      assert gs[j].key == k;
    }
  }

  /**
   * One `push`: onto the group with the key if there is one (`groups[date]`
   * is truthy), otherwise into a new group at the end.
   */
  function AddToGroups(gs: seq<Group>, p: Project, k: string): seq<Group> {
    var i := KeyIndex(gs, k);
    if i < |gs| then gs[i := gs[i].(projects := gs[i].projects + [p])]
    else gs + [Group(k, [p])]
  }

  /** A push keeps the groups and their order, and adds a group only for a new key. */
  lemma {:induction false} AddToGroupsShape(gs: seq<Group>, p: Project, k: string)
    ensures var r := AddToGroups(gs, p, k);
            && |r| == (if k in GroupKeys(gs) then |gs| else |gs| + 1)
            && (forall i :: 0 <= i < |gs| ==> r[i].key == gs[i].key)
            && (k !in GroupKeys(gs) ==> r[|gs|] == Group(k, [p]))
  {
    KeyIndexFound(gs, k);
  }

  /** Only the group with the key grows, by `p` at its end. */
  lemma {:induction false} AddToGroupsProjects(gs: seq<Group>, p: Project, k: string)
    requires NoDup(GroupKeys(gs))
    ensures var r := AddToGroups(gs, p, k);
            forall i :: 0 <= i < |gs| ==>
              r[i].projects == if gs[i].key == k then gs[i].projects + [p] else gs[i].projects
  {
    var n := KeyIndex(gs, k);
    assert forall i :: 0 <= i < |gs| && gs[i].key == k ==> i == n;
  }

  /** The new keys: unchanged when the key was there, otherwise the key appended. */
  lemma {:induction false} AddToGroupsKeys(gs: seq<Group>, p: Project, k: string)
    ensures GroupKeys(AddToGroups(gs, p, k)) == if k in GroupKeys(gs) then GroupKeys(gs) else GroupKeys(gs) + [k]
  {
    KeyIndexFound(gs, k);
    var r := AddToGroups(gs, p, k);
    if k in GroupKeys(gs) {
      assert GroupKeys(r) == GroupKeys(gs);
    } else {
      assert GroupKeys(r) == GroupKeys(gs) + [k];
    }
  }

  lemma {:induction false} FlattenAppend(gs: seq<Group>, g: Group)
    ensures Flatten(gs + [g]) == Flatten(gs) + g.projects
  {
    if |gs| > 0 {
      assert (gs + [g])[1..] == gs[1..] + [g];
      FlattenAppend(gs[1..], g);
    }
  }

  /** Appending `p` to one group adds `p` to the flattened groups. */
  lemma {:induction false} FlattenGrow(gs: seq<Group>, i: nat, p: Project)
    requires i < |gs|
    ensures multiset(Flatten(gs[i := gs[i].(projects := gs[i].projects + [p])])) == multiset(Flatten(gs)) + multiset{p}
  {
    var r := gs[i := gs[i].(projects := gs[i].projects + [p])];
    if i == 0 {
      assert r[1..] == gs[1..];
    } else {
      assert r[1..] == gs[1..][i - 1 := gs[i].(projects := gs[i].projects + [p])];
      FlattenGrow(gs[1..], i - 1, p);
    }
  }

  /** One push adds exactly `p` to the flattened groups. */
  lemma {:induction false} AddToGroupsFlatten(gs: seq<Group>, p: Project, k: string)
    ensures multiset(Flatten(AddToGroups(gs, p, k))) == multiset(Flatten(gs)) + multiset{p}
  {
    var i := KeyIndex(gs, k);
    if i < |gs| {
      FlattenGrow(gs, i, p);
    } else {
      FlattenAppend(gs, Group(k, [p]));
    }
  }

  /**
   * `groupByDate` followed by `Object.keys`, as a list of groups: one
   * non-empty group per day at most. Which keys and which projects the
   * groups hold is stated by `GroupByDateKeys`, `GroupByDateProjects` and
   * `GroupByDateFlatten`.
   */
  function GroupByDate(ps: seq<Project>, dayKey: string -> string): (r: seq<Group>)
    ensures |ps| == 0 ==> r == []
    ensures |ps| > 0 ==> 0 < |r| <= |ps|
    ensures forall i :: 0 <= i < |r| ==> |r[i].projects| > 0
  {
    if |ps| == 0 then []
    else
      var last := ps[|ps| - 1];
      var gs := GroupByDate(ps[..|ps| - 1], dayKey);
      var k := dayKey(last.lastWorkedOn);
      AddToGroupsShape(gs, last, k);
      var r := AddToGroups(gs, last, k);
      assert forall i :: 0 <= i < |r| ==> |r[i].projects| > 0 by {
        var n := KeyIndex(gs, k);
        assert forall i :: 0 <= i < |r| && i != n ==> i < |gs| && r[i] == gs[i];
      }
      r
  }

  /** One more project: one more push onto the groups of the others. */
  lemma {:induction false} GroupByDateStep(ps: seq<Project>, dayKey: string -> string)
    requires |ps| > 0
    ensures var last := ps[|ps| - 1];
            GroupByDate(ps, dayKey) == AddToGroups(GroupByDate(ps[..|ps| - 1], dayKey), last, dayKey(last.lastWorkedOn))
  {
  }

  /** The groups are keyed by the distinct days, in order of first appearance. */
  lemma {:induction false} GroupByDateKeys(ps: seq<Project>, dayKey: string -> string)
    ensures GroupKeys(GroupByDate(ps, dayKey)) == Dedup(DayKeys(ps, dayKey))
  {
    if |ps| > 0 {
      var init := ps[..|ps| - 1];
      var last := ps[|ps| - 1];
      GroupByDateStep(ps, dayKey);
      GroupByDateKeys(init, dayKey);
      AddToGroupsKeys(GroupByDate(init, dayKey), last, dayKey(last.lastWorkedOn));
      var keys := DayKeys(ps, dayKey);
      assert keys[..|keys| - 1] == DayKeys(init, dayKey);
    }
  }

  /** A day nobody worked on has no projects. */
  lemma {:induction false} OnDayAbsent(ps: seq<Project>, dayKey: string -> string, k: string)
    requires k !in DayKeys(ps, dayKey)
    ensures OnDay(ps, dayKey, k) == []
  {
    if |ps| > 0 {
      var init := ps[..|ps| - 1];
      assert DayKeys(ps, dayKey) == DayKeys(init, dayKey) + [dayKey(ps[|ps| - 1].lastWorkedOn)];
      OnDayAbsent(init, dayKey, k);
    }
  }

  /** The per-group step of `GroupByDateProjects`, kept apart from `GroupByDate`. */
  lemma {:induction false} PushKeepsDays(r: seq<Group>, gs: seq<Group>, ps: seq<Project>, dayKey: string -> string)
    requires |ps| > 0
    requires r == AddToGroups(gs, ps[|ps| - 1], dayKey(ps[|ps| - 1].lastWorkedOn))
    requires NoDup(GroupKeys(gs))
    requires forall k :: k in GroupKeys(gs) <==> k in DayKeys(ps[..|ps| - 1], dayKey)
    requires forall i :: 0 <= i < |gs| ==> gs[i].projects == OnDay(ps[..|ps| - 1], dayKey, gs[i].key)
    ensures forall i :: 0 <= i < |r| ==> r[i].projects == OnDay(ps, dayKey, r[i].key)
  {
    var init := ps[..|ps| - 1];
    var last := ps[|ps| - 1];
    var k := dayKey(last.lastWorkedOn);
    AddToGroupsShape(gs, last, k);
    AddToGroupsProjects(gs, last, k);
    forall i | 0 <= i < |r|
      ensures r[i].projects == OnDay(ps, dayKey, r[i].key)
    {
      assert OnDay(ps, dayKey, r[i].key) == OnDay(init, dayKey, r[i].key) + (if k == r[i].key then [last] else []);
      if i == |gs| {
        OnDayAbsent(init, dayKey, k);
      }
    }
  }

  /** Each group holds exactly the projects of its day, in input order. */
  lemma {:induction false} GroupByDateProjects(ps: seq<Project>, dayKey: string -> string)
    ensures var r := GroupByDate(ps, dayKey);
            forall i :: 0 <= i < |r| ==> r[i].projects == OnDay(ps, dayKey, r[i].key)
  {
    if |ps| > 0 {
      var init := ps[..|ps| - 1];
      GroupByDateStep(ps, dayKey);
      GroupByDateProjects(init, dayKey);
      GroupByDateKeys(init, dayKey);
      PushKeepsDays(GroupByDate(ps, dayKey), GroupByDate(init, dayKey), ps, dayKey);
    }
  }

  /** The multiset step of `GroupByDateFlatten`, kept apart from `GroupByDate`. */
  lemma {:induction false} PushKeepsProjects(r: seq<Group>, gs: seq<Group>, ps: seq<Project>, k: string)
    requires |ps| > 0
    requires r == AddToGroups(gs, ps[|ps| - 1], k)
    requires multiset(Flatten(gs)) == multiset(ps[..|ps| - 1])
    ensures multiset(Flatten(r)) == multiset(ps)
  {
    AddToGroupsFlatten(gs, ps[|ps| - 1], k);
    assert ps[..|ps| - 1] + [ps[|ps| - 1]] == ps;
  }

  /** Concatenating the groups gives back the projects, each as often as before. */
  lemma {:induction false} GroupByDateFlatten(ps: seq<Project>, dayKey: string -> string)
    ensures multiset(Flatten(GroupByDate(ps, dayKey))) == multiset(ps)
  {
    if |ps| > 0 {
      var init := ps[..|ps| - 1];
      GroupByDateStep(ps, dayKey);
      GroupByDateFlatten(init, dayKey);
      PushKeepsProjects(GroupByDate(ps, dayKey), GroupByDate(init, dayKey), ps, dayKey(ps[|ps| - 1].lastWorkedOn));
    }
  }

  /** Every project is in exactly the group of its day, and that group exists. */
  lemma {:induction false} ExactlyOneGroup(ps: seq<Project>, dayKey: string -> string, p: Project)
    requires p in ps
    ensures var r := GroupByDate(ps, dayKey);
            && (forall i :: 0 <= i < |r| ==> (p in r[i].projects <==> r[i].key == dayKey(p.lastWorkedOn)))
            && dayKey(p.lastWorkedOn) in GroupKeys(r)
    ensures NoDup(GroupKeys(GroupByDate(ps, dayKey)))
  {
    GroupByDateKeys(ps, dayKey);
    GroupByDateProjects(ps, dayKey);
  }

  /** No projects, no groups; some projects, some groups. */
  lemma {:induction false} GroupsEmptyIffNoProjects(ps: seq<Project>, dayKey: string -> string)
    ensures |GroupByDate(ps, dayKey)| == 0 <==> |ps| == 0
  {
    if |ps| > 0 {
      ExactlyOneGroup(ps, dayKey, ps[0]);
    }
  }
}
