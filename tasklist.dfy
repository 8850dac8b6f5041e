/**
 * The kanban task board of a project: grouping the project's task summaries
 * into the five status columns, the optimistic patch that a drop writes into
 * the client's query cache, and the drag-end handler with the callbacks of
 * its status-update request.
 */
module TaskList {
  import opened Wrappers
  import opened Types

  // ---------------------------------------------------------------------------
  // Grouping by status
  // ---------------------------------------------------------------------------

  /** The board's columns: a task list per status key. */
  type GroupedTasks = map<TaskStatus, seq<TaskProject>>

  /** The seed of the grouping: all five keys, each with an empty column. */
  const InitialStatusGroups: GroupedTasks :=
    map[Pending := [], OnHold := [], InProgress := [], UnderReview := [], Completed := []]

  /**
   * One step of the grouping: a new map in which the column of the task's
   * status is a copy of the old one (or empty when the key is absent) with the
   * task appended; every other column is carried over.
   */
  function AddToGroup(acc: GroupedTasks, task: TaskProject): (r: GroupedTasks)
    ensures r.Keys == acc.Keys + {task.status}
    ensures forall s :: s in acc && s != task.status ==> r[s] == acc[s]
    ensures |r[task.status]| > 0 && r[task.status][|r[task.status]| - 1] == task
  {
    var current := if task.status in acc then acc[task.status] else [];
    acc[task.status := current + [task]]
  }

  /** The left fold of `AddToGroup` over `tasks`, starting from `acc`. */
  function GroupFrom(acc: GroupedTasks, tasks: seq<TaskProject>): GroupedTasks
    decreases |tasks|
  {
    if tasks == [] then acc else GroupFrom(AddToGroup(acc, tasks[0]), tasks[1..])
  }

  /** The board's grouping of a project's tasks, seeded with the five empty columns. */
  function GroupTasks(tasks: seq<TaskProject>): (g: GroupedTasks)
    ensures g.Keys == StatusKeys
    ensures forall s :: s in g
  {
    GroupFromKeys(InitialStatusGroups, tasks);
    assert forall s :: s in StatusKeys by {
      forall s ensures s in StatusKeys { StatusIsKey(s); }
    }
    GroupFrom(InitialStatusGroups, tasks)
  }

  /** Reference definition of a column: the tasks of status `s`, in input order. */
  function WithStatus(tasks: seq<TaskProject>, s: TaskStatus): seq<TaskProject>
    decreases |tasks|
  {
    if tasks == [] then []
    else (if tasks[0].status == s then [tasks[0]] else []) + WithStatus(tasks[1..], s)
  }

  /** Folding from a map that has all five keys keeps exactly the five keys. */
  lemma {:induction false} GroupFromKeys(acc: GroupedTasks, tasks: seq<TaskProject>)
    requires acc.Keys == StatusKeys
    ensures GroupFrom(acc, tasks).Keys == StatusKeys
    decreases |tasks|
  {
    if tasks != [] {
      StatusIsKey(tasks[0].status);
      GroupFromKeys(AddToGroup(acc, tasks[0]), tasks[1..]);
    }
  }

  /**
   * Folding appends to the column of an existing key `s` exactly the input's
   * tasks of status `s`, in input order.
   */
  lemma {:induction false} GroupFromColumn(acc: GroupedTasks, tasks: seq<TaskProject>, s: TaskStatus)
    requires s in acc
    ensures s in GroupFrom(acc, tasks) && GroupFrom(acc, tasks)[s] == acc[s] + WithStatus(tasks, s)
    decreases |tasks|
  {
    if tasks != [] {
      var t, rest := tasks[0], tasks[1..];
      var next := AddToGroup(acc, t);
      assert GroupFrom(acc, tasks) == GroupFrom(next, rest);
      GroupFromColumn(next, rest, s);
      if t.status == s {
        assert next[s] == acc[s] + [t];
        assert WithStatus(tasks, s) == [t] + WithStatus(rest, s);
        assert (acc[s] + [t]) + WithStatus(rest, s) == acc[s] + ([t] + WithStatus(rest, s));
      } else {
        assert next[s] == acc[s];
        assert WithStatus(tasks, s) == WithStatus(rest, s);
      }
    }
  }

  /**
   * The grouping has exactly the five status keys, even when columns are
   * empty; each column is the input's tasks of that status in input order;
   * an empty input yields the seed itself.
   */
  lemma GroupTasksColumns(tasks: seq<TaskProject>)
    ensures GroupTasks(tasks).Keys == StatusKeys
    ensures forall s :: s in GroupTasks(tasks) && GroupTasks(tasks)[s] == WithStatus(tasks, s)
    ensures tasks == [] ==> GroupTasks(tasks) == InitialStatusGroups
  {
    forall s ensures s in GroupTasks(tasks) && GroupTasks(tasks)[s] == WithStatus(tasks, s) {
      StatusIsKey(s);
      GroupFromColumn(InitialStatusGroups, tasks, s);
      assert InitialStatusGroups[s] == [];
    }
  }

  /** A task is in the column of `s` iff it is an input task of status `s`. */
  lemma {:induction false} WithStatusMembers(tasks: seq<TaskProject>, s: TaskStatus)
    ensures forall t :: t in WithStatus(tasks, s) <==> t in tasks && t.status == s
    decreases |tasks|
  {
    if tasks != [] {
      WithStatusMembers(tasks[1..], s);
      assert tasks == [tasks[0]] + tasks[1..];
    }
  }

  /** Filtering a concatenation filters each part. */
  lemma {:induction false} WithStatusAppend(a: seq<TaskProject>, b: seq<TaskProject>, s: TaskStatus)
    ensures WithStatus(a + b, s) == WithStatus(a, s) + WithStatus(b, s)
    decreases |a|
  {
    if a == [] {
      assert a + b == b;
    } else {
      var own := if a[0].status == s then [a[0]] else [];
      assert (a + b)[0] == a[0] && (a + b)[1..] == a[1..] + b;
      assert WithStatus(a + b, s) == own + WithStatus(a[1..] + b, s);
      WithStatusAppend(a[1..], b, s);
      assert WithStatus(a, s) == own + WithStatus(a[1..], s);
      assert own + (WithStatus(a[1..], s) + WithStatus(b, s)) == (own + WithStatus(a[1..], s)) + WithStatus(b, s);
    }
  }

  /**
   * Every input task lands in exactly one column, the one keyed by its own
   * status, and no column holds anything else.
   */
  lemma GroupTasksExactlyOneColumn(tasks: seq<TaskProject>, t: TaskProject)
    ensures t in tasks ==> t in GroupTasks(tasks)[t.status]
    ensures forall s :: t in GroupTasks(tasks)[s] <==> t in tasks && t.status == s
  {
    GroupTasksColumns(tasks);
    forall s ensures t in GroupTasks(tasks)[s] <==> t in tasks && t.status == s {
      WithStatusMembers(tasks, s);
    }
  }

  /**
   * Within a column, tasks keep their input order: two input tasks of the
   * same status at positions i < j appear in that column at positions p < q.
   */
  lemma GroupTasksKeepsOrder(tasks: seq<TaskProject>, i: nat, j: nat)
    requires i < j < |tasks| && tasks[i].status == tasks[j].status
    ensures exists p, q :: (0 <= p < q < |GroupTasks(tasks)[tasks[i].status]| &&
      GroupTasks(tasks)[tasks[i].status][p] == tasks[i] &&
      GroupTasks(tasks)[tasks[i].status][q] == tasks[j])
  {
    var s := tasks[i].status;
    GroupTasksColumns(tasks);
    var before, after := tasks[..j], tasks[j..];
    assert tasks == before + after;
    WithStatusAppend(before, after, s);
    WithStatusMembers(before, s);
    assert tasks[i] == before[i];
    var left := WithStatus(before, s);
    assert tasks[i] in left;
    var p :| 0 <= p < |left| && left[p] == tasks[i];
    assert after == [tasks[j]] + after[1..];
    assert WithStatus(after, s) == [tasks[j]] + WithStatus(after[1..], s);
    var col := GroupTasks(tasks)[s];
    assert col == left + WithStatus(after, s);
    assert col[p] == tasks[i] && col[|left|] == tasks[j];
  }

  /** The five columns together hold the input's tasks, each as often as in the input. */
  lemma {:induction false} WithStatusPartition(tasks: seq<TaskProject>)
    ensures multiset(WithStatus(tasks, Pending)) + multiset(WithStatus(tasks, OnHold)) +
      multiset(WithStatus(tasks, InProgress)) + multiset(WithStatus(tasks, UnderReview)) +
      multiset(WithStatus(tasks, Completed)) == multiset(tasks)
    decreases |tasks|
  {
    if tasks != [] {
      var t, rest := tasks[0], tasks[1..];
      WithStatusPartition(rest);
      assert tasks == [t] + rest;
      assert multiset(tasks) == multiset{t} + multiset(rest);
      forall s ensures multiset(WithStatus(tasks, s)) ==
        (if t.status == s then multiset{t} else multiset{}) + multiset(WithStatus(rest, s))
      {
        if t.status == s {
          assert WithStatus(tasks, s) == [t] + WithStatus(rest, s);
        } else {
          assert WithStatus(tasks, s) == WithStatus(rest, s);
        }
      }
    }
  }

  /**
   * The grouping partitions its input: the column multisets add up to the
   * input's multiset, so the column sizes add up to the number of tasks.
   */
  lemma GroupTasksPartition(tasks: seq<TaskProject>)
    ensures var g := GroupTasks(tasks);
      g.Keys == StatusKeys &&
      multiset(g[Pending]) + multiset(g[OnHold]) + multiset(g[InProgress]) +
      multiset(g[UnderReview]) + multiset(g[Completed]) == multiset(tasks)
    ensures var g := GroupTasks(tasks);
      g.Keys == StatusKeys &&
      |g[Pending]| + |g[OnHold]| + |g[InProgress]| + |g[UnderReview]| + |g[Completed]| == |tasks|
  {
    var g := GroupTasks(tasks);
    GroupTasksColumns(tasks);
    WithStatusPartition(tasks);
    assert |multiset(g[Pending]) + multiset(g[OnHold]) + multiset(g[InProgress]) +
      multiset(g[UnderReview]) + multiset(g[Completed])| == |multiset(tasks)|;
  }

  /** The board's columns in display order: the enumeration's order, which is the seed's key order. */
  function Columns(g: GroupedTasks): (cols: seq<(TaskStatus, seq<TaskProject>)>)
    requires g.Keys == StatusKeys
    ensures |cols| == |AllStatuses|
    ensures forall k :: 0 <= k < |cols| ==> cols[k].0 == AllStatuses[k] && cols[k].1 == g[AllStatuses[k]]
  {
    [(Pending, g[Pending]), (OnHold, g[OnHold]), (InProgress, g[InProgress]),
     (UnderReview, g[UnderReview]), (Completed, g[Completed])]
  }

  /** The tasks shown by a sequence of columns, left to right. */
  function Shown(cols: seq<(TaskStatus, seq<TaskProject>)>): seq<TaskProject>
  {
    if cols == [] then [] else cols[0].1 + Shown(cols[1..])
  }

  /** Read left to right, the board shows a permutation of the project's tasks. */
  lemma BoardShowsEveryTaskOnce(tasks: seq<TaskProject>)
    ensures GroupTasks(tasks).Keys == StatusKeys
    ensures multiset(Shown(Columns(GroupTasks(tasks)))) == multiset(tasks)
  {
    var g := GroupTasks(tasks);
    GroupTasksPartition(tasks);
    var cols := Columns(g);
    assert Shown(cols[4..]) == g[Completed];
    assert Shown(cols[3..]) == g[UnderReview] + Shown(cols[4..]);
    assert Shown(cols[2..]) == g[InProgress] + Shown(cols[3..]);
    assert Shown(cols[1..]) == g[OnHold] + Shown(cols[2..]);
    assert Shown(cols) == g[Pending] + Shown(cols[1..]);
  }

  // ---------------------------------------------------------------------------
  // The optimistic patch
  // ---------------------------------------------------------------------------

  /** A task after a drop of `taskId` onto `status`. */
  function PatchTask(t: TaskProject, taskId: string, status: TaskStatus): TaskProject
  {
    if t.id == taskId then t.(status := status) else t
  }

  /**
   * The patched task list: same length, every task with the dragged id has
   * the target status and its other fields unchanged, every other task is
   * the same value as before.
   */
  function PatchTasks(tasks: seq<TaskProject>, taskId: string, status: TaskStatus): (r: seq<TaskProject>)
    ensures |r| == |tasks|
    ensures forall i :: 0 <= i < |tasks| && tasks[i].id == taskId ==>
      r[i].status == status && r[i].(status := tasks[i].status) == tasks[i]
    ensures forall i :: 0 <= i < |tasks| && tasks[i].id != taskId ==> r[i] == tasks[i]
    decreases |tasks|
  {
    if tasks == [] then [] else [PatchTask(tasks[0], taskId, status)] + PatchTasks(tasks[1..], taskId, status)
  }

  /**
   * The patch leaves the list as it was iff every task with the dragged id
   * already has the target status; in particular when no task has that id.
   */
  lemma PatchTasksUnchangedIff(tasks: seq<TaskProject>, taskId: string, status: TaskStatus)
    ensures PatchTasks(tasks, taskId, status) == tasks <==>
      forall i :: 0 <= i < |tasks| && tasks[i].id == taskId ==> tasks[i].status == status
    ensures (forall i :: 0 <= i < |tasks| ==> tasks[i].id != taskId) ==> PatchTasks(tasks, taskId, status) == tasks
  {
  }

  /** Patching twice with the same drop is patching once; task ids never change. */
  lemma PatchTasksIdempotent(tasks: seq<TaskProject>, taskId: string, status: TaskStatus)
    ensures PatchTasks(PatchTasks(tasks, taskId, status), taskId, status) == PatchTasks(tasks, taskId, status)
    ensures forall i :: 0 <= i < |tasks| ==> PatchTasks(tasks, taskId, status)[i].id == tasks[i].id
  {
  }

  /**
   * When task ids are unique, a drop of an existing task changes at most one
   * entry, the dragged one, whose status becomes the target status.
   */
  lemma PatchTasksChangesOnlyDragged(tasks: seq<TaskProject>, k: nat, status: TaskStatus)
    requires k < |tasks|
    requires forall i, j :: 0 <= i < j < |tasks| ==> tasks[i].id != tasks[j].id
    ensures var r := PatchTasks(tasks, tasks[k].id, status);
      r[k] == tasks[k].(status := status) &&
      forall i :: 0 <= i < |tasks| && i != k ==> r[i] == tasks[i]
  {
  }

  /** The tasks whose id is not `taskId`, in order. */
  function WithoutId(tasks: seq<TaskProject>, taskId: string): seq<TaskProject>
    decreases |tasks|
  {
    if tasks == [] then []
    else (if tasks[0].id == taskId then [] else [tasks[0]]) + WithoutId(tasks[1..], taskId)
  }

  /**
   * The tasks that end up in the column of `status` after a drop of `taskId`
   * onto it, before patching: those already of that status and the dragged
   * ones, in list order.
   */
  function Moved(tasks: seq<TaskProject>, taskId: string, status: TaskStatus): seq<TaskProject>
    decreases |tasks|
  {
    if tasks == [] then []
    else
      var own := if tasks[0].status == status || tasks[0].id == taskId then [tasks[0]] else [];
      own + Moved(tasks[1..], taskId, status)
  }

  /**
   * What a drop does to the columns: every column other than the target
   * loses the dragged tasks and otherwise keeps its tasks in order. The
   * target column becomes the old target tasks and the dragged tasks, in list
   * order (a dragged card lands at its position in the project's list, not at
   * the end of the column), the dragged ones carrying the target status.
   */
  lemma {:induction false} PatchRegroups(tasks: seq<TaskProject>, taskId: string, status: TaskStatus)
    ensures forall s :: s != status ==>
      WithStatus(PatchTasks(tasks, taskId, status), s) == WithoutId(WithStatus(tasks, s), taskId)
    ensures forall t :: t in tasks && t.id == taskId ==>
      t.(status := status) in WithStatus(PatchTasks(tasks, taskId, status), status)
    ensures forall u :: u in WithStatus(PatchTasks(tasks, taskId, status), status) ==>
      u.id == taskId || u in WithStatus(tasks, status)
    ensures forall u :: u in WithStatus(tasks, status) && u.id != taskId ==>
      u in WithStatus(PatchTasks(tasks, taskId, status), status)
    ensures WithStatus(PatchTasks(tasks, taskId, status), status) ==
      PatchTasks(Moved(tasks, taskId, status), taskId, status)
    decreases |tasks|
  {
    if tasks != [] {
      var t, rest := tasks[0], tasks[1..];
      var r := PatchTasks(tasks, taskId, status);
      PatchRegroups(rest, taskId, status);
      assert r == [PatchTask(t, taskId, status)] + PatchTasks(rest, taskId, status);
      assert r[1..] == PatchTasks(rest, taskId, status);
      WithStatusMembers(tasks, status);
      WithStatusMembers(rest, status);
      WithStatusMembers(r, status);
      WithStatusMembers(PatchTasks(rest, taskId, status), status);
      forall s | s != status
        ensures WithStatus(r, s) == WithoutId(WithStatus(tasks, s), taskId)
      {
        if t.status == s {
          assert WithStatus(tasks, s) == [t] + WithStatus(rest, s);
          assert ([t] + WithStatus(rest, s))[1..] == WithStatus(rest, s);
        } else {
          assert WithStatus(tasks, s) == WithStatus(rest, s);
        }
      }
      var m, mr := Moved(tasks, taskId, status), Moved(rest, taskId, status);
      if t.status == status || t.id == taskId {
        assert m == [t] + mr;
        assert m[1..] == mr;
        assert PatchTasks(m, taskId, status) == [PatchTask(t, taskId, status)] + PatchTasks(mr, taskId, status);
        assert WithStatus(r, status) == [PatchTask(t, taskId, status)] + WithStatus(r[1..], status);
      } else {
        assert m == mr;
        assert WithStatus(r, status) == WithStatus(r[1..], status);
      }
    }
  }

  /**
   * The patched project: the same project with its task list patched.
   * Every field other than `tasks` is unchanged.
   */
  function PatchProject(p: Project, taskId: string, status: TaskStatus): (r: Project)
    ensures r.tasks == PatchTasks(p.tasks, taskId, status)
    ensures r.(tasks := p.tasks) == p
  {
    p.(tasks := PatchTasks(p.tasks, taskId, status))
  }

  /** The query cache of projects, keyed by project id (the key `["project", id]`). */
  type ProjectCache = map<string, Project>

  /**
   * The cache write of a drop: the entry of `projectId`, when present, is
   * replaced by its patch; no other entry changes and no key is added.
   */
  function PatchCache(cache: ProjectCache, projectId: string, taskId: string, status: TaskStatus): (r: ProjectCache)
    ensures r.Keys == cache.Keys
    ensures forall k :: k in cache && k != projectId ==> r[k] == cache[k]
    ensures projectId in cache ==> r[projectId].(tasks := cache[projectId].tasks) == cache[projectId]
    ensures projectId in cache ==> r[projectId].tasks == PatchTasks(cache[projectId].tasks, taskId, status)
  {
    if projectId in cache then cache[projectId := PatchProject(cache[projectId], taskId, status)] else cache
  }

  /** Two tasks of different statuses each open their own column of the seed. */
  lemma GroupTwo(a: TaskProject, b: TaskProject)
    requires a.status != b.status
    ensures GroupTasks([a, b]) == InitialStatusGroups[a.status := [a]][b.status := [b]]
  {
    var g1 := AddToGroup(InitialStatusGroups, a);
    assert [a, b][1..] == [b];
    assert GroupTasks([a, b]) == GroupFrom(g1, [b]);
    assert GroupFrom(g1, [b]) == GroupFrom(AddToGroup(g1, b), []);
    StatusIsKey(a.status);
    StatusIsKey(b.status);
    assert InitialStatusGroups[a.status] + [a] == [a];
    assert g1 == InitialStatusGroups[a.status := [a]];
    assert g1[b.status] + [b] == [b];
  }

  /**
   * The worked example: a project with T1 pending and T2 completed shows T1
   * under pending and T2 under completed; after T1 is dropped on inProgress
   * the board shows it there, and the other columns are empty apart from T2.
   */
  lemma DragScenario(t1: TaskProject, t2: TaskProject)
    requires t1.status == Pending && t2.status == Completed && t1.id != t2.id
    ensures GroupTasks([t1, t2]) ==
      map[Pending := [t1], OnHold := [], InProgress := [], UnderReview := [], Completed := [t2]]
    ensures GroupTasks(PatchTasks([t1, t2], t1.id, InProgress)) ==
      map[Pending := [], OnHold := [], InProgress := [t1.(status := InProgress)], UnderReview := [], Completed := [t2]]
  {
    var moved := t1.(status := InProgress);
    assert PatchTasks([t1, t2], t1.id, InProgress) == [moved, t2];
    GroupTwo(t1, t2);
    GroupTwo(moved, t2);
  }

  // ---------------------------------------------------------------------------
  // The drag-end handler and the status-update callbacks
  // ---------------------------------------------------------------------------

  /** A status-update request: POST of `{status}` for a task of a project. */
  datatype StatusRequest = StatusRequest(projectId: string, taskId: string, status: TaskStatus)

  /** A notification shown to the user. */
  datatype Notice = SuccessNotice(text: string) | ErrorNotice(text: string)

  /** The drop target's id is present and not the empty string (the falsy id). */
  predicate IsTruthyTarget(over: Option<string>)
  {
    over.Some? && over.value != ""
  }

  /**
   * The only drop targets on the board are the five status columns, whose ids
   * are the status names, so a present, non-empty target id names a status.
   */
  predicate IsStatusTarget(over: Option<string>)
  {
    IsTruthyTarget(over) ==> ParseStatus(over.value).Some?
  }

  /**
   * The board of one project: the shared query cache of projects, the log of
   * status-update requests issued, the log of cache keys invalidated and the
   * notifications shown.
   */
  class Board {
    const projectId: string
    var cache: ProjectCache
    var sent: seq<StatusRequest>
    var invalidated: seq<string>
    var notices: seq<Notice>
    /** Issued requests whose success or error callback has not run yet. */
    var inFlight: nat

    /** Every callback answers a request issued before it. */
    predicate Valid()
      reads this
    {
      inFlight <= |sent|
    }

    constructor (projectId: string, cache: ProjectCache)
      ensures Valid()
      ensures this.projectId == projectId && this.cache == cache
      ensures sent == [] && invalidated == [] && notices == [] && inFlight == 0
    {
      this.projectId := projectId;
      this.cache := cache;
      sent := [];
      invalidated := [];
      notices := [];
      inFlight := 0;
    }

    /**
     * A drag ends with the task `activeId` over `over`. Without a target, or
     * with an empty target id, nothing happens. Otherwise exactly one status
     * request is issued and the cached project, if present, is patched
     * optimistically; nothing else changes.
     */
    method DragEnd(over: Option<string>, activeId: string)
      requires Valid() && IsStatusTarget(over)
      modifies this
      ensures Valid()
      ensures !IsTruthyTarget(over) ==>
        cache == old(cache) && sent == old(sent) && inFlight == old(inFlight)
      ensures IsTruthyTarget(over) ==>
        var status := ParseStatus(over.value).value;
        sent == old(sent) + [StatusRequest(projectId, activeId, status)] &&
        cache == PatchCache(old(cache), projectId, activeId, status) &&
        inFlight == old(inFlight) + 1
      ensures invalidated == old(invalidated) && notices == old(notices)
    {
      if IsTruthyTarget(over) {
        var status := ParseStatus(over.value).value;
        sent := sent + [StatusRequest(projectId, activeId, status)];
        inFlight := inFlight + 1;
        cache := PatchCache(cache, projectId, activeId, status);
      }
    }

    /** The status request failed: an error notice is shown and the optimistic patch stays. */
    method OnError(message: string)
      requires Valid() && inFlight > 0
      modifies this
      ensures Valid() && inFlight == old(inFlight) - 1
      ensures notices == old(notices) + [ErrorNotice(message)]
      ensures cache == old(cache) && sent == old(sent) && invalidated == old(invalidated)
    {
      notices := notices + [ErrorNotice(message)];
      inFlight := inFlight - 1;
    }

    /** The status request succeeded: a success notice is shown and the project's entry is invalidated. */
    method OnSuccess(message: string)
      requires Valid() && inFlight > 0
      modifies this
      ensures Valid() && inFlight == old(inFlight) - 1
      ensures notices == old(notices) + [SuccessNotice(message)]
      ensures invalidated == old(invalidated) + [projectId]
      ensures cache == old(cache) && sent == old(sent)
    {
      notices := notices + [SuccessNotice(message)];
      invalidated := invalidated + [projectId];
      inFlight := inFlight - 1;
    }
  }

}
