/**
  What each call of the task store answers and writes, said of the rows and the clock themselves: who is
  granted, whose beat counts, which moves are legal, and what a lease moves by.
 */
module TaskMeaning {
  import opened Wrappers
  import opened Clock
  import opened Text
  import opened TaskTable
  import opened TaskLaws
  import TaskRuns
  import TaskStore

  /** Five minutes, when the caller names no lease. */
  function LeaseEnd(lease: int, now: int): int {
    now + if lease > 0 then lease else 300_000_000_000
  }

  function Second(now: int): int {
    now / 1_000_000_000
  }

  // Enqueue

  predicate KnownLaunch(mode: string) {
    Trim(mode) in {"", "exec", "process", "send_keys"}
  }

  /** A task is accepted exactly when every check passes, starts queued as of now, and names its defaults. */
  lemma EnqueueMeans(t: Table, projects: set<Id>, id: Id, draft: Task, now: int)
    ensures var (t', r) := Enqueued(t, projects, id, draft, now);
      && (r.Success? <==>
            && "project-" <= draft.projectId && draft.projectId in projects && "task-" <= id
            && KnownLaunch(draft.launch) && id !in t)
      && (r.Failure? ==> t' == t)
      && (r.Success? ==> t' == t[id := r.value])
    ensures var r := Enqueued(t, projects, id, draft, now).1;
      r.Success? ==>
        && r.value.state == Queued && r.value.created == r.value.updated == Second(now)
        && r.value.coderKind == (if draft.coderKind != "" then draft.coderKind else "hermes-agent")
        && r.value.launch == (if Trim(draft.launch) != "" then Trim(draft.launch) else "exec")
        && r.value.(state := draft.state, created := draft.created, updated := draft.updated,
                    coderKind := draft.coderKind, launch := draft.launch) == draft
    ensures var r := Enqueued(t, projects, id, draft, now).1;
      r.Failure? ==> r == Failure(
        if !("project-" <= draft.projectId) then BadProjectId
        else if draft.projectId !in projects then ProjectNotFound
        else if !("task-" <= id) then BadTaskId
        else if !KnownLaunch(draft.launch) then BadLaunch
        else DuplicateId)
  {
  }

  // Claim

  /** A run is lapsed when its lease is set and over by whole seconds; a task awaiting a person never is. */
  predicate LeaseOver(task: Task, sec: int) {
    task.state in {Assigned, Running} && task.lease > 0 && task.lease < sec
  }

  predicate SlotTaken(t: Table, w: Id, k: Id) {
    k in t && t[k].worker == w && t[k].state in {Assigned, Running, Awaiting}
  }

  predicate Waits(t: Table, p: Id, sec: int, k: Id) {
    k in t && t[k].projectId == p && (t[k].state == Queued || LeaseOver(t[k], sec))
  }

  predicate Earlier(t: Table, j: Id, k: Id)
    requires j in t && k in t
  {
    t[j].created < t[k].created || (t[j].created == t[k].created && Less(j, k))
  }

  /** The row as a reap leaves it. */
  function Dropped(task: Task, sec: int): Task {
    if LeaseOver(task, sec)
    then task.(state := Queued, worker := "", lease := 0, updated := sec, reason := "lease expired") else task
  }

  lemma SameNotions(t: Table, sec: int)
    ensures forall k :: k in t ==> (Expired(t[k], sec) <==> LeaseOver(t[k], sec)) && Reaped(t[k], sec) == Dropped(t[k], sec)
    ensures forall w, k :: Occupies(t, w, k) <==> SlotTaken(t, w, k)
    ensures forall p, k :: Claimable(t, p, sec, k) <==> Waits(t, p, sec, k)
  {
  }

  /**
    A claim is granted exactly when every task of the worker has lapsed and some task of the project waits.
    It takes the earliest of those for the whole lease, drops every other lapsed one, and touches nothing else.
   */
  lemma ClaimMeans(t: Table, p: Id, w: Id, lease: int, now: int)
    requires "project-" <= p && "connector-" <= w
    ensures var (t', r) := Claimed(t, p, w, lease, now);
      && (r.Success? <==> (forall k :: SlotTaken(t, w, k) ==> LeaseOver(t[k], Second(now)))
                          && exists k :: Waits(t, p, Second(now), k))
      && (r.Failure? ==> r.error == NoFreeSlot && t' == t)
    ensures var (t', r) := Claimed(t, p, w, lease, now);
      r.Success? ==>
        var k := r.value.taskId;
        && t'.Keys == t.Keys && Waits(t, p, Second(now), k)
        && (forall j :: Waits(t, p, Second(now), j) && j != k ==> Earlier(t, k, j))
        && t'[k] == Dropped(t[k], Second(now)).(
             state := Assigned, worker := w, lease := Second(LeaseEnd(lease, now)), updated := Second(now))
        && (forall j :: j in t && j != k ==> t'[j] == Dropped(t[j], Second(now)))
  {
    SameNotions(t, Second(now));
    ClaimMeaning(t, p, w, lease, now);
  }

  /** What the claimer is told: its row, the end of its lease, and a third of it to beat by. */
  lemma GrantMeans(t: Table, p: Id, w: Id, lease: int, now: int)
    requires Claimed(t, p, w, lease, now).1.Success?
    ensures var (t', r) := Claimed(t, p, w, lease, now);
      var g := r.value;
      && g.taskId in t' && t'[g.taskId] == g.task && g.expiresAt == LeaseEnd(lease, now)
      && 0 <= (g.expiresAt - now) - 3 * g.heartbeatEvery < 3
  {
    FailedClaimChangesNothing(t, p, w, lease, now);
    ClaimMeaning(t, p, w, lease, now);
  }

  /** Each beat comes within two of the intervals the grant names, whatever the others do in the meantime. */
  ghost predicate BeatsByGrant(g: Grant, lease: int, since: int, beats: seq<Beat>)
    decreases |beats|
  {
    beats == [] ||
    (&& since <= beats[0].at <= since + 2 * g.heartbeatEvery
     && (forall s :: s in beats[0].others ==> Foreign(s, g.taskId, LeaseEnd(lease, since)))
     && BeatsByGrant(g, lease, beats[0].at, beats[1..]))
  }

  lemma {:induction false} BeatsAreTimely(g: Grant, lease: int, since: int, beats: seq<Beat>)
    requires BeatsByGrant(g, lease, since, beats) && g.heartbeatEvery <= LeaseOf(lease) / 3
    ensures Timely(g.taskId, lease, since, beats)
    decreases |beats|
  {
    if beats != [] {
      BeatsAreTimely(g, lease, beats[0].at, beats[1..]);
    }
  }

  /** A claimer that beats by its grant keeps its task, through any number of beats. */
  lemma BeatingByTheGrantKeepsTheTask(t: Table, projects: set<Id>, p: Id, w: Id, lease: int, now: int, beats: seq<Beat>)
    requires Claimed(t, p, w, lease, now).1.Success?
    requires var g := Claimed(t, p, w, lease, now).1.value; IsId("task", g.taskId) && BeatsByGrant(g, lease, now, beats)
    ensures var (t', r) := Claimed(t, p, w, lease, now);
      Holds(Beating(t', projects, r.value.taskId, w, lease, beats), r.value.taskId, w, LeaseEnd(lease, LastBeat(now, beats)))
  {
    var (t', r) := Claimed(t, p, w, lease, now);
    FailedClaimChangesNothing(t, p, w, lease, now);
    ClaimMeaning(t, p, w, lease, now);
    GrantMeans(t, p, w, lease, now);
    BeatsAreTimely(r.value, lease, now, beats);
    HeartbeatsKeepTheTask(t', projects, r.value.taskId, w, lease, now, beats);
  }

  // Heartbeat

  /**
    Over well-formed ids a beat counts exactly when the row names that worker, holds a slot, and has no lease
    or one that is not over; then the lease runs anew from now, and nothing else is written.
   */
  lemma BeatMeans(t: Table, k: Id, w: Id, lease: int, now: int)
    ensures var (t', e) := Beaten(t, k, w, lease, now);
      && (e.None? <==> "task-" <= k && "connector-" <= w
                       && SlotTaken(t, w, k) && (t[k].lease == 0 || t[k].lease >= Second(now)))
      && (e.None? ==> t' == t[k := t[k].(lease := Second(LeaseEnd(lease, now)), updated := Second(now))])
      && (e.Some? ==> t' == t)
    ensures "task-" <= k && "connector-" <= w ==>
      var e := Beaten(t, k, w, lease, now).1;
      && (e == Some(TaskNotFound) <==> k !in t)
      && (e == Some(WrongWorker) <==> k in t && t[k].worker != w)
      && (e == Some(LeaseExpired) <==> k in t && t[k].worker == w && e.Some?)
    ensures var e := Beaten(t, k, w, lease, now).1;
      && (e == Some(BadTaskId) <==> !("task-" <= k)) && (e == Some(BadConnectorId) <==> "task-" <= k && !("connector-" <= w))
  {
  }

  /** A call renews a lease: its holder beats for it, or a claim is granted on it. */
  predicate Renews(t: Table, c: TaskRuns.Timed, k: Id)
    requires k in t
  {
    match c.call
    case Beating(j, w, _) => j == k && w == t[k].worker
    case Claiming(p, w, lease) =>
      var r := Claimed(t, p, w, lease, c.now).1; r.Success? && r.value.taskId == k
    case _ => false
  }

  /** No other call moves a lease later: at most a claim drops it, to none. */
  lemma OnlyHoldersRenew(t: Table, projects: set<Id>, c: TaskRuns.Timed, k: Id)
    requires k in t
    ensures k in TaskRuns.Do(t, projects, c)
    ensures !Renews(t, c, k) ==> TaskRuns.Do(t, projects, c)[k].lease in {t[k].lease, 0}
    ensures !Renews(t, c, k) && t[k].lease > 0 ==> TaskRuns.Do(t, projects, c)[k].lease <= t[k].lease
  {
    if c.call.Claiming? {
      var Claiming(p, w, lease) := c.call;
      FailedClaimChangesNothing(t, p, w, lease, c.now);
      if Claimed(t, p, w, lease, c.now).1.Success? {
        ClaimMeaning(t, p, w, lease, c.now);
      }
    } else if c.call.Beating? {
      BeatMeans(t, c.call.k, c.call.worker, c.call.lease, c.now);
    }
  }

  ghost predicate NeverRenewed(t: Table, projects: set<Id>, calls: seq<TaskRuns.Timed>, k: Id)
    decreases |calls|
  {
    calls == [] || (k in t && !Renews(t, calls[0], k) && NeverRenewed(TaskRuns.Do(t, projects, calls[0]), projects, calls[1..], k))
  }

  /** Over any run, a lease that neither its holder's beat nor a claim on its task renewed is at most what it was. */
  lemma {:induction false} LeasesMoveByTheirHolders(t: Table, projects: set<Id>, calls: seq<TaskRuns.Timed>, k: Id)
    requires k in t && NeverRenewed(t, projects, calls, k)
    ensures k in TaskRuns.DoAll(t, projects, calls)
    ensures TaskRuns.DoAll(t, projects, calls)[k].lease in {t[k].lease, 0}
    decreases |calls|
  {
    if calls != [] {
      OnlyHoldersRenew(t, projects, calls[0], k);
      LeasesMoveByTheirHolders(TaskRuns.Do(t, projects, calls[0]), projects, calls[1..], k);
    }
  }

  // SetState and Finish

  /** The life of a task, move by move. */
  const LEGAL: set<(State, State)> := {
    (Queued, Assigned), (Assigned, Running), (Running, Awaiting), (Awaiting, Running),
    (Running, Done), (Running, Failed), (Awaiting, Failed),
    (Assigned, Queued), (Running, Queued),
    (Queued, Cancelled), (Assigned, Cancelled), (Running, Cancelled), (Awaiting, Cancelled)
  }

  /** A move is made exactly when it is one of those; it writes state, reason, time and, of a finish, the exit code. */
  lemma MoveMeans(t: Table, k: Id, to: State, exit: Option<int>, reason: string, now: int)
    ensures var (t', e) := Moved(t, k, to, exit, reason, now);
      && (e.None? <==> "task-" <= k && k in t && (t[k].state, to) in LEGAL)
      && (e.None? ==> t' == t[k := t[k].(state := to, reason := reason, updated := Second(now),
                                         exitCode := if exit.Some? then exit.value else t[k].exitCode)])
      && (e.Some? ==> t' == t)
      && (e == Some(InvalidTransition) <==> "task-" <= k && k in t && (t[k].state, to) !in LEGAL)
      && (e == Some(TaskNotFound) <==> "task-" <= k && k !in t)
  {
  }

  /** What is over stays over: no call of the store changes the row of a finished task in any way. */
  lemma FinishedStays(t: Table, projects: set<Id>, c: TaskRuns.Timed, k: Id)
    requires k in t && t[k].state in {Done, Failed, Cancelled}
    ensures k in TaskRuns.Do(t, projects, c) && TaskRuns.Do(t, projects, c)[k] == t[k]
  {
    if c.call.Claiming? {
      var Claiming(p, w, lease) := c.call;
      FailedClaimChangesNothing(t, p, w, lease, c.now);
      if Claimed(t, p, w, lease, c.now).1.Success? {
        ClaimMeaning(t, p, w, lease, c.now);
      }
    }
  }

  lemma {:induction false} FinishedForGood(t: Table, projects: set<Id>, calls: seq<TaskRuns.Timed>, k: Id)
    requires k in t && t[k].state in {Done, Failed, Cancelled}
    ensures k in TaskRuns.DoAll(t, projects, calls) && TaskRuns.DoAll(t, projects, calls)[k] == t[k]
    decreases |calls|
  {
    if calls != [] {
      FinishedStays(t, projects, calls[0], k);
      FinishedForGood(TaskRuns.Do(t, projects, calls[0]), projects, calls[1..], k);
    }
  }

  // What a dispatch ends with

  /**
    A run is done exactly when the agent was asked and answered 0; it is asked when there is a command and a
    known way to launch it, and then its word stands as the reason. Whatever else happens is a failure.
   */
  lemma EndingMeans(command: string, launch: string, rpc: TaskStore.Rpc)
    ensures var e := TaskStore.EndingOf(command, launch, rpc);
      var asked := command != "" && KnownLaunch(launch);
      && e.state in {Done, Failed} && (e.state == Done <==> e.exit == 0)
      && (e.exit == 0 <==> asked && rpc.Answer? && rpc.exit == 0)
      && (asked ==> e.reason == rpc.reason && e.exit == if rpc.Answer? then rpc.exit else 1)
      && (!asked ==> e.exit == 1)
      && (command == "" ==> e.reason == "empty command")
      && (command != "" && !asked ==> e.reason == "unknown launch mode \"" + Trim(launch) + "\"")
  {
  }
}
