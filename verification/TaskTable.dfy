/**
  The gateway's task table and its statements, each as a function of the table, the call's
  arguments and the clock.
 */
module TaskTable {
  import opened Wrappers
  import opened Clock
  import RowOrder
  import opened Text

  type Id = string

  const DEFAULT_LEASE := 300 * SECOND

  datatype State = Queued | Assigned | Running | Done | Failed | Awaiting | Cancelled

  datatype Task = Task(projectId: Id, requesterId: Id, executorId: Id, state: State, coderKind: string,
                       worker: Id, lease: int, created: int, updated: int, exitCode: int, reason: string,
                       command: string, launch: string)

  type Table = map<Id, Task>

  datatype Error =
    | BadProjectId | BadTaskId | BadConnectorId | ProjectNotFound | TaskNotFound | BadLaunch | DuplicateId
    | NoFreeSlot | WrongWorker | LeaseExpired | InvalidTransition

  datatype Grant = Grant(taskId: Id, task: Task, expiresAt: int, heartbeatEvery: int)

  /** The part of id.Is that names the entity; the UUID behind the prefix is left to its library. */
  predicate IsId(kind: string, id: Id) {
    HasPrefix(id, kind + "-")
  }

  predicate Active(s: State) {
    s.Assigned? || s.Running? || s.Awaiting?
  }

  predicate Terminal(s: State) {
    s.Done? || s.Failed? || s.Cancelled?
  }

  predicate CanTransition(from: State, to: State) {
    match from
    case Queued => to.Assigned? || to.Cancelled?
    case Assigned => to.Running? || to.Queued? || to.Cancelled?
    case Running => to.Done? || to.Failed? || to.Awaiting? || to.Queued? || to.Cancelled?
    case Awaiting => to.Running? || to.Cancelled? || to.Failed?
    case _ => false
  }

  function NormalizeLaunch(mode: string): Result<string, Error> {
    var m := Trim(mode);
    if m == "" || m == "exec" then Success("exec")
    else if m == "process" || m == "send_keys" then Success(m)
    else Failure(BadLaunch)
  }

  /** A lease of zero or less means the default. */
  function LeaseOf(lease: int): int {
    if lease <= 0 then DEFAULT_LEASE else lease
  }

  // Enqueue

  function Fresh(draft: Task, launch: string, now: int): Task {
    draft.(state := Queued, created := Unix(now), updated := Unix(now), launch := launch,
           coderKind := if draft.coderKind == "" then "hermes-agent" else draft.coderKind)
  }

  function Enqueued(t: Table, projects: set<Id>, id: Id, draft: Task, now: int): (Table, Result<Task, Error>) {
    if !IsId("project", draft.projectId) then (t, Failure(BadProjectId))
    else if draft.projectId !in projects then (t, Failure(ProjectNotFound))
    else if !IsId("task", id) then (t, Failure(BadTaskId))
    else match NormalizeLaunch(draft.launch)
      case Failure(e) => (t, Failure(e))
      case Success(launch) =>
        if id in t then (t, Failure(DuplicateId))
        else (t[id := Fresh(draft, launch, now)], Success(Fresh(draft, launch, now)))
  }

  // Reap and claim

  predicate Expired(task: Task, sec: int) {
    (task.state.Assigned? || task.state.Running?) && 0 < task.lease < sec
  }

  function Reaped(task: Task, sec: int): Task {
    if Expired(task, sec) then
      task.(state := Queued, worker := "", lease := 0, updated := sec, reason := "lease expired")
    else task
  }

  function Reap(t: Table, sec: int): Table {
    map k | k in t :: Reaped(t[k], sec)
  }

  /** The rows that take up a slot of a worker. */
  predicate Occupies(t: Table, worker: Id, k: Id) {
    k in t && t[k].worker == worker && Active(t[k].state)
  }

  function ActiveOn(t: Table, worker: Id): set<Id> {
    set k | k in t && Occupies(t, worker, k)
  }

  predicate QueuedIn(t: Table, project: Id, k: Id) {
    k in t && t[k].projectId == project && t[k].state.Queued?
  }

  /** ORDER BY created_at ASC, id ASC */
  predicate Before(t: Table, j: Id, k: Id)
    requires j in t && k in t
  {
    t[j].created < t[k].created || (t[j].created == t[k].created && Less(j, k))
  }

  /** SELECT … ORDER BY created_at ASC, id ASC LIMIT 1 over a set of rows. */
  function Oldest(t: Table, ks: set<Id>): (k: Id)
    requires ks != {} && forall j :: j in ks ==> j in t
    ensures k in ks && forall j :: j in ks && j != k ==> Before(t, k, j)
  {
    var key := map k | k in ks :: t[k].created;
    var k := RowOrder.First(key, ks);
    assert forall j :: j in ks && j != k ==> RowOrder.Before(key, k, j);
    k
  }

  function QueuedRows(t: Table, project: Id): set<Id> {
    set k | k in t && QueuedIn(t, project, k)
  }

  function Taken(task: Task, worker: Id, lease: int, now: int): Task {
    task.(state := Assigned, worker := worker, lease := Unix(now + LeaseOf(lease)), updated := Unix(now))
  }

  /** The whole Claim transaction; an error rolls the reap back too. */
  function Claimed(t: Table, project: Id, worker: Id, lease: int, now: int): (Table, Result<Grant, Error>) {
    if !IsId("project", project) then (t, Failure(BadProjectId))
    else if !IsId("connector", worker) then (t, Failure(BadConnectorId))
    else
      var r := Reap(t, Unix(now));
      if |ActiveOn(r, worker)| >= 1 || QueuedRows(r, project) == {} then (t, Failure(NoFreeSlot))
      else
        var k := Oldest(r, QueuedRows(r, project));
        (r[k := Taken(r[k], worker, lease, now)],
         Success(Grant(k, Taken(r[k], worker, lease, now), now + LeaseOf(lease), LeaseOf(lease) / 3)))
  }

  // Statements on one row. Each is the UPDATE a method ends with; the read before it is apart.

  /** UPDATE tasks SET lease_expiry, updated_at WHERE id = ? */
  function LeaseWritten(t: Table, k: Id, lease: int, now: int): Table {
    if k !in t then t
    else t[k := t[k].(lease := Unix(now + LeaseOf(lease)), updated := Unix(now))]
  }

  /** UPDATE tasks SET state, reason, updated_at [, exit_code] WHERE id = ? */
  function StateWritten(t: Table, k: Id, to: State, exitCode: Option<int>, reason: string, now: int): Table {
    if k !in t then t
    else t[k := t[k].(state := to, reason := reason, updated := Unix(now),
                      exitCode := if exitCode.Some? then exitCode.value else t[k].exitCode)]
  }

  /** The checks of Heartbeat, in the order they are made. */
  function HeartbeatError(t: Table, k: Id, worker: Id, now: int): Option<Error> {
    if !IsId("task", k) then Some(BadTaskId)
    else if !IsId("connector", worker) then Some(BadConnectorId)
    else if k !in t then Some(TaskNotFound)
    else if t[k].worker != worker then Some(WrongWorker)
    else if !Active(t[k].state) then Some(LeaseExpired)
    else if t[k].lease != 0 && t[k].lease < Unix(now) then Some(LeaseExpired)
    else None
  }

  /** The checks SetState and Finish share. */
  function MoveError(t: Table, k: Id, to: State): Option<Error> {
    if !IsId("task", k) then Some(BadTaskId)
    else if k !in t then Some(TaskNotFound)
    else if !CanTransition(t[k].state, to) then Some(InvalidTransition)
    else None
  }

  function Beaten(t: Table, k: Id, worker: Id, lease: int, now: int): (Table, Option<Error>) {
    var e := HeartbeatError(t, k, worker, now);
    if e.Some? then (t, e) else (LeaseWritten(t, k, lease, now), None)
  }

  function Moved(t: Table, k: Id, to: State, exitCode: Option<int>, reason: string, now: int)
    : (Table, Option<Error>)
  {
    var e := MoveError(t, k, to);
    if e.Some? then (t, e) else (StateWritten(t, k, to, exitCode, reason, now), None)
  }

  function TerminalState(exit: int): State {
    if exit != 0 then Failed else Done
  }

  // Runs

  /**
    One commit by anybody. WriteLease and WriteState are the second halves of Heartbeat and of
    SetState and Finish: their reads may be older than the commits in between.
   */
  datatype Event =
    | Enqueue(id: Id, draft: Task)
    | Claim(project: Id, worker: Id, lease: int)
    | WriteLease(k: Id, lease: int)
    | WriteState(k: Id, to: State, exitCode: Option<int>, reason: string)

  datatype Step = Step(now: int, event: Event)

  function Apply(t: Table, projects: set<Id>, s: Step): Table {
    match s.event
    case Enqueue(id, draft) => Enqueued(t, projects, id, draft, s.now).0
    case Claim(p, w, lease) => Claimed(t, p, w, lease, s.now).0
    case WriteLease(k, lease) => LeaseWritten(t, k, lease, s.now)
    case WriteState(k, to, exit, reason) => StateWritten(t, k, to, exit, reason, s.now)
  }

  function Run(t: Table, projects: set<Id>, steps: seq<Step>): Table
    decreases |steps|
  {
    if steps == [] then t else Run(Apply(t, projects, steps[0]), projects, steps[1..])
  }
}
