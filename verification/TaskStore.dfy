/** The gateway's task store and the dispatcher that runs one task. */
module TaskStore {
  import opened Wrappers
  import opened Clock
  import opened Text
  import opened TaskTable
  import opened TaskLaws

  /** What the agent answered, or why the call broke. */
  datatype Rpc = Answer(exit: int, reason: string) | Broke(reason: string)

  datatype RunError = Offline | Draining | Refused(error: Error)

  /** How a run must end: its state, exit code and reason. */
  datatype Ending = Ending(state: State, exit: int, reason: string)

  function LaunchText(mode: string): string {
    "unknown launch mode \"" + Trim(mode) + "\""
  }

  function EndingOf(command: string, launch: string, rpc: Rpc): Ending {
    if command == "" then Ending(Failed, 1, "empty command")
    else if NormalizeLaunch(launch).Failure? then Ending(Failed, 1, LaunchText(launch))
    else match rpc
      case Broke(reason) => Ending(Failed, 1, reason)
      case Answer(exit, reason) => Ending(if exit == 0 then Done else Failed, exit, reason)
  }

  predicate EndedAs(task: Task, worker: Id, e: Ending) {
    task.worker == worker && task.state == e.state && task.exitCode == e.exit && task.reason == e.reason
  }

  class Store {
    var tasks: Table
    var projects: set<Id>
    const lease: int

    constructor (projects: set<Id>, lease: int)
      ensures this.projects == projects && this.lease == lease && tasks == map[]
    {
      this.projects := projects;
      this.lease := lease;
      tasks := map[];
    }

    method Enqueue(id: Id, minted: Id, draft: Task, now: int) returns (r: Result<Task, Error>)
      modifies this`tasks
      ensures (tasks, r) == Enqueued(old(tasks), projects, if id == "" then minted else id, draft, now)
    {
      if !IsId("project", draft.projectId) {
        return Failure(BadProjectId);
      }
      if draft.projectId !in projects {
        return Failure(ProjectNotFound);
      }
      var taskId := id;
      if taskId == "" {
        taskId := minted;
      }
      if !IsId("task", taskId) {
        return Failure(BadTaskId);
      }
      var task := draft.(state := Queued, created := Unix(now), updated := Unix(now));
      var mode := NormalizeLaunch(task.launch);
      if mode.Failure? {
        return Failure(mode.error);
      }
      task := task.(launch := mode.value);
      if task.coderKind == "" {
        task := task.(coderKind := "hermes-agent");
      }
      if taskId in tasks {
        return Failure(DuplicateId);
      }
      tasks := tasks[taskId := task];
      r := Success(task);
    }

    method GetTask(k: Id) returns (r: Result<Task, Error>)
      ensures r == if !IsId("task", k) then Failure(BadTaskId)
                   else if k !in tasks then Failure(TaskNotFound) else Success(tasks[k])
    {
      if !IsId("task", k) {
        return Failure(BadTaskId);
      }
      r := if k !in tasks then Failure(TaskNotFound) else Success(tasks[k]);
    }

    /** One transaction on a copy: only the commit touches the table. */
    method Claim(project: Id, worker: Id, lease: int, now: int) returns (r: Result<Grant, Error>)
      modifies this`tasks
      ensures (tasks, r) == Claimed(old(tasks), project, worker, lease, now)
    {
      if !IsId("project", project) {
        return Failure(BadProjectId);
      }
      if !IsId("connector", worker) {
        return Failure(BadConnectorId);
      }
      var span := if lease <= 0 then DEFAULT_LEASE else lease;
      var tx := Reap(tasks, Unix(now));
      var active := |ActiveOn(tx, worker)|;
      if active >= 1 {
        return Failure(NoFreeSlot);
      }
      var queued := QueuedRows(tx, project);
      if queued == {} {
        return Failure(NoFreeSlot);
      }
      var k := Oldest(tx, queued);
      var expiry := now + span;
      var task := tx[k].(state := Assigned, worker := worker, lease := Unix(expiry), updated := Unix(now));
      tx := tx[k := task];
      tasks := tx;
      r := Success(Grant(k, task, expiry, span / 3));
    }

    method Heartbeat(k: Id, worker: Id, lease: int, now: int) returns (e: Option<Error>)
      modifies this`tasks
      ensures (tasks, e) == Beaten(old(tasks), k, worker, lease, now)
    {
      if !IsId("task", k) {
        return Some(BadTaskId);
      }
      if !IsId("connector", worker) {
        return Some(BadConnectorId);
      }
      var got := GetTask(k);
      if got.Failure? {
        return Some(got.error);
      }
      var task := got.value;
      if task.worker != worker {
        return Some(WrongWorker);
      }
      if !Active(task.state) {
        return Some(LeaseExpired);
      }
      if task.lease != 0 && task.lease < Unix(now) {
        return Some(LeaseExpired);
      }
      tasks := tasks[k := task.(lease := Unix(now + LeaseOf(lease)), updated := Unix(now))];
      e := None;
    }

    method SetState(k: Id, to: State, reason: string, now: int) returns (e: Option<Error>)
      modifies this`tasks
      ensures (tasks, e) == Moved(old(tasks), k, to, None, reason, now)
    {
      var got := GetTask(k);
      if got.Failure? {
        return Some(got.error);
      }
      if !CanTransition(got.value.state, to) {
        return Some(InvalidTransition);
      }
      tasks := StateWritten(tasks, k, to, None, reason, now);
      e := None;
    }

    method Finish(k: Id, to: State, exit: int, reason: string, now: int) returns (e: Option<Error>)
      modifies this`tasks
      ensures (tasks, e) == Moved(old(tasks), k, to, Some(exit), reason, now)
    {
      var got := GetTask(k);
      if got.Failure? {
        return Some(got.error);
      }
      if !CanTransition(got.value.state, to) {
        return Some(InvalidTransition);
      }
      tasks := StateWritten(tasks, k, to, Some(exit), reason, now);
      e := None;
    }

    /**
      Any commits by other callers. While `orderly`, they come within the lease and none of them
      writes the state of k or shortens its lease.
     */
    method Others(k: Id, deadline: int, orderly: bool)
      requires TaskIds(tasks)
      modifies this`tasks
      ensures TaskIds(tasks)
      ensures forall w :: orderly && Holds(old(tasks), k, w, deadline)
                ==> Holds(tasks, k, w, deadline) && tasks[k].state == old(tasks)[k].state
    {
      var steps: seq<Step> := *;
      if orderly && exists s :: s in steps && !Foreign(s, k, deadline) {
        steps := [];
      }
      forall w | orderly && Holds(tasks, k, w, deadline)
        ensures Holds(Run(tasks, projects, steps), k, w, deadline)
        ensures Run(tasks, projects, steps)[k].state == tasks[k].state
      {
        HeldThroughRun(tasks, projects, steps, k, w, deadline);
      }
      RunKeepsTaskIds(tasks, projects, steps);
      tasks := Run(tasks, projects, steps);
    }

    /** The dispatcher: start, call the agent, finish; others commit in between. */
    method RunClaimed(claimed: Grant, rpc: Rpc, start: int, end: int, orderly: bool)
      returns (r: Result<Task, Error>)
      requires TaskIds(tasks)
      requires Holds(tasks, claimed.taskId, claimed.task.worker, claimed.expiresAt)
      requires tasks[claimed.taskId].state.Assigned?
      modifies this`tasks
      ensures r.Success? ==> claimed.taskId in tasks && r.value == tasks[claimed.taskId]
      ensures orderly ==>
                && r.Success?
                && EndedAs(r.value, claimed.task.worker, EndingOf(claimed.task.command, claimed.task.launch, rpc))
    {
      var k, deadline, command := claimed.taskId, claimed.expiresAt, claimed.task.command;
      ghost var worker := claimed.task.worker;
      Others(k, deadline, orderly);
      assert orderly ==> Holds(tasks, k, worker, deadline);
      var launch := NormalizeLaunch(claimed.task.launch);
      var note := if command == "" then "empty command"
                  else if launch.Failure? then LaunchText(claimed.task.launch)
                  else launch.value;
      var refused := SetState(k, Running, note, start);
      if refused.Some? {
        return Failure(refused.value);
      }
      assert orderly ==> Holds(tasks, k, worker, deadline);
      Others(k, deadline, orderly);
      if command == "" || launch.Failure? {
        refused := Finish(k, Failed, 1, note, end);
      } else {
        match rpc
        case Broke(reason) =>
          refused := Finish(k, Failed, 1, reason, end);
        case Answer(exit, reason) =>
          refused := Finish(k, TerminalState(exit), exit, reason, end);
      }
      if refused.Some? {
        return Failure(refused.value);
      }
      r := GetTask(k);
    }

    /**
      Claim and run. If the others are orderly while the lease lasts, the run ends as the agent
      answered, under the worker it was claimed for; a refused claim changes nothing.
     */
    method RunQueued(project: Id, worker: Id, online: bool, draining: bool, rpc: Rpc,
                     now: int, start: int, end: int, orderly: bool)
      returns (r: Result<Task, RunError>)
      requires TaskIds(tasks)
      modifies this`tasks
      ensures !online ==> r == Failure(Offline) && tasks == old(tasks)
      ensures online && draining ==> r == Failure(Draining) && tasks == old(tasks)
      ensures online && !draining ==>
                match Claimed(old(tasks), project, worker, lease, now).1
                case Failure(e) => r == Failure(Refused(e)) && tasks == old(tasks)
                case Success(grant) => orderly ==>
                  && r.Success? && grant.taskId in tasks && r.value == tasks[grant.taskId]
                  && EndedAs(r.value, worker, EndingOf(grant.task.command, grant.task.launch, rpc))
    {
      if !online {
        return Failure(Offline);
      }
      if draining {
        return Failure(Draining);
      }
      FailedClaimChangesNothing(tasks, project, worker, lease, now);
      if IsId("project", project) && IsId("connector", worker) {
        ClaimMeaning(tasks, project, worker, lease, now);
      }
      var claimed := Claim(project, worker, lease, now);
      if claimed.Failure? {
        return Failure(Refused(claimed.error));
      }
      var ran := RunClaimed(claimed.value, rpc, start, end, orderly);
      r := if ran.Success? then Success(ran.value) else Failure(Refused(ran.error));
    }
  }
}
