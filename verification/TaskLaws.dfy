/** What the gateway's queue keeps over whole runs: one task a worker, order, and leases. */
module TaskLaws {
  import opened Wrappers
  import opened Clock
  import opened Text
  import opened TaskTable

  // One task a worker

  /** No worker holds two tasks, whichever projects they belong to. */
  ghost predicate OneTask(t: Table) {
    forall w, a, b :: w != "" && Occupies(t, w, a) && Occupies(t, w, b) ==> a == b
  }

  /** A worker's slots after a reap: the rows whose lease has not run out. */
  lemma ActiveAfterReap(t: Table, sec: int, w: Id)
    requires w != ""
    ensures ActiveOn(Reap(t, sec), w) == set k | k in t && Occupies(t, w, k) && !Expired(t[k], sec)
    ensures |ActiveOn(Reap(t, sec), w)| >= 1 <==> exists k :: k in t && Occupies(t, w, k) && !Expired(t[k], sec)
  {
    var r := Reap(t, sec);
    var holding := set k | k in t && Occupies(t, w, k) && !Expired(t[k], sec);
    forall k ensures k in ActiveOn(r, w) <==> k in holding {
      assert Occupies(r, w, k) <==> Occupies(t, w, k) && !Expired(t[k], sec);
    }
    assert ActiveOn(r, w) == holding;
    assert |holding| >= 1 <==> holding != {};
    if k :| k in t && Occupies(t, w, k) && !Expired(t[k], sec) {
      assert k in holding;
    }
  }

  predicate Claimable(t: Table, p: Id, sec: int, k: Id) {
    k in t && t[k].projectId == p && (t[k].state.Queued? || Expired(t[k], sec))
  }

  lemma QueuedAfterReap(t: Table, p: Id, sec: int)
    ensures forall k :: k in QueuedRows(Reap(t, sec), p) <==> Claimable(t, p, sec, k)
  {
    var r := Reap(t, sec);
    forall k ensures k in QueuedRows(r, p) <==> Claimable(t, p, sec, k) {
      assert QueuedIn(r, p, k) <==> Claimable(t, p, sec, k);
    }
  }

  /**
    When a claim is granted, and what it does to every row: it takes the oldest task of the project
    that is queued or whose lease has run out, and reaps the others.
   */
  lemma ClaimMeaning(t: Table, p: Id, w: Id, lease: int, now: int)
    requires IsId("project", p) && IsId("connector", w)
    ensures var (t', reply) := Claimed(t, p, w, lease, now);
      var sec := Unix(now);
      && (reply.Success? <==>
            && (forall k :: Occupies(t, w, k) ==> Expired(t[k], sec))
            && (exists k :: Claimable(t, p, sec, k)))
      && (reply.Failure? ==> t' == t && reply.error == NoFreeSlot)
      && (reply.Success? ==>
            var k := reply.value.taskId;
            && t'.Keys == t.Keys && Claimable(t, p, sec, k)
            && t'[k] == Taken(Reaped(t[k], sec), w, lease, now) == reply.value.task
            && (forall j :: Claimable(t, p, sec, j) && j != k ==> Before(t, k, j))
            && (forall j :: j in t && j != k ==> t'[j] == Reaped(t[j], sec)))
  {
    var sec := Unix(now);
    var r := Reap(t, sec);
    ActiveAfterReap(t, sec, w);
    QueuedAfterReap(t, p, sec);
    var q := QueuedRows(r, p);
    assert q != {} <==> exists k :: Claimable(t, p, sec, k) by {
      if q != {} {
        var k :| k in q;
        assert Claimable(t, p, sec, k);
      }
    }
    if q != {} {
      var k := Oldest(r, q);
      forall j | Claimable(t, p, sec, j) && j != k ensures Before(t, k, j) {
        assert j in q && Before(r, k, j);
      }
    }
  }

  /** A claim that fails, whatever the reason, leaves the whole table as it was: the reap is undone. */
  lemma FailedClaimChangesNothing(t: Table, p: Id, w: Id, lease: int, now: int)
    ensures Claimed(t, p, w, lease, now).1.Failure? ==> Claimed(t, p, w, lease, now).0 == t
    ensures Claimed(t, p, w, lease, now).1.Success? ==> IsId("project", p) && IsId("connector", w)
  {
  }

  lemma ClaimKeepsOneTask(t: Table, p: Id, w: Id, lease: int, now: int)
    requires OneTask(t)
    ensures OneTask(Claimed(t, p, w, lease, now).0)
  {
    if Claimed(t, p, w, lease, now).1.Success? {
      ClaimMeaning(t, p, w, lease, now);
      var t' := Claimed(t, p, w, lease, now).0;
      var k := Claimed(t, p, w, lease, now).1.value.taskId;
      assert w != "";
      forall v, j | v != "" && Occupies(t', v, j) && j != k ensures Occupies(t, v, j) && v != w {
        assert t'[j] == Reaped(t[j], Unix(now));
        assert Occupies(t, v, j) && !Expired(t[j], Unix(now));
      }
    }
  }

  /**
    A state write puts a second task on a worker exactly when it wakes a row that occupied no slot
    while the worker whose name the row still carries holds another one.
   */
  predicate Doubles(t: Table, k: Id, to: State) {
    && k in t && t[k].worker != "" && !Active(t[k].state) && Active(to)
    && exists j :: j in t && Occupies(t, t[k].worker, j)
  }

  lemma StateWriteKeepsOneTaskExactly(t: Table, k: Id, to: State, exit: Option<int>, reason: string, now: int)
    requires OneTask(t)
    ensures OneTask(StateWritten(t, k, to, exit, reason, now)) <==> !Doubles(t, k, to)
  {
    var t' := StateWritten(t, k, to, exit, reason, now);
    if k in t {
      var w := t[k].worker;
      forall v, j | j != k ensures Occupies(t', v, j) == Occupies(t, v, j) {}
      if Doubles(t, k, to) {
        var j :| j in t && Occupies(t, w, j);
        assert Occupies(t', w, j) && Occupies(t', w, k) && j != k;
      } else {
        forall j | w != "" && j != k && Occupies(t', w, j) && Active(to) ensures false {
          assert j in t && Occupies(t, w, j);
          OnlyOne(t, w, j, k);
        }
      }
    }
  }

  lemma OnlyOne(t: Table, w: Id, j: Id, k: Id)
    requires OneTask(t) && w != "" && j != k && Occupies(t, w, j)
    ensures !Occupies(t, w, k)
  {
  }

  predicate KeepsOneTask(t: Table, s: Step) {
    s.event.WriteState? ==> !Doubles(t, s.event.k, s.event.to)
  }

  lemma StepKeepsOneTaskExactly(t: Table, projects: set<Id>, s: Step)
    requires OneTask(t)
    ensures OneTask(Apply(t, projects, s)) <==> KeepsOneTask(t, s)
  {
    var t' := Apply(t, projects, s);
    match s.event
    case Claim(p, w, lease) =>
      ClaimKeepsOneTask(t, p, w, lease, s.now);
    case WriteState(k, to, exit, reason) =>
      StateWriteKeepsOneTaskExactly(t, k, to, exit, reason, s.now);
    case Enqueue(_, _) =>
      forall v, j ensures Occupies(t', v, j) ==> Occupies(t, v, j) {}
    case WriteLease(_, _) =>
      forall v, j ensures Occupies(t', v, j) == Occupies(t, v, j) {}
  }

  /** No commit of the run wakes a row of a busy worker. */
  ghost predicate NeverDoubles(t: Table, projects: set<Id>, steps: seq<Step>)
    decreases |steps|
  {
    steps == [] || (KeepsOneTask(t, steps[0]) && NeverDoubles(Apply(t, projects, steps[0]), projects, steps[1..]))
  }

  ghost predicate OneTaskThroughout(t: Table, projects: set<Id>, steps: seq<Step>)
    decreases |steps|
  {
    && OneTask(t)
    && (steps == [] || OneTaskThroughout(Apply(t, projects, steps[0]), projects, steps[1..]))
  }

  /** Safety over whole runs, interleaved halves of SetState and Finish included, and its exact condition. */
  lemma {:induction false} RunKeepsOneTaskExactly(t: Table, projects: set<Id>, steps: seq<Step>)
    requires OneTask(t)
    ensures OneTaskThroughout(t, projects, steps) <==> NeverDoubles(t, projects, steps)
    decreases |steps|
  {
    if steps != [] {
      StepKeepsOneTaskExactly(t, projects, steps[0]);
      if KeepsOneTask(t, steps[0]) {
        RunKeepsOneTaskExactly(Apply(t, projects, steps[0]), projects, steps[1..]);
      }
    }
  }

  /**
    Made in one piece, a legal move wakes a row only by taking it from queued to assigned: Finish
    and the moves the dispatcher makes can never double a worker.
   */
  lemma MoveKeepsOneTaskExactly(t: Table, k: Id, to: State, exit: Option<int>, reason: string, now: int)
    requires OneTask(t)
    ensures OneTask(Moved(t, k, to, exit, reason, now).0) <==>
      !(Moved(t, k, to, exit, reason, now).1.None? && t[k].state.Queued? && to.Assigned? && Doubles(t, k, to))
  {
    if Moved(t, k, to, exit, reason, now).1.None? {
      StateWriteKeepsOneTaskExactly(t, k, to, exit, reason, now);
    }
  }

  // Order

  /** The unfinished tasks of the same project a claim would take before k. */
  predicate IsAhead(t: Table, k: Id, j: Id)
    requires k in t
  {
    j in t && t[j].projectId == t[k].projectId && !Terminal(t[j].state) && Before(t, j, k)
  }

  function Ahead(t: Table, k: Id): set<Id>
    requires k in t
  {
    set j | j in t && IsAhead(t, k, j)
  }

  /** A step puts a task in front of k: a new task with a smaller key, or a finished one revived. */
  predicate Overtakes(t: Table, projects: set<Id>, k: Id, s: Step)
    requires k in t
  {
    match s.event
    case Enqueue(id, draft) =>
      && Enqueued(t, projects, id, draft, s.now).1.Success? && draft.projectId == t[k].projectId
      && (Unix(s.now) < t[k].created || (Unix(s.now) == t[k].created && Less(id, k)))
    case WriteState(j, to, _, _) =>
      j in t && t[j].projectId == t[k].projectId && Terminal(t[j].state) && !Terminal(to) && Before(t, j, k)
    case _ => false
  }

  /** A claim leaves every row's key alone, adds none, and never touches a finished task. */
  lemma ClaimFrame(t: Table, p: Id, w: Id, lease: int, now: int)
    ensures var t' := Claimed(t, p, w, lease, now).0;
      && t'.Keys == t.Keys
      && forall j :: j in t ==> && t'[j].created == t[j].created && t'[j].projectId == t[j].projectId
                                && (Terminal(t[j].state) ==> t'[j] == t[j])
  {
    var r := Reap(t, Unix(now));
    if Claimed(t, p, w, lease, now).1.Success? {
      var k := Oldest(r, QueuedRows(r, p));
      assert QueuedIn(r, p, k);
      assert forall j :: j in t ==> r[j].created == t[j].created && r[j].projectId == t[j].projectId;
    }
  }

  /** No step moves a row to another project or changes the key it is ordered by. */
  lemma StepKeepsKeys(t: Table, projects: set<Id>, s: Step)
    ensures var t' := Apply(t, projects, s);
      forall j :: j in t ==> j in t' && t'[j].created == t[j].created && t'[j].projectId == t[j].projectId
  {
    if s.event.Claim? {
      ClaimFrame(t, s.event.project, s.event.worker, s.event.lease, s.now);
    }
  }

  lemma StepRevives(t: Table, projects: set<Id>, s: Step, j: Id)
    requires j in t
    ensures j in Apply(t, projects, s)
    ensures Terminal(t[j].state) && !Terminal(Apply(t, projects, s)[j].state)
      ==> s.event.WriteState? && s.event.k == j && !Terminal(s.event.to)
  {
    if s.event.Claim? {
      ClaimFrame(t, s.event.project, s.event.worker, s.event.lease, s.now);
    }
  }

  lemma AheadGrowsExactly(t: Table, projects: set<Id>, k: Id, s: Step)
    requires k in t
    ensures k in Apply(t, projects, s)
    ensures Ahead(Apply(t, projects, s), k) <= Ahead(t, k) <==> !Overtakes(t, projects, k, s)
  {
    var t' := Apply(t, projects, s);
    StepKeepsKeys(t, projects, s);
    if Overtakes(t, projects, k, s) {
      var j := if s.event.Enqueue? then s.event.id else s.event.k;
      assert j in t';
      assert IsAhead(t', k, j) && !(j in t && IsAhead(t, k, j));
      assert j in Ahead(t', k) && j !in Ahead(t, k);
    } else {
      forall j | j in t' && IsAhead(t', k, j) ensures j in Ahead(t, k) {
        if j in t {
          StepRevives(t, projects, s, j);
          assert Before(t, j, k);
          assert IsAhead(t, k, j);
        } else {
          NewRow(t, projects, s, j);
        }
      }
    }
  }

  lemma NewRow(t: Table, projects: set<Id>, s: Step, j: Id)
    requires j !in t && j in Apply(t, projects, s)
    ensures s.event.Enqueue? && s.event.id == j && Enqueued(t, projects, j, s.event.draft, s.now).1.Success?
    ensures Apply(t, projects, s)[j].created == Unix(s.now)
    ensures Apply(t, projects, s)[j].projectId == s.event.draft.projectId
  {
    if s.event.Claim? {
      ClaimFrame(t, s.event.project, s.event.worker, s.event.lease, s.now);
    }
  }

  ghost predicate NothingOvertakes(t: Table, projects: set<Id>, k: Id, steps: seq<Step>)
    requires k in t
    decreases |steps|
  {
    steps == [] ||
    (&& !Overtakes(t, projects, k, steps[0])
     && k in Apply(t, projects, steps[0])
     && NothingOvertakes(Apply(t, projects, steps[0]), projects, k, steps[1..]))
  }

  ghost predicate AheadShrinks(t: Table, projects: set<Id>, k: Id, steps: seq<Step>)
    requires k in t
    decreases |steps|
  {
    steps == [] ||
    (&& k in Apply(t, projects, steps[0])
     && Ahead(Apply(t, projects, steps[0]), k) <= Ahead(t, k)
     && AheadShrinks(Apply(t, projects, steps[0]), projects, k, steps[1..]))
  }

  /** Over any run of bare commits, the tasks ahead of k get fewer at every one exactly when none overtakes it. */
  lemma {:induction false} AheadShrinksExactly(t: Table, projects: set<Id>, k: Id, steps: seq<Step>)
    requires k in t
    ensures AheadShrinks(t, projects, k, steps) <==> NothingOvertakes(t, projects, k, steps)
    decreases |steps|
  {
    if steps != [] {
      AheadGrowsExactly(t, projects, k, steps[0]);
      AheadShrinksExactly(Apply(t, projects, steps[0]), projects, k, steps[1..]);
    }
  }

  /** A granted claim on the project of a waiting task takes that task or one of those ahead of it. */
  lemma ClaimServesInOrder(t: Table, k: Id, w: Id, lease: int, now: int)
    requires k in t && t[k].state.Queued?
    requires Claimed(t, t[k].projectId, w, lease, now).1.Success?
    ensures var j := Claimed(t, t[k].projectId, w, lease, now).1.value.taskId;
      j == k || j in Ahead(t, k)
  {
    ClaimMeaning(t, t[k].projectId, w, lease, now);
    var j := Claimed(t, t[k].projectId, w, lease, now).1.value.taskId;
    assert j != k ==> IsAhead(t, k, j);
  }

  /** Every row keeps the shape of id Enqueue checked. */
  ghost predicate TaskIds(t: Table) {
    forall k :: k in t ==> IsId("task", k)
  }

  lemma StepKeepsTaskIds(t: Table, projects: set<Id>, s: Step)
    requires TaskIds(t)
    ensures TaskIds(Apply(t, projects, s))
  {
    forall k | k in Apply(t, projects, s) ensures IsId("task", k) {
      if k !in t { NewRow(t, projects, s, k); }
    }
  }

  lemma {:induction false} RunKeepsTaskIds(t: Table, projects: set<Id>, steps: seq<Step>)
    requires TaskIds(t)
    ensures TaskIds(Run(t, projects, steps))
    decreases |steps|
  {
    if steps != [] {
      StepKeepsTaskIds(t, projects, steps[0]);
      RunKeepsTaskIds(Apply(t, projects, steps[0]), projects, steps[1..]);
    }
  }

  // Leases

  /** Seconds are truncated on both sides, so a lease can outlive its instant by less than a second. */
  lemma LeaseWindow(task: Task, t0: int, lease: int, u: int)
    requires task.state.Assigned? || task.state.Running?
    requires task.lease == Unix(t0 + lease) && Unix(t0 + lease) > 0
    ensures Expired(task, Unix(u)) <==> Unix(u) > Unix(t0 + lease)
    ensures u <= t0 + lease ==> !Expired(task, Unix(u))
    ensures u >= t0 + lease + SECOND ==> Expired(task, Unix(u))
  {
    if u <= t0 + lease { UnixMonotone(u, t0 + lease); }
    if u >= t0 + lease + SECOND { UnixShift(t0 + lease, 1); UnixMonotone(t0 + lease + SECOND, u); }
  }

  /** The row a worker holds: in progress under its name with a lease good until the deadline. */
  predicate Holds(t: Table, k: Id, w: Id, deadline: int) {
    && k in t && t[k].worker == w && (t[k].state.Assigned? || t[k].state.Running?)
    && t[k].lease >= Unix(deadline)
  }

  /** Commits made by the deadline that write no state of k and do not shorten its lease. */
  predicate Foreign(s: Step, k: Id, deadline: int) {
    && s.now <= deadline
    && match s.event
       case WriteState(j, _, _, _) => j != k
       case WriteLease(j, lease) => j == k ==> deadline <= s.now + LeaseOf(lease)
       case _ => true
  }

  lemma ForeignStepKeepsHold(t: Table, projects: set<Id>, s: Step, k: Id, w: Id, deadline: int)
    requires Holds(t, k, w, deadline) && Foreign(s, k, deadline)
    ensures Holds(Apply(t, projects, s), k, w, deadline)
    ensures Apply(t, projects, s)[k].state == t[k].state
  {
    match s.event
    case Claim(p, v, lease) =>
      if Claimed(t, p, v, lease, s.now).1.Success? {
        UnixMonotone(s.now, deadline);
        assert !Expired(t[k], Unix(s.now));
        ClaimMeaning(t, p, v, lease, s.now);
      }
    case WriteLease(j, lease) =>
      if j == k { UnixMonotone(deadline, s.now + LeaseOf(lease)); }
    case _ =>
  }

  lemma {:induction false} HeldThroughRun(t: Table, projects: set<Id>, steps: seq<Step>, k: Id, w: Id, deadline: int)
    requires Holds(t, k, w, deadline) && forall s :: s in steps ==> Foreign(s, k, deadline)
    ensures Holds(Run(t, projects, steps), k, w, deadline)
    ensures Run(t, projects, steps)[k].state == t[k].state
    decreases |steps|
  {
    if steps != [] {
      ForeignStepKeepsHold(t, projects, steps[0], k, w, deadline);
      HeldThroughRun(Apply(t, projects, steps[0]), projects, steps[1..], k, w, deadline);
    }
  }

  /**
    A dispatch that finishes within its lease finishes its own claim: whatever anybody else commits
    in between, the task stays with the claiming worker, and both its moves are accepted.
   */
  lemma DispatchWithinLeaseFinishesItsOwnClaim(t: Table, projects: set<Id>, p: Id, w: Id, lease: int, t0: int,
                                               early: seq<Step>, mid: seq<Step>, t1: int, t2: int,
                                               launch: string, exit: int, reason: string)
    requires Claimed(t, p, w, lease, t0).1.Success?
    requires var k := Claimed(t, p, w, lease, t0).1.value.taskId;
      && IsId("task", k)
      && forall s :: s in early + mid ==> Foreign(s, k, t0 + LeaseOf(lease))
    ensures var k := Claimed(t, p, w, lease, t0).1.value.taskId;
      var a := Run(Claimed(t, p, w, lease, t0).0, projects, early);
      var (b, started) := Moved(a, k, Running, None, launch, t1);
      var c := Run(b, projects, mid);
      var (d, finished) := Moved(c, k, TerminalState(exit), Some(exit), reason, t2);
      && k in a && a[k].worker == w && a[k].state.Assigned? && started.None?
      && k in c && c[k].worker == w && c[k].state.Running? && finished.None?
      && k in d && d[k].worker == w && d[k].state == TerminalState(exit) && d[k].exitCode == exit
  {
    var k := Claimed(t, p, w, lease, t0).1.value.taskId;
    var deadline := t0 + LeaseOf(lease);
    ClaimMeaning(t, p, w, lease, t0);
    var t1' := Claimed(t, p, w, lease, t0).0;
    forall s | s in early ensures Foreign(s, k, deadline) { assert s in early + mid; }
    forall s | s in mid ensures Foreign(s, k, deadline) { assert s in early + mid; }
    HeldThroughRun(t1', projects, early, k, w, deadline);
    var a := Run(t1', projects, early);
    var b := Moved(a, k, Running, None, launch, t1).0;
    HeldThroughRun(b, projects, mid, k, w, deadline);
  }

  /** While the lease holds, its worker's heartbeat is accepted and buys a full lease from now. */
  lemma HeartbeatRenews(t: Table, k: Id, w: Id, deadline: int, lease: int, now: int)
    requires IsId("task", k) && IsId("connector", w)
    requires Holds(t, k, w, deadline) && now <= deadline
    ensures Beaten(t, k, w, lease, now).1.None?
    ensures Holds(Beaten(t, k, w, lease, now).0, k, w, now + LeaseOf(lease))
  {
    UnixMonotone(now, deadline);
  }

  /** A heartbeat, and what everybody else commits since the one before. */
  datatype Beat = Beat(others: seq<Step>, at: int)

  /** Each beat comes within two of the intervals the grant names: one may be missed. */
  ghost predicate Timely(k: Id, lease: int, since: int, beats: seq<Beat>)
    decreases |beats|
  {
    beats == [] ||
    (&& since <= beats[0].at <= since + 2 * (LeaseOf(lease) / 3)
     && (forall s :: s in beats[0].others ==> Foreign(s, k, since + LeaseOf(lease)))
     && Timely(k, lease, beats[0].at, beats[1..]))
  }

  function Beating(t: Table, projects: set<Id>, k: Id, w: Id, lease: int, beats: seq<Beat>): Table
    decreases |beats|
  {
    if beats == [] then t
    else Beating(Beaten(Run(t, projects, beats[0].others), k, w, lease, beats[0].at).0, projects, k, w, lease, beats[1..])
  }

  function LastBeat(since: int, beats: seq<Beat>): int {
    if beats == [] then since else beats[|beats| - 1].at
  }

  /** A worker that keeps beating keeps its task, for as long as it likes and whatever the others claim. */
  lemma {:induction false} HeartbeatsKeepTheTask(t: Table, projects: set<Id>, k: Id, w: Id, lease: int, since: int,
                                                 beats: seq<Beat>)
    requires IsId("task", k) && IsId("connector", w)
    requires Holds(t, k, w, since + LeaseOf(lease)) && Timely(k, lease, since, beats)
    ensures Holds(Beating(t, projects, k, w, lease, beats), k, w, LastBeat(since, beats) + LeaseOf(lease))
    decreases |beats|
  {
    if beats != [] {
      var b := beats[0];
      HeldThroughRun(t, projects, b.others, k, w, since + LeaseOf(lease));
      var mid := Run(t, projects, b.others);
      HeartbeatRenews(mid, k, w, since + LeaseOf(lease), lease, b.at);
      HeartbeatsKeepTheTask(Beaten(mid, k, w, lease, b.at).0, projects, k, w, lease, b.at, beats[1..]);
    }
  }

  // Losing a claim

  /** A granted claim, anybody's, that commits when the lease of k has run out. */
  predicate Lapses(t: Table, s: Step, k: Id)
    requires k in t
  {
    && s.event.Claim? && Claimed(t, s.event.project, s.event.worker, s.event.lease, s.now).1.Success?
    && Expired(t[k], Unix(s.now))
  }

  predicate WritesState(s: Step, k: Id) {
    s.event.WriteState? && s.event.k == k
  }

  predicate WritesLease(s: Step, k: Id) {
    s.event.WriteLease? && s.event.k == k
  }

  /** Against commits that write no state of k, a running task leaves its run exactly by a lapse. */
  lemma RunningLeavesExactly(t: Table, projects: set<Id>, s: Step, k: Id)
    requires k in t && t[k].state.Running? && !WritesState(s, k)
    ensures var t' := Apply(t, projects, s);
      && k in t'
      && (t'[k].state.Running? <==> !Lapses(t, s, k))
      && (t'[k].state.Running? ==> t'[k].worker == t[k].worker)
      && (Lapses(t, s, k) ==> t'[k].state.Queued? || t'[k].state.Assigned?)
  {
    if s.event.Claim? {
      FailedClaimChangesNothing(t, s.event.project, s.event.worker, s.event.lease, s.now);
      if Claimed(t, s.event.project, s.event.worker, s.event.lease, s.now).1.Success? {
        ClaimMeaning(t, s.event.project, s.event.worker, s.event.lease, s.now);
      }
    }
  }

  /** A claimed task that has not started keeps its row, lease and all, exactly while nothing lapses. */
  lemma AssignedLeavesExactly(t: Table, projects: set<Id>, s: Step, k: Id)
    requires k in t && t[k].state.Assigned? && !WritesState(s, k) && !WritesLease(s, k)
    ensures k in Apply(t, projects, s) && (Apply(t, projects, s)[k] == t[k] <==> !Lapses(t, s, k))
  {
    if s.event.Claim? {
      FailedClaimChangesNothing(t, s.event.project, s.event.worker, s.event.lease, s.now);
      if Claimed(t, s.event.project, s.event.worker, s.event.lease, s.now).1.Success? {
        ClaimMeaning(t, s.event.project, s.event.worker, s.event.lease, s.now);
        UnixMonotone(s.now, s.now + LeaseOf(s.event.lease));
      }
    }
  }

  ghost predicate Lapsed(t: Table, projects: set<Id>, steps: seq<Step>, k: Id)
    decreases |steps|
  {
    steps != [] && k in t && (Lapses(t, steps[0], k) || Lapsed(Apply(t, projects, steps[0]), projects, steps[1..], k))
  }

  /** A task that is not running and whose state nobody writes does not start to run. */
  lemma {:induction false} StaysStopped(t: Table, projects: set<Id>, steps: seq<Step>, k: Id)
    requires k in t && (t[k].state.Queued? || t[k].state.Assigned?) && forall s :: s in steps ==> !WritesState(s, k)
    ensures k in Run(t, projects, steps)
    ensures Run(t, projects, steps)[k].state.Queued? || Run(t, projects, steps)[k].state.Assigned?
    decreases |steps|
  {
    if steps != [] {
      var t' := Apply(t, projects, steps[0]);
      assert steps[0] in steps;
      if steps[0].event.Claim? {
        var c := steps[0].event;
        FailedClaimChangesNothing(t, c.project, c.worker, c.lease, steps[0].now);
        if Claimed(t, c.project, c.worker, c.lease, steps[0].now).1.Success? {
          ClaimMeaning(t, c.project, c.worker, c.lease, steps[0].now);
        }
      }
      StaysStopped(t', projects, steps[1..], k);
    }
  }

  lemma {:induction false} StillRunningExactly(t: Table, projects: set<Id>, steps: seq<Step>, k: Id)
    requires k in t && t[k].state.Running? && forall s :: s in steps ==> !WritesState(s, k)
    ensures var c := Run(t, projects, steps);
      && k in c && (c[k].state.Running? <==> !Lapsed(t, projects, steps, k))
      && (c[k].state.Running? ==> c[k].worker == t[k].worker)
      && (!c[k].state.Running? ==> c[k].state.Queued? || c[k].state.Assigned?)
    decreases |steps|
  {
    if steps != [] {
      var t' := Apply(t, projects, steps[0]);
      RunningLeavesExactly(t, projects, steps[0], k);
      if t'[k].state.Running? {
        StillRunningExactly(t', projects, steps[1..], k);
      } else {
        StaysStopped(t', projects, steps[1..], k);
      }
    }
  }

  /**
    A dispatch's Finish is accepted, and then closes its own run, exactly when no granted claim
    committed past the lease since it started. The others may do anything but move the task.
   */
  lemma FinishLandsExactly(t: Table, projects: set<Id>, steps: seq<Step>, k: Id, exit: int, reason: string, now: int)
    requires IsId("task", k) && k in t && t[k].state.Running? && forall s :: s in steps ==> !WritesState(s, k)
    ensures var c := Run(t, projects, steps);
      var (d, e) := Moved(c, k, TerminalState(exit), Some(exit), reason, now);
      && (e.None? <==> !Lapsed(t, projects, steps, k))
      && (e.None? ==> d[k].worker == t[k].worker && d[k].state == TerminalState(exit) && d[k].exitCode == exit)
      && (e.Some? ==> e == Some(InvalidTransition) && d == c)
  {
    StillRunningExactly(t, projects, steps, k);
  }

  ghost predicate UntouchedThroughout(t: Table, projects: set<Id>, steps: seq<Step>, k: Id, row: Task)
    decreases |steps|
  {
    && k in t && t[k] == row
    && (steps == [] || UntouchedThroughout(Apply(t, projects, steps[0]), projects, steps[1..], k, row))
  }

  /** Before its start, a claim is untouched all along exactly when nothing lapsed. */
  lemma {:induction false} UntouchedExactly(t: Table, projects: set<Id>, steps: seq<Step>, k: Id)
    requires k in t && t[k].state.Assigned?
    requires forall s :: s in steps ==> !WritesState(s, k) && !WritesLease(s, k)
    ensures UntouchedThroughout(t, projects, steps, k, t[k]) <==> !Lapsed(t, projects, steps, k)
    ensures !Lapsed(t, projects, steps, k) ==> k in Run(t, projects, steps) && Run(t, projects, steps)[k] == t[k]
    decreases |steps|
  {
    if steps != [] {
      AssignedLeavesExactly(t, projects, steps[0], k);
      if !Lapses(t, steps[0], k) {
        UntouchedExactly(Apply(t, projects, steps[0]), projects, steps[1..], k);
      }
    }
  }

  /**
    When a dispatch finishes its own claim: its claim is untouched until it starts, its start and its
    finish are accepted and the row it closes is its worker's, exactly when no granted claim came past
    the lease, neither before its start nor after it. Nobody else moves the task.
   */
  lemma DispatchFinishesItsOwnClaimExactly(a: Table, projects: set<Id>, k: Id, early: seq<Step>, mid: seq<Step>,
                                           t1: int, t2: int, launch: string, exit: int, reason: string)
    requires IsId("task", k) && k in a && a[k].state.Assigned?
    requires forall s :: s in early ==> !WritesState(s, k) && !WritesLease(s, k)
    requires forall s :: s in mid ==> !WritesState(s, k)
    ensures var (b, started) := Moved(Run(a, projects, early), k, Running, None, launch, t1);
      var (d, finished) := Moved(Run(b, projects, mid), k, TerminalState(exit), Some(exit), reason, t2);
      && (UntouchedThroughout(a, projects, early, k, a[k]) && started.None? && finished.None? <==>
            !Lapsed(a, projects, early, k) && !Lapsed(b, projects, mid, k))
      && (UntouchedThroughout(a, projects, early, k, a[k]) && finished.None? ==>
            k in d && d[k].worker == a[k].worker && d[k].state == TerminalState(exit) && d[k].exitCode == exit)
  {
    UntouchedExactly(a, projects, early, k);
    if !Lapsed(a, projects, early, k) {
      var b := Moved(Run(a, projects, early), k, Running, None, launch, t1).0;
      FinishLandsExactly(b, projects, mid, k, exit, reason, t2);
    }
  }

  /** Nothing lapses by the deadline: commits made within the lease never cost a dispatch its claim. */
  lemma {:induction false} NothingLapsesInTime(t: Table, projects: set<Id>, steps: seq<Step>, k: Id, w: Id, deadline: int)
    requires Holds(t, k, w, deadline) && forall s :: s in steps ==> Foreign(s, k, deadline)
    ensures !Lapsed(t, projects, steps, k)
    decreases |steps|
  {
    if steps != [] {
      assert steps[0] in steps;
      UnixMonotone(steps[0].now, deadline);
      ForeignStepKeepsHold(t, projects, steps[0], k, w, deadline);
      NothingLapsesInTime(Apply(t, projects, steps[0]), projects, steps[1..], k, w, deadline);
    }
  }
}
