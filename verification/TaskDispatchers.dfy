/**
  Any number of dispatchers at work at once, their reads and writes apart: each claims a task, starts
  it, may beat for it, and finishes it. The writes are bare UPDATEs, whatever was read before them.
 */
module TaskDispatchers {
  import opened Wrappers
  import opened Clock
  import opened TaskTable
  import opened TaskLaws
  import TaskRuns

  /** A claim in a dispatcher's hands, good until its deadline. */
  datatype Flight = Flight(k: Id, worker: Id, deadline: int, started: bool)

  datatype System = System(tasks: Table, flights: map<nat, Flight>, clock: int)

  datatype Act =
    | Enqueuing(id: Id, draft: Task)
    | Claiming(d: nat, project: Id, worker: Id, lease: int)
    | Beating(d: nat, lease: int)
    | Starting(d: nat, note: string)
    | Ending(d: nat, exit: int, reason: string)
    | Crashing(d: nat)

  datatype Timed = Timed(now: int, act: Act)

  function Without(flights: map<nat, Flight>, d: nat): map<nat, Flight> {
    map e | e in flights && e != d :: flights[e]
  }

  function Do(s: System, projects: set<Id>, a: Timed): System {
    var now := a.now;
    var t := s.(clock := now);
    match a.act
    case Enqueuing(id, draft) => t.(tasks := Enqueued(s.tasks, projects, id, draft, now).0)
    case Claiming(d, p, w, lease) =>
      var (tasks, r) := Claimed(s.tasks, p, w, lease, now);
      if d in s.flights || r.Failure? then t
      else t.(tasks := tasks, flights := s.flights[d := Flight(r.value.taskId, w, r.value.expiresAt, false)])
    case Beating(d, lease) =>
      if d !in s.flights then t
      else
        var f := s.flights[d];
        t.(tasks := LeaseWritten(s.tasks, f.k, lease, now),
           flights := s.flights[d := f.(deadline := now + LeaseOf(lease))])
    case Starting(d, note) =>
      if d !in s.flights || s.flights[d].started then t
      else
        var f := s.flights[d];
        t.(tasks := StateWritten(s.tasks, f.k, Running, None, note, now), flights := s.flights[d := f.(started := true)])
    case Ending(d, exit, reason) =>
      if d !in s.flights || !s.flights[d].started then t
      else
        t.(tasks := StateWritten(s.tasks, s.flights[d].k, TerminalState(exit), Some(exit), reason, now),
           flights := Without(s.flights, d))
    case Crashing(d) => t.(flights := Without(s.flights, d))
  }

  /** The clock does not run back, and every dispatch in flight is still within its lease. */
  predicate Prompt(s: System, now: int) {
    s.clock <= now && forall d :: d in s.flights ==> now <= s.flights[d].deadline
  }

  /** What a dispatcher holds is still its own. */
  predicate FlightOk(tasks: Table, f: Flight) {
    && f.k in tasks && tasks[f.k].worker == f.worker != ""
    && tasks[f.k].state == (if f.started then Running else Assigned)
    && tasks[f.k].lease >= Unix(f.deadline)
  }

  predicate Apart(s: System, d: nat, e: nat)
    requires d in s.flights && e in s.flights
  {
    s.flights[d].k == s.flights[e].k ==> d == e
  }

  ghost predicate Inv(s: System) {
    && OneTask(s.tasks)
    && (forall d :: d in s.flights ==> FlightOk(s.tasks, s.flights[d]))
    && (forall d, e :: d in s.flights && e in s.flights ==> Apart(s, d, e))
  }

  /** A step on the table and at most one flight, the others' rows untouched where it matters. */
  lemma InvKept(s: System, s': System, d: nat)
    requires Inv(s) && OneTask(s'.tasks)
    requires forall e :: e in s'.flights && e != d ==> e in s.flights && s'.flights[e] == s.flights[e]
    requires forall e :: e in s'.flights && e != d ==> FlightOk(s'.tasks, s.flights[e])
    requires d in s'.flights ==>
      FlightOk(s'.tasks, s'.flights[d]) && forall e :: e in s.flights && e != d ==> s.flights[e].k != s'.flights[d].k
    ensures Inv(s')
  {
    forall e, f | e in s'.flights && f in s'.flights ensures Apart(s', e, f) {
      if e != d && f != d { assert Apart(s, e, f); }
    }
  }

  /** A granted claim, to a dispatcher with free hands, that commits when the lease of a row has run out. */
  predicate Lapses(s: System, a: Timed, k: Id)
    requires k in s.tasks
  {
    && a.act.Claiming? && a.act.d !in s.flights
    && Claimed(s.tasks, a.act.project, a.act.worker, a.act.lease, a.now).1.Success?
    && Expired(s.tasks[k], Unix(a.now))
  }

  /** Somebody's row lapses. */
  ghost predicate Reclaims(s: System, a: Timed) {
    exists e :: e in s.flights && s.flights[e].k in s.tasks && Lapses(s, a, s.flights[e].k)
  }

  lemma PromptNeverReclaims(s: System, a: Timed)
    requires Inv(s) && Prompt(s, a.now)
    ensures !Reclaims(s, a)
  {
    forall e | e in s.flights ensures FlightOk(s.tasks, s.flights[e]) && !Lapses(s, a, s.flights[e].k) {
      assert FlightOk(s.tasks, s.flights[e]);
      UnixMonotone(a.now, s.flights[e].deadline);
    }
  }

  /** A granted claim leaves a row in flight alone exactly when its lease still runs. */
  lemma ClaimLeavesFlightExactly(t: Table, f: Flight, p: Id, w: Id, lease: int, now: int)
    requires FlightOk(t, f) && Claimed(t, p, w, lease, now).1.Success?
    ensures FlightOk(Claimed(t, p, w, lease, now).0, f) && Claimed(t, p, w, lease, now).1.value.taskId != f.k <==>
            !Expired(t[f.k], Unix(now))
  {
    ClaimMeaning(t, p, w, lease, now);
  }

  lemma ClaimMakesFlight(t: Table, p: Id, w: Id, lease: int, now: int)
    requires Claimed(t, p, w, lease, now).1.Success?
    ensures var (t', r) := Claimed(t, p, w, lease, now);
      FlightOk(t', Flight(r.value.taskId, w, r.value.expiresAt, false))
  {
    FailedClaimChangesNothing(t, p, w, lease, now);
    ClaimMeaning(t, p, w, lease, now);
  }

  lemma ClaimingKeepsInv(s: System, projects: set<Id>, a: Timed)
    requires Inv(s) && !Reclaims(s, a) && a.act.Claiming?
    ensures Inv(Do(s, projects, a))
  {
    var Claiming(d, p, w, lease) := a.act;
    var s' := Do(s, projects, a);
    if Claimed(s.tasks, p, w, lease, a.now).1.Success? && d !in s.flights {
      ClaimKeepsOneTask(s.tasks, p, w, lease, a.now);
      ClaimMakesFlight(s.tasks, p, w, lease, a.now);
      forall e | e in s.flights
        ensures s.flights[e].k != s'.flights[d].k && FlightOk(s'.tasks, s.flights[e])
      {
        assert FlightOk(s.tasks, s.flights[e]) && !Lapses(s, a, s.flights[e].k);
        ClaimLeavesFlightExactly(s.tasks, s.flights[e], p, w, lease, a.now);
      }
    }
    InvKept(s, s', d);
  }

  lemma ReclaimBreaksInv(s: System, projects: set<Id>, a: Timed, e: nat)
    requires Inv(s) && e in s.flights && s.flights[e].k in s.tasks && Lapses(s, a, s.flights[e].k)
    ensures !Inv(Do(s, projects, a))
  {
    var Claiming(d, p, w, lease) := a.act;
    var s', f := Do(s, projects, a), s.flights[e];
    assert FlightOk(s.tasks, f);
    ClaimLeavesFlightExactly(s.tasks, f, p, w, lease, a.now);
    assert s'.flights[e] == f && d != e;
    if s'.flights[d].k == f.k { assert !Apart(s', d, e); }
  }

  /** A write on the row of flight d leaves the others' rows, and wakes nobody. */
  lemma OthersKept(s: System, tasks: Table, d: nat)
    requires Inv(s) && d in s.flights && tasks.Keys == s.tasks.Keys
    requires forall k :: k in s.tasks && k != s.flights[d].k ==> tasks[k] == s.tasks[k]
    ensures forall e :: e in s.flights && e != d ==>
      s.flights[e].k != s.flights[d].k && FlightOk(tasks, s.flights[e])
  {
    forall e | e in s.flights && e != d
      ensures s.flights[e].k != s.flights[d].k && FlightOk(tasks, s.flights[e])
    {
      assert Apart(s, d, e) && FlightOk(s.tasks, s.flights[e]);
    }
  }

  lemma WriteKeepsInv(s: System, projects: set<Id>, a: Timed)
    requires Inv(s) && (a.act.Starting? || a.act.Ending? || a.act.Beating?)
    ensures Inv(Do(s, projects, a))
  {
    var d := a.act.d;
    var s' := Do(s, projects, a);
    if d in s.flights {
      var f := s.flights[d];
      assert FlightOk(s.tasks, f);
      if a.act.Beating? {
        StepKeepsOneTaskExactly(s.tasks, projects, Step(a.now, WriteLease(f.k, a.act.lease)));
      } else {
        var to := if a.act.Starting? then Running else TerminalState(a.act.exit);
        var exit := if a.act.Starting? then None else Some(a.act.exit);
        StateWriteKeepsOneTaskExactly(s.tasks, f.k, to, exit,
          if a.act.Starting? then a.act.note else a.act.reason, a.now);
      }
      OthersKept(s, s'.tasks, d);
      InvKept(s, s', d);
    } else {
      InvKept(s, s', d);
    }
  }

  lemma EnqueuingKeepsInv(s: System, projects: set<Id>, a: Timed)
    requires Inv(s) && a.act.Enqueuing?
    ensures Inv(Do(s, projects, a))
  {
    StepKeepsOneTaskExactly(s.tasks, projects, Step(a.now, Enqueue(a.act.id, a.act.draft)));
    var s' := Do(s, projects, a);
    forall e | e in s.flights ensures FlightOk(s'.tasks, s.flights[e]) {
      assert FlightOk(s.tasks, s.flights[e]);
    }
    forall d, e | d in s'.flights && e in s'.flights ensures Apart(s', d, e) {
      assert Apart(s, d, e);
    }
  }

  /** What the invariant says survives every act but one: a claim granted past the lease of a row in flight. */
  lemma ActKeepsInvExactly(s: System, projects: set<Id>, a: Timed)
    requires Inv(s)
    ensures Inv(Do(s, projects, a)) <==> !Reclaims(s, a)
  {
    if Reclaims(s, a) {
      var e :| e in s.flights && s.flights[e].k in s.tasks && Lapses(s, a, s.flights[e].k);
      ReclaimBreaksInv(s, projects, a, e);
    } else {
      match a.act
      case Enqueuing(_, _) => EnqueuingKeepsInv(s, projects, a);
      case Claiming(_, _, _, _) => ClaimingKeepsInv(s, projects, a);
      case Crashing(d) => InvKept(s, Do(s, projects, a), d);
      case _ => WriteKeepsInv(s, projects, a);
    }
  }

  /** A start or a finish lands on the dispatcher's own row, in the state its check would have asked for. */
  predicate LandsOnItsOwn(s: System, a: Timed) {
    && (a.act.Starting? && a.act.d in s.flights && !s.flights[a.act.d].started ==>
          var f := s.flights[a.act.d];
          f.k in s.tasks && s.tasks[f.k].worker == f.worker && CanTransition(s.tasks[f.k].state, Running))
    && (a.act.Ending? && a.act.d in s.flights && s.flights[a.act.d].started ==>
          var f := s.flights[a.act.d];
          && f.k in s.tasks && s.tasks[f.k].worker == f.worker
          && CanTransition(s.tasks[f.k].state, TerminalState(a.act.exit)))
  }

  ghost predicate PromptRun(s: System, projects: set<Id>, acts: seq<Timed>)
    decreases |acts|
  {
    acts == [] || (Prompt(s, acts[0].now) && PromptRun(Do(s, projects, acts[0]), projects, acts[1..]))
  }

  ghost predicate NeverReclaims(s: System, projects: set<Id>, acts: seq<Timed>)
    decreases |acts|
  {
    acts == [] || (!Reclaims(s, acts[0]) && NeverReclaims(Do(s, projects, acts[0]), projects, acts[1..]))
  }

  ghost predicate SafeRun(s: System, projects: set<Id>, acts: seq<Timed>)
    decreases |acts|
  {
    Inv(s) && (acts == [] || (LandsOnItsOwn(s, acts[0]) && SafeRun(Do(s, projects, acts[0]), projects, acts[1..])))
  }

  lemma InvLands(s: System, a: Timed)
    requires Inv(s)
    ensures LandsOnItsOwn(s, a)
  {
    if (a.act.Starting? || a.act.Ending?) && a.act.d in s.flights {
      assert FlightOk(s.tasks, s.flights[a.act.d]);
    }
  }

  /**
    With any number of dispatchers, their writes apart from their reads, and dispatches of any length:
    all through the run no worker holds two tasks, no task is in two hands, every row in flight is still
    its dispatcher's, and every start and finish lands on the dispatcher's own claim, exactly when no
    claim is ever granted past the lease of a row in flight.
   */
  lemma {:induction false} RunIsSafeExactly(s: System, projects: set<Id>, acts: seq<Timed>)
    requires Inv(s)
    ensures SafeRun(s, projects, acts) <==> NeverReclaims(s, projects, acts)
    decreases |acts|
  {
    if acts != [] {
      var s' := Do(s, projects, acts[0]);
      InvLands(s, acts[0]);
      ActKeepsInvExactly(s, projects, acts[0]);
      if Reclaims(s, acts[0]) {
        assert !SafeRun(s', projects, acts[1..]);
      } else {
        RunIsSafeExactly(s', projects, acts[1..]);
      }
    }
  }

  /** So it is in every run in which each dispatch stays within its lease. */
  lemma {:induction false} PromptRunIsSafe(s: System, projects: set<Id>, acts: seq<Timed>)
    requires Inv(s) && PromptRun(s, projects, acts)
    ensures SafeRun(s, projects, acts)
    decreases |acts|
  {
    if acts != [] {
      InvLands(s, acts[0]);
      PromptNeverReclaims(s, acts[0]);
      ActKeepsInvExactly(s, projects, acts[0]);
      PromptRunIsSafe(Do(s, projects, acts[0]), projects, acts[1..]);
    }
  }

  lemma PromptFromEmpty(projects: set<Id>, clock: int, acts: seq<Timed>)
    requires PromptRun(System(map[], map[], clock), projects, acts)
    ensures SafeRun(System(map[], map[], clock), projects, acts)
  {
    PromptRunIsSafe(System(map[], map[], clock), projects, acts);
  }

  // One dispatcher among others, who may be late themselves

  /** The claim of d is its own: its row is as it claimed and started it, and in nobody else's hands. */
  ghost predicate Owns(s: System, d: nat) {
    && d in s.flights && FlightOk(s.tasks, s.flights[d])
    && forall e :: e in s.flights && e != d ==> s.flights[e].k != s.flights[d].k
  }

  /** The acts that take a flight out of its dispatcher's hands. */
  predicate Leaves(a: Timed, d: nat) {
    (a.act.Ending? || a.act.Crashing?) && a.act.d == d
  }

  lemma OwnActKeepsOwn(s: System, projects: set<Id>, a: Timed, d: nat)
    requires Owns(s, d) && (a.act.Starting? || a.act.Beating?) && a.act.d == d
    ensures Owns(Do(s, projects, a), d) && Do(s, projects, a).flights[d].k == s.flights[d].k
  {
  }

  lemma OthersActKeepsOwn(s: System, projects: set<Id>, a: Timed, d: nat)
    requires Owns(s, d) && (a.act.Starting? || a.act.Beating? || a.act.Ending? || a.act.Crashing?) && a.act.d != d
    ensures Owns(Do(s, projects, a), d) && Do(s, projects, a).flights[d] == s.flights[d]
  {
  }

  lemma ClaimKeepsOwnExactly(s: System, projects: set<Id>, a: Timed, d: nat)
    requires Owns(s, d) && a.act.Claiming?
    ensures Owns(Do(s, projects, a), d) <==> !Lapses(s, a, s.flights[d].k)
  {
    var Claiming(e, p, w, lease) := a.act;
    if e !in s.flights && Claimed(s.tasks, p, w, lease, a.now).1.Success? {
      ClaimLeavesFlightExactly(s.tasks, s.flights[d], p, w, lease, a.now);
      var s' := Do(s, projects, a);
      assert e != d && s'.flights[d] == s.flights[d];
      assert s'.flights[e].k == Claimed(s.tasks, p, w, lease, a.now).1.value.taskId;
    }
  }

  lemma ActKeepsOwnExactly(s: System, projects: set<Id>, a: Timed, d: nat)
    requires Owns(s, d) && !Leaves(a, d)
    ensures Owns(Do(s, projects, a), d) <==> !Lapses(s, a, s.flights[d].k)
  {
    match a.act
    case Enqueuing(_, _) =>
    case Claiming(_, _, _, _) => ClaimKeepsOwnExactly(s, projects, a, d);
    case _ => if a.act.d == d { OwnActKeepsOwn(s, projects, a, d); } else { OthersActKeepsOwn(s, projects, a, d); }
  }

  ghost predicate OwnsThroughout(s: System, projects: set<Id>, acts: seq<Timed>, d: nat)
    decreases |acts|
  {
    Owns(s, d) && (acts == [] || OwnsThroughout(Do(s, projects, acts[0]), projects, acts[1..], d))
  }

  /** A claim of the run is granted past the lease that the row of d then has. */
  ghost predicate Lapsed(s: System, projects: set<Id>, acts: seq<Timed>, d: nat)
    decreases |acts|
  {
    && acts != [] && d in s.flights && s.flights[d].k in s.tasks
    && (Lapses(s, acts[0], s.flights[d].k) || Lapsed(Do(s, projects, acts[0]), projects, acts[1..], d))
  }

  /**
    Whatever the others do, late starts and finishes of theirs included, and however d beats for its row
    and starts it: the claim of d stays its own exactly until a claim is granted past its lease.
   */
  lemma {:induction false} OwnUntilLapsedExactly(s: System, projects: set<Id>, acts: seq<Timed>, d: nat)
    requires Owns(s, d) && forall a :: a in acts ==> !Leaves(a, d)
    ensures OwnsThroughout(s, projects, acts, d) <==> !Lapsed(s, projects, acts, d)
    decreases |acts|
  {
    if acts != [] {
      var s' := Do(s, projects, acts[0]);
      ActKeepsOwnExactly(s, projects, acts[0], d);
      if Lapses(s, acts[0], s.flights[d].k) {
        assert !OwnsThroughout(s', projects, acts[1..], d);
      } else {
        OwnUntilLapsedExactly(s', projects, acts[1..], d);
      }
    }
  }

  function DoAll(s: System, projects: set<Id>, acts: seq<Timed>): System
    decreases |acts|
  {
    if acts == [] then s else DoAll(Do(s, projects, acts[0]), projects, acts[1..])
  }

  lemma {:induction false} OwnsToTheEnd(s: System, projects: set<Id>, acts: seq<Timed>, d: nat)
    requires OwnsThroughout(s, projects, acts, d)
    ensures Owns(DoAll(s, projects, acts), d)
    decreases |acts|
  {
    if acts != [] {
      OwnsToTheEnd(Do(s, projects, acts[0]), projects, acts[1..], d);
    }
  }

  /** What a finish made on its own claim does: it closes the row of d's own worker, from running. */
  predicate EndsItsOwn(s: System, projects: set<Id>, end: Timed, d: nat) {
    && end.act.Ending? && end.act.d == d && d in s.flights && s.flights[d].started
    && LandsOnItsOwn(s, end)
    && var f := s.flights[d];
       var after := Do(s, projects, end).tasks;
       f.k in after && after[f.k].worker == f.worker && after[f.k].state == TerminalState(end.act.exit)
       && after[f.k].exitCode == end.act.exit
  }

  /**
    A dispatch that comes to its finish: its claim was its own in every state up to there, and the finish
    closes it, exactly when no claim was granted past the lease.
   */
  lemma FinishesItsOwnClaimExactly(s: System, projects: set<Id>, acts: seq<Timed>, end: Timed, d: nat)
    requires Owns(s, d) && forall a :: a in acts ==> !Leaves(a, d)
    requires end.act.Ending? && end.act.d == d
    requires d in DoAll(s, projects, acts).flights && DoAll(s, projects, acts).flights[d].started
    ensures OwnsThroughout(s, projects, acts, d) && EndsItsOwn(DoAll(s, projects, acts), projects, end, d) <==>
            !Lapsed(s, projects, acts, d)
  {
    OwnUntilLapsedExactly(s, projects, acts, d);
    if OwnsThroughout(s, projects, acts, d) {
      OwnsToTheEnd(s, projects, acts, d);
    }
  }

  /** A granted claim is the dispatcher's own, unless a late dispatcher still has its row in hand. */
  lemma ClaimIsOwnExactly(s: System, projects: set<Id>, a: Timed)
    requires a.act.Claiming? && a.act.d !in s.flights
    requires Claimed(s.tasks, a.act.project, a.act.worker, a.act.lease, a.now).1.Success?
    ensures var k := Claimed(s.tasks, a.act.project, a.act.worker, a.act.lease, a.now).1.value.taskId;
            Owns(Do(s, projects, a), a.act.d) <==> forall e :: e in s.flights ==> s.flights[e].k != k
  {
    ClaimMakesFlight(s.tasks, a.act.project, a.act.worker, a.act.lease, a.now);
    var s', d := Do(s, projects, a), a.act.d;
    if e :| e in s.flights && s.flights[e].k == s'.flights[d].k {
      assert s'.flights[e].k == s'.flights[d].k && e != d;
    }
  }

  /** w1 has claimed a, the only task there is. */
  function Alone(projects: set<Id>, p: Id, w1: Id, a: Id, da: Task, lease: int, n: int): System {
    Do(Do(System(map[], map[], n), projects, Timed(n, Enqueuing(a, da))), projects, Timed(n, Claiming(0, p, w1, lease)))
  }

  /** What that leaves, by AloneHolds: one row, in the hands of dispatcher 0. */
  predicate HeldAlone(s: System, p: Id, w1: Id, a: Id, deadline: int) {
    && s.tasks.Keys == {a} && s.tasks[a].projectId == p && s.tasks[a].worker == w1 != "" && s.tasks[a].state.Assigned?
    && s.tasks[a].lease == Unix(deadline) && s.flights == map[0 := Flight(a, w1, deadline, false)]
  }

  lemma AloneHolds(projects: set<Id>, p: Id, w1: Id, a: Id, da: Task, lease: int, n: int)
    requires p in projects && IsId("project", p) && IsId("connector", w1) && IsId("task", a)
    requires da.projectId == p && NormalizeLaunch(da.launch).Success?
    ensures HeldAlone(Alone(projects, p, w1, a, da, lease, n), p, w1, a, n + LeaseOf(lease))
  {
    TaskRuns.FirstClaimTakes(projects, p, w1, a, da, lease, n);
    ClaimMakesFlight(Enqueued(map[], projects, a, da, n).0, p, w1, lease, n);
    TaskRuns.ClaimTakes(Enqueued(map[], projects, a, da, n).0, p, w1, lease, n, a);
  }

  /** The start of w1, the claim of w2 after the lease, and the start of w2. */
  function LateActs(p: Id, w2: Id, lease: int, n: int, u: int): seq<Timed> {
    [Timed(n, Starting(0, "exec")), Timed(u, Claiming(1, p, w2, lease)), Timed(u, Starting(1, "exec"))]
  }

  lemma LateActsDo(s: System, projects: set<Id>, p: Id, w2: Id, lease: int, n: int, u: int)
    ensures DoAll(s, projects, LateActs(p, w2, lease, n, u)) ==
            Do(Do(Do(s, projects, Timed(n, Starting(0, "exec"))), projects, Timed(u, Claiming(1, p, w2, lease))),
               projects, Timed(u, Starting(1, "exec")))
  {
    var acts := LateActs(p, w2, lease, n, u);
    assert acts[1..] == [acts[1], acts[2]] && acts[1..][1..] == [acts[2]] && [acts[2]][1..] == [];
    var s1 := Do(s, projects, acts[0]);
    var s2 := Do(s1, projects, acts[1]);
    assert DoAll(s2, projects, [acts[2]]) == DoAll(Do(s2, projects, acts[2]), projects, []);
    assert DoAll(s1, projects, [acts[1], acts[2]]) == DoAll(s2, projects, [acts[2]]);
  }

  lemma ClaimTakesOver(s: System, projects: set<Id>, p: Id, w2: Id, a: Id, lease: int, u: int)
    requires IsId("project", p) && IsId("connector", w2) && s.tasks.Keys == {a} && s.tasks[a].projectId == p
    requires Expired(s.tasks[a], Unix(u)) && 1 !in s.flights
    ensures var claim := Timed(u, Claiming(1, p, w2, lease));
      var s' := Do(s, projects, claim);
      && Lapses(s, claim, a) && s'.tasks.Keys == {a} && s'.tasks[a].worker == w2
      && s'.flights == s.flights[1 := Flight(a, w2, u + LeaseOf(lease), false)]
  {
    TaskRuns.ClaimTakes(s.tasks, p, w2, lease, u, a);
    ClaimMakesFlight(s.tasks, p, w2, lease, u);
  }

  lemma StartedExpires(s: System, projects: set<Id>, p: Id, w1: Id, a: Id, deadline: int, n: int, u: int)
    requires HeldAlone(s, p, w1, a, deadline) && Unix(deadline) > 0 && u >= deadline + SECOND
    ensures var s' := Do(s, projects, Timed(n, Starting(0, "exec")));
      && s'.tasks.Keys == {a} && s'.tasks[a].projectId == p && Expired(s'.tasks[a], Unix(u))
      && s'.flights == map[0 := Flight(a, w1, deadline, true)]
  {
    UnixShift(deadline, 1);
    UnixMonotone(deadline + SECOND, u);
  }

  /** After that run both dispatchers have a in hand, and the row is that of w2. */
  lemma LateRun(s: System, projects: set<Id>, p: Id, w1: Id, w2: Id, a: Id, deadline: int, lease: int, n: int, u: int)
    requires HeldAlone(s, p, w1, a, deadline) && IsId("project", p) && IsId("connector", w2)
    requires Unix(deadline) > 0 && u >= deadline + SECOND
    ensures Lapsed(s, projects, LateActs(p, w2, lease, n, u), 0)
    ensures var e := DoAll(s, projects, LateActs(p, w2, lease, n, u));
      && e.tasks.Keys == {a} && e.tasks[a].worker == w2
      && e.flights == map[0 := Flight(a, w1, deadline, true), 1 := Flight(a, w2, u + LeaseOf(lease), true)]
  {
    var acts := LateActs(p, w2, lease, n, u);
    LateActsDo(s, projects, p, w2, lease, n, u);
    StartedExpires(s, projects, p, w1, a, deadline, n, u);
    var s1 := Do(s, projects, acts[0]);
    ClaimTakesOver(s1, projects, p, w2, a, lease, u);
    assert acts[1..][0] == acts[1];
    assert Lapsed(s1, projects, acts[1..], 0);
  }

  lemma LateEnd(e: System, projects: set<Id>, a: Id, w2: Id, exit: int, u: int)
    requires a in e.tasks && e.tasks[a].worker == w2
    requires 0 in e.flights && e.flights[0].k == a && e.flights[0].started && 1 in e.flights
    ensures var f := Do(e, projects, Timed(u, Ending(0, exit, "")));
      && a in f.tasks && f.tasks[a].worker == w2 && f.tasks[a].state == TerminalState(exit)
      && 1 in f.flights && f.flights[1] == e.flights[1]
  {
  }

  /** The claim lapses: the late finish of w1 closes the run of w2, whose dispatcher still has it in hand. */
  lemma LateFinishEndsAnothersClaim(s: System, projects: set<Id>, p: Id, w1: Id, w2: Id, a: Id, deadline: int, lease: int,
                                    n: int, u: int, exit: int)
    requires HeldAlone(s, p, w1, a, deadline) && IsId("project", p) && IsId("connector", w2) && w1 != w2
    requires Unix(deadline) > 0 && u >= deadline + SECOND
    ensures Owns(s, 0) && Lapsed(s, projects, LateActs(p, w2, lease, n, u), 0)
    ensures var e := DoAll(s, projects, LateActs(p, w2, lease, n, u));
      var f := Do(e, projects, Timed(u, Ending(0, exit, "")));
      && 0 in e.flights && e.flights[0] == s.flights[0].(started := true)
      && a in f.tasks && f.tasks[a].worker == w2 && f.tasks[a].state == TerminalState(exit)
      && 1 in f.flights && f.flights[1].k == a && f.flights[1].worker == w2
  {
    LateRun(s, projects, p, w1, w2, a, deadline, lease, n, u);
    LateEnd(DoAll(s, projects, LateActs(p, w2, lease, n, u)), projects, a, w2, exit, u);
  }
}
