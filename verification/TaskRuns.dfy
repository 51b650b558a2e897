/**
  The queue as its callers drive it: runs of whole calls, each with the checks it makes, and the
  runs in which a call made late, by hand or in two halves goes wrong.
 */
module TaskRuns {
  import opened Wrappers
  import opened Clock
  import opened Text
  import opened TaskTable
  import opened TaskLaws

  /** One call of the store, in one piece: SetState and Finish are moves, without and with an exit code. */
  datatype Call =
    | Enqueuing(id: Id, draft: Task)
    | Claiming(project: Id, worker: Id, lease: int)
    | Beating(k: Id, worker: Id, lease: int)
    | Moving(k: Id, to: State, exitCode: Option<int>, reason: string)

  datatype Timed = Timed(now: int, call: Call)

  function Do(t: Table, projects: set<Id>, c: Timed): Table {
    match c.call
    case Enqueuing(id, draft) => Enqueued(t, projects, id, draft, c.now).0
    case Claiming(p, w, lease) => Claimed(t, p, w, lease, c.now).0
    case Beating(k, w, lease) => Beaten(t, k, w, lease, c.now).0
    case Moving(k, to, exit, reason) => Moved(t, k, to, exit, reason, c.now).0
  }

  function DoAll(t: Table, projects: set<Id>, calls: seq<Timed>): Table
    decreases |calls|
  {
    if calls == [] then t else DoAll(Do(t, projects, calls[0]), projects, calls[1..])
  }

  /** The commit a call makes when its checks pass. */
  function CommitOf(c: Timed): Step {
    Step(c.now,
      match c.call
      case Enqueuing(id, draft) => Enqueue(id, draft)
      case Claiming(p, w, lease) => Claim(p, w, lease)
      case Beating(k, _, lease) => WriteLease(k, lease)
      case Moving(k, to, exit, reason) => WriteState(k, to, exit, reason))
  }

  lemma DoesOrRefuses(t: Table, projects: set<Id>, c: Timed)
    ensures Do(t, projects, c) == t || Do(t, projects, c) == Apply(t, projects, CommitOf(c))
    ensures c.call.Moving? && Do(t, projects, c) != t ==>
      c.call.k in t && CanTransition(t[c.call.k].state, c.call.to)
  {
  }

  // One task a worker

  /** A call that takes a queued task to assigned by hand, which only Claim is meant to do. */
  predicate AssignsByHand(c: Timed) {
    c.call.Moving? && c.call.to.Assigned?
  }

  lemma CallKeepsOneTask(t: Table, projects: set<Id>, c: Timed)
    requires OneTask(t) && !AssignsByHand(c)
    ensures OneTask(Do(t, projects, c))
  {
    if c.call.Moving? {
      MoveKeepsOneTaskExactly(t, c.call.k, c.call.to, c.call.exitCode, c.call.reason, c.now);
    } else {
      DoesOrRefuses(t, projects, c);
      StepKeepsOneTaskExactly(t, projects, CommitOf(c));
    }
  }

  lemma {:induction false} RunKeepsOneTask(t: Table, projects: set<Id>, calls: seq<Timed>)
    requires OneTask(t) && forall c :: c in calls ==> !AssignsByHand(c)
    ensures OneTask(DoAll(t, projects, calls))
    decreases |calls|
  {
    if calls != [] {
      assert calls[0] in calls;
      CallKeepsOneTask(t, projects, calls[0]);
      RunKeepsOneTask(Do(t, projects, calls[0]), projects, calls[1..]);
    }
  }

  /**
    In every state the store can reach each worker holds at most one task that is assigned, running or
    awaiting attention, whichever projects the tasks belong to, if nobody assigns tasks by hand.
   */
  lemma ReachableOneTask(projects: set<Id>, calls: seq<Timed>)
    requires forall c :: c in calls ==> !AssignsByHand(c)
    ensures OneTask(DoAll(map[], projects, calls))
  {
    RunKeepsOneTask(map[], projects, calls);
  }

  // Order

  /** An enqueued key comes after a given one. */
  predicate KeyAfter(c: Timed, created: int, k: Id) {
    c.call.Enqueuing? ==> created < Unix(c.now) || (created == Unix(c.now) && Less(k, c.call.id))
  }

  lemma CallKeepsAhead(t: Table, projects: set<Id>, k: Id, c: Timed)
    requires k in t && KeyAfter(c, t[k].created, k)
    ensures k in Do(t, projects, c) && Do(t, projects, c)[k].created == t[k].created
    ensures Ahead(Do(t, projects, c), k) <= Ahead(t, k)
  {
    DoesOrRefuses(t, projects, c);
    var s := CommitOf(c);
    if c.call.Enqueuing? { LessTotal(k, c.call.id); }
    if Do(t, projects, c) != t {
      assert !Overtakes(t, projects, k, s);
      AheadGrowsExactly(t, projects, k, s);
      StepKeepsKeys(t, projects, s);
    }
  }

  /**
    If every key enqueued comes after that of k, the unfinished tasks ahead of k only get fewer, in
    any run, reaps included.
   */
  lemma {:induction false} AheadNeverGrows(t: Table, projects: set<Id>, k: Id, calls: seq<Timed>)
    requires k in t && forall c :: c in calls ==> KeyAfter(c, t[k].created, k)
    ensures k in DoAll(t, projects, calls)
    ensures Ahead(DoAll(t, projects, calls), k) <= Ahead(t, k)
    decreases |calls|
  {
    if calls != [] {
      assert calls[0] in calls;
      CallKeepsAhead(t, projects, k, calls[0]);
      AheadNeverGrows(Do(t, projects, calls[0]), projects, k, calls[1..]);
    }
  }

  /** Two tasks of one second: the later one goes ahead if its id is smaller. */
  lemma SameSecondOvertakes(projects: set<Id>, a: Id, b: Id, da: Task, db: Task, n: int, u: int)
    requires IsId("task", a) && IsId("task", b) && Less(a, b)
    requires da.projectId == db.projectId && da.projectId in projects && IsId("project", da.projectId)
    requires NormalizeLaunch(da.launch).Success? && NormalizeLaunch(db.launch).Success?
    requires n <= u && Unix(n) == Unix(u)
    ensures var t := Enqueued(map[], projects, b, db, n).0;
      var t' := Enqueued(t, projects, a, da, u).0;
      Ahead(t, b) == {} && Ahead(t', b) == {a}
  {
    var t := Enqueued(map[], projects, b, db, n).0;
    var t' := Enqueued(t, projects, a, da, u).0;
    LessTotal(b, b);
    assert t.Keys == {b} && t'.Keys == {a, b};
    assert !IsAhead(t, b, b) && !IsAhead(t', b, b) && IsAhead(t', b, a);
  }

  // Runs that go wrong

  /** The one task a claim can take, and what it leaves behind. */
  lemma ClaimTakes(t: Table, p: Id, w: Id, lease: int, now: int, k: Id)
    requires IsId("project", p) && IsId("connector", w) && Claimable(t, p, Unix(now), k)
    requires forall j :: Occupies(t, w, j) ==> Expired(t[j], Unix(now))
    requires forall j :: Claimable(t, p, Unix(now), j) ==> j == k
    ensures Claimed(t, p, w, lease, now).1.Success?
    ensures var t' := Claimed(t, p, w, lease, now).0;
      && t'.Keys == t.Keys && t'[k] == Taken(Reaped(t[k], Unix(now)), w, lease, now)
      && forall j :: j in t && j != k ==> t'[j] == Reaped(t[j], Unix(now))
  {
    ClaimMeaning(t, p, w, lease, now);
  }

  /** What the examples start from: two workers, and a draft each project accepts. */
  predicate Scene(projects: set<Id>, p: Id, q: Id, w1: Id, w2: Id, a: Id, b: Id, da: Task, db: Task) {
    && p in projects && q in projects && IsId("project", p) && IsId("project", q)
    && IsId("connector", w1) && IsId("connector", w2) && w1 != w2
    && IsId("task", a) && IsId("task", b) && a != b
    && da.projectId == p && db.projectId == q
    && NormalizeLaunch(da.launch).Success? && NormalizeLaunch(db.launch).Success?
  }

  /** a is enqueued, and w claims it. */
  function FirstClaim(projects: set<Id>, p: Id, w: Id, a: Id, da: Task, lease: int, n: int): Table {
    Claimed(Enqueued(map[], projects, a, da, n).0, p, w, lease, n).0
  }

  lemma FirstClaimTakes(projects: set<Id>, p: Id, w: Id, a: Id, da: Task, lease: int, n: int)
    requires p in projects && IsId("project", p) && IsId("connector", w) && IsId("task", a)
    requires da.projectId == p && NormalizeLaunch(da.launch).Success?
    ensures var t := FirstClaim(projects, p, w, a, da, lease, n);
      && t.Keys == {a} && t[a].worker == w && t[a].state.Assigned? && t[a].projectId == p
      && t[a].lease == Unix(n + LeaseOf(lease)) && t[a].created == Unix(n)
  {
    var t := Enqueued(map[], projects, a, da, n).0;
    assert t.Keys == {a};
    ClaimTakes(t, p, w, lease, n, a);
  }

  /** The task a a worker dropped, by lapse, is taken over by the other one and started. */
  function TakenOver(t: Table, p: Id, w2: Id, a: Id, lease: int, n: int): Table {
    Moved(Claimed(t, p, w2, lease, n).0, a, Running, None, "exec", n).0
  }

  lemma TakenOverRuns(t: Table, p: Id, w2: Id, a: Id, lease: int, n: int)
    requires IsId("project", p) && IsId("connector", w2) && IsId("task", a)
    requires t.Keys == {a} && t[a].projectId == p && Expired(t[a], Unix(n))
    ensures var c := TakenOver(t, p, w2, a, lease, n);
      c.Keys == {a} && c[a].worker == w2 && c[a].state.Running? && c[a].projectId == p && c[a].created == t[a].created
  {
    ClaimTakes(t, p, w2, lease, n, a);
  }

  /** Once a lease has run out, another worker's claim takes the running task over. */
  lemma LapsedTaskIsTakenOver(projects: set<Id>, p: Id, w1: Id, w2: Id, a: Id, da: Task, lease: int, n: int, u: int)
    requires p in projects && IsId("project", p) && IsId("connector", w1) && IsId("connector", w2) && w1 != w2
    requires IsId("task", a) && da.projectId == p && NormalizeLaunch(da.launch).Success?
    requires Unix(n + LeaseOf(lease)) > 0 && u >= n + LeaseOf(lease) + SECOND
    ensures var started := Moved(FirstClaim(projects, p, w1, a, da, lease, n), a, Running, None, "exec", n).0;
      var c := TakenOver(started, p, w2, a, lease, u);
      && started.Keys == {a} && started[a].worker == w1 && started[a].state.Running?
      && c.Keys == {a} && c[a].worker == w2 && c[a].state.Running?
  {
    FirstClaimTakes(projects, p, w1, a, da, lease, n);
    var started := Moved(FirstClaim(projects, p, w1, a, da, lease, n), a, Running, None, "exec", n).0;
    assert started.Keys == {a};
    LeaseWindow(started[a], n, LeaseOf(lease), u);
    TakenOverRuns(started, p, w2, a, lease, u);
  }

  /** Two finishes in a row on one run: whoever comes first closes it. */
  lemma FirstFinishCloses(c: Table, a: Id, exit1: int, exit2: int, u: int)
    requires IsId("task", a) && a in c && c[a].state.Running?
    ensures var (e, first) := Moved(c, a, TerminalState(exit1), Some(exit1), "", u);
      && first.None? && a in e && e[a].worker == c[a].worker && e[a].exitCode == exit1
      && Moved(e, a, TerminalState(exit2), Some(exit2), "", u).1 == Some(InvalidTransition)
  {
    var e := Moved(c, a, TerminalState(exit1), Some(exit1), "", u).0;
    assert Terminal(e[a].state);
  }

  /**
    Finish takes no worker. From an empty queue: w1 starts a and outlives its lease, w2 takes a over
    and starts it; the finish of w1 closes the run of w2, and that of w2 is refused.
   */
  lemma LateFinishCompletesAnotherClaim(projects: set<Id>, p: Id, w1: Id, w2: Id, a: Id, da: Task, lease: int,
                                        n: int, u: int, exit1: int, exit2: int)
    requires p in projects && IsId("project", p) && IsId("connector", w1) && IsId("connector", w2) && w1 != w2
    requires IsId("task", a) && da.projectId == p && NormalizeLaunch(da.launch).Success?
    requires Unix(n + LeaseOf(lease)) > 0 && u >= n + LeaseOf(lease) + SECOND
    ensures var started := Moved(FirstClaim(projects, p, w1, a, da, lease, n), a, Running, None, "exec", n).0;
      var (e, stolen) := Moved(TakenOver(started, p, w2, a, lease, u), a, TerminalState(exit1), Some(exit1), "", u);
      && stolen.None? && a in e && e[a].worker == w2 && e[a].exitCode == exit1
      && Moved(e, a, TerminalState(exit2), Some(exit2), "", u).1 == Some(InvalidTransition)
  {
    LapsedTaskIsTakenOver(projects, p, w1, w2, a, da, lease, n, u);
    var started := Moved(FirstClaim(projects, p, w1, a, da, lease, n), a, Running, None, "exec", n).0;
    FirstFinishCloses(TakenOver(started, p, w2, a, lease, u), a, exit1, exit2, u);
  }

  /** w2 finishes a and claims b, enqueued meanwhile in its project. */
  function FinishedAndOn(t: Table, projects: set<Id>, q: Id, w2: Id, a: Id, b: Id, db: Task, lease: int, n: int): Table {
    Claimed(Enqueued(Moved(t, a, Done, Some(0), "", n).0, projects, b, db, n).0, q, w2, lease, n).0
  }

  lemma FinishedAndOnHolds(t: Table, projects: set<Id>, q: Id, w2: Id, a: Id, b: Id, db: Task, lease: int, n: int)
    requires q in projects && IsId("project", q) && IsId("connector", w2) && IsId("task", a) && IsId("task", b) && a != b
    requires db.projectId == q && NormalizeLaunch(db.launch).Success?
    requires t.Keys == {a} && t[a].worker == w2 && t[a].state.Running?
    ensures var e := FinishedAndOn(t, projects, q, w2, a, b, db, lease, n);
      && e.Keys == {a, b} && e[a].state.Done? && e[a].worker == w2 && e[b].state.Assigned? && e[b].worker == w2
  {
    var done := Moved(t, a, Done, Some(0), "", n).0;
    var both := Enqueued(done, projects, b, db, n).0;
    assert both.Keys == {a, b};
    ClaimTakes(both, q, w2, lease, n, b);
  }

  /**
    SetState reads and writes in two statements. The dispatcher of w1 reads a as its own, and its write
    lands after a was taken over, finished, and w2 went on to b: the finished task runs again, and w2
    holds two.
   */
  lemma StaleStartDoubles(projects: set<Id>, p: Id, q: Id, w1: Id, w2: Id, a: Id, b: Id, da: Task, db: Task,
                          lease: int, n: int, u: int)
    requires Scene(projects, p, q, w1, w2, a, b, da, db)
    requires Unix(n + LeaseOf(lease)) > 0 && u >= n + LeaseOf(lease) + SECOND
    ensures var claimed := FirstClaim(projects, p, w1, a, da, lease, n);
      var e := FinishedAndOn(TakenOver(claimed, p, w2, a, lease, u), projects, q, w2, a, b, db, lease, u);
      && MoveError(claimed, a, Running).None?
      && a in e && Terminal(e[a].state)
      && !OneTask(StateWritten(e, a, Running, None, "exec", u))
  {
    FirstClaimTakes(projects, p, w1, a, da, lease, n);
    var claimed := FirstClaim(projects, p, w1, a, da, lease, n);
    LeaseWindow(claimed[a], n, LeaseOf(lease), u);
    TakenOverRuns(claimed, p, w2, a, lease, u);
    var c := TakenOver(claimed, p, w2, a, lease, u);
    FinishedAndOnHolds(c, projects, q, w2, a, b, db, lease, u);
    var e := FinishedAndOn(c, projects, q, w2, a, b, db, lease, u);
    var x := StateWritten(e, a, Running, None, "exec", u);
    assert Occupies(x, w2, a) && Occupies(x, w2, b);
  }

  /** w puts its task a back by hand, and claims b from another project. */
  function PutBack(projects: set<Id>, p: Id, q: Id, w: Id, a: Id, b: Id, da: Task, db: Task, lease: int, n: int): Table {
    var back := Moved(FirstClaim(projects, p, w, a, da, lease, n), a, Queued, None, "", n).0;
    Claimed(Enqueued(back, projects, b, db, n).0, q, w, lease, n).0
  }

  lemma PutBackHolds(projects: set<Id>, p: Id, q: Id, w: Id, v: Id, a: Id, b: Id, da: Task, db: Task, lease: int, n: int)
    requires Scene(projects, p, q, w, v, a, b, da, db) && p != q
    ensures var t := PutBack(projects, p, q, w, a, b, da, db, lease, n);
      && t.Keys == {a, b} && t[a].worker == w && t[a].state.Queued? && t[b].worker == w && t[b].state.Assigned?
  {
    FirstClaimTakes(projects, p, w, a, da, lease, n);
    var back := Moved(FirstClaim(projects, p, w, a, da, lease, n), a, Queued, None, "", n).0;
    var both := Enqueued(back, projects, b, db, n).0;
    assert both.Keys == {a, b};
    ClaimTakes(both, q, w, lease, n, b);
  }

  lemma ForwardDoubles(t: Table, a: Id, b: Id, w: Id, n: int)
    requires IsId("task", a) && w != "" && a != b && t.Keys == {a, b}
    requires t[a].worker == w && t[a].state.Queued? && t[b].worker == w && t[b].state.Assigned?
    ensures OneTask(t) && Moved(t, a, Assigned, None, "", n).1.None?
    ensures !OneTask(Moved(t, a, Assigned, None, "", n).0)
  {
    var x := Moved(t, a, Assigned, None, "", n).0;
    assert Occupies(x, w, a) && Occupies(x, w, b);
  }

  /**
    The one whole call that doubles a worker, from an empty queue: a task put back by hand keeps its
    worker's name, and put forward again by hand it joins whatever that worker has claimed since.
   */
  lemma HandAssignmentDoubles(projects: set<Id>, p: Id, q: Id, w: Id, v: Id, a: Id, b: Id, da: Task, db: Task,
                              lease: int, n: int)
    requires Scene(projects, p, q, w, v, a, b, da, db) && p != q
    ensures var t := PutBack(projects, p, q, w, a, b, da, db, lease, n);
      && OneTask(t) && Moved(t, a, Assigned, None, "", n).1.None?
      && !OneTask(Moved(t, a, Assigned, None, "", n).0)
  {
    PutBackHolds(projects, p, q, w, v, a, b, da, db, lease, n);
    ForwardDoubles(PutBack(projects, p, q, w, a, b, da, db, lease, n), a, b, w, n);
  }
}
