/**
  Any number of drainers working one outbox. A drainer claims a row, sends it, and marks it with
  the instant of its claim; a failed mark is a read and a later write. In between, the others work.
 */
module MailDrainers {
  import opened Wrappers
  import opened Clock
  import opened MailOutbox

  /** Longest a send may take from claim to mark for the protocol to be safe. */
  const PROMPT := 299

  /** A row in a drainer's hands: since when, and the count its failed mark has read, if it got that far. */
  datatype Held = Held(id: Id, at: int, read: Option<int>)

  /** `issued` is every id ever minted; `last` is the second of each row's latest claim. */
  datatype System = System(rows: Rows, held: map<nat, Held>, issued: set<Id>, last: map<Id, int>, clock: int)

  datatype Event =
    | Enqueue(id: Id, letter: Letter)
    | Claim(d: nat)
    | MarkSent(d: nat, providerId: string)
    | FailRead(d: nat)
    | FailWrite(d: nat, msg: Bytes)
    | Crash(d: nat)
    | Purge

  datatype Step = Step(now: int, event: Event)

  function Drop(held: map<nat, Held>, d: nat): map<nat, Held> {
    map e | e in held && e != d :: held[e]
  }

  function ClaimStep(s: System, d: nat, now: int): System {
    var (rows, k) := Claimed(s.rows, now);
    if d in s.held || k.None? then s
    else s.(rows := rows, held := s.held[d := Held(k.value, now, None)], last := s.last[k.value := Unix(now)])
  }

  function Apply(s: System, step: Step): System {
    var now := step.now;
    var t := s.(clock := now);
    match step.event
    case Enqueue(id, letter) =>
      if LetterError(letter).Some? || id in s.issued then t
      else t.(rows := s.rows[id := NewMail(letter, now)], issued := s.issued + {id})
    case Claim(d) => ClaimStep(t, d, now)
    case MarkSent(d, providerId) =>
      if d !in s.held then t
      else t.(rows := SentMarked(s.rows, s.held[d].id, providerId, s.held[d].at), held := Drop(s.held, d))
    case FailRead(d) =>
      if d !in s.held then t
      else if s.held[d].id !in s.rows then t.(held := Drop(s.held, d))
      else t.(held := s.held[d := s.held[d].(read := Some(s.rows[s.held[d].id].attempts + 1))])
    case FailWrite(d, msg) =>
      if d !in s.held || s.held[d].read.None? then t
      else t.(rows := FailedWritten(s.rows, s.held[d].id, s.held[d].read.value, msg, s.held[d].at),
              held := Drop(s.held, d))
    case Crash(d) => t.(held := Drop(s.held, d))
    case Purge => t.(rows := Purged(s.rows, now))
  }

  /** The clock does not run back, starts after 1970, and every send in flight is still prompt. */
  predicate Prompt(s: System, now: int) {
    && s.clock <= now && now >= SECOND
    && forall d :: d in s.held ==> now <= s.held[d].at + PROMPT * SECOND
  }

  lemma CommittedOnce(rows: Rows, c: Commit)
    ensures Commits(rows, CommitOne(rows, c)) && Commits(rows, rows)
  {
    CommittedBy(rows, []);
    CommittedBy(rows, [c]);
    assert CommitAll(rows, [c]) == CommitAll(CommitOne(rows, c), []);
  }

  /** A step of this system is what the store's own methods may meet between two of their statements. */
  lemma StepCommits(s: System, step: Step)
    requires s.rows.Keys <= s.issued
    ensures Commits(s.rows, Apply(s, step).rows)
  {
    var now := step.now;
    CommittedOnce(s.rows, Claiming(now));
    match step.event
    case Enqueue(id, letter) => CommittedOnce(s.rows, Enqueuing(id, letter, now));
    case MarkSent(d, providerId) =>
      if d in s.held { CommittedOnce(s.rows, MarkingSent(s.held[d].id, providerId, s.held[d].at)); }
    case FailWrite(d, msg) =>
      if d in s.held && s.held[d].read.Some? {
        CommittedOnce(s.rows, MarkingFailed(s.held[d].id, s.held[d].read.value, msg, s.held[d].at));
      }
    case Purge => CommittedOnce(s.rows, Purging(now));
    case _ =>
  }

  // The invariant

  /** What a drainer holds is still its own. */
  predicate HeldOk(s: System, d: nat)
    requires d in s.held
  {
    var h := s.held[d];
    && h.id in s.issued && SECOND <= h.at <= s.clock
    && (h.id in s.rows ==>
          && s.rows[h.id].status.Sending? && s.rows[h.id].claimedAt == Unix(h.at)
          && (h.read.Some? ==> h.read.value == s.rows[h.id].attempts + 1))
  }

  predicate RowOk(s: System, k: Id)
    requires k in s.rows
  {
    var m := s.rows[k];
    && k in s.issued && 0 <= m.attempts <= MAX_ATTEMPTS
    && (m.status.Dead? <==> m.attempts == MAX_ATTEMPTS)
    && (m.status.Sending? ==> k in s.last && m.claimedAt == s.last[k] > 0)
    && (m.status.Pending? && m.attempts >= 1 ==>
          k in s.last && m.availableAt == s.last[k] + BackoffSeconds(m.attempts))
  }

  predicate Apart(s: System, d: nat, e: nat)
    requires d in s.held && e in s.held
  {
    s.held[d].id == s.held[e].id ==> d == e
  }

  ghost predicate Inv(s: System) {
    && (forall d :: d in s.held ==> HeldOk(s, d))
    && (forall k :: k in s.rows ==> RowOk(s, k))
    && (forall d, e :: d in s.held && e in s.held ==> Apart(s, d, e))
  }

  // Claiming

  /**
    Seconds are truncated on both sides: a sending row is stale from 300 s after its claim on, never
    within 299 s of it, and in between it depends on where the seconds fall.
   */
  lemma ReclaimWindow(m: Mail, at: int, now: int)
    requires m.status.Sending? && m.claimedAt == Unix(at) > 0
    ensures Due(m, now) <==> Unix(now) - Unix(at) >= STALE_AFTER
    ensures now <= at + PROMPT * SECOND ==> !Due(m, now)
    ensures now >= at + STALE_AFTER * SECOND ==> Due(m, now)
  {
    UnixShift(now, -STALE_AFTER);
    UnixShift(at, PROMPT);
    UnixShift(at, STALE_AFTER);
    if now <= at + PROMPT * SECOND { UnixMonotone(now, at + PROMPT * SECOND); }
    if now >= at + STALE_AFTER * SECOND { UnixMonotone(at + STALE_AFTER * SECOND, now); }
  }

  /** While everybody is prompt, a due row is in nobody's hands. */
  lemma DueIsFree(s: System, now: int, k: Id, d: nat)
    requires Inv(s) && Prompt(s, now) && k in s.rows && Due(s.rows[k], now) && d in s.held
    ensures s.held[d].id != k
  {
    assert HeldOk(s, d);
    if s.held[d].id == k {
      UnixMonotone(SECOND, s.held[d].at);
      ReclaimWindow(s.rows[k], s.held[d].at, now);
    }
  }

  /** A claim of a row claimed before comes after the whole backoff, or after a drainer has gone stale. */
  predicate Spaced(s: System, now: int, k: Id)
    requires k in s.rows
  {
    var m := s.rows[k];
    k in s.last ==>
      && (m.status.Pending? && m.attempts >= 1 ==> Unix(now) >= s.last[k] + BackoffSeconds(m.attempts))
      && (m.status.Sending? ==> Unix(now) >= s.last[k] + STALE_AFTER)
  }

  lemma ClaimIsSpaced(s: System, now: int, k: Id)
    requires Inv(s) && k in s.rows && Due(s.rows[k], now)
    ensures Spaced(s, now, k)
  {
    assert RowOk(s, k);
    UnixShift(now, -STALE_AFTER);
  }

  /** From the instant of the previous claim, kept in whole seconds, the wait may fall short by less than one. */
  lemma ClaimIsSpacedInTime(s: System, at: int, now: int, k: Id)
    requires Inv(s) && k in s.rows && Due(s.rows[k], now) && k in s.last && s.last[k] == Unix(at)
    ensures s.rows[k].status.Pending? && s.rows[k].attempts >= 1 ==>
              now > at + (BackoffSeconds(s.rows[k].attempts) - 1) * SECOND
    ensures s.rows[k].status.Sending? ==> now > at + (STALE_AFTER - 1) * SECOND
  {
    var m := s.rows[k];
    ClaimIsSpaced(s, now, k);
    if m.status.Pending? && m.attempts >= 1 { TimeBetween(at, now, BackoffSeconds(m.attempts)); }
    if m.status.Sending? { TimeBetween(at, now, STALE_AFTER); }
  }

  lemma TimeBetween(at: int, now: int, wait: int)
    requires Unix(now) >= Unix(at) + wait
    ensures now > at + (wait - 1) * SECOND
  {
    UnixShift(at, wait - 1);
    if now <= at + (wait - 1) * SECOND {
      UnixMonotone(now, at + (wait - 1) * SECOND);
    }
  }

  /** The row a claim takes is in nobody's hands. */
  ghost predicate TakesFree(s: System, now: int) {
    var k := Claimed(s.rows, now).1;
    k.Some? ==> forall e | e in s.held :: s.held[e].id != k.value
  }

  lemma PromptTakesFree(s: System, now: int)
    requires Inv(s) && Prompt(s, now)
    ensures TakesFree(s, now)
  {
    var k := Claimed(s.rows, now).1;
    if k.Some? {
      forall e | e in s.held ensures s.held[e].id != k.value {
        DueIsFree(s, now, k.value, e);
      }
    }
  }

  lemma ClaimKeepsInv(s: System, d: nat, now: int)
    requires Inv(s) && TakesFree(s, now) && s.clock == now >= SECOND
    ensures Inv(ClaimStep(s, d, now))
  {
    var s' := ClaimStep(s, d, now);
    var k := Claimed(s.rows, now).1;
    UnixMonotone(SECOND, now);
    if d !in s.held && k.Some? {
      assert RowOk(s, k.value);
      forall e | e in s'.held ensures HeldOk(s', e) {
        if e != d { assert HeldOk(s, e); }
      }
      forall j | j in s'.rows ensures RowOk(s', j) {
        assert RowOk(s, j);
      }
      forall e, f | e in s'.held && f in s'.held ensures Apart(s', e, f) {
        if e != d && f != d { assert Apart(s, e, f); }
      }
    }
  }

  // Marking

  lemma DropKeepsInv(s: System, d: nat, rows: Rows)
    requires Inv(s) && rows.Keys == s.rows.Keys
    requires forall k :: k in s.rows ==>
      rows[k] == s.rows[k] || (d in s.held && s.held[d].id == k && RowOk(s.(rows := rows), k))
    ensures Inv(s.(rows := rows, held := Drop(s.held, d)))
  {
    var s' := s.(rows := rows, held := Drop(s.held, d));
    forall e | e in s'.held ensures HeldOk(s', e) {
      assert HeldOk(s, e);
      if d in s.held { assert Apart(s, d, e); }
    }
    forall k | k in s'.rows ensures RowOk(s', k) {
      assert RowOk(s, k);
      if rows[k] != s.rows[k] { assert RowOk(s.(rows := rows), k); }
    }
    forall e, f | e in s'.held && f in s'.held ensures Apart(s', e, f) {
      assert Apart(s, e, f);
    }
  }

  lemma SentKeepsInv(s: System, d: nat, providerId: string)
    requires Inv(s) && d in s.held
    ensures Inv(s.(rows := SentMarked(s.rows, s.held[d].id, providerId, s.held[d].at), held := Drop(s.held, d)))
  {
    assert HeldOk(s, d);
    var k := s.held[d].id;
    if k in s.rows { assert RowOk(s, k); }
    DropKeepsInv(s, d, SentMarked(s.rows, k, providerId, s.held[d].at));
  }

  lemma FailWriteKeepsInv(s: System, d: nat, msg: Bytes)
    requires Inv(s) && d in s.held && s.held[d].read.Some?
    ensures Inv(s.(rows := FailedWritten(s.rows, s.held[d].id, s.held[d].read.value, msg, s.held[d].at),
                   held := Drop(s.held, d)))
  {
    assert HeldOk(s, d);
    var h := s.held[d];
    if h.id in s.rows {
      assert RowOk(s, h.id);
      UnixShift(h.at, BackoffSeconds(h.read.value));
    }
    DropKeepsInv(s, d, FailedWritten(s.rows, h.id, h.read.value, msg, h.at));
  }

  lemma FailReadKeepsInv(s: System, d: nat)
    requires Inv(s) && d in s.held && s.held[d].id in s.rows
    ensures Inv(s.(held := s.held[d := s.held[d].(read := Some(s.rows[s.held[d].id].attempts + 1))]))
  {
    var s' := s.(held := s.held[d := s.held[d].(read := Some(s.rows[s.held[d].id].attempts + 1))]);
    forall e | e in s'.held ensures HeldOk(s', e) {
      assert HeldOk(s, e);
    }
    forall k | k in s'.rows ensures RowOk(s', k) {
      assert RowOk(s, k);
    }
    forall e, f | e in s'.held && f in s'.held ensures Apart(s', e, f) {
      assert Apart(s, e, f);
    }
  }

  lemma RowsKeepInv(s: System, rows: Rows, issued: set<Id>)
    requires Inv(s) && s.issued <= issued
    requires forall k :: k in rows && k in s.rows ==> rows[k] == s.rows[k]
    requires forall k :: k in rows && k !in s.rows ==>
      k in issued && k !in s.issued && rows[k].status.Pending? && rows[k].attempts == 0
    ensures Inv(s.(rows := rows, issued := issued))
  {
    var s' := s.(rows := rows, issued := issued);
    forall e | e in s'.held ensures HeldOk(s', e) {
      assert HeldOk(s, e);
    }
    forall k | k in s'.rows ensures RowOk(s', k) {
      if k in s.rows { assert RowOk(s, k); }
    }
    forall e, f | e in s'.held && f in s'.held ensures Apart(s', e, f) {
      assert Apart(s, e, f);
    }
  }

  lemma RowsAreIssued(s: System)
    requires Inv(s)
    ensures s.rows.Keys <= s.issued
  {
    forall k | k in s.rows ensures k in s.issued { assert RowOk(s, k); }
  }

  lemma TickKeepsInv(s: System, now: int)
    requires Inv(s) && s.clock <= now
    ensures Inv(s.(clock := now))
  {
    var s' := s.(clock := now);
    forall e | e in s'.held ensures HeldOk(s', e) {
      assert HeldOk(s, e);
    }
    forall k | k in s'.rows ensures RowOk(s', k) {
      assert RowOk(s, k);
    }
    forall e, f | e in s'.held && f in s'.held ensures Apart(s', e, f) {
      assert Apart(s, e, f);
    }
  }

  /** The clock does not run back and starts after 1970. */
  predicate Timed(s: System, now: int) {
    s.clock <= now && now >= SECOND
  }

  /** A drainer with free hands is given a row that another still holds. */
  ghost predicate Reclaims(s: System, step: Step) {
    step.event.Claim? && step.event.d !in s.held && !TakesFree(s, step.now)
  }

  /** Everything the invariant says survives every step but one: a claim of a row that is still held. */
  lemma StepKeepsInvExactly(s: System, step: Step)
    requires Inv(s) && Timed(s, step.now)
    ensures Inv(Apply(s, step)) <==> !Reclaims(s, step)
  {
    if Reclaims(s, step) {
      var k := Claimed(s.rows, step.now).1.value;
      var e :| e in s.held && s.held[e].id == k;
      var t := Apply(s, step);
      assert t.held[step.event.d].id == k && t.held[e].id == k;
      assert !Apart(t, step.event.d, e);
    } else {
      StepKeepsInv(s, step);
    }
  }

  lemma StepKeepsInv(s: System, step: Step)
    requires Inv(s) && Timed(s, step.now) && !Reclaims(s, step)
    ensures Inv(Apply(s, step))
  {
    var t := s.(clock := step.now);
    TickKeepsInv(s, step.now);
    match step.event
    case Enqueue(id, letter) =>
      if LetterError(letter).None? && id !in s.issued {
        RowsAreIssued(s);
        RowsKeepInv(t, s.rows[id := NewMail(letter, step.now)], s.issued + {id});
      }
    case Claim(d) =>
      if d !in s.held { ClaimKeepsInv(t, d, step.now); }
    case MarkSent(d, providerId) =>
      if d in s.held { SentKeepsInv(t, d, providerId); }
    case FailRead(d) =>
      if d in s.held {
        if s.held[d].id in s.rows { FailReadKeepsInv(t, d); } else { DropKeepsInv(t, d, s.rows); }
      }
    case FailWrite(d, msg) =>
      if d in s.held && s.held[d].read.Some? { FailWriteKeepsInv(t, d, msg); }
    case Crash(d) => DropKeepsInv(t, d, s.rows);
    case Purge => RowsKeepInv(t, Purged(s.rows, step.now), s.issued);
  }

  // Sent and dead rows

  predicate Final(st: Status) {
    st.Sent? || st.Dead?
  }

  /** A row that was sent or given up stays exactly as it is, until it is purged. */
  predicate Settled(s: System, s': System, k: Id) {
    k in s.rows && Final(s.rows[k].status) && k in s'.rows ==> s'.rows[k] == s.rows[k]
  }

  lemma StepKeepsSettled(s: System, step: Step, k: Id)
    requires Inv(s)
    ensures Settled(s, Apply(s, step), k)
  {
    if k in s.rows && Final(s.rows[k].status) {
      assert RowOk(s, k);
      forall d | d in s.held ensures s.held[d].id != k {
        assert HeldOk(s, d);
      }
    }
  }

  /** A step puts a failure on a row that was sent. */
  predicate FailsSent(s: System, step: Step) {
    && step.event.FailWrite? && step.event.d in s.held && s.held[step.event.d].read.Some?
    && s.held[step.event.d].id in s.rows && s.rows[s.held[step.event.d].id].status.Sent?
  }

  predicate Unsent(s: System, s': System, k: Id) {
    k in s.rows && s.rows[k].status.Sent? && k in s'.rows && !s'.rows[k].status.Sent?
  }

  /** With no promptness assumed at all, the late failed mark is the only step that revives a sent row. */
  lemma SentIsRevivedExactly(s: System, step: Step)
    requires s.rows.Keys <= s.issued
    ensures (exists k :: Unsent(s, Apply(s, step), k)) <==> FailsSent(s, step)
  {
    if FailsSent(s, step) {
      assert Unsent(s, Apply(s, step), s.held[step.event.d].id);
    } else {
      forall k ensures !Unsent(s, Apply(s, step), k) {
        if k in s.rows && s.rows[k].status.Sent? {
          assert !Due(s.rows[k], step.now);
        }
      }
    }
  }

  // Runs

  ghost predicate PromptRun(s: System, steps: seq<Step>)
    decreases |steps|
  {
    steps == [] || (Prompt(s, steps[0].now) && PromptRun(Apply(s, steps[0]), steps[1..]))
  }

  /** One step is safe: settled rows stay, and a claim takes a free row after its waiting time. */
  ghost predicate SafeStep(s: System, step: Step) {
    && (forall k :: Settled(s, Apply(s, step), k))
    && (step.event.Claim? && Claimed(s.rows, step.now).1.Some? ==>
          var k := Claimed(s.rows, step.now).1.value;
          && Spaced(s, step.now, k)
          && forall d :: d in s.held ==> s.held[d].id != k)
  }

  ghost predicate SafeRun(s: System, steps: seq<Step>)
    decreases |steps|
  {
    Inv(s) && (steps == [] || (SafeStep(s, steps[0]) && SafeRun(Apply(s, steps[0]), steps[1..])))
  }

  /** Every run in which each send is marked within 299 s of its claim is safe from end to end. */
  lemma {:induction false} PromptRunIsSafe(s: System, steps: seq<Step>)
    requires Inv(s) && PromptRun(s, steps)
    ensures SafeRun(s, steps)
    decreases |steps|
  {
    if steps != [] {
      var now := steps[0].now;
      forall k ensures Settled(s, Apply(s, steps[0]), k) {
        StepKeepsSettled(s, steps[0], k);
      }
      var c := Claimed(s.rows, now).1;
      PromptTakesFree(s, now);
      if c.Some? {
        ClaimIsSpaced(s, now, c.value);
      }
      StepKeepsInv(s, steps[0]);
      PromptRunIsSafe(Apply(s, steps[0]), steps[1..]);
    }
  }

  /** What the invariant says of one system: no row in two hands, and the count of failures by status. */
  lemma InvMeans(s: System, k: Id)
    requires Inv(s) && k in s.rows
    ensures forall d, e :: d in s.held && e in s.held && s.held[d].id == s.held[e].id ==> d == e
    ensures s.rows[k].status.Dead? <==> s.rows[k].attempts == MAX_ATTEMPTS
    ensures !s.rows[k].status.Dead? ==> s.rows[k].attempts < MAX_ATTEMPTS
    ensures (exists d :: d in s.held && s.held[d].id == k) ==> s.rows[k].status.Sending?
  {
    assert RowOk(s, k);
    forall d, e | d in s.held && e in s.held && s.held[d].id == s.held[e].id ensures d == e {
      assert Apart(s, d, e);
    }
    if d :| d in s.held && s.held[d].id == k {
      assert HeldOk(s, d);
    }
  }

  /** The empty outbox satisfies the invariant, so every run from it does. */
  lemma StartsSafe(clock: int)
    ensures Inv(System(map[], map[], {}, map[], clock))
  {
  }

  // Without promptness

  ghost predicate TimedRun(s: System, steps: seq<Step>)
    decreases |steps|
  {
    steps == [] || (Timed(s, steps[0].now) && TimedRun(Apply(s, steps[0]), steps[1..]))
  }

  ghost predicate InvThroughout(s: System, steps: seq<Step>)
    decreases |steps|
  {
    Inv(s) && (steps == [] || InvThroughout(Apply(s, steps[0]), steps[1..]))
  }

  ghost predicate NeverReclaims(s: System, steps: seq<Step>)
    decreases |steps|
  {
    steps == [] || (!Reclaims(s, steps[0]) && NeverReclaims(Apply(s, steps[0]), steps[1..]))
  }

  /** However long sends take, the protocol is safe throughout a run exactly when no claim takes a row that is still held. */
  lemma {:induction false} RunKeepsInvExactly(s: System, steps: seq<Step>)
    requires Inv(s) && TimedRun(s, steps)
    ensures InvThroughout(s, steps) <==> NeverReclaims(s, steps)
    decreases |steps|
  {
    if steps != [] {
      StepKeepsInvExactly(s, steps[0]);
      if !Reclaims(s, steps[0]) {
        RunKeepsInvExactly(Apply(s, steps[0]), steps[1..]);
      } else {
        assert !InvThroughout(Apply(s, steps[0]), steps[1..]);
      }
    }
  }

  predicate ActsFor(e: Event, d: nat) {
    match e
    case Claim(x) => x == d
    case MarkSent(x, _) => x == d
    case FailRead(x) => x == d
    case FailWrite(x, _) => x == d
    case Crash(x) => x == d
    case _ => false
  }

  /** A drainer alone with its row, which is as it was claimed, or purged. */
  ghost predicate Own(s: System, d: nat, h: Held, m: Mail) {
    && d in s.held && s.held[d] == h && h.id in s.issued
    && (forall e | e in s.held && e != d :: s.held[e].id != h.id)
    && (h.id in s.rows ==> s.rows[h.id] == m)
  }

  /** The row goes to another drainer. */
  predicate Retakes(s: System, step: Step, k: Id) {
    step.event.Claim? && step.event.d !in s.held && Claimed(s.rows, step.now).1 == Some(k)
  }

  lemma OthersKeepOwnExactly(s: System, step: Step, d: nat, h: Held, m: Mail)
    requires Own(s, d, h, m) && !ActsFor(step.event, d)
    ensures Own(Apply(s, step), d, h, m) <==> !Retakes(s, step, h.id)
  {
    if Retakes(s, step, h.id) {
      assert Apply(s, step).held[step.event.d].id == h.id;
    }
  }

  ghost predicate OwnThroughout(s: System, steps: seq<Step>, d: nat, h: Held, m: Mail)
    decreases |steps|
  {
    Own(s, d, h, m) && (steps == [] || OwnThroughout(Apply(s, steps[0]), steps[1..], d, h, m))
  }

  /** Some claim of the run takes the row, a stale time after `at` by the table's seconds. */
  predicate Retaken(s: System, steps: seq<Step>, k: Id, at: int)
    decreases |steps|
  {
    && steps != []
    && ((Retakes(s, steps[0], k) && Unix(steps[0].now) - Unix(at) >= STALE_AFTER)
        || Retaken(Apply(s, steps[0]), steps[1..], k, at))
  }

  /**
    From its claim on, whatever the others do, a drainer stays alone with its row exactly until a claim takes
    the row again, and none can within 300 of the table's seconds.
   */
  lemma {:induction false} OwnUntilRetakenExactly(s: System, steps: seq<Step>, d: nat, h: Held, m: Mail)
    requires Own(s, d, h, m) && m.status.Sending? && m.claimedAt == Unix(h.at) > 0
    requires forall step | step in steps :: !ActsFor(step.event, d)
    ensures OwnThroughout(s, steps, d, h, m) <==> !Retaken(s, steps, h.id, h.at)
    decreases |steps|
  {
    if steps != [] {
      var step := steps[0];
      assert step in steps && forall x | x in steps[1..] :: x in steps;
      OthersKeepOwnExactly(s, step, d, h, m);
      if Retakes(s, step, h.id) {
        ReclaimWindow(m, h.at, step.now);
        assert !OwnThroughout(Apply(s, step), steps[1..], d, h, m);
      } else {
        OwnUntilRetakenExactly(Apply(s, step), steps[1..], d, h, m);
      }
    }
  }

  function End(s: System, steps: seq<Step>): System
    decreases |steps|
  {
    if steps == [] then s else End(Apply(s, steps[0]), steps[1..])
  }

  lemma {:induction false} EmptyHandsStay(s: System, steps: seq<Step>, d: nat)
    requires d !in s.held && forall step | step in steps :: step.event == FailRead(d) || !ActsFor(step.event, d)
    ensures d !in End(s, steps).held
    decreases |steps|
  {
    if steps != [] {
      assert steps[0] in steps && forall x | x in steps[1..] :: x in steps;
      EmptyHandsStay(Apply(s, steps[0]), steps[1..], d);
    }
  }

  /**
    So a failed mark revives a sent row only when the row was claimed again in between, a stale time
    after the mark's own claim.
   */
  lemma {:induction false} RevivalTakesAReclaim(s: System, steps: seq<Step>, d: nat, h: Held, m: Mail, last: Step)
    requires Own(s, d, h, m) && m.status.Sending? && m.claimedAt == Unix(h.at) > 0
    requires forall step | step in steps :: step.event == FailRead(d) || !ActsFor(step.event, d)
    requires FailsSent(End(s, steps), last) && last.event.d == d
    ensures Retaken(s, steps, h.id, h.at)
    decreases |steps|
  {
    if steps != [] {
      var step := steps[0];
      assert step in steps && forall x | x in steps[1..] :: x in steps;
      if step.event == FailRead(d) {
        if h.id in s.rows {
          RevivalTakesAReclaim(Apply(s, step), steps[1..], d, Apply(s, step).held[d], m, last);
        } else {
          EmptyHandsStay(Apply(s, step), steps[1..], d);
        }
      } else {
        OthersKeepOwnExactly(s, step, d, h, m);
        if Retakes(s, step, h.id) {
          ReclaimWindow(m, h.at, step.now);
        } else {
          RevivalTakesAReclaim(Apply(s, step), steps[1..], d, h, m, last);
        }
      }
    }
  }

  /** One mail in the outbox, enqueued and claimed by drainer 0 at the same instant. */
  function ClaimedMail(k: Id, letter: Letter, at: int): System {
    Apply(Apply(System(map[], map[], {}, map[], at), Step(at, Enqueue(k, letter))), Step(at, Claim(0)))
  }

  lemma ClaimedMailHeld(k: Id, letter: Letter, at: int)
    requires LetterError(letter).None?
    ensures var s := ClaimedMail(k, letter, at);
      && s.rows.Keys == {k} && s.rows[k].status.Sending? && s.rows[k].claimedAt == Unix(at) && s.rows[k].attempts == 0
      && s.held == map[0 := Held(k, at, None)]
  {
    var rows: Rows := map[k := NewMail(letter, at)];
    assert Due(rows[k], at);
    assert Claimed(rows, at).1 == Some(k);
  }

  /** The late claim and send of drainer 1, then the failed mark of drainer 0. */
  function MarkedLate(s: System, now: int, providerId: string, msg: Bytes): (System, System) {
    var sent := Apply(Apply(s, Step(now, Claim(1))), Step(now, MarkSent(1, providerId)));
    (sent, Apply(Apply(sent, Step(now, FailRead(0))), Step(now, FailWrite(0, msg))))
  }

  lemma LateMarkRevives(s: System, k: Id, at: int, now: int, providerId: string, msg: Bytes)
    requires s.rows.Keys == {k} && s.rows[k].status.Sending? && s.rows[k].claimedAt == Unix(at) > 0
    requires s.held == map[0 := Held(k, at, None)] && now >= at + STALE_AFTER * SECOND
    requires 0 <= s.rows[k].attempts < MAX_ATTEMPTS - 1
    ensures var (sent, marked) := MarkedLate(s, now, providerId, msg);
      && k in sent.rows && sent.rows[k].status.Sent?
      && k in marked.rows && marked.rows[k].status.Pending?
  {
    ReclaimWindow(s.rows[k], at, now);
    assert Due(s.rows[k], now);
    assert Claimed(s.rows, now).1 == Some(k);
    var a := Apply(s, Step(now, Claim(1)));
    assert 0 in a.held && 1 in a.held && a.held[1].id == k;
    var b := Apply(a, Step(now, MarkSent(1, providerId)));
    assert 0 in b.held && b.held[0] == Held(k, at, None);
  }

  /**
    Marked late, a send breaks the protocol. From an empty outbox: the row is reclaimed, the second drainer
    sends it, and the failed mark of the first puts the sent row back in the queue, to be sent again.
   */
  lemma LateMarkRevivesSentMail(k: Id, letter: Letter, at: int, now: int, providerId: string, msg: Bytes)
    requires LetterError(letter).None? && at >= SECOND && now >= at + STALE_AFTER * SECOND
    ensures var (sent, marked) := MarkedLate(ClaimedMail(k, letter, at), now, providerId, msg);
      && k in sent.rows && sent.rows[k].status.Sent?
      && k in marked.rows && marked.rows[k].status.Pending?
  {
    ClaimedMailHeld(k, letter, at);
    UnixMonotone(SECOND, at);
    LateMarkRevives(ClaimedMail(k, letter, at), k, at, now, providerId, msg);
  }
}
