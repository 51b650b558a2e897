/** The login rate limiter: a fixed window per address, with expired windows evicted now and then. */
module RateLimiter {
  import opened Wrappers
  import opened Clock

  const WINDOW := 60 * SECOND
  const RATE_MAX := 10
  const EVICT_ABOVE := 1024

  datatype Window = Window(start: int, n: int)

  type Counts = map<string, Window>

  predicate Expired(w: Window, now: int) {
    now - w.start > WINDOW
  }

  function Evicted(counts: Counts, now: int): Counts {
    map k | k in counts && !Expired(counts[k], now) :: counts[k]
  }

  /** The window of an address after one more call. */
  function Counted(counts: Counts, ip: string, now: int): Window {
    if ip !in counts || Expired(counts[ip], now) then Window(now, 1)
    else Window(counts[ip].start, counts[ip].n + 1)
  }

  /** One call of a limiter that never evicts. */
  function PlainAllow(counts: Counts, ip: string, now: int): (Counts, bool) {
    var w := Counted(counts, ip, now);
    (counts[ip := w], w.n <= RATE_MAX)
  }

  function Allow(counts: Counts, ip: string, now: int): (Counts, bool) {
    PlainAllow(if |counts| > EVICT_ABOVE then Evicted(counts, now) else counts, ip, now)
  }

  class Limiter {
    var counts: Counts

    constructor ()
      ensures counts == map[]
    {
      counts := map[];
    }

    method Evict(now: int)
      modifies this
      ensures counts == Evicted(old(counts), now)
    {
      var left := counts.Keys;
      while left != {}
        invariant left <= old(counts).Keys
        invariant forall k :: k in counts <==>
          k in old(counts) && (k in left || !Expired(old(counts)[k], now))
        invariant forall k :: k in counts ==> counts[k] == old(counts)[k]
        decreases |left|
      {
        var k :| k in left;
        left := left - {k};
        if Expired(counts[k], now) {
          counts := counts - {k};
        }
      }
    }

    /** `host` is what splitting the port off the remote address gives, if it splits. */
    method AllowAddress(remoteAddr: string, host: Option<string>, now: int) returns (ok: bool)
      modifies this
      ensures (counts, ok) == Allow(old(counts), if host.Some? then host.value else remoteAddr, now)
    {
      var ip := match host case Some(h) => h case None => remoteAddr;
      if |counts| > EVICT_ABOVE {
        Evict(now);
      }
      if ip !in counts || now - counts[ip].start > WINDOW {
        counts := counts[ip := Window(now, 1)];
        return true;
      }
      var w := Window(counts[ip].start, counts[ip].n + 1);
      counts := counts[ip := w];
      ok := w.n <= RATE_MAX;
    }
  }

  datatype Call = Call(ip: string, now: int)

  /** The clock never runs back over a run of calls. */
  predicate InTime(calls: seq<Call>, clock: int)
    decreases |calls|
  {
    calls == [] || (clock <= calls[0].now && InTime(calls[1..], calls[0].now))
  }

  function Answers(counts: Counts, calls: seq<Call>): seq<bool>
    decreases |calls|
  {
    if calls == [] then []
    else
      var (next, ok) := Allow(counts, calls[0].ip, calls[0].now);
      [ok] + Answers(next, calls[1..])
  }

  function PlainAnswers(counts: Counts, calls: seq<Call>): (r: seq<bool>)
    ensures |r| == |calls|
    decreases |calls|
  {
    if calls == [] then []
    else
      var (next, ok) := PlainAllow(counts, calls[0].ip, calls[0].now);
      [ok] + PlainAnswers(next, calls[1..])
  }

  // Eviction cannot be seen

  /** What one limiter keeps and the other has evicted is expired already. */
  ghost predicate Refines(kept: Counts, full: Counts, clock: int) {
    forall ip :: SameFor(kept, full, ip, clock)
  }

  predicate SameFor(kept: Counts, full: Counts, ip: string, clock: int) {
    && (ip in kept ==> ip in full && kept[ip] == full[ip])
    && (ip in full && ip !in kept ==> Expired(full[ip], clock))
  }

  lemma AllowRefines(kept: Counts, full: Counts, ip: string, clock: int, now: int)
    requires Refines(kept, full, clock) && clock <= now
    ensures Allow(kept, ip, now).1 == PlainAllow(full, ip, now).1
    ensures Refines(Allow(kept, ip, now).0, PlainAllow(full, ip, now).0, now)
  {
    var before := if |kept| > EVICT_ABOVE then Evicted(kept, now) else kept;
    forall k ensures SameFor(before, full, k, now) {
      assert SameFor(kept, full, k, clock);
    }
    assert SameFor(before, full, ip, now);
    assert Counted(before, ip, now) == Counted(full, ip, now);
    forall k ensures SameFor(Allow(kept, ip, now).0, PlainAllow(full, ip, now).0, k, now) {
      assert SameFor(before, full, k, now);
    }
  }

  lemma {:induction false} AnswersRefine(kept: Counts, full: Counts, clock: int, calls: seq<Call>)
    requires Refines(kept, full, clock) && InTime(calls, clock)
    ensures Answers(kept, calls) == PlainAnswers(full, calls)
    decreases |calls|
  {
    if calls != [] {
      var c := calls[0];
      AllowRefines(kept, full, c.ip, clock, c.now);
      AnswersRefine(Allow(kept, c.ip, c.now).0, PlainAllow(full, c.ip, c.now).0, c.now, calls[1..]);
    }
  }

  /** From empty tables the limiter answers every run of calls as one that never evicts. */
  lemma EvictionCannotBeSeen(calls: seq<Call>, clock: int)
    requires InTime(calls, clock)
    ensures Answers(map[], calls) == PlainAnswers(map[], calls)
  {
    AnswersRefine(map[], map[], clock, calls);
  }

  // How many calls get through

  /** Calls of an address admitted from lo to a minute later, both ends included. */
  function Admitted(calls: seq<Call>, answers: seq<bool>, ip: string, lo: int): nat
    requires |answers| == |calls|
    decreases |calls|
  {
    if calls == [] then 0
    else
      (if answers[0] && calls[0].ip == ip && lo <= calls[0].now <= lo + 60_000_000_000 then 1 else 0)
      + Admitted(calls[1..], answers[1..], ip, lo)
  }

  function Left(w: Window): int {
    if w.n < RATE_MAX then RATE_MAX - w.n else 0
  }

  /**
    What can still be admitted within that minute: a window that starts in it outlasts it, one that
    starts before it can be followed by one more.
   */
  function Allowance(counts: Counts, ip: string, lo: int, clock: int): int {
    if clock > lo + WINDOW then 0
    else if ip !in counts || counts[ip].start + WINDOW < lo then 2 * RATE_MAX
    else if counts[ip].start < lo then Left(counts[ip]) + RATE_MAX
    else Left(counts[ip])
  }

  lemma CallUsesAllowance(counts: Counts, c: Call, ip: string, lo: int, clock: int)
    requires clock <= c.now && (ip in counts ==> counts[ip].start <= clock && counts[ip].n >= 1)
    ensures var (next, ok) := PlainAllow(counts, c.ip, c.now);
      && (ip in next ==> next[ip].start <= c.now && next[ip].n >= 1)
      && (if ok && c.ip == ip && lo <= c.now <= lo + WINDOW then 1 else 0) + Allowance(next, ip, lo, c.now)
         <= Allowance(counts, ip, lo, clock)
  {
  }

  lemma {:induction false} AdmittedWithinAllowance(counts: Counts, calls: seq<Call>, ip: string, lo: int, clock: int)
    requires InTime(calls, clock) && (ip in counts ==> counts[ip].start <= clock && counts[ip].n >= 1)
    ensures Admitted(calls, PlainAnswers(counts, calls), ip, lo) <= Allowance(counts, ip, lo, clock)
    decreases |calls|
  {
    if calls != [] {
      var c := calls[0];
      CallUsesAllowance(counts, c, ip, lo, clock);
      var next := PlainAllow(counts, c.ip, c.now).0;
      AdmittedWithinAllowance(next, calls[1..], ip, lo, c.now);
      assert PlainAnswers(counts, calls)[1..] == PlainAnswers(next, calls[1..]);
    }
  }

  /** However the calls fall, no closed minute admits more than twenty of one address. */
  lemma AtMostTwentyAMinute(calls: seq<Call>, ip: string, lo: int, clock: int)
    requires InTime(calls, clock)
    ensures |Answers(map[], calls)| == |calls|
    ensures Admitted(calls, Answers(map[], calls), ip, lo) <= 20
  {
    EvictionCannotBeSeen(calls, clock);
    AdmittedWithinAllowance(map[], calls, ip, lo, clock);
  }

  lemma AnswersArePlain(counts: Counts, calls: seq<Call>, clock: int)
    requires InTime(calls, clock)
    ensures Answers(counts, calls) == PlainAnswers(counts, calls)
  {
    assert forall ip :: SameFor(counts, counts, ip, clock);
    AnswersRefine(counts, counts, clock, calls);
  }

  /** From any tables, a window admits ten: the call that opens it and nine more before it expires. */
  lemma AtMostTenAWindow(counts: Counts, c: Call, calls: seq<Call>)
    requires c.ip !in counts || Expired(counts[c.ip], c.now)
    requires InTime(calls, c.now)
    ensures |Answers(counts, [c] + calls)| == |calls| + 1 && Answers(counts, [c] + calls)[0]
    ensures Admitted([c] + calls, Answers(counts, [c] + calls), c.ip, c.now) <= 10
  {
    var next := PlainAllow(counts, c.ip, c.now).0;
    assert ([c] + calls)[1..] == calls;
    AnswersArePlain(counts, [c] + calls, c.now);
    AdmittedWithinAllowance(next, calls, c.ip, c.now, c.now);
    assert PlainAnswers(counts, [c] + calls)[1..] == PlainAnswers(next, calls);
  }

  lemma {:induction false} PlainFreshWindowAdmits(counts: Counts, ip: string, start: int, calls: seq<Call>)
    requires ip in counts && counts[ip].start == start && |calls| + counts[ip].n <= RATE_MAX
    requires forall c :: c in calls ==> c.ip == ip && start <= c.now <= start + WINDOW
    ensures forall ok :: ok in PlainAnswers(counts, calls) ==> ok
    decreases |calls|
  {
    if calls != [] {
      PlainFreshWindowAdmits(PlainAllow(counts, ip, calls[0].now).0, ip, start, calls[1..]);
    }
  }

  /** Ten rights of way in a fresh window are all used before one is refused. */
  lemma FreshWindowAdmits(counts: Counts, ip: string, start: int, calls: seq<Call>)
    requires ip in counts && counts[ip].start == start && |calls| + counts[ip].n <= 10 && InTime(calls, start)
    requires forall c :: c in calls ==> c.ip == ip && start <= c.now <= start + 60_000_000_000
    ensures forall ok :: ok in Answers(counts, calls) ==> ok
  {
    AnswersArePlain(counts, calls, start);
    PlainFreshWindowAdmits(counts, ip, start, calls);
  }

  /** A minute after a call opened it, but for an instant, a window is over, and the next call opens another that admits it. */
  lemma WindowsLastAMinute(counts: Counts, ip: string, now: int)
    requires ip in counts
    ensures now > counts[ip].start + 60_000_000_000 ==>
      && ip in Allow(counts, ip, now).0 && Allow(counts, ip, now).0[ip] == Window(now, 1)
      && Allow(counts, ip, now).1
    ensures now <= counts[ip].start + 60_000_000_000 ==>
      && ip in Allow(counts, ip, now).0 && Allow(counts, ip, now).0[ip] == Window(counts[ip].start, counts[ip].n + 1)
      && (Allow(counts, ip, now).1 <==> counts[ip].n < 10)
  {
  }

  /** A call drops another address's window exactly when there are more than 1024 and that one is over. */
  lemma OthersAreDroppedExactly(counts: Counts, ip: string, now: int, k: string)
    requires k in counts && k != ip
    ensures var next := Allow(counts, ip, now).0;
      && (k !in next <==> |counts| > 1024 && now - counts[k].start > 60_000_000_000)
      && (k in next ==> next[k] == counts[k])
  {
  }

  /** The table holds 1025 windows at most, or none that is over but the one just counted in. */
  lemma TablesStaySmall(counts: Counts, ip: string, now: int)
    ensures var next := Allow(counts, ip, now).0;
      |next| <= 1025 || forall k :: k in next ==> now - next[k].start <= 60_000_000_000
  {
    var before := if |counts| > EVICT_ABOVE then Evicted(counts, now) else counts;
    var next := Allow(counts, ip, now).0;
    assert next.Keys == before.Keys + {ip};
    if |counts| <= 1024 {
      assert |next| == |next.Keys| && |before| == |before.Keys|;
    }
  }
}
