/**
  What each statement of the outbox does to its rows, in seconds and row by row, and how long a row lives.
 */
module MailMeaning {
  import opened Wrappers
  import opened Text
  import opened Clock
  import opened MailOutbox
  import opened MailDrainers

  function Second(now: int): int {
    now / 1_000_000_000
  }

  // Enqueue

  /** A letter is taken exactly when its fields say something; the first that does not is named. */
  lemma LetterMeans(l: Letter)
    ensures LetterError(l).None? <==>
      Trim(l.kind) != "" && Trim(l.to) != "" && Trim(l.subject) != "" && (l.text != "" || l.html != "")
    ensures LetterError(l).Some? ==>
      LetterError(l) == Some(if Trim(l.kind) == "" then EmptyKind
                             else if Trim(l.to) == "" then EmptyTo
                             else if Trim(l.subject) == "" then EmptySubject else EmptyBody)
  {
  }

  /** A new row is trimmed, waits without failures, and is due at once. */
  lemma NewMailMeans(l: Letter, now: int)
    ensures var m := NewMail(l, now);
      && m.letter.kind == Trim(l.kind) && m.letter.to == Trim(l.to) && m.letter.subject == Trim(l.subject)
      && m.letter.text == l.text && m.letter.html == l.html
      && m.status == Pending && m.attempts == 0 && m.lastError == [] && m.providerId == ""
      && m.availableAt == m.createdAt == Second(now) && m.claimedAt == m.sentAt == 0
      && NextDue(map["mail" := m], now) == Some("mail")
  {
    assert Due(map["mail" := NewMail(l, now)]["mail"], now);
  }

  // Claim

  /** A row may be taken: its time has come, or its claim is five minutes old. */
  predicate MayBeTaken(m: Mail, now: int) {
    || (m.status == Pending && m.availableAt <= Second(now))
    || (m.status == Sending && 0 < m.claimedAt && m.claimedAt + 300 <= Second(now))
  }

  /** A claim takes the row that has been available longest of those that may be taken, and writes two columns of it. */
  lemma ClaimMeans(rows: Rows, now: int)
    ensures var (rows', k) := Claimed(rows, now);
      && (k.None? <==> forall j :: j in rows ==> !MayBeTaken(rows[j], now))
      && (k.None? ==> rows' == rows)
      && (k.Some? ==>
            && k.value in rows && MayBeTaken(rows[k.value], now)
            && rows' == rows[k.value := rows[k.value].(status := Sending, claimedAt := Second(now))])
    ensures var k := Claimed(rows, now).1;
      k.Some? ==> forall j :: j in rows && MayBeTaken(rows[j], now) && j != k.value ==>
        rows[k.value].availableAt < rows[j].availableAt
        || (rows[k.value].availableAt == rows[j].availableAt && Less(k.value, j))
  {
    UnixShift(now, -300);
    forall j | j in rows ensures Due(rows[j], now) <==> MayBeTaken(rows[j], now) {
    }
  }

  // Marks

  lemma SentMeans(rows: Rows, k: Id, providerId: string, now: int)
    ensures k !in rows ==> SentMarked(rows, k, providerId, now) == rows
    ensures k in rows ==>
      var m := rows[k].(status := Sent, providerId := providerId, sentAt := Second(now), lastError := []);
      SentMarked(rows, k, providerId, now) == rows[k := m]
  {
  }

  /** The wait after the n-th failure, in seconds. */
  const WAITS := [15, 30, 60, 120, 240, 480, 960]

  lemma WaitsAre()
    ensures BackoffSeconds(1) == 15 && BackoffSeconds(2) == 30 && BackoffSeconds(3) == 60 && BackoffSeconds(4) == 120
    ensures BackoffSeconds(5) == 240 && BackoffSeconds(6) == 480 && BackoffSeconds(7) == 960
  {
    assert Pow2(0) == 1 && Pow2(1) == 2 && Pow2(2) == 4 && Pow2(3) == 8;
    assert Pow2(4) == 2 * Pow2(3) && Pow2(5) == 2 * Pow2(4) && Pow2(6) == 2 * Pow2(5);
  }

  /**
    The n-th failure puts a row back to wait its time, for n from 1 to 7; the eighth gives it up for good. Either
    way the error is kept, and only a row that waits again loses the instant of its claim.
   */
  lemma FailedMeans(rows: Rows, k: Id, n: int, msg: Bytes, now: int)
    requires k in rows && n >= 1
    ensures var m := FailedWritten(rows, k, n, msg, now);
      && m.Keys == rows.Keys && (forall j :: j in rows && j != k ==> m[j] == rows[j])
      && m[k].attempts == n && m[k].lastError == msg && m[k].letter == rows[k].letter && m[k].sentAt == rows[k].sentAt
      && m[k].createdAt == rows[k].createdAt && m[k].providerId == rows[k].providerId
      && (n <= 7 ==> m[k].status == Pending && m[k].claimedAt == 0 && m[k].availableAt == Second(now) + WAITS[n - 1])
      && (n >= 8 ==> m[k].status == Dead && m[k].claimedAt == rows[k].claimedAt && m[k].availableAt == Second(now))
  {
    WaitsAre();
    if n <= 7 {
      UnixShift(now, BackoffSeconds(n));
    }
  }

  /** The first 512 bytes of the error, or all of it. */
  lemma ErrorTextMeans(sendErr: Option<Bytes>)
    ensures var msg := ErrorText(sendErr);
      && (sendErr.None? ==> msg == [])
      && (sendErr.Some? ==> msg <= sendErr.value && (|sendErr.value| <= 512 ==> msg == sendErr.value)
                            && (|sendErr.value| > 512 ==> |msg| == 512))
  {
  }

  // How long a row lives

  /** A purge that takes this row: it is 30 days old by the table's seconds. */
  predicate Purges(step: Step, created: int) {
    step.event.Purge? && Second(step.now) - created >= 2_592_000
  }

  lemma StepKeepsRowExactly(s: System, step: Step, k: Id)
    requires k in s.rows && k in s.issued
    ensures k in Apply(s, step).issued
    ensures k in Apply(s, step).rows <==> !Purges(step, s.rows[k].createdAt)
    ensures k in Apply(s, step).rows ==>
      && Apply(s, step).rows[k].createdAt == s.rows[k].createdAt
      && Apply(s, step).rows[k].letter == s.rows[k].letter
  {
    UnixShift(step.now, -RETAIN_FOR);
  }

  lemma {:induction false} GoneForGood(s: System, steps: seq<Step>, k: Id)
    requires k !in s.rows && k in s.issued
    ensures k !in End(s, steps).rows
    decreases |steps|
  {
    if steps != [] {
      GoneForGood(Apply(s, steps[0]), steps[1..], k);
    }
  }

  /**
    Whatever any number of drainers do, a row keeps its letter and its birthday, and is gone at the end of a run
    exactly when the run purged the outbox at least 30 days, by the table's seconds, after it was enqueued.
   */
  lemma {:induction false} RowsLiveThirtyDaysExactly(s: System, steps: seq<Step>, k: Id)
    requires k in s.rows && k in s.issued
    ensures k in End(s, steps).rows <==> forall step | step in steps :: !Purges(step, s.rows[k].createdAt)
    ensures k in End(s, steps).rows ==>
      End(s, steps).rows[k].createdAt == s.rows[k].createdAt && End(s, steps).rows[k].letter == s.rows[k].letter
    decreases |steps|
  {
    if steps != [] {
      assert forall step :: step in steps <==> step == steps[0] || step in steps[1..];
      StepKeepsRowExactly(s, steps[0], k);
      if Purges(steps[0], s.rows[k].createdAt) {
        GoneForGood(Apply(s, steps[0]), steps[1..], k);
      } else {
        RowsLiveThirtyDaysExactly(Apply(s, steps[0]), steps[1..], k);
      }
    }
  }

  /** By the clock, no purge takes a row less than 30 days, but for a fraction of a second, after its enqueue. */
  lemma NoRowDiesYoung(l: Letter, at: int, step: Step)
    requires Purges(step, NewMail(l, at).createdAt)
    ensures step.now > at + (30 * 24 * 3600 - 1) * 1_000_000_000
  {
    TimeBetween(at, step.now, 2_592_000);
  }
}
