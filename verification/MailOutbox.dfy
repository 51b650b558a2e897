/** The hub's mail outbox: its rows, its statements as functions of them, and the retry schedule. */
module MailOutbox {
  import opened Wrappers
  import opened Text
  import opened Clock
  import RowOrder

  type Id = string

  /** An error's text, which the source measures and cuts by bytes. */
  type Bytes = seq<bv8>

  const MAX_ATTEMPTS := 8
  const STALE_AFTER := 300
  const RETAIN_FOR := 30 * 24 * 3600
  const FIRST_BACKOFF := 15
  const BACKOFF_CAP := 3600
  const ERROR_LIMIT := 512

  datatype Status = Pending | Sending | Sent | Dead

  datatype Letter = Letter(kind: string, to: string, subject: string, text: string, html: string)

  datatype Mail = Mail(letter: Letter, status: Status, attempts: int, lastError: Bytes, providerId: string,
                       availableAt: int, claimedAt: int, createdAt: int, sentAt: int)

  type Rows = map<Id, Mail>

  datatype Error = EmptyKind | EmptyTo | EmptySubject | EmptyBody | NoRow

  datatype DrainError = NotSent(text: Bytes) | NotMarked(why: Error)

  // Retry schedule

  function Pow2(n: nat): nat {
    if n == 0 then 1 else 2 * Pow2(n - 1)
  }

  function Min(a: int, b: int): int {
    if a <= b then a else b
  }

  /** 15 s, doubled with each failure after the first, an hour at most. */
  function BackoffSeconds(failed: int): (d: int)
    ensures 15 <= d <= BACKOFF_CAP
  {
    var n := if failed >= 1 then failed else 1;
    assert Pow2(n - 1) >= 1 by { Pow2Positive(n - 1); }
    Min(FIRST_BACKOFF * Pow2(n - 1), BACKOFF_CAP)
  }

  lemma {:induction false} Pow2Positive(n: nat)
    ensures Pow2(n) >= 1
  {
    if n > 0 { Pow2Positive(n - 1); }
  }

  /** Doubling a value under the cap and capping again is the cap of the whole power. */
  method Backoff(failed: int) returns (d: int)
    ensures d == BackoffSeconds(failed)
  {
    var n := if failed >= 1 then failed else 1;
    d := FIRST_BACKOFF;
    var i := 0;
    while i < n - 1
      invariant 0 <= i <= n - 1
      invariant d == Min(FIRST_BACKOFF * Pow2(i), BACKOFF_CAP)
    {
      d := Min(d * 2, BACKOFF_CAP);
      i := i + 1;
    }
  }

  /** The wait never shrinks as failures mount, and reaches the cap at the ninth failure. */
  lemma {:induction false} BackoffGrows(a: int, b: int)
    requires 1 <= a <= b
    ensures BackoffSeconds(a) <= BackoffSeconds(b)
    ensures a >= 9 ==> BackoffSeconds(a) == BACKOFF_CAP
    decreases b
  {
    Pow2Grows(a - 1, b - 1);
    if a >= 9 {
      Pow2Grows(8, a - 1);
      assert Pow2(8) == 256 by { assert Pow2(4) == 16; }
    }
  }

  lemma {:induction false} Pow2Grows(a: nat, b: nat)
    requires a <= b
    ensures Pow2(a) <= Pow2(b)
  {
    if a < b {
      Pow2Grows(a, b - 1);
      Pow2Positive(b - 1);
    }
  }

  predicate IsDead(failed: int) {
    failed >= MAX_ATTEMPTS
  }

  // Statements

  function Trimmed(l: Letter): Letter {
    l.(kind := Trim(l.kind), to := Trim(l.to), subject := Trim(l.subject))
  }

  function LetterError(l: Letter): Option<Error> {
    var t := Trimmed(l);
    if t.kind == "" then Some(EmptyKind)
    else if t.to == "" then Some(EmptyTo)
    else if t.subject == "" then Some(EmptySubject)
    else if t.text == "" && t.html == "" then Some(EmptyBody)
    else None
  }

  function NewMail(l: Letter, now: int): Mail {
    Mail(Trimmed(l), Pending, 0, [], "", Unix(now), 0, Unix(now), 0)
  }

  /** Pending and due, or sending for so long that its drainer must have died. */
  predicate Due(m: Mail, now: int) {
    || (m.status.Pending? && m.availableAt <= Unix(now))
    || (m.status.Sending? && m.claimedAt > 0 && m.claimedAt <= Unix(now - STALE_AFTER * SECOND))
  }

  function DueRows(rows: Rows, now: int): set<Id> {
    set k | k in rows && Due(rows[k], now)
  }

  /** ORDER BY available_at ASC, id ASC LIMIT 1 */
  function NextDue(rows: Rows, now: int): (k: Option<Id>)
    ensures k.None? <==> forall j :: j in rows ==> !Due(rows[j], now)
    ensures k.Some? ==>
      && k.value in rows && Due(rows[k.value], now)
      && forall j :: j in rows && Due(rows[j], now) && j != k.value ==>
           rows[k.value].availableAt < rows[j].availableAt
           || (rows[k.value].availableAt == rows[j].availableAt && Less(k.value, j))
  {
    var due := DueRows(rows, now);
    if due == {} then
      assert forall j :: j in rows && Due(rows[j], now) ==> j in due;
      None
    else
      var key := map k | k in due :: rows[k].availableAt;
      var k := RowOrder.First(key, due);
      assert forall j :: j in rows && Due(rows[j], now) && j != k ==> j in due && RowOrder.Before(key, k, j);
      Some(k)
  }

  function ClaimedRow(m: Mail, now: int): Mail {
    m.(status := Sending, claimedAt := Unix(now))
  }

  function Claimed(rows: Rows, now: int): (Rows, Option<Id>) {
    match NextDue(rows, now)
    case None => (rows, None)
    case Some(k) => (rows[k := ClaimedRow(rows[k], now)], Some(k))
  }

  function SentMarked(rows: Rows, k: Id, providerId: string, now: int): Rows {
    if k !in rows then rows
    else rows[k := rows[k].(status := Sent, providerId := providerId, sentAt := Unix(now), lastError := [])]
  }

  function ErrorText(sendErr: Option<Bytes>): Bytes {
    var msg := if sendErr.Some? then sendErr.value else [];
    if |msg| > ERROR_LIMIT then msg[..ERROR_LIMIT] else msg
  }

  function FailedRow(m: Mail, attempts: int, msg: Bytes, now: int): Mail {
    if IsDead(attempts) then
      m.(status := Dead, attempts := attempts, lastError := msg, availableAt := Unix(now))
    else
      m.(status := Pending, attempts := attempts, lastError := msg,
         availableAt := Unix(now + BackoffSeconds(attempts) * SECOND), claimedAt := 0)
  }

  /** The UPDATE of MarkMailFailed, with the count its SELECT read before. */
  function FailedWritten(rows: Rows, k: Id, attempts: int, msg: Bytes, now: int): Rows {
    if k !in rows then rows else rows[k := FailedRow(rows[k], attempts, msg, now)]
  }

  predicate Expired(m: Mail, now: int) {
    m.createdAt <= Unix(now - RETAIN_FOR * SECOND)
  }

  function Purged(rows: Rows, now: int): Rows {
    map k | k in rows && !Expired(rows[k], now) :: rows[k]
  }

  // Other drainers and senders

  /** One committed statement: failures carry the count their SELECT read, whenever that was. */
  datatype Commit =
    | Enqueuing(id: Id, letter: Letter, now: int)
    | Claiming(now: int)
    | MarkingSent(id: Id, providerId: string, now: int)
    | MarkingFailed(id: Id, attempts: int, msg: Bytes, now: int)
    | Purging(now: int)

  function CommitOne(rows: Rows, c: Commit): Rows {
    match c
    case Enqueuing(id, letter, now) =>
      if id in rows || LetterError(letter).Some? then rows else rows[id := NewMail(letter, now)]
    case Claiming(now) => Claimed(rows, now).0
    case MarkingSent(id, providerId, now) => SentMarked(rows, id, providerId, now)
    case MarkingFailed(id, attempts, msg, now) => FailedWritten(rows, id, attempts, msg, now)
    case Purging(now) => Purged(rows, now)
  }

  function CommitAll(rows: Rows, cs: seq<Commit>): Rows
    decreases |cs|
  {
    if cs == [] then rows else CommitAll(CommitOne(rows, cs[0]), cs[1..])
  }

  ghost predicate Commits(before: Rows, after: Rows) {
    exists cs :: after == CommitAll(before, cs)
  }

  lemma CommittedBy(before: Rows, cs: seq<Commit>)
    ensures Commits(before, CommitAll(before, cs))
  {
  }

  class Outbox {
    var rows: Rows

    constructor ()
      ensures rows == map[]
    {
      rows := map[];
    }

    /** Any statements of anybody else. */
    method Others()
      modifies this
      ensures Commits(old(rows), rows)
    {
      var cs: seq<Commit> := *;
      ghost var before := rows;
      rows := CommitAll(rows, cs);
      CommittedBy(before, cs);
    }

    method EnqueueMail(letter: Letter, minted: Id, now: int) returns (r: Result<Mail, Error>)
      requires minted !in rows
      modifies this
      ensures LetterError(letter).Some? ==> r == Failure(LetterError(letter).value) && rows == old(rows)
      ensures LetterError(letter).None? ==>
                r == Success(NewMail(letter, now)) && rows == old(rows)[minted := NewMail(letter, now)]
    {
      var kind, to, subject := Trim(letter.kind), Trim(letter.to), Trim(letter.subject);
      if kind == "" {
        return Failure(EmptyKind);
      }
      if to == "" {
        return Failure(EmptyTo);
      }
      if subject == "" {
        return Failure(EmptySubject);
      }
      if letter.text == "" && letter.html == "" {
        return Failure(EmptyBody);
      }
      var m := Mail(Letter(kind, to, subject, letter.text, letter.html), Pending, 0, [], "", Unix(now), 0, Unix(now), 0);
      rows := rows[minted := m];
      r := Success(m);
    }

    method ClaimDueMail(now: int) returns (claimed: Option<Id>)
      modifies this
      ensures (rows, claimed) == Claimed(old(rows), now)
    {
      claimed := NextDue(rows, now);
      if claimed.Some? {
        var k := claimed.value;
        rows := rows[k := rows[k].(status := Sending, claimedAt := Unix(now))];
      }
    }

    method MarkMailSent(k: Id, providerId: string, now: int)
      modifies this
      ensures rows == SentMarked(old(rows), k, providerId, now)
    {
      if k in rows {
        rows := rows[k := rows[k].(status := Sent, providerId := providerId, sentAt := Unix(now), lastError := [])];
      }
    }

    /** The count is read first and written back later, whatever others commit in between. */
    method MarkMailFailed(k: Id, sendErr: Option<Bytes>, now: int) returns (e: Option<Error>, ghost mid: Rows)
      modifies this
      ensures Commits(old(rows), mid)
      ensures k !in old(rows) ==> e == Some(NoRow) && rows == mid == old(rows)
      ensures k in old(rows) ==>
                e == None && rows == FailedWritten(mid, k, old(rows)[k].attempts + 1, ErrorText(sendErr), now)
    {
      CommittedBy(rows, []);
      if k !in rows {
        return Some(NoRow), rows;
      }
      var attempts := rows[k].attempts + 1;
      Others();
      mid := rows;
      e := None;
      var msg := match sendErr case Some(text) => text case None => [];
      if |msg| > ERROR_LIMIT {
        msg := msg[..ERROR_LIMIT];
      }
      var wait := Backoff(attempts);
      if k in rows {
        if IsDead(attempts) {
          rows := rows[k := rows[k].(status := Dead, attempts := attempts, lastError := msg, availableAt := Unix(now))];
        } else {
          rows := rows[k := rows[k].(status := Pending, attempts := attempts, lastError := msg,
                                     availableAt := Unix(now + wait * SECOND), claimedAt := 0)];
        }
      }
    }

    /** The purge counts what it deletes. */
    method PurgeMailOutbox(now: int) returns (n: nat)
      modifies this
      ensures rows == Purged(old(rows), now)
      ensures forall k :: k in rows <==> k in old(rows) && old(rows)[k].createdAt > now / 1_000_000_000 - 2_592_000
      ensures forall k :: k in rows ==> rows[k] == old(rows)[k]
      ensures n == |old(rows)| - |rows|
    {
      var before := rows;
      rows := Purged(rows, now);
      UnixShift(now, -RETAIN_FOR);
      assert rows.Keys <= before.Keys;
      CardinalityOfSubset(rows.Keys, before.Keys);
      n := |before| - |rows|;
    }

    /**
      One pass of the drain: `answer` is what the sender returns, a provider id or an error. Others commit
      while the mail is sent, up to `marked`, and again between the two statements of a failed mark, up to `mid`.
     */
    method DrainOnce(hasSender: bool, answer: Result<string, Bytes>, now: int)
      returns (e: Option<DrainError>, ghost marked: Rows, ghost mid: Rows)
      modifies this
      ensures !hasSender || Claimed(old(rows), now).1.None? ==> rows == old(rows) && e.None?
      ensures hasSender && Claimed(old(rows), now).1.Some? ==>
                var k := Claimed(old(rows), now).1.value;
                && Commits(Claimed(old(rows), now).0, marked)
                && match answer
                   case Success(providerId) => e.None? && rows == SentMarked(marked, k, providerId, now)
                   case Failure(text) =>
                     if k !in marked then e == Some(NotMarked(NoRow)) && rows == marked
                     else
                       && e == Some(NotSent(text)) && Commits(marked, mid)
                       && rows == FailedWritten(mid, k, marked[k].attempts + 1, ErrorText(Some(text)), now)
    {
      marked, mid := rows, rows;
      if !hasSender {
        return None, rows, rows;
      }
      var m := ClaimDueMail(now);
      if m.None? {
        return None, rows, rows;
      }
      Others();
      marked := rows;
      if answer.Failure? {
        var err;
        err, mid := MarkMailFailed(m.value, Some(answer.error), now);
        return if err.Some? then Some(NotMarked(err.value)) else Some(NotSent(answer.error)), marked, mid;
      }
      MarkMailSent(m.value, answer.value, now);
      e := None;
    }
  }

  lemma {:induction false} CardinalityOfSubset<T>(a: set<T>, b: set<T>)
    requires a <= b
    ensures |a| <= |b|
  {
    assert b == a + (b - a);
  }
}
