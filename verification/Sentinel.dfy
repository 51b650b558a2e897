/** The completion marker a wrapper prints, and finding it again in captured output. */
module Sentinel {
  import opened Wrappers
  import opened Decimal

  const SIGNS := "<<<"
  const WORD := "initagent "
  const OPENING := SIGNS + WORD
  const MIDDLE := " exit="
  const CLOSING := ">>>"
  const MIN_NONCE := 16
  const MAX_NONCE := 64

  predicate IsHex(c: char) {
    '0' <= c <= '9' || 'a' <= c <= 'f'
  }

  predicate AllHex(s: string) {
    forall i :: 0 <= i < |s| ==> IsHex(s[i])
  }

  predicate ValidNonce(s: string) {
    MIN_NONCE <= |s| <= MAX_NONCE && AllHex(s)
  }

  method CheckNonce(s: string) returns (ok: bool)
    ensures ok == ValidNonce(s)
  {
    if |s| < MIN_NONCE || |s| > MAX_NONCE {
      return false;
    }
    for i := 0 to |s|
      invariant forall j :: 0 <= j < i ==> IsHex(s[j])
    {
      if !IsHex(s[i]) {
        return false;
      }
    }
    return true;
  }

  /** What a marker captures, and the text behind it. */
  datatype Found = Found(nonce: string, digits: string, rest: string)

  /** A marker spelled out in front of a text. */
  function Spelled(nonce: string, digits: string, rest: string): string {
    OPENING + (nonce + (MIDDLE + (digits + (CLOSING + rest))))
  }

  function Marker(nonce: string, exit: int): string {
    Spelled(nonce, Itoa(exit), "")
  }

  // The pattern

  function Strip(t: string, prefix: string): (r: Option<string>)
    ensures r.Some? ==> t == prefix + r.value
  {
    if prefix <= t then Some(t[|prefix|..]) else None
  }

  /** The longest run of hex digits in front of a text, and the rest. */
  function SpanHex(t: string): (r: (string, string))
    ensures t == r.0 + r.1 && AllHex(r.0)
  {
    if t != "" && IsHex(t[0]) then
      var r := SpanHex(t[1..]);
      ([t[0]] + r.0, r.1)
    else ("", t)
  }

  /** The longest run of decimal digits in front of a text, and the rest. */
  function SpanDigits(t: string): (r: (string, string))
    ensures t == r.0 + r.1 && AllDigits(r.0)
  {
    if t != "" && IsDigit(t[0]) then
      var r := SpanDigits(t[1..]);
      ([t[0]] + r.0, r.1)
    else ("", t)
  }

  /** -?\d+ */
  function TakeNumber(t: string): Option<(string, string)> {
    if t != "" && t[0] == '-' then
      var r := SpanDigits(t[1..]);
      if r.0 == "" then None else Some(("-" + r.0, r.1))
    else
      var r := SpanDigits(t);
      if r.0 == "" then None else Some(r)
  }

  /**
    The pattern `<<<initagent ([a-f0-9]{16,64}) exit=(-?\d+)>>>` in front of a text. What follows
    each run cannot belong to it, so the runs it captures are the longest ones.
   */
  function MarkerFront(t: string): (f: Option<Found>)
    ensures f.Some? ==> |f.value.rest| < |t|
  {
    match Strip(t, OPENING)
    case None => None
    case Some(u) =>
      var (nonce, v) := SpanHex(u);
      match Strip(v, MIDDLE)
      case None => None
      case Some(w) =>
        match TakeNumber(w)
        case None => None
        case Some(n) =>
          match Strip(n.1, CLOSING)
          case None => None
          case Some(rest) => if ValidNonce(nonce) then Some(Found(nonce, n.0, rest)) else None
  }

  /** FindAllStringSubmatch: leftmost matches that do not overlap, in order. */
  function FindAll(t: string): seq<Found>
    decreases |t|
  {
    if t == "" then []
    else match MarkerFront(t)
      case None => FindAll(t[1..])
      case Some(f) => [f] + FindAll(f.rest)
  }

  /** What a match counts for: the exit code of a marker of this nonce, if an int holds it. */
  function CodeOf(f: Found, nonce: string): Option<int> {
    if f.nonce == nonce then Atoi(f.digits) else None
  }

  /** The code of the last match that counts. */
  function LastCode(fs: seq<Found>, nonce: string): Option<int> {
    if fs == [] then None
    else if CodeOf(fs[|fs| - 1], nonce).Some? then CodeOf(fs[|fs| - 1], nonce)
    else LastCode(fs[..|fs| - 1], nonce)
  }

  function Match(output: string, nonce: string): Option<int> {
    if !ValidNonce(nonce) then None else LastCode(FindAll(output), nonce)
  }

  /** The walk back over the matches. */
  method MatchOutput(output: string, nonce: string) returns (code: int, ok: bool)
    ensures ok == Match(output, nonce).Some?
    ensures if ok then Match(output, nonce) == Some(code) else code == 0
  {
    var valid := CheckNonce(nonce);
    if !valid {
      return 0, false;
    }
    var matches := FindAll(output);
    var i := |matches|;
    assert matches[..i] == matches;
    while i > 0
      invariant 0 <= i <= |matches|
      invariant Match(output, nonce) == LastCode(matches[..i], nonce)
    {
      i := i - 1;
      assert matches[..i + 1][..i] == matches[..i];
      if matches[i].nonce == nonce {
        var n := Atoi(matches[i].digits);
        if n.Some? {
          return n.value, true;
        }
      }
    }
    return 0, false;
  }
}
