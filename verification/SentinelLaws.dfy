/** What Match answers, that it inverts Marker, and that no wrapper's own text ever matches. */
module SentinelLaws {
  import opened Wrappers
  import opened Decimal
  import opened Quoting
  import opened Sentinel

  // The pattern in front of a text

  predicate IsNumber(d: string) {
    var digits := if d != "" && d[0] == '-' then d[1..] else d;
    digits != "" && AllDigits(digits)
  }

  lemma {:induction false} SpanHexOf(run: string, rest: string)
    requires AllHex(run) && (rest == "" || !IsHex(rest[0]))
    ensures SpanHex(run + rest) == (run, rest)
    decreases |run|
  {
    if run == "" {
      assert run + rest == rest;
    } else {
      assert run == [run[0]] + run[1..];
      assert (run + rest)[1..] == run[1..] + rest;
      SpanHexOf(run[1..], rest);
    }
  }

  lemma {:induction false} SpanDigitsOf(run: string, rest: string)
    requires AllDigits(run) && (rest == "" || !IsDigit(rest[0]))
    ensures SpanDigits(run + rest) == (run, rest)
    decreases |run|
  {
    if run == "" {
      assert run + rest == rest;
    } else {
      assert run == [run[0]] + run[1..];
      assert (run + rest)[1..] == run[1..] + rest;
      SpanDigitsOf(run[1..], rest);
    }
  }

  lemma TakeNumberOf(d: string, rest: string)
    requires IsNumber(d) && (rest == "" || !IsDigit(rest[0]))
    ensures TakeNumber(d + rest) == Some((d, rest))
  {
    assert (d + rest)[0] == d[0];
    if d[0] == '-' {
      assert d == "-" + d[1..] && (d + rest)[1..] == d[1..] + rest;
      SpanDigitsOf(d[1..], rest);
    } else {
      SpanDigitsOf(d, rest);
    }
  }

  lemma TakenIsNumber(t: string)
    requires TakeNumber(t).Some?
    ensures IsNumber(TakeNumber(t).value.0) && t == TakeNumber(t).value.0 + TakeNumber(t).value.1
  {
    if t[0] == '-' {
      var digits := SpanDigits(t[1..]).0;
      assert ("-" + digits)[1..] == digits;
      assert t == "-" + t[1..];
    } else {
      var digits := SpanDigits(t).0;
      assert IsDigit(digits[0]);
    }
  }

  lemma StripOf(prefix: string, rest: string)
    ensures Strip(prefix + rest, prefix) == Some(rest)
  {
  }

  /** Every spelled marker is found, with what it was spelled from. */
  lemma FrontOfSpelled(nonce: string, digits: string, rest: string)
    requires ValidNonce(nonce) && IsNumber(digits)
    ensures MarkerFront(Spelled(nonce, digits, rest)) == Some(Found(nonce, digits, rest))
  {
    var e := CLOSING + rest;
    var d := digits + e;
    var c := MIDDLE + d;
    StripOf(OPENING, nonce + c);
    SpanHexOf(nonce, c);
    StripOf(MIDDLE, d);
    TakeNumberOf(digits, e);
    StripOf(CLOSING, rest);
  }

  /** And nothing else is. */
  lemma FrontIsSpelled(t: string)
    requires MarkerFront(t).Some?
    ensures var f := MarkerFront(t).value;
      ValidNonce(f.nonce) && IsNumber(f.digits) && t == Spelled(f.nonce, f.digits, f.rest)
  {
    var u := Strip(t, OPENING).value;
    var v := SpanHex(u).1;
    var w := Strip(v, MIDDLE).value;
    TakenIsNumber(w);
  }

  // The last marker of a text

  /** What a text reports at its very front. */
  function CodeFront(t: string, nonce: string): Option<int> {
    match MarkerFront(t)
    case None => None
    case Some(f) => CodeOf(f, nonce)
  }

  function OrElse(first: Option<int>, second: Option<int>): Option<int> {
    if first.Some? then first else second
  }

  /** Reference: of all the places in a text where a marker of this nonce stands, the last. */
  function LastMarker(t: string, nonce: string): Option<int> {
    if t == "" then None else OrElse(LastMarker(t[1..], nonce), CodeFront(t, nonce))
  }

  predicate NoOpening(p: string) {
    forall i :: 0 <= i < |p| ==> p[i] != '<'
  }

  lemma FrontNeedsOpening(t: string)
    requires MarkerFront(t).Some?
    ensures |t| > 3 && t[0] == '<' && t[1] == '<' && t[2] == '<' && t[3] == 'i'
  {
    assert OPENING <= t && |OPENING| == |SIGNS| + |WORD|;
    assert t[0] == OPENING[0] == SIGNS[0] && t[1] == OPENING[1] == SIGNS[1] && t[2] == OPENING[2] == SIGNS[2];
    assert t[3] == OPENING[3] == WORD[0];
  }

  /** A text whose first three characters are not all opening signs starts no marker. */
  lemma NoFront(t: string, k: nat)
    requires k < 3 && k < |t| && t[k] != '<'
    ensures MarkerFront(t).None?
  {
    if MarkerFront(t).Some? { FrontNeedsOpening(t); }
  }

  lemma {:induction false} LastAfter(p: string, t: string, nonce: string)
    requires NoOpening(p)
    ensures LastMarker(p + t, nonce) == LastMarker(t, nonce)
    decreases |p|
  {
    if p == "" {
      assert p + t == t;
    } else {
      assert (p + t)[0] == p[0] && (p + t)[1..] == p[1..] + t;
      if MarkerFront(p + t).Some? { FrontNeedsOpening(p + t); }
      LastAfter(p[1..], t, nonce);
    }
  }

  /** The text of a marker behind its opening signs. */
  function Inner(nonce: string, digits: string): string {
    WORD + (nonce + (MIDDLE + (digits + CLOSING)))
  }

  lemma NumberHasNoOpening(digits: string)
    requires IsNumber(digits)
    ensures NoOpening(digits)
  {
    var tail := if digits[0] == '-' then digits[1..] else digits;
    assert digits[0] == '-' ==> digits == "-" + tail;
  }

  lemma InnerHasNoOpening(nonce: string, digits: string)
    requires ValidNonce(nonce) && IsNumber(digits)
    ensures NoOpening(Inner(nonce, digits))
  {
    NumberHasNoOpening(digits);
    NoOpeningJoins(digits, CLOSING);
    NoOpeningJoins(MIDDLE, digits + CLOSING);
    NoOpeningJoins(nonce, MIDDLE + (digits + CLOSING));
    NoOpeningJoins(WORD, nonce + (MIDDLE + (digits + CLOSING)));
  }

  lemma NoOpeningJoins(a: string, b: string)
    requires NoOpening(a) && NoOpening(b)
    ensures NoOpening(a + b)
  {
  }

  lemma SpelledInside(nonce: string, digits: string, rest: string)
    ensures Spelled(nonce, digits, rest) == SIGNS + (Inner(nonce, digits) + rest)
  {
  }

  /** Three opening signs and no more: only the first of them can start a marker. */
  lemma LastAfterSigns(x: string, nonce: string)
    requires x != "" && x[0] != '<'
    ensures LastMarker(SIGNS + x, nonce) == OrElse(LastMarker(x, nonce), CodeFront(SIGNS + x, nonce))
  {
    var a, b := "<" + x, "<<" + x;
    assert (SIGNS + x)[1..] == b && b[1..] == a && a[1..] == x;
    NoFront(a, 1);
    NoFront(b, 2);
    assert LastMarker(a, nonce) == LastMarker(x, nonce);
    assert LastMarker(b, nonce) == LastMarker(a, nonce);
  }

  /** No marker starts inside another. */
  lemma LastOfSpelled(n: string, digits: string, rest: string, nonce: string)
    requires ValidNonce(n) && IsNumber(digits)
    ensures LastMarker(Spelled(n, digits, rest), nonce)
         == OrElse(LastMarker(rest, nonce), CodeOf(Found(n, digits, rest), nonce))
  {
    var x := Inner(n, digits) + rest;
    assert x[0] == WORD[0];
    SpelledInside(n, digits, rest);
    LastAfterSigns(x, nonce);
    InnerHasNoOpening(n, digits);
    LastAfter(Inner(n, digits), rest, nonce);
    FrontOfSpelled(n, digits, rest);
  }

  lemma {:induction false} LastCodePrepend(f: Found, fs: seq<Found>, nonce: string)
    ensures LastCode([f] + fs, nonce) == OrElse(LastCode(fs, nonce), CodeOf(f, nonce))
    decreases |fs|
  {
    if fs == [] {
      assert [f] + fs == [f] && [f][..0] == [];
    } else {
      assert ([f] + fs)[..|fs|] == [f] + fs[..|fs| - 1];
      LastCodePrepend(f, fs[..|fs| - 1], nonce);
    }
  }

  /** Walking back over leftmost, non-overlapping matches finds the last marker of the whole text. */
  lemma {:induction false} FoundIsLast(t: string, nonce: string)
    ensures LastCode(FindAll(t), nonce) == LastMarker(t, nonce)
    decreases |t|
  {
    if t != "" {
      match MarkerFront(t)
      case None => FoundIsLast(t[1..], nonce);
      case Some(f) =>
        FrontIsSpelled(t);
        LastOfSpelled(f.nonce, f.digits, f.rest, nonce);
        LastCodePrepend(f, FindAll(f.rest), nonce);
        FoundIsLast(f.rest, nonce);
    }
  }

  lemma MatchIsLastMarker(output: string, nonce: string)
    requires ValidNonce(nonce)
    ensures Match(output, nonce) == LastMarker(output, nonce)
  {
    FoundIsLast(output, nonce);
  }

  /** What LastMarker answers, place by place: a marker stands there and no later place reports. */
  lemma {:induction false} LastMarkerPlace(t: string, nonce: string, i: nat)
    requires i < |t| && CodeFront(t[i..], nonce).Some? && LastMarker(t[i + 1..], nonce).None?
    ensures LastMarker(t, nonce) == CodeFront(t[i..], nonce)
    decreases i
  {
    if i == 0 {
      assert t[0..] == t;
    } else {
      assert t[1..][i - 1..] == t[i..] && t[1..][i..] == t[i + 1..];
      LastMarkerPlace(t[1..], nonce, i - 1);
    }
  }

  /** Nothing is answered exactly when no place reports. */
  lemma {:induction false} LastMarkerNone(t: string, nonce: string)
    ensures LastMarker(t, nonce).None? <==> forall i: nat :: i < |t| ==> CodeFront(t[i..], nonce).None?
    decreases |t|
  {
    if t != "" {
      LastMarkerNone(t[1..], nonce);
      assert t[0..] == t;
      if LastMarker(t, nonce).None? {
        forall i: nat | i < |t| ensures CodeFront(t[i..], nonce).None? {
          if i > 0 { assert t[1..][i - 1..] == t[i..]; }
        }
      } else if i: nat :| i < |t| - 1 && CodeFront(t[1..][i..], nonce).Some? {
        assert t[1..][i..] == t[i + 1..];
      }
    }
  }

  // Printing and matching

  lemma {:induction false} LastBehind(a: string, t: string, nonce: string)
    requires LastMarker(t, nonce).Some?
    ensures LastMarker(a + t, nonce) == LastMarker(t, nonce)
    decreases |a|
  {
    if a == "" {
      assert a + t == t;
    } else {
      assert (a + t)[1..] == a[1..] + t;
      LastBehind(a[1..], t, nonce);
    }
  }

  lemma PrintedIsNumber(exit: int)
    ensures IsNumber(Itoa(exit))
  {
    var digits := DigitsOf(if exit < 0 then -exit else exit);
    assert IsDigit(digits[0]);
    assert exit < 0 ==> Itoa(exit)[1..] == digits;
  }

  lemma SpelledTail(nonce: string, digits: string, rest: string)
    ensures Spelled(nonce, digits, "") + rest == Spelled(nonce, digits, rest)
  {
    SpelledExtends(nonce, digits, "", rest);
    assert "" + rest == rest;
  }

  /** Whatever stands in front of a marker, and behind it unless it reports again, Match reads the exit code back. */
  lemma MatchInvertsMarker(a: string, nonce: string, exit: int, b: string)
    requires ValidNonce(nonce) && InInt64(exit) && Match(b, nonce).None?
    ensures Match(a + (Marker(nonce, exit) + b), nonce) == Some(exit)
  {
    MatchIsLastMarker(b, nonce);
    MatchIsLastMarker(a + (Marker(nonce, exit) + b), nonce);
    PrintedIsNumber(exit);
    SpelledTail(nonce, Itoa(exit), b);
    LastOfSpelled(nonce, Itoa(exit), b, nonce);
    AtoiInvertsItoa(exit);
    LastBehind(a, Marker(nonce, exit) + b, nonce);
  }

  // The wrappers

  /** The characters a marker is made of. */
  predicate InMarker(c: char) {
    '0' <= c <= '9' || 'a' <= c <= 'z' || '<' <= c <= '>' || c == ' ' || c == '-'
  }

  predicate AllInMarker(s: string) {
    forall i :: 0 <= i < |s| ==> InMarker(s[i])
  }

  /** A text that no marker can reach into from the left. */
  predicate Fenced(t: string) {
    t == "" || !InMarker(t[0])
  }

  /** No marker of a nonce reports anywhere in a text. */
  predicate Free(t: string, seek: string) {
    LastMarker(t, seek).None?
  }

  lemma MarkerAlphabet(nonce: string, digits: string)
    requires ValidNonce(nonce) && IsNumber(digits)
    ensures AllInMarker(SIGNS + Inner(nonce, digits))
  {
    var tail := if digits[0] == '-' then digits[1..] else digits;
    assert digits[0] == '-' ==> digits == "-" + tail;
    assert AllInMarker(digits);
    assert AllInMarker(WORD) && AllInMarker(MIDDLE) && AllInMarker(CLOSING);
    AllInMarkerJoins(digits, CLOSING);
    AllInMarkerJoins(MIDDLE, digits + CLOSING);
    AllInMarkerJoins(nonce, MIDDLE + (digits + CLOSING));
    AllInMarkerJoins(WORD, nonce + (MIDDLE + (digits + CLOSING)));
    AllInMarkerJoins(SIGNS, Inner(nonce, digits));
  }

  lemma AllInMarkerJoins(a: string, b: string)
    requires AllInMarker(a) && AllInMarker(b)
    ensures AllInMarker(a + b)
  {
  }

  lemma SpelledThen(a: string, t: string)
    requires MarkerFront(a).Some?
    ensures MarkerFront(a + t) == Some(MarkerFront(a).value.(rest := MarkerFront(a).value.rest + t))
  {
    FrontIsSpelled(a);
    var f := MarkerFront(a).value;
    SpelledExtends(f.nonce, f.digits, f.rest, t);
    FrontOfSpelled(f.nonce, f.digits, f.rest + t);
  }

  lemma SpelledExtends(nonce: string, digits: string, rest: string, t: string)
    ensures Spelled(nonce, digits, rest) + t == Spelled(nonce, digits, rest + t)
  {
    var m := SIGNS + Inner(nonce, digits);
    SpelledSplits(nonce, digits, rest);
    SpelledSplits(nonce, digits, rest + t);
    assert (m + rest) + t == m + (rest + t);
  }

  lemma SpelledSplits(nonce: string, digits: string, rest: string)
    ensures Spelled(nonce, digits, rest) == (SIGNS + Inner(nonce, digits)) + rest
  {
    SpelledInside(nonce, digits, rest);
  }

  /** A stretch that runs past the fence holds a character no marker has. */
  lemma PastTheFence(a: string, t: string, m: string, rest: string)
    requires a + t == m + rest && |a| < |m|
    ensures t != "" && m[|a|] == t[0]
  {
    assert |a + t| == |a| + |t|;
    assert (a + t)[|a|] == t[0] && (m + rest)[|a|] == m[|a|];
  }

  /** A marker in front of a fenced text ends before the fence. */
  lemma SpelledBefore(a: string, t: string, m: string, rest: string)
    requires a + t == m + rest && AllInMarker(m) && Fenced(t)
    ensures |m| <= |a| && a == m + a[|m|..]
  {
    if |m| > |a| { PastTheFence(a, t, m, rest); }
    assert (a + t)[..|m|] == a[..|m|] && (m + rest)[..|m|] == m;
  }

  /** Fenced off, what follows a text neither completes a marker in it nor breaks one. */
  lemma FrontBeforeFence(a: string, t: string)
    requires a != "" && Fenced(t)
    ensures MarkerFront(a + t) ==
            if MarkerFront(a).None? then None
            else Some(MarkerFront(a).value.(rest := MarkerFront(a).value.rest + t))
  {
    if MarkerFront(a).Some? {
      SpelledThen(a, t);
    } else if MarkerFront(a + t).Some? {
      FrontIsSpelled(a + t);
      var f := MarkerFront(a + t).value;
      var m := SIGNS + Inner(f.nonce, f.digits);
      SpelledSplits(f.nonce, f.digits, f.rest);
      MarkerAlphabet(f.nonce, f.digits);
      SpelledBefore(a, t, m, f.rest);
      SpelledSplits(f.nonce, f.digits, a[|m|..]);
      FrontOfSpelled(f.nonce, f.digits, a[|m|..]);
    }
  }

  /** In front of a fence, a text answers for what the rest leaves open. */
  lemma {:induction false} LastJoins(a: string, t: string, seek: string)
    requires Fenced(t)
    ensures LastMarker(a + t, seek) == OrElse(LastMarker(t, seek), LastMarker(a, seek))
    decreases |a|
  {
    if a == "" {
      assert a + t == t;
    } else {
      assert (a + t)[1..] == a[1..] + t;
      FrontBeforeFence(a, t);
      LastJoins(a[1..], t, seek);
    }
  }

  lemma FreeJoins(a: string, t: string, seek: string)
    requires Fenced(t)
    ensures Free(a + t, seek) <==> Free(a, seek) && Free(t, seek)
  {
    LastJoins(a, t, seek);
  }

  lemma FreeAfter(p: string, t: string, seek: string)
    requires NoOpening(p)
    ensures Free(p + t, seek) <==> Free(t, seek)
  {
    LastAfter(p, t, seek);
  }

  lemma FreePlain(p: string, seek: string)
    requires NoOpening(p)
    ensures Free(p, seek)
  {
    FreeAfter(p, "", seek);
    assert p + "" == p;
  }

  /** A character that starts neither a number nor anything else a marker holds. */
  predicate StartsOutside(after: string) {
    after != "" && after[0] != '-' && !IsDigit(after[0])
  }

  lemma UnfilledFront(nonce: string, after: string)
    requires ValidNonce(nonce) && StartsOutside(after)
    ensures MarkerFront(OPENING + (nonce + (MIDDLE + after))).None?
  {
    var c := MIDDLE + after;
    StripOf(OPENING, nonce + c);
    SpanHexOf(nonce, c);
    StripOf(MIDDLE, after);
    assert TakeNumber(after).None?;
  }

  lemma PartsHaveNoOpening(nonce: string)
    requires AllHex(nonce)
    ensures NoOpening(WORD) && NoOpening(MIDDLE) && NoOpening(nonce) && WORD != "" && WORD[0] != '<'
  {
  }

  lemma FreeWord(nonce: string, after: string, seek: string)
    requires AllHex(nonce)
    ensures Free(WORD + (nonce + (MIDDLE + after)), seek) <==> Free(after, seek)
    ensures (WORD + (nonce + (MIDDLE + after)))[0] != '<'
  {
    PartsHaveNoOpening(nonce);
    FreeAfter(MIDDLE, after, seek);
    FreeAfter(nonce, MIDDLE + after, seek);
    FreeAfter(WORD, nonce + (MIDDLE + after), seek);
  }

  /** The marker as a wrapper spells it, with no number where the exit code goes. */
  lemma FreeUnfilled(nonce: string, after: string, seek: string)
    requires ValidNonce(nonce) && StartsOutside(after)
    ensures Free(OPENING + (nonce + (MIDDLE + after)), seek) <==> Free(after, seek)
  {
    var x := nonce + (MIDDLE + after);
    UnfilledFront(nonce, after);
    FreeWord(nonce, after, seek);
    assert OPENING + x == SIGNS + (WORD + x);
    FreeAfterSigns(WORD + x, seek);
  }

  lemma FreeAfterSigns(x: string, seek: string)
    requires x != "" && x[0] != '<' && MarkerFront(SIGNS + x).None?
    ensures Free(SIGNS + x, seek) <==> Free(x, seek)
  {
    LastAfterSigns(x, seek);
  }

  lemma {:induction false} FirstQuote(s: string) returns (p: string, r: string)
    requires '\'' in s
    ensures s == p + ("'" + r) && '\'' !in p
    decreases |s|
  {
    if s[0] == '\'' {
      p, r := "", s[1..];
    } else {
      p, r := FirstQuote(s[1..]);
      p := [s[0]] + p;
      assert s == [s[0]] + s[1..];
    }
  }

  lemma {:induction false} ReplaceNothing(p: string, with: string, r: string)
    requires '\'' !in p
    ensures ReplaceAll(p + r, '\'', with) == p + ReplaceAll(r, '\'', with)
    decreases |p|
  {
    if p == "" {
      assert p + r == r;
    } else {
      assert (p + r)[0] == p[0] && (p + r)[1..] == p[1..] + r;
      assert p[0] in p && forall c :: c in p[1..] ==> c in p;
      ReplaceNothing(p[1..], with, r);
    }
  }

  /** A stretch of characters no marker contains. */
  predicate Barrier(w: string) {
    w != "" && !InMarker(w[0]) && NoOpening(w)
  }

  lemma ReplaceSplits(p: string, r: string, with: string)
    requires '\'' !in p
    ensures ReplaceAll(p + ("'" + r), '\'', with) == p + (with + ReplaceAll(r, '\'', with))
  {
    ReplaceNothing(p, with, "'" + r);
    assert ("'" + r)[1..] == r;
  }

  /** Across a stretch that no marker reaches through, either side answers for itself. */
  lemma FreeAcross(p: string, wall: string, tail: string, seek: string)
    requires Barrier(wall)
    ensures Free(p + (wall + tail), seek) <==> Free(p, seek) && Free(tail, seek)
  {
    assert (wall + tail)[0] == wall[0];
    FreeJoins(p, wall + tail, seek);
    FreeAfter(wall, tail, seek);
  }

  lemma ReplaceNone(s: string, with: string)
    requires '\'' !in s
    ensures ReplaceAll(s, '\'', with) == s
  {
    ReplaceNothing(s, with, "");
    assert s + "" == s;
  }

  lemma ReplacedThen(p: string, r: string, with: string, t: string)
    requires '\'' !in p
    ensures ReplaceAll(p + ("'" + r), '\'', with) + t == p + (with + (ReplaceAll(r, '\'', with) + t))
  {
    ReplaceSplits(p, r, with);
  }

  /** A text with its quotes replaced, in front of a fence, reports what it reports itself. */
  lemma {:induction false} FreeReplaced(s: string, with: string, t: string, seek: string)
    requires Fenced(t) && Barrier(with)
    ensures Free(ReplaceAll(s, '\'', with) + t, seek) <==> Free(s, seek) && Free(t, seek)
    decreases |s|
  {
    if '\'' in s {
      var p, r := FirstQuote(s);
      FreeReplaced(r, with, t, seek);
      FreeAcross(p, "'", r, seek);
      FreeAcross(p, with, ReplaceAll(r, '\'', with) + t, seek);
      ReplacedThen(p, r, with, t);
    } else {
      ReplaceNone(s, with);
      FreeJoins(s, t, seek);
    }
  }

  lemma InQuotes(body: string, tail: string)
    ensures "'" + (body + ("'" + tail)) == "'" + body + "'" + tail
    ensures Fenced("'" + body + "'" + tail) && Fenced("'" + tail)
  {
  }

  /** A quoted path and what follows it. */
  lemma FreeQuoted(path: string, with: string, tail: string, seek: string)
    requires Barrier(with)
    ensures Free("'" + ReplaceAll(path, '\'', with) + "'" + tail, seek) <==> Free(path, seek) && Free(tail, seek)
    ensures Fenced("'" + ReplaceAll(path, '\'', with) + "'" + tail)
  {
    var body := ReplaceAll(path, '\'', with);
    InQuotes(body, tail);
    FreeAfter("'", tail, seek);
    FreeReplaced(path, with, "'" + tail, seek);
    FreeAfter("'", body + ("'" + tail), seek);
  }

  /** `done` holds the directory and the path of the done file, with forward slashes. */
  function WrapUnixDone(command: string, nonce: string, done: Option<(string, string)>): string {
    match done
    case None => "{ " + (command + Printing("; printf '\\n", nonce, "%d>>>\\n' $?; }"))
    case Some(p) =>
      "{ " + (command + Printing("; _ia_code=$?; printf '\\n", nonce,
        "%d>>>\\n' \"$_ia_code\"; mkdir -p " + (ShellSingleQuote(p.0)
        + (" && printf '%d\\n' \"$_ia_code\" > " + (ShellSingleQuote(p.1) + "; }")))))
  }

  function WrapPowerShellDone(command: string, nonce: string, done: Option<(string, string)>): string {
    match done
    case None => command + Printing("; Write-Output (\"`n", nonce, "$LASTEXITCODE>>>\")")
    case Some(p) =>
      command + Printing("; Write-Output (\"`n", nonce,
        "$LASTEXITCODE>>>\"); New-Item " + ("-ItemType Directory -Force -Path " + (PowershellSingleQuote(p.0)
        + (" | Out-Null; Set-Content -LiteralPath " + (PowershellSingleQuote(p.1) + " -Value $LASTEXITCODE")))))
  }

  /** The printing command of a wrapper: what leads up to the marker, and what stands for its exit code. */
  function Printing(lead: string, nonce: string, after: string): string {
    lead + (OPENING + (nonce + (MIDDLE + after)))
  }

  predicate FreePaths(done: Option<(string, string)>, seek: string) {
    done.Some? ==> Free(done.value.0, seek) && Free(done.value.1, seek)
  }

  lemma FreePrinting(command: string, lead: string, nonce: string, after: string, seek: string)
    requires ValidNonce(nonce) && StartsOutside(after)
    requires NoOpening(lead) && lead != "" && !InMarker(lead[0])
    ensures Free(command + Printing(lead, nonce, after), seek) <==> Free(command, seek) && Free(after, seek)
  {
    FreeUnfilled(nonce, after, seek);
    FreeAfter(lead, OPENING + (nonce + (MIDDLE + after)), seek);
    FreeJoins(command, Printing(lead, nonce, after), seek);
  }

  /** Two quoted paths between three stretches of plain text. */
  lemma FreeTwoPaths(a: string, dir: string, b: string, path: string, c: string, with: string, seek: string)
    requires Barrier(with) && NoOpening(a) && NoOpening(b) && NoOpening(c)
    ensures Free(dir, seek) && Free(path, seek) <==>
            Free(a + (("'" + ReplaceAll(dir, '\'', with) + "'")
                 + (b + (("'" + ReplaceAll(path, '\'', with) + "'") + c))), seek)
  {
    FreePlain(c, seek);
    FreeQuoted(path, with, c, seek);
    var last := ("'" + ReplaceAll(path, '\'', with) + "'") + c;
    FreeAfter(b, last, seek);
    FreeQuoted(dir, with, b + last, seek);
    FreeAfter(a, ("'" + ReplaceAll(dir, '\'', with) + "'") + (b + last), seek);
  }

  lemma PlainUnix()
    ensures NoOpening("{ ") && NoOpening("; printf '\\n") && NoOpening("%d>>>\\n' $?; }")
    ensures NoOpening("; _ia_code=$?; printf '\\n") && NoOpening("; }")
  {
  }

  lemma PlainUnixDone()
    ensures NoOpening("%d>>>\\n' \"$_ia_code\"; mkdir -p ") && NoOpening(" && printf '%d\\n' \"$_ia_code\" > ")
  {
  }

  lemma PlainPowerShell()
    ensures NoOpening("; Write-Output (\"`n") && NoOpening("$LASTEXITCODE>>>\")")
    ensures NoOpening(" -Value $LASTEXITCODE")
  {
  }

  lemma PlainPowerShellDone()
    ensures NoOpening("$LASTEXITCODE>>>\"); New-Item ") && NoOpening("-ItemType Directory -Force -Path ")
    ensures NoOpening(" | Out-Null; Set-Content -LiteralPath ")
  {
  }

  lemma UnixWrapperIsFree(command: string, nonce: string, done: Option<(string, string)>, seek: string)
    requires ValidNonce(nonce)
    ensures Free(WrapUnixDone(command, nonce, done), seek) <==> Free(command, seek) && FreePaths(done, seek)
  {
    PlainUnix();
    match done
    case None =>
      FreePlain("%d>>>\\n' $?; }", seek);
      FreePrinting(command, "; printf '\\n", nonce, "%d>>>\\n' $?; }", seek);
      FreeAfter("{ ", command + Printing("; printf '\\n", nonce, "%d>>>\\n' $?; }"), seek);
    case Some(p) =>
      PlainUnixDone();
      FreeTwoPaths("%d>>>\\n' \"$_ia_code\"; mkdir -p ", p.0, " && printf '%d\\n' \"$_ia_code\" > ", p.1, "; }", "'\\''", seek);
      var after := "%d>>>\\n' \"$_ia_code\"; mkdir -p " + (ShellSingleQuote(p.0)
        + (" && printf '%d\\n' \"$_ia_code\" > " + (ShellSingleQuote(p.1) + "; }")));
      FreePrinting(command, "; _ia_code=$?; printf '\\n", nonce, after, seek);
      FreeAfter("{ ", command + Printing("; _ia_code=$?; printf '\\n", nonce, after), seek);
  }

  lemma PowerShellWrapperIsFree(command: string, nonce: string, done: Option<(string, string)>, seek: string)
    requires ValidNonce(nonce)
    ensures Free(WrapPowerShellDone(command, nonce, done), seek) <==> Free(command, seek) && FreePaths(done, seek)
  {
    PlainPowerShell();
    match done
    case None =>
      FreePlain("$LASTEXITCODE>>>\")", seek);
      FreePrinting(command, "; Write-Output (\"`n", nonce, "$LASTEXITCODE>>>\")", seek);
    case Some(p) =>
      PlainPowerShellDone();
      FreeTwoPaths("-ItemType Directory -Force -Path ", p.0,
        " | Out-Null; Set-Content -LiteralPath ", p.1, " -Value $LASTEXITCODE", "''", seek);
      var tail := "-ItemType Directory -Force -Path " + (PowershellSingleQuote(p.0)
        + (" | Out-Null; Set-Content -LiteralPath " + (PowershellSingleQuote(p.1) + " -Value $LASTEXITCODE")));
      FreeAfter("$LASTEXITCODE>>>\"); New-Item ", tail, seek);
      assert ("$LASTEXITCODE>>>\"); New-Item " + tail)[0] == '$';
      FreePrinting(command, "; Write-Output (\"`n", nonce, "$LASTEXITCODE>>>\"); New-Item " + tail, seek);
  }

  predicate NoneInPaths(done: Option<(string, string)>, nonce: string) {
    done.Some? ==> Match(done.value.0, nonce).None? && Match(done.value.1, nonce).None?
  }

  /** A line in front of its output answers only for what the output leaves open. */
  lemma EchoedLine(line: string, nonce: string, output: string)
    ensures Match(line + ("\n" + output), nonce) == OrElse(Match(output, nonce), Match(line, nonce))
  {
    if ValidNonce(nonce) {
      LastJoins(line, "\n" + output, nonce);
      LastAfter("\n", output, nonce);
      MatchIsLastMarker(line, nonce);
      MatchIsLastMarker(line + ("\n" + output), nonce);
      MatchIsLastMarker(output, nonce);
    }
  }

  lemma WrapperMatchesExactly(command: string, minted: string, done: Option<(string, string)>, nonce: string)
    requires ValidNonce(minted) && ValidNonce(nonce)
    ensures Match(WrapUnixDone(command, minted, done), nonce).None? <==>
            Match(command, nonce).None? && NoneInPaths(done, nonce)
    ensures Match(WrapPowerShellDone(command, minted, done), nonce).None? <==>
            Match(command, nonce).None? && NoneInPaths(done, nonce)
  {
    UnixWrapperIsFree(command, minted, done, nonce);
    PowerShellWrapperIsFree(command, minted, done, nonce);
    MatchIsLastMarker(command, nonce);
    MatchIsLastMarker(WrapUnixDone(command, minted, done), nonce);
    MatchIsLastMarker(WrapPowerShellDone(command, minted, done), nonce);
    if done.Some? {
      MatchIsLastMarker(done.value.0, nonce);
      MatchIsLastMarker(done.value.1, nonce);
    }
  }

  /**
    An echoed command line never counts as completion: a wrapper matches a nonce, its own included, exactly
    when the command or a path does, and if none does then in front of a line's output it changes no answer.
   */
  lemma EchoNeverCounts(command: string, minted: string, done: Option<(string, string)>, output: string, nonce: string)
    requires ValidNonce(minted)
    ensures Match(WrapUnixDone(command, minted, done), nonce).None? <==>
            Match(command, nonce).None? && NoneInPaths(done, nonce)
    ensures Match(WrapPowerShellDone(command, minted, done), nonce).None? <==>
            Match(command, nonce).None? && NoneInPaths(done, nonce)
    ensures Match(command, nonce).None? && NoneInPaths(done, nonce) ==>
              && Match(WrapUnixDone(command, minted, done) + ("\n" + output), nonce) == Match(output, nonce)
              && Match(WrapPowerShellDone(command, minted, done) + ("\n" + output), nonce) == Match(output, nonce)
  {
    if ValidNonce(nonce) {
      WrapperMatchesExactly(command, minted, done, nonce);
      EchoedLine(WrapUnixDone(command, minted, done), nonce, output);
      EchoedLine(WrapPowerShellDone(command, minted, done), nonce, output);
    }
  }

  // What a wrapper prints

  /** printf(1) on a format of plain characters, line breaks and numbers. */
  function Printf(format: string, n: int): string {
    if format == "" then ""
    else if "\\n" <= format then "\n" + Printf(format[2..], n)
    else if "%d" <= format then Itoa(n) + Printf(format[2..], n)
    else [format[0]] + Printf(format[1..], n)
  }

  lemma PrintsOne(c: char, rest: string, n: int)
    requires c != '\\' && c != '%'
    ensures Printf([c] + rest, n) == [c] + Printf(rest, n)
  {
    assert ([c] + rest)[0] == c && ([c] + rest)[1..] == rest;
  }

  lemma HeadApart(p: string, rest: string)
    requires p != ""
    ensures p + rest == [p[0]] + (p[1..] + rest) && p[0] in p && forall c :: c in p[1..] ==> c in p
  {
  }

  lemma {:induction false} PrintsPlain(p: string, rest: string, n: int)
    requires forall c :: c in p ==> c != '\\' && c != '%'
    ensures Printf(p + rest, n) == p + Printf(rest, n)
    decreases |p|
  {
    var printed := Printf(rest, n);
    if p == "" {
      assert p + rest == rest && p + printed == printed;
    } else {
      HeadApart(p, rest);
      HeadApart(p, printed);
      PrintsPlain(p[1..], rest, n);
      PrintsOne(p[0], p[1..] + rest, n);
    }
  }

  lemma PrintsBreak(rest: string, n: int)
    ensures Printf("\\n" + rest, n) == "\n" + Printf(rest, n)
  {
    assert ("\\n" + rest)[2..] == rest;
  }

  lemma PrintsNumber(rest: string, n: int)
    ensures Printf("%d" + rest, n) == Itoa(n) + Printf(rest, n)
  {
    assert ("%d" + rest)[2..] == rest && ("%d" + rest)[0] == '%';
  }

  /** The format a Unix wrapper hands to printf, as it stands between the quotes. */
  function MarkerFormat(nonce: string): string {
    "\\n" + (OPENING + (nonce + (MIDDLE + ("%d" + (CLOSING + "\\n")))))
  }

  lemma SpelledAsDocumented(nonce: string, exit: int)
    ensures OPENING == "<<<initagent " && MIDDLE == " exit=" && CLOSING == ">>>"
    ensures Marker(nonce, exit) == OPENING + (nonce + (MIDDLE + (Itoa(exit) + CLOSING)))
  {
    assert CLOSING + "" == CLOSING;
  }

  lemma PlainParts(nonce: string)
    requires AllHex(nonce)
    ensures forall c :: c in OPENING || c in MIDDLE || c in CLOSING || c in nonce ==> c != '\\' && c != '%'
  {
  }

  lemma TailPrints(exit: int)
    ensures Printf("%d" + (CLOSING + "\\n"), exit) == Itoa(exit) + (CLOSING + "\n")
  {
    PlainParts("");
    PrintsNumber(CLOSING + "\\n", exit);
    PrintsPlain(CLOSING, "\\n", exit);
    PrintsBreak("", exit);
    assert "\\n" + "" == "\\n";
  }

  lemma FormatPrints(nonce: string, exit: int)
    requires AllHex(nonce)
    ensures Printf(MarkerFormat(nonce), exit) ==
            "\n" + (OPENING + (nonce + (MIDDLE + (Itoa(exit) + (CLOSING + "\n")))))
  {
    var tail := "%d" + (CLOSING + "\\n");
    PlainParts(nonce);
    TailPrints(exit);
    PrintsPlain(MIDDLE, tail, exit);
    PrintsPlain(nonce, MIDDLE + tail, exit);
    PrintsPlain(OPENING, nonce + (MIDDLE + tail), exit);
    PrintsBreak(OPENING + (nonce + (MIDDLE + tail)), exit);
  }

  lemma Regroup(a: string, b: string, c: string, d: string, e: string, f: string)
    ensures a + (b + (c + (d + (e + f)))) == a + ((b + (c + (d + e))) + f)
  {
  }

  lemma PrintedThen(nonce: string, exit: int, after: string)
    requires AllHex(nonce)
    ensures Printf(MarkerFormat(nonce), exit) + after == "\n" + (Marker(nonce, exit) + ("\n" + after))
  {
    FormatPrints(nonce, exit);
    SpelledAsDocumented(nonce, exit);
    var marker := Marker(nonce, exit);
    var number := Itoa(exit);
    assert number + (CLOSING + "\n") == (number + CLOSING) + "\n";
    Regroup("", OPENING, nonce, MIDDLE, number + CLOSING, "\n");
    assert "" + (OPENING + (nonce + (MIDDLE + ((number + CLOSING) + "\n")))) == OPENING + (nonce + (MIDDLE + ((number + CLOSING) + "\n")));
    assert "" + ((OPENING + (nonce + (MIDDLE + (number + CLOSING)))) + "\n") == marker + "\n";
    assert ("\n" + (marker + "\n")) + after == "\n" + (marker + ("\n" + after));
  }

  /** The wrapper without a done file runs the command and prints its exit code by that format. */
  lemma UnixWrapperMeans(command: string, nonce: string)
    ensures WrapUnixDone(command, nonce, None) == "{ " + (command + ("; printf '" + (MarkerFormat(nonce) + "' $?; }")))
  {
    var after := "%d>>>\\n' $?; }";
    assert after == ("%d" + (CLOSING + "\\n")) + "' $?; }";
    assert "; printf '\\n" == "; printf '" + "\\n";
    Regroup("\\n", OPENING, nonce, MIDDLE, "%d" + (CLOSING + "\\n"), "' $?; }");
    var inner := OPENING + (nonce + (MIDDLE + ("%d" + (CLOSING + "\\n"))));
    assert ("; printf '" + "\\n") + (inner + "' $?; }") == "; printf '" + (("\\n" + inner) + "' $?; }");
  }

  /** So the exit code a wrapped command prints is the one Match reads, whatever the command wrote before and whatever is silent after. */
  lemma PrintedCodeIsMatched(nonce: string, exit: int, before: string, after: string)
    requires ValidNonce(nonce) && InInt64(exit) && Match("\n" + after, nonce).None?
    ensures Match(before + (Printf(MarkerFormat(nonce), exit) + after), nonce) == Some(exit)
  {
    PrintedThen(nonce, exit, after);
    MatchInvertsMarker(before + "\n", nonce, exit, "\n" + after);
    assert before + ("\n" + (Marker(nonce, exit) + ("\n" + after))) == (before + "\n") + (Marker(nonce, exit) + ("\n" + after));
  }
}
