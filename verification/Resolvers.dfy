/** Completion resolvers, and the registry that asks them in no particular order. */
module Resolvers {
  import opened Wrappers
  import opened Text
  import opened Decimal
  import opened Sentinel

  datatype Trust = Medium | High

  datatype LaunchMode = SendKeys | Supervised

  datatype Outcome = Outcome(done: bool, exitCode: int, reason: string, trust: Trust, message: string)

  datatype RunContext = RunContext(
    runId: string, workerId: string, launchMode: LaunchMode, outputPath: string, output: string, nonce: string,
    processId: int, processExit: Option<int>, sentinelDir: string, doneBody: string, exec: Option<int>)

  datatype Kind = ExecResolver | ProcessResolver | FileResolver | SentinelResolver

  function NameOf(k: Kind): string {
    match k
    case ExecResolver => "exec"
    case ProcessResolver => "process"
    case FileResolver => "file"
    case SentinelResolver => "sentinel"
  }

  predicate Supports(k: Kind, mode: LaunchMode) {
    match k
    case FileResolver => true
    case SentinelResolver => mode.SendKeys?
    case _ => mode.Supervised?
  }

  /**
    How asking one resolver ends: not asked, an error from Watch, or what its channel and the context do.
    `raced` says the context is done by the time the channel is ready; Go's select may then take either.
   */
  datatype Answer =
    | Unsupported | Refused | Cancelled
    | Closed(raced: bool)
    | Reported(outcome: Outcome, raced: bool)

  /**
    What a watcher that polls its machine comes back with, how a done file reads as JSON, and whether the
    context is done when a resolver that knows its outcome at once is asked: all belong to the world outside.
   */
  datatype World = World(file: Answer, process: Answer, stream: Answer, json: string -> Option<int>, done: Kind -> bool)

  function ParseDone(content: string, source: string, json: string -> Option<int>): Outcome {
    var message := "sentinel file at " + source;
    var code := Atoi(Trim(content));
    if code.Some? then Outcome(true, code.value, "file", High, message)
    else if json(content).Some? then Outcome(true, json(content).value, "file", High, message)
    else Outcome(true, 1, "file", High, "malformed sentinel at " + source)
  }

  /** A done file is named by a directory and a run id that is one path element. */
  predicate HasSentinelPath(dir: string, runId: string) {
    dir != "" && runId != "" && '/' !in runId && '\\' !in runId
  }

  function ProcessMessage(exit: int, pid: int): string {
    if pid != 0 then "pid " + Itoa(pid) + " exited with " + Itoa(exit) else "process exit code " + Itoa(exit)
  }

  function ExecOutcome(exit: int): Outcome {
    Outcome(true, exit, "exec", High, "exec exit code " + Itoa(exit))
  }

  function ProcessOutcome(exit: int, pid: int): Outcome {
    Outcome(true, exit, "process", High, ProcessMessage(exit, pid))
  }

  function Watch(k: Kind, run: RunContext, w: World): Answer {
    match k
    case ExecResolver =>
      if run.exec.None? then Refused
      else Reported(ExecOutcome(run.exec.value), w.done(k))
    case ProcessResolver =>
      if run.processExit.Some? then
        Reported(ProcessOutcome(run.processExit.value, run.processId), w.done(k))
      else if run.processId == 0 then Refused
      else w.process
    case FileResolver =>
      if Trim(run.doneBody) != "" then Reported(ParseDone(run.doneBody, "worker done file", w.json), w.done(k))
      else if !HasSentinelPath(run.sentinelDir, run.runId) then Refused
      else w.file
    case SentinelResolver =>
      if !ValidNonce(run.nonce) || (run.output == "" && run.outputPath == "") then Refused
      else if run.output != "" then
        match Match(run.output, run.nonce)
        case None => Refused
        case Some(code) => Reported(Outcome(true, code, "sentinel", Medium, "sentinel exit code " + Itoa(code)), w.done(k))
      else w.stream
  }

  function Ask(k: Kind, run: RunContext, w: World): Answer {
    if Supports(k, run.launchMode) then Watch(k, run, w) else Unsupported
  }

  datatype ResolveError = NoneReported | ContextDone

  type Resolution = Result<Outcome, ResolveError>

  /** The resolutions an answer can end the walk with. */
  function Ends(a: Answer): set<Resolution> {
    match a
    case Reported(o, raced) => (if o.done then {Success(o)} else {}) + (if raced then {Failure(ContextDone)} else {})
    case Closed(raced) => if raced then {Failure(ContextDone)} else {}
    case Cancelled => {Failure(ContextDone)}
    case _ => {}
  }

  /** The walk cannot go past it. */
  predicate Sure(a: Answer) {
    a.Cancelled? || (a.Reported? && a.outcome.done)
  }

  function Answers(resolvers: map<string, Kind>, run: RunContext, w: World): map<string, Answer> {
    map n | n in resolvers :: Ask(resolvers[n], run, w)
  }

  /** What walking the resolvers in one order can come to. */
  predicate CanEnd(order: seq<string>, answers: map<string, Answer>, r: Resolution)
    requires forall n :: n in order ==> n in answers
  {
    if order == [] then r == Failure(NoneReported)
    else r in Ends(answers[order[0]]) || (!Sure(answers[order[0]]) && CanEnd(order[1..], answers, r))
  }

  ghost predicate IsOrder(order: seq<string>, names: set<string>) {
    && (forall n :: n in order <==> n in names)
    && (forall i, j :: 0 <= i < j < |order| ==> order[i] != order[j])
  }

  /** Whatever some resolver may end the walk with, every resolver that stops the walk may, too. */
  ghost predicate Agree(answers: map<string, Answer>) {
    forall a, b :: a in answers && b in answers && Sure(answers[a]) ==> Ends(answers[b]) <= Ends(answers[a])
  }

  class Registry {
    var resolvers: map<string, Kind>

    constructor ()
      ensures resolvers == map[]
    {
      resolvers := map[];
    }

    /** Registering a name twice panics. */
    method Register(k: Kind)
      requires NameOf(k) !in resolvers
      modifies this
      ensures resolvers == old(resolvers)[NameOf(k) := k]
    {
      resolvers := resolvers[NameOf(k) := k];
    }

    /** The walk over the map, in whatever order it comes, with a select that takes whatever is ready. */
    method Resolve(run: RunContext, w: World) returns (r: Resolution)
      ensures exists order :: IsOrder(order, resolvers.Keys) && CanEnd(order, Answers(resolvers, run, w), r)
    {
      ghost var answers := Answers(resolvers, run, w);
      ghost var order: seq<string> := [];
      var rest := resolvers.Keys;
      while rest != {}
        invariant rest <= resolvers.Keys && IsOrder(order, resolvers.Keys - rest)
        invariant forall n :: n in order ==> !Sure(answers[n])
        decreases |rest|
      {
        var name :| name in rest;
        var k := resolvers[name];
        rest := rest - {name};
        if Supports(k, run.launchMode) {
          var a := Watch(k, run, w);
          var contextFirst: bool := *;
          if a.Cancelled? || ((a.Reported? || a.Closed?) && a.raced && contextFirst) {
            EndsHere(order, name, rest, answers, Failure(ContextDone));
            return Failure(ContextDone);
          }
          if a.Reported? && a.outcome.done {
            EndsHere(order, name, rest, answers, Success(a.outcome));
            return Success(a.outcome);
          }
        }
        order := order + [name];
      }
      PassedThen(order, [], answers, Failure(NoneReported));
      assert order + [] == order;
      r := Failure(NoneReported);
    }
  }

  lemma {:induction false} PassedThen(order: seq<string>, more: seq<string>, answers: map<string, Answer>, r: Resolution)
    requires (forall m :: m in order + more ==> m in answers) && (forall m :: m in order ==> !Sure(answers[m]))
    requires (forall m :: m in more ==> m in answers) && CanEnd(more, answers, r)
    ensures CanEnd(order + more, answers, r)
    decreases |order|
  {
    if order == [] {
      assert order + more == more;
    } else {
      assert (order + more)[1..] == order[1..] + more;
      PassedThen(order[1..], more, answers, r);
    }
  }

  lemma {:induction false} OrderStartingWith(first: seq<string>, got: set<string>, rest: set<string>)
    returns (order: seq<string>)
    requires IsOrder(first, got) && got !! rest
    ensures first <= order && IsOrder(order, got + rest)
    decreases |rest|
  {
    if rest == {} {
      assert got + rest == got;
      order := first;
    } else {
      var n :| n in rest;
      assert got + {n} + (rest - {n}) == got + rest;
      order := OrderStartingWith(first + [n], got + {n}, rest - {n});
    }
  }

  /** A walk that passed some names and ends at the next is the walk of an order of them all. */
  lemma EndsHere(order: seq<string>, n: string, rest: set<string>, answers: map<string, Answer>, r: Resolution)
    requires rest <= answers.Keys && n in answers && n !in rest && IsOrder(order, answers.Keys - rest - {n})
    requires (forall m :: m in order ==> !Sure(answers[m])) && r in Ends(answers[n])
    ensures exists whole :: IsOrder(whole, answers.Keys) && CanEnd(whole, answers, r)
  {
    var first := order + [n];
    assert IsOrder(first, answers.Keys - rest);
    var whole := OrderStartingWith(first, answers.Keys - rest, rest);
    assert answers.Keys - rest + rest == answers.Keys;
    var tail := whole[|order|..];
    assert whole == order + tail && tail[0] == n;
    PassedThen(order, tail, answers, r);
  }

  // Which orders matter

  lemma {:induction false} SureDecides(order: seq<string>, answers: map<string, Answer>, n: string, r: Resolution)
    requires Agree(answers) && (forall m :: m in order ==> m in answers)
    requires n in order && Sure(answers[n])
    ensures CanEnd(order, answers, r) <==> r in Ends(answers[n])
    decreases |order|
  {
    var m := order[0];
    assert Ends(answers[m]) <= Ends(answers[n]);
    if Sure(answers[m]) {
      assert Ends(answers[n]) <= Ends(answers[m]);
    } else {
      assert n in order[1..];
      SureDecides(order[1..], answers, n, r);
    }
  }

  lemma {:induction false} NobodySure(order: seq<string>, answers: map<string, Answer>, r: Resolution)
    requires (forall m :: m in order ==> m in answers) && forall m :: m in order ==> !Sure(answers[m])
    ensures CanEnd(order, answers, r) <==> r == Failure(NoneReported) || exists m :: m in order && r in Ends(answers[m])
    decreases |order|
  {
    if order != [] {
      NobodySure(order[1..], answers, r);
      assert forall m :: m in order <==> m == order[0] || m in order[1..];
    }
  }

  lemma FirstEnds(answers: map<string, Answer>, n: string) returns (order: seq<string>)
    requires n in answers
    ensures IsOrder(order, answers.Keys)
    ensures forall r :: r in Ends(answers[n]) ==> CanEnd(order, answers, r)
    ensures forall r :: Sure(answers[n]) && CanEnd(order, answers, r) ==> r in Ends(answers[n])
  {
    order := OrderStartingWith([n], {n}, answers.Keys - {n});
    assert {n} + (answers.Keys - {n}) == answers.Keys;
    assert order[0] == n;
  }

  /** What the walk can come to is the same in every order. */
  ghost predicate OrderFree(answers: map<string, Answer>) {
    forall o, p, r :: IsOrder(o, answers.Keys) && IsOrder(p, answers.Keys) ==>
      (CanEnd(o, answers, r) <==> CanEnd(p, answers, r))
  }

  /** The order of the walk cannot show exactly when no resolver can end it otherwise than those that stop it may. */
  lemma OrderFreeExactly(answers: map<string, Answer>)
    ensures OrderFree(answers) <==> Agree(answers)
  {
    if Agree(answers) {
      forall o, p, r | IsOrder(o, answers.Keys) && IsOrder(p, answers.Keys)
        ensures CanEnd(o, answers, r) <==> CanEnd(p, answers, r)
      {
        if n :| n in answers && Sure(answers[n]) {
          SureDecides(o, answers, n, r);
          SureDecides(p, answers, n, r);
        } else {
          NobodySure(o, answers, r);
          NobodySure(p, answers, r);
        }
      }
    }
    if OrderFree(answers) {
      forall a, b | a in answers && b in answers && Sure(answers[a])
        ensures Ends(answers[b]) <= Ends(answers[a])
      {
        var o := FirstEnds(answers, a);
        var p := FirstEnds(answers, b);
        forall r | r in Ends(answers[b]) ensures r in Ends(answers[a]) {
          assert CanEnd(p, answers, r) <==> CanEnd(o, answers, r);
        }
      }
    }
  }

  // The runs the gateway asks about

  const DEFAULT: map<string, Kind> := map[
    "exec" := ExecResolver, "process" := ProcessResolver, "file" := FileResolver, "sentinel" := SentinelResolver
  ]

  function ExecRun(taskId: string, worker: string, exit: int): RunContext {
    RunContext(taskId, worker, Supervised, "", "", "", 0, None, "", "", Some(exit))
  }

  function ProcessRun(taskId: string, worker: string, pid: int, exit: int): RunContext {
    RunContext(taskId, worker, Supervised, "", "", "", pid, Some(exit), "", "", None)
  }

  /** A done file the worker wrote takes the place of its output. */
  function SendKeysRun(taskId: string, worker: string, nonce: string, output: string, doneFile: string): RunContext {
    RunContext(taskId, worker, SendKeys, "", if doneFile == "" then output else "", nonce, 0, None, "", doneFile, None)
  }

  predicate GatewayRun(run: RunContext) {
    || (run.exec.Some? && run == ExecRun(run.runId, run.workerId, run.exec.value))
    || (run.processExit.Some? && run == ProcessRun(run.runId, run.workerId, run.processId, run.processExit.value))
    || (run == SendKeysRun(run.runId, run.workerId, run.nonce, run.output, run.doneBody))
  }

  /** At most one resolver of such a run opens a channel, and none of them has to wait. */
  lemma OneReporter(run: RunContext, w: World, n: string, m: string)
    requires GatewayRun(run) && n in DEFAULT && m in DEFAULT && n != m
    ensures Ends(Ask(DEFAULT[n], run, w)) == {} || Ends(Ask(DEFAULT[m], run, w)) == {}
    ensures Ask(DEFAULT[n], run, w) == Ask(DEFAULT[n], run, World(Refused, Refused, Refused, w.json, w.done))
  {
    assert Trim("") == "";
  }

  lemma SureEnds(a: Answer)
    requires Sure(a)
    ensures Ends(a) != {}
  {
    if a.Reported? {
      assert Success(a.outcome) in Ends(a);
    } else {
      assert Failure(ContextDone) in Ends(a);
    }
  }

  /** So whatever order the map is walked in, a run of the gateway can come to the same. */
  lemma GatewayOrderNeverShows(run: RunContext, w: World)
    requires GatewayRun(run)
    ensures OrderFree(Answers(DEFAULT, run, w))
  {
    var answers := Answers(DEFAULT, run, w);
    forall a, b | a in answers && b in answers && Sure(answers[a])
      ensures Ends(answers[b]) <= Ends(answers[a])
    {
      SureEnds(answers[a]);
      if a != b { OneReporter(run, w, a, b); }
    }
    OrderFreeExactly(answers);
  }

  /** A done outcome comes out, or, when the context is done by then, perhaps its error. */
  predicate ComesTo(r: Resolution, o: Outcome, raced: bool) {
    r == Success(o) || (raced && r == Failure(ContextDone))
  }

  lemma ReporterDecides(run: RunContext, w: World, order: seq<string>, n: string, o: Outcome, raced: bool, r: Resolution)
    requires GatewayRun(run) && IsOrder(order, DEFAULT.Keys) && n in DEFAULT
    requires Ask(DEFAULT[n], run, w) == Reported(o, raced) && o.done
    ensures CanEnd(order, Answers(DEFAULT, run, w), r) <==> ComesTo(r, o, raced)
  {
    GatewayOrderNeverShows(run, w);
    OrderFreeExactly(Answers(DEFAULT, run, w));
    SureDecides(order, Answers(DEFAULT, run, w), n, r);
  }

  /** A supervised run ends with the exit code the agent reported, unless its context is done first. */
  lemma SupervisedRunsResolve(taskId: string, worker: string, pid: int, exit: int, w: World, order: seq<string>, r: Resolution)
    requires IsOrder(order, DEFAULT.Keys)
    ensures CanEnd(order, Answers(DEFAULT, ExecRun(taskId, worker, exit), w), r) <==>
            ComesTo(r, ExecOutcome(exit), w.done(ExecResolver))
    ensures CanEnd(order, Answers(DEFAULT, ProcessRun(taskId, worker, pid, exit), w), r) <==>
            ComesTo(r, ProcessOutcome(exit, pid), w.done(ProcessResolver))
  {
    ReporterDecides(ExecRun(taskId, worker, exit), w, order, "exec", ExecOutcome(exit), w.done(ExecResolver), r);
    ReporterDecides(ProcessRun(taskId, worker, pid, exit), w, order, "process", ProcessOutcome(exit, pid),
                    w.done(ProcessResolver), r);
  }

  /** What an agent reports is reported whole: done, with its exit code, under the name of how it was run, and trusted. */
  lemma ReportsMean(exit: int, pid: int)
    ensures var o := ExecOutcome(exit);
      o.done && o.exitCode == exit && o.reason == "exec" && o.trust == High && o.message == "exec exit code " + Itoa(exit)
    ensures var o := ProcessOutcome(exit, pid);
      && o.done && o.exitCode == exit && o.reason == "process" && o.trust == High
      && o.message == (if pid == 0 then "process exit code " + Itoa(exit) else "pid " + Itoa(pid) + " exited with " + Itoa(exit))
  {
  }

  /** A done file is done whatever it says: a number is its exit code, then what it reads as JSON, and else a failure. */
  lemma DoneFileMeans(content: string, source: string, json: string -> Option<int>)
    ensures var o := ParseDone(content, source, json);
      && o.done && o.reason == "file" && o.trust == High
      && (Atoi(Trim(content)).Some? ==> o.exitCode == Atoi(Trim(content)).value)
      && (Atoi(Trim(content)).None? && json(content).Some? ==> o.exitCode == json(content).value)
      && (Atoi(Trim(content)).None? && json(content).None? ==> o.exitCode == 1 && o.message == "malformed sentinel at " + source)
      && (Atoi(Trim(content)).Some? || json(content).Some? ==> o.message == "sentinel file at " + source)
  {
  }

  /**
    Who is asked: the file resolver always, exec and process for supervised runs, the sentinel for panes. Who
    refuses has nothing to go by: no result, no process, no done file and no place for one, no marker to look for.
   */
  lemma AskedMeans(run: RunContext, w: World)
    ensures Ask(ExecResolver, run, w) == Unsupported <==> run.launchMode == SendKeys
    ensures Ask(ExecResolver, run, w) == Refused <==> run.launchMode == Supervised && run.exec.None?
    ensures Ask(FileResolver, run, w) == Unsupported ==> w.file == Unsupported
    ensures Trim(run.doneBody) == "" ==>
      Ask(FileResolver, run, w) ==
        if run.sentinelDir == "" || run.runId == "" || '/' in run.runId || '\\' in run.runId then Refused else w.file
    ensures run.launchMode == SendKeys ==> Ask(ProcessResolver, run, w) == Unsupported
    ensures run.launchMode == Supervised && run.processExit.None? ==>
      Ask(ProcessResolver, run, w) == if run.processId == 0 then Refused else w.process
    ensures run.launchMode == Supervised ==> Ask(SentinelResolver, run, w) == Unsupported
    ensures run.launchMode == SendKeys && ValidNonce(run.nonce) && run.output == "" ==>
      Ask(SentinelResolver, run, w) == if run.outputPath == "" then Refused else w.stream
    ensures run.launchMode == SendKeys && !ValidNonce(run.nonce) ==> Ask(SentinelResolver, run, w) == Refused
  {
  }

  /**
    A run in a pane ends with its done file if that holds anything, and else with its marker: but a
    done file of blanks hides a marker that is there.
   */
  lemma SendKeysResolvesExactly(taskId: string, worker: string, nonce: string, output: string, doneFile: string,
                                w: World, order: seq<string>, r: Resolution)
    requires IsOrder(order, DEFAULT.Keys)
    ensures CanEnd(order, Answers(DEFAULT, SendKeysRun(taskId, worker, nonce, output, doneFile), w), r) <==>
      if Trim(doneFile) != "" then ComesTo(r, ParseDone(doneFile, "worker done file", w.json), w.done(FileResolver))
      else if doneFile == "" && Match(output, nonce).Some? then
        var code := Match(output, nonce).value;
        ComesTo(r, Outcome(true, code, "sentinel", Medium, "sentinel exit code " + Itoa(code)), w.done(SentinelResolver))
      else r == Failure(NoneReported)
  {
    var run := SendKeysRun(taskId, worker, nonce, output, doneFile);
    var answers := Answers(DEFAULT, run, w);
    assert Trim("") == "";
    assert Match("", nonce).None?;
    if Trim(doneFile) != "" {
      ReporterDecides(run, w, order, "file", ParseDone(doneFile, "worker done file", w.json), w.done(FileResolver), r);
    } else if doneFile == "" && Match(output, nonce).Some? {
      var code := Match(output, nonce).value;
      ReporterDecides(run, w, order, "sentinel",
                      Outcome(true, code, "sentinel", Medium, "sentinel exit code " + Itoa(code)), w.done(SentinelResolver), r);
    } else {
      NobodySure(order, answers, r);
    }
  }

  /** The case: a marker that decides the run without a done file is not even read beside one that holds a blank. */
  lemma BlankDoneFileHidesMarker(taskId: string, worker: string, nonce: string, output: string, w: World,
                                 order: seq<string>, r: Resolution)
    requires IsOrder(order, DEFAULT.Keys) && Match(output, nonce).Some? && !w.done(SentinelResolver)
    ensures CanEnd(order, Answers(DEFAULT, SendKeysRun(taskId, worker, nonce, output, ""), w), r) ==>
              r.Success? && r.value.exitCode == Match(output, nonce).value
    ensures CanEnd(order, Answers(DEFAULT, SendKeysRun(taskId, worker, nonce, output, " "), w), r) ==>
              r == Failure(NoneReported)
  {
    assert Trim("") == "" && Trim(" ") == "";
    SendKeysResolvesExactly(taskId, worker, nonce, output, "", w, order, r);
    SendKeysResolvesExactly(taskId, worker, nonce, output, " ", w, order, r);
  }

  // The done file

  lemma PlainIsNotTrimmed(s: string)
    requires s != "" && !IsSpace(s[0]) && !IsSpace(s[|s| - 1])
    ensures Trim(s + "\n") == s
  {
    var t := s + "\n";
    assert t[..|t| - 1] == s;
    assert TrimLeft(t) == t && TrimRight(t) == TrimRight(s) == s;
  }

  /** The exit code the wrapper writes to the done file is the one read from it. */
  lemma DoneFileRoundTrips(exit: int, source: string, json: string -> Option<int>)
    requires InInt64(exit)
    ensures ParseDone(Itoa(exit) + "\n", source, json).exitCode == exit
  {
    var s := Itoa(exit);
    var digits := DigitsOf(if exit < 0 then -exit else exit);
    assert IsDigit(digits[0]) && IsDigit(digits[|digits| - 1]);
    assert s[|s| - 1] == digits[|digits| - 1];
    PlainIsNotTrimmed(s);
    AtoiInvertsItoa(exit);
  }
}
