/**
 The command runner of the release checks: a second promise settled once, with a timeout
 that kills at once, a bounded wait for the close, and a heartbeat. Unlike the locale tool's
 runner it always settles after its timeout, and it may succeed with only the tail of stdout.

 `Step` gives the effect of each event; every callback of the class `CommandRun` is proved
 to do what `Step` says.
 */
module CommandSupervisor {
  import opened Wrappers
  import opened OutputCapture

  const KILL_WAIT_MS: nat := 15_000

  // A `timeoutMs` of None stands for an absent, zero or infinite option.
  datatype Config = Config(maxOutputBytes: Positive, timeoutMs: Option<nat>, check: bool, heartbeat: bool)

  datatype Settlement =
    | Resolved(exitCode: int, stdout: string, stderr: string)
    | CommandTimedOut
    | NotTerminated
    | CommandFailed(exitCode: int)
    | ChildError(message: string)

  // Killing the child may at once raise its error event.
  datatype Event =
    | Tick(ms: nat)
    | StdoutData(chunk: string)
    | StderrData(chunk: string)
    | TimeoutFires(raised: Option<string>)
    | KillWaitFires
    | ErrorRaised(message: string)
    | Closed(exitCode: Option<int>)
    | SignalForwarded

  // A record of the run: kills, what stdout and stderr got, how much of either had come when the
  // promise settled, and how often it did.
  datatype Log = Log(kills: nat, heard: string, heardErr: string, outAtEnd: nat, errAtEnd: nat, settlements: nat)

  // The runner's variables and the log, which it does not read. Timers hold the time they are due.
  datatype State = State(
    stdout: string, stderr: string, timedOut: bool, settled: bool, timer: Option<nat>, killWaitTimer: Option<nat>,
    heartbeat: bool, registered: bool, result: Option<Settlement>, forwarded: bool,
    now: nat, log: Log)

  function Init(cfg: Config): State {
    State("", "", false, false, cfg.timeoutMs, None, cfg.heartbeat, true, None, false, 0,
          Log(0, "", "", 0, 0, 0))
  }

  function AtEnd(log: Log): Log {
    log.(outAtEnd := |log.heard|, errAtEnd := |log.heardErr|, settlements := log.settlements + 1)
  }

  function Finalize(s: State, result: Settlement): State {
    if s.settled then s
    else s.(settled := true, timer := None, killWaitTimer := None, heartbeat := false, result := Some(result),
            log := AtEnd(s.log))
  }

  function OnError(s: State, message: string): State {
    Finalize(s.(registered := false), ChildError(message))
  }

  function Verdict(cfg: Config, s: State, exitCode: Option<int>): Settlement {
    var code := if exitCode.Some? then exitCode.value else 1;
    if s.timedOut then CommandTimedOut
    else if cfg.check && code != 0 then CommandFailed(code)
    else Resolved(code, s.stdout, s.stderr)
  }

  predicate Due(timer: Option<nat>, now: nat) {
    timer.Some? && timer.value <= now
  }

  function Step(cfg: Config, s: State, event: Event): State
  {
    match event
    case Tick(ms) => s.(now := s.now + ms)
    case StdoutData(chunk) =>
      s.(stdout := AppendBoundedCommandOutput(s.stdout, chunk, cfg.maxOutputBytes),
         log := s.log.(heard := s.log.heard + chunk))
    case StderrData(chunk) =>
      s.(stderr := AppendBoundedCommandOutput(s.stderr, chunk, cfg.maxOutputBytes),
         log := s.log.(heardErr := s.log.heardErr + chunk))
    case TimeoutFires(raised) =>
      if !Due(s.timer, s.now) then s
      else
        var killed := s.(timer := None, timedOut := true, log := s.log.(kills := s.log.kills + 1));
        (if raised.Some? then OnError(killed, raised.value) else killed).(killWaitTimer := Some(s.now + KILL_WAIT_MS))
    case KillWaitFires =>
      if !Due(s.killWaitTimer, s.now) then s else Finalize(s.(killWaitTimer := None), NotTerminated)
    case ErrorRaised(message) => OnError(s, message)
    case Closed(exitCode) =>
      if s.forwarded then s.(registered := false)
      else Finalize(s.(registered := false), Verdict(cfg, s, exitCode))
    case SignalForwarded => s.(forwarded := true)
  }

  function Run(cfg: Config, events: seq<Event>): State
  {
    if events == [] then Init(cfg) else Step(cfg, Run(cfg, events[..|events| - 1]), events[|events| - 1])
  }

  class CommandRun {
    const cfg: Config
    var stdout: string
    var stderr: string
    var timedOut: bool
    var settled: bool
    var timer: Option<nat>
    var killWaitTimer: Option<nat>
    var heartbeat: bool
    var registered: bool
    var result: Option<Settlement>
    var forwarded: bool
    var now: nat
    ghost var log: Log

    ghost function View(): State
      reads this
    {
      State(stdout, stderr, timedOut, settled, timer, killWaitTimer, heartbeat, registered, result, forwarded,
            now, log)
    }

    constructor (cfg: Config)
      ensures this.cfg == cfg && View() == Init(cfg)
    {
      this.cfg := cfg;
      stdout, stderr, timedOut, settled := "", "", false, false;
      timer, killWaitTimer, heartbeat, registered := cfg.timeoutMs, None, cfg.heartbeat, true;
      result, forwarded := None, false;
      now, log := 0, Log(0, "", "", 0, 0, 0);
    }

    // Time goes by.
    method PassTime(ms: nat)
      modifies this`now
      ensures View() == Step(cfg, old(View()), Tick(ms))
    {
      now := now + ms;
    }

    // The process forwards a signal to its children and is about to exit.
    method NoteForwarded()
      modifies this`forwarded
      ensures View() == Step(cfg, old(View()), SignalForwarded)
    {
      forwarded := true;
    }

    method FinalizeOnce(outcome: Settlement)
      modifies this`settled, this`timer, this`killWaitTimer, this`heartbeat, this`result, this`log
      ensures View() == Finalize(old(View()), outcome)
    {
      if settled {
        return;
      }
      settled := true;
      timer, killWaitTimer, heartbeat := None, None, false;
      result := Some(outcome);
      log := AtEnd(log);
    }

    method HandleError(message: string)
      modifies this
      ensures View() == Step(cfg, old(View()), ErrorRaised(message))
    {
      registered := false;
      FinalizeOnce(ChildError(message));
    }

    method HandleTimeout(raised: Option<string>)
      modifies this
      ensures View() == Step(cfg, old(View()), TimeoutFires(raised))
    {
      if timer.None? || timer.value > now {
        return;
      }
      timer := None;
      timedOut := true;
      log := log.(kills := log.kills + 1);
      if raised.Some? {
        HandleError(raised.value);
      }
      killWaitTimer := Some(now + KILL_WAIT_MS);
    }

    method HandleKillWait()
      modifies this
      ensures View() == Step(cfg, old(View()), KillWaitFires)
    {
      if killWaitTimer.Some? && killWaitTimer.value <= now {
        killWaitTimer := None;
        FinalizeOnce(NotTerminated);
      }
    }

    method HandleClose(exitCode: Option<int>)
      modifies this
      ensures View() == Step(cfg, old(View()), Closed(exitCode))
    {
      registered := false;
      if forwarded {
        return;
      }
      var code := if exitCode.Some? then exitCode.value else 1;
      if timedOut {
        FinalizeOnce(CommandTimedOut);
      } else if cfg.check && code != 0 {
        FinalizeOnce(CommandFailed(code));
      } else {
        FinalizeOnce(Resolved(code, stdout, stderr));
      }
    }

    method HandleStdout(chunk: string)
      modifies this`stdout, this`log
      ensures View() == Step(cfg, old(View()), StdoutData(chunk))
    {
      stdout := AppendBoundedCommandOutput(stdout, chunk, cfg.maxOutputBytes);
      log := log.(heard := log.heard + chunk);
    }

    method HandleStderr(chunk: string)
      modifies this`stderr, this`log
      ensures View() == Step(cfg, old(View()), StderrData(chunk))
    {
      stderr := AppendBoundedCommandOutput(stderr, chunk, cfg.maxOutputBytes);
      log := log.(heardErr := log.heardErr + chunk);
    }
  }

  // ----- every run -----

  // What a promise that resolved says: nothing timed out, a failure was acceptable, and stdout
  // and stderr are the tails of what had come when it settled.
  predicate HonestResolve(cfg: Config, s: State) {
    s.result.Some? && s.result.value.Resolved? ==>
      && !s.timedOut
      && (cfg.check ==> s.result.value.exitCode == 0)
      && s.log.outAtEnd <= |s.log.heard| && s.log.errAtEnd <= |s.log.heardErr|
      && s.result.value.stdout == Tail(s.log.heard[..s.log.outAtEnd], cfg.maxOutputBytes)
      && s.result.value.stderr == Tail(s.log.heardErr[..s.log.errAtEnd], cfg.maxOutputBytes)
  }

  predicate Timers(cfg: Config, s: State) {
    && (s.settled ==> s.timer.None?) && (s.heartbeat <==> !s.settled && cfg.heartbeat)
    && (!s.settled && s.timer.None? ==> s.killWaitTimer.Some? || cfg.timeoutMs.None?)
    && (!s.settled ==> (s.timedOut <==> s.killWaitTimer.Some?))
    && (s.timer.Some? ==> !s.timedOut && s.killWaitTimer.None? && s.timer == cfg.timeoutMs)
    && (s.log.kills == if s.timedOut then 1 else 0)
  }

  predicate Captures(cfg: Config, s: State) {
    && s.stdout == Tail(s.log.heard, cfg.maxOutputBytes)
    && s.stderr == Tail(s.log.heardErr, cfg.maxOutputBytes)
    && s.log.outAtEnd <= |s.log.heard| && s.log.errAtEnd <= |s.log.heardErr|
  }

  predicate Inv(cfg: Config, s: State) {
    && s.log.settlements == (if s.settled then 1 else 0)
    && (s.settled <==> s.result.Some?)
    && Timers(cfg, s) && Captures(cfg, s) && HonestResolve(cfg, s)
  }

  lemma StepKeeps(cfg: Config, s: State, event: Event)
    requires Inv(cfg, s)
    ensures Inv(cfg, Step(cfg, s, event))
  {
    assert s.log.heard[..|s.log.heard|] == s.log.heard && s.log.heardErr[..|s.log.heardErr|] == s.log.heardErr;
    match event
    case StdoutData(chunk) =>
      CommandAppendKeepsTail(s.log.heard, chunk, cfg.maxOutputBytes);
      assert (s.log.heard + chunk)[..s.log.outAtEnd] == s.log.heard[..s.log.outAtEnd];
    case StderrData(chunk) =>
      CommandAppendKeepsTail(s.log.heardErr, chunk, cfg.maxOutputBytes);
      assert (s.log.heardErr + chunk)[..s.log.errAtEnd] == s.log.heardErr[..s.log.errAtEnd];
    case _ =>
  }

  // In every run: one settlement at most, one kill at most and only by the timeout, and
  // results that report the tail of what the child wrote.
  lemma {:induction false} EveryRunIsSafe(cfg: Config, events: seq<Event>)
    ensures Inv(cfg, Run(cfg, events))
    decreases |events|
  {
    if events != [] {
      EveryRunIsSafe(cfg, events[..|events| - 1]);
      StepKeeps(cfg, Run(cfg, events[..|events| - 1]), events[|events| - 1]);
    }
  }

  // ----- what each event does -----

  // How an event settles a run, if it does. A close while a signal is being forwarded does not.
  function SettlementBy(cfg: Config, s: State, event: Event): Option<Settlement> {
    match event
    case ErrorRaised(message) => Some(ChildError(message))
    case TimeoutFires(Some(message)) =>
      if s.timer.Some? && s.timer.value <= s.now then Some(ChildError(message)) else None
    case KillWaitFires =>
      if s.killWaitTimer.Some? && s.killWaitTimer.value <= s.now then Some(NotTerminated) else None
    case Closed(exitCode) =>
      if s.forwarded then None else Some(CloseMeans(cfg, s, match exitCode case Some(code) => code case None => 1))
    case _ => None
  }

  // What a close with this exit code means, stated on what the child wrote.
  function CloseMeans(cfg: Config, s: State, code: int): Settlement {
    var max := cfg.maxOutputBytes;
    if s.timedOut then CommandTimedOut
    else if code != 0 && cfg.check then CommandFailed(code)
    else Resolved(code, Tail(s.log.heard, max), Tail(s.log.heardErr, max))
  }

  // In every open run an event settles it exactly as it should, or leaves it open.
  lemma SettlesAsItShould(cfg: Config, s: State, event: Event)
    requires Inv(cfg, s) && !s.settled
    ensures Step(cfg, s, event).result == SettlementBy(cfg, s, event)
  {
  }

  // So a close that comes before the timeout resolves exactly when the command succeeded or
  // was not to be checked, and the code reported is the child's own, 1 standing for none.
  lemma CloseReportsCode(cfg: Config, events: seq<Event>, exitCode: Option<int>)
    requires var s := Run(cfg, events); !s.settled && !s.forwarded
    ensures
      var s := Run(cfg, events);
      var result := Run(cfg, events + [Closed(exitCode)]).result;
      && result.Some?
      && (s.timedOut ==> result.value == CommandTimedOut)
      && (!s.timedOut ==>
            && (result.value.Resolved? <==> exitCode == Some(0) || !cfg.check)
            && (result.value.Resolved? || result.value.CommandFailed?)
            && result.value.exitCode == if exitCode.None? then 1 else exitCode.value)
  {
    assert (events + [Closed(exitCode)])[..|events|] == events;
    EveryRunIsSafe(cfg, events);
    SettlesAsItShould(cfg, Run(cfg, events), Closed(exitCode));
  }

  // What an event adds to stdout, to stderr and to time.
  function OutOf(event: Event): string {
    if event.StdoutData? then event.chunk else ""
  }

  function ErrOf(event: Event): string {
    if event.StderrData? then event.chunk else ""
  }

  function TimeOf(event: Event): nat {
    if event.Tick? then event.ms else 0
  }

  // The child's tree is forgotten at its error or close, and a forwarded signal is noted.
  predicate Forgets(s: State, event: Event) {
    || event.ErrorRaised? || event.Closed?
    || (event.TimeoutFires? && event.raised.Some? && s.timer.Some? && s.timer.value <= s.now)
  }

  // In every state nothing heard or waited for goes unrecorded, and the timeout kills once and
  // has a bounded wait follow.
  lemma RecordsAsItShould(cfg: Config, s: State, event: Event)
    ensures
      var after := Step(cfg, s, event);
      && after.log.heard == s.log.heard + OutOf(event)
      && after.log.heardErr == s.log.heardErr + ErrOf(event)
      && after.now == s.now + TimeOf(event)
      && (after.registered <==> s.registered && !Forgets(s, event))
      && (after.forwarded <==> s.forwarded || event.SignalForwarded?)
      && (event.TimeoutFires? && s.timer.Some? && s.timer.value <= s.now ==>
            after.killWaitTimer == Some(s.now + 15_000) && after.log.kills == s.log.kills + 1 && after.timedOut)
  {
    assert s.log.heard + "" == s.log.heard && s.log.heardErr + "" == s.log.heardErr;
  }

  function Written(events: seq<Event>): string {
    if events == [] then "" else Written(events[..|events| - 1]) + OutOf(events[|events| - 1])
  }

  function WrittenErr(events: seq<Event>): string {
    if events == [] then "" else WrittenErr(events[..|events| - 1]) + ErrOf(events[|events| - 1])
  }

  function Elapsed(events: seq<Event>): nat {
    if events == [] then 0 else Elapsed(events[..|events| - 1]) + TimeOf(events[|events| - 1])
  }

  // So what a run has heard is what the child wrote, and its clock the time that went by.
  lemma {:induction false} HearsAll(cfg: Config, events: seq<Event>)
    ensures Run(cfg, events).log.heard == Written(events) && Run(cfg, events).log.heardErr == WrittenErr(events)
    ensures Run(cfg, events).now == Elapsed(events)
    decreases |events|
  {
    if events != [] {
      HearsAll(cfg, events[..|events| - 1]);
      RecordsAsItShould(cfg, Run(cfg, events[..|events| - 1]), events[|events| - 1]);
    }
  }

  // The timeout fires when it is due, once, and not earlier, if there is one.
  lemma TimeoutIsOnTime(cfg: Config, events: seq<Event>, raised: Option<string>)
    requires !Run(cfg, events).settled
    ensures Step(cfg, Run(cfg, events), TimeoutFires(raised)).timedOut
       <==> Run(cfg, events).timedOut || (cfg.timeoutMs.Some? && cfg.timeoutMs.value <= Elapsed(events))
  {
    EveryRunIsSafe(cfg, events);
    HearsAll(cfg, events);
  }

  // A run with a timeout always settles, whatever the child does: from any point, letting
  // both timers come due settles it.
  lemma AlwaysSettles(cfg: Config, events: seq<Event>, raised: Option<string>, wait: nat)
    requires cfg.timeoutMs.Some?
    requires Run(cfg, events).timer.Some? ==> Run(cfg, events).now + wait >= Run(cfg, events).timer.value
    ensures
      var timedOut := Step(cfg, Step(cfg, Run(cfg, events), Tick(wait)), TimeoutFires(raised));
      && (timedOut.settled || timedOut.killWaitTimer.Some?)
      && forall more: nat | timedOut.killWaitTimer.Some? && timedOut.now + more >= timedOut.killWaitTimer.value ::
           Step(cfg, Step(cfg, timedOut, Tick(more)), KillWaitFires).settled
  {
    EveryRunIsSafe(cfg, events);
    var s := Step(cfg, Run(cfg, events), Tick(wait));
    StepKeeps(cfg, Run(cfg, events), Tick(wait));
    StepKeeps(cfg, s, TimeoutFires(raised));
  }

  // What is settled for good: the result and how much output it is about.
  predicate SameEnd(a: State, b: State) {
    && a.settled && b.settled && a.result == b.result
    && a.log.outAtEnd == b.log.outAtEnd && a.log.errAtEnd == b.log.errAtEnd
  }

  // Once settled, a run's result is final, and so is how much output it is about.
  lemma {:induction false} SettledIsFinal(cfg: Config, events: seq<Event>, more: seq<Event>)
    requires Run(cfg, events).settled
    ensures SameEnd(Run(cfg, events), Run(cfg, events + more))
    decreases |more|
  {
    if more == [] {
      assert events + more == events;
    } else {
      assert (events + more)[..|events + more| - 1] == events + more[..|more| - 1];
      SettledIsFinal(cfg, events, more[..|more| - 1]);
      SettledStep(cfg, Run(cfg, events + more[..|more| - 1]), more[|more| - 1]);
    }
  }

  lemma SettledStep(cfg: Config, s: State, event: Event)
    requires s.settled
    ensures SameEnd(s, Step(cfg, s, event))
  {
  }

  lemma SettlingMarksOutput(cfg: Config, s: State, event: Event)
    requires !s.settled && Step(cfg, s, event).settled
    ensures
      var log := Step(cfg, s, event).log;
      log.outAtEnd == |log.heard| && log.errAtEnd == |log.heardErr|
  {
  }

  // Whatever comes later, a promise that resolved gives the tails of what stdout and stderr had
  // got at the event that settled it.
  lemma ResolvesWithTail(cfg: Config, events: seq<Event>, event: Event, more: seq<Event>)
    requires !Run(cfg, events).settled && Run(cfg, events + [event]).settled
    ensures
      var end, result := Run(cfg, events + [event]), Run(cfg, events + [event] + more).result;
      && result.Some?
      && (result.value.Resolved? ==>
            && result.value.stdout == Tail(end.log.heard, cfg.maxOutputBytes)
            && result.value.stderr == Tail(end.log.heardErr, cfg.maxOutputBytes))
  {
    assert (events + [event])[..|events|] == events;
    EveryRunIsSafe(cfg, events + [event]);
    SettlingMarksOutput(cfg, Run(cfg, events), event);
    SettledIsFinal(cfg, events + [event], more);
    var log := Run(cfg, events + [event]).log;
    assert log.heard[..|log.heard|] == log.heard && log.heardErr[..|log.heardErr|] == log.heardErr;
  }

  // Settling leaves no timer armed unless it happens inside the timeout's own kill.
  lemma SettlingLeavesTimer(cfg: Config, s: State, event: Event)
    requires Inv(cfg, s) && !s.settled && Step(cfg, s, event).settled
    ensures Step(cfg, s, event).timer.None? && !Step(cfg, s, event).heartbeat
    ensures Step(cfg, s, event).killWaitTimer.Some? <==> event.TimeoutFires?
  {
    StepKeeps(cfg, s, event);
  }

  // ... and it does happen there in this run, for every timeout.
  lemma TimeoutCanOutliveSettling(cfg: Config, message: string) returns (events: seq<Event>)
    requires cfg.timeoutMs.Some?
    ensures
      var s := Run(cfg, events);
      s.settled && s.result == Some(ChildError(message)) && s.killWaitTimer.Some?
  {
    var tick, fire := Tick(cfg.timeoutMs.value), TimeoutFires(Some(message));
    events := [tick, fire];
    assert events[..1] == [tick] && [tick][..0] == [];
    assert Run(cfg, [tick]) == Step(cfg, Init(cfg), tick);
    assert Run(cfg, events) == Step(cfg, Run(cfg, [tick]), fire);
  }

  // Unlike the locale tool's runner, this one reports success without saying that only the
  // tail of stdout was kept: what it returns is the whole output exactly when that fits.
  lemma SuccessMayBeTruncated(cfg: Config, events: seq<Event>)
    requires var s := Run(cfg, events); !s.settled && !s.timedOut && !s.forwarded
    ensures
      var s := Run(cfg, events);
      var closed := Step(cfg, s, Closed(Some(0)));
      && closed.result == Some(Resolved(0, s.stdout, s.stderr))
      && (s.stdout == s.log.heard <==> |s.log.heard| <= cfg.maxOutputBytes)
  {
    EveryRunIsSafe(cfg, events);
  }

  // ... and every output that does not fit is reported like this.
  lemma TruncatedSuccess(cfg: Config, output: string) returns (events: seq<Event>)
    requires |output| > cfg.maxOutputBytes
    ensures
      var s := Run(cfg, events);
      && s.log.heard == output && s.stdout != output
      && s.result == Some(Resolved(0, Tail(output, cfg.maxOutputBytes), ""))
  {
    var data, close := StdoutData(output), Closed(Some(0));
    events := [data, close];
    assert events[..1] == [data] && [data][..0] == [];
    assert Run(cfg, [data]) == Step(cfg, Init(cfg), data);
    assert "" + output == output;
    EveryRunIsSafe(cfg, [data]);
    assert Run(cfg, events) == Step(cfg, Run(cfg, [data]), close);
  }
}
