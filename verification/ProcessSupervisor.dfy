/**
 The child process runner of the locale tool: output capture, a timeout that asks the child
 to stop, a grace window before it is killed, and a promise settled once.

 `Step` gives the effect of each event on the runner's variables; the class `Supervisor`
 is the runner itself, every callback proved to do what `Step` says.
 */
module ProcessSupervisor {
  import opened Wrappers
  import opened OutputCapture

  datatype Config = Config(maxOutputChars: Positive, timeoutMs: nat, killGraceMs: nat, rejectOnFailure: bool, posix: bool)

  datatype Signal = SIGINT | SIGTERM | SIGHUP | SIGKILL

  datatype Exit = Exit(code: Option<int>, signal: Option<Signal>)

  // How the promise ends.
  datatype Settlement =
    | Resolved(code: int, stdout: string, stderr: Capture)
    | TimeoutError
    | FailureError
    | TooMuchOutputError
    | ChildError(message: string)

  // What the system makes of signalling the child: the process group (or tree) took the
  // signal, or the runner fell back to signalling the child alone, after noting `note` if
  // the group refused. Signalling the child alone may at once raise its error event.
  datatype Delivery = Delivered | Fallback(note: string, raised: Option<string>)

  // A signal sent to the child, when, and whether it relays one sent to the runner.
  datatype Sent = Sent(signal: Signal, at: nat, relayed: bool)

  datatype Event =
    | Tick(ms: nat)
    | StdoutData(chunk: string)
    | StderrData(chunk: string)
    | TimeoutFires(delivery: Delivery)
    | KillGraceFires(delivery: Delivery)
    | ErrorRaised(message: string)
    | Closed(exit: Exit, groupAlive: bool)
    | ParentSignal(signal: Signal, delivery: Delivery)

  // A record of the run: the signals sent, what stdout and stderr got, the notes of refused
  // signals included, how much of either had come when the promise settled, and how often it did.
  datatype Log = Log(
    sent: seq<Sent>, heard: string, heardErr: string, outAtEnd: nat, errAtEnd: nat, settlements: nat)

  // The runner's variables and the log, which it does not read. Timers hold the time they are due.
  datatype State = State(
    stdout: Capture, stderr: Capture, timedOut: bool, settled: bool, waitingForKillGrace: bool,
    childClosed: Option<Exit>, timeout: Option<nat>, killTimer: Option<nat>, handlers: set<Signal>,
    errorListening: bool, closeListening: bool, result: Option<Settlement>,
    now: nat, log: Log)

  function Init(cfg: Config): State {
    State(Capture("", 0), Capture("", 0), false, false, false, None, Some(cfg.timeoutMs), None,
          if cfg.posix then {SIGINT, SIGTERM, SIGHUP} else {SIGINT, SIGTERM},
          true, true, None, 0, Log([], "", "", 0, 0, 0))
  }

  function AtEnd(log: Log): Log {
    log.(outAtEnd := |log.heard|, errAtEnd := |log.heardErr|, settlements := log.settlements + 1)
  }

  function Settle(s: State, result: Settlement): State {
    if s.settled then s
    else s.(settled := true, timeout := None, killTimer := None, handlers := {}, result := Some(result),
            log := AtEnd(s.log))
  }

  function OnError(s: State, message: string): State {
    if s.errorListening then Settle(s.(errorListening := false), ChildError(message)) else s
  }

  function Logged(s: State, signal: Signal, relayed: bool): State {
    s.(log := s.log.(sent := s.log.sent + [Sent(signal, s.now, relayed)]))
  }

  function Noted(cfg: Config, s: State, note: string): State
  {
    s.(stderr := AppendBoundedProcessOutput(s.stderr, note, cfg.maxOutputChars),
       log := s.log.(heardErr := s.log.heardErr + note))
  }

  function SignalChild(cfg: Config, s: State, signal: Signal, relayed: bool, delivery: Delivery): State
  {
    match delivery
    case Delivered => Logged(s, signal, relayed)
    case Fallback(note, None) => Noted(cfg, Logged(s, signal, relayed), note)
    case Fallback(note, Some(message)) => OnError(Noted(cfg, Logged(s, signal, relayed), note), message)
  }

  function Verdict(cfg: Config, s: State, exit: Exit): Settlement {
    var code := if exit.code.Some? then exit.code.value else 1;
    if s.timedOut then TimeoutError
    else if code != 0 && cfg.rejectOnFailure then FailureError
    else if code == 0 && s.stdout.truncatedChars > 0 then TooMuchOutputError
    else Resolved(code, s.stdout.text, s.stderr)
  }

  function FinishClose(cfg: Config, s: State, exit: Exit): State {
    Settle(s, Verdict(cfg, s, exit))
  }

  function ScheduleKill(cfg: Config, s: State): State {
    if s.waitingForKillGrace then s
    else s.(waitingForKillGrace := true, killTimer := Some(s.now + cfg.killGraceMs))
  }

  // Settling on a close that was put off, if there is one.
  function FinishPutOff(cfg: Config, s: State): State {
    if s.childClosed.Some? then FinishClose(cfg, s, s.childClosed.value) else s
  }

  predicate Due(timer: Option<nat>, now: nat) {
    timer.Some? && timer.value <= now
  }

  // An event whose timer is not due, or whose listener is gone, has no effect.
  function Step(cfg: Config, s: State, event: Event): State
  {
    match event
    case Tick(ms) => s.(now := s.now + ms)
    case StdoutData(chunk) =>
      s.(stdout := AppendBoundedProcessOutput(s.stdout, chunk, cfg.maxOutputChars),
         log := s.log.(heard := s.log.heard + chunk))
    case StderrData(chunk) =>
      s.(stderr := AppendBoundedProcessOutput(s.stderr, chunk, cfg.maxOutputChars),
         log := s.log.(heardErr := s.log.heardErr + chunk))
    case TimeoutFires(delivery) =>
      if !Due(s.timeout, s.now) then s
      else ScheduleKill(cfg, SignalChild(cfg, s.(timeout := None, timedOut := true), SIGTERM, false, delivery))
    case KillGraceFires(delivery) =>
      if !Due(s.killTimer, s.now) then s
      else
        var due := s.(waitingForKillGrace := false, killTimer := None);
        FinishPutOff(cfg, SignalChild(cfg, due, SIGKILL, false, delivery))
    case ErrorRaised(message) => OnError(s, message)
    case Closed(exit, groupAlive) =>
      if !s.closeListening then s
      else if s.waitingForKillGrace && cfg.posix && groupAlive then
        s.(closeListening := false, childClosed := Some(exit))
      else FinishClose(cfg, s.(closeListening := false), exit)
    case ParentSignal(signal, delivery) =>
      if signal !in s.handlers then s
      else SignalChild(cfg, s, signal, true, delivery).(handlers := {})
  }

  function Run(cfg: Config, events: seq<Event>): State
  {
    if events == [] then Init(cfg) else Step(cfg, Run(cfg, events[..|events| - 1]), events[|events| - 1])
  }

  // ----- the runner -----

  class Supervisor {
    const cfg: Config
    var stdout: Capture
    var stderr: Capture
    var timedOut: bool
    var settled: bool
    var waitingForKillGrace: bool
    var childClosedResult: Option<Exit>
    var timeout: Option<nat>
    var killTimer: Option<nat>
    var parentSignalHandlers: set<Signal>
    var errorListening: bool
    var closeListening: bool
    var result: Option<Settlement>
    var now: nat
    ghost var log: Log

    ghost function View(): State
      reads this
    {
      State(stdout, stderr, timedOut, settled, waitingForKillGrace, childClosedResult, timeout, killTimer,
            parentSignalHandlers, errorListening, closeListening, result, now, log)
    }

    constructor (cfg: Config)
      ensures this.cfg == cfg && View() == Init(cfg)
    {
      this.cfg := cfg;
      stdout, stderr := Capture("", 0), Capture("", 0);
      timedOut, settled, waitingForKillGrace := false, false, false;
      childClosedResult, result := None, None;
      timeout, killTimer := Some(cfg.timeoutMs), None;
      parentSignalHandlers := if cfg.posix then {SIGINT, SIGTERM, SIGHUP} else {SIGINT, SIGTERM};
      errorListening, closeListening := true, true;
      now, log := 0, Log([], "", "", 0, 0, 0);
    }

    // Time goes by.
    method PassTime(ms: nat)
      modifies this`now
      ensures View() == Step(cfg, old(View()), Tick(ms))
    {
      now := now + ms;
    }

    method SettleOnce(outcome: Settlement)
      modifies this`settled, this`timeout, this`killTimer, this`parentSignalHandlers, this`result,
               this`log
      ensures View() == Settle(old(View()), outcome)
    {
      if settled {
        return;
      }
      settled := true;
      timeout := None;
      if killTimer.Some? {
        killTimer := None;
      }
      parentSignalHandlers := {};
      result := Some(outcome);
      log := AtEnd(log);
    }

    method HandleError(message: string)
      modifies this
      ensures View() == OnError(old(View()), message)
    {
      if errorListening {
        errorListening := false;
        SettleOnce(ChildError(message));
      }
    }

    method NoteRefusal(note: string)
      modifies this`stderr, this`log
      ensures View() == Noted(cfg, old(View()), note)
    {
      stderr := AppendBoundedProcessOutput(stderr, note, cfg.maxOutputChars);
      log := log.(heardErr := log.heardErr + note);
    }

    method SendSignal(signal: Signal, relayed: bool, delivery: Delivery)
      modifies this
      ensures View() == SignalChild(cfg, old(View()), signal, relayed, delivery)
    {
      log := log.(sent := log.sent + [Sent(signal, now, relayed)]);
      if delivery.Fallback? {
        NoteRefusal(delivery.note);
        if delivery.raised.Some? {
          HandleError(delivery.raised.value);
        }
      }
    }

    method Finish(exit: Exit)
      modifies this
      ensures View() == FinishClose(cfg, old(View()), exit)
    {
      var code := if exit.code.Some? then exit.code.value else 1;
      if timedOut {
        SettleOnce(TimeoutError);
      } else if code != 0 && cfg.rejectOnFailure {
        SettleOnce(FailureError);
      } else if code == 0 && stdout.truncatedChars > 0 {
        SettleOnce(TooMuchOutputError);
      } else {
        SettleOnce(Resolved(code, stdout.text, stderr));
      }
    }

    method HandleTimeout(delivery: Delivery)
      modifies this
      ensures View() == Step(cfg, old(View()), TimeoutFires(delivery))
    {
      if timeout.None? || timeout.value > now {
        return;
      }
      timeout := None;
      timedOut := true;
      SendSignal(SIGTERM, false, delivery);
      StartKillGrace();
    }

    method StartKillGrace()
      modifies this`waitingForKillGrace, this`killTimer
      ensures View() == ScheduleKill(cfg, old(View()))
    {
      if waitingForKillGrace {
        return;
      }
      waitingForKillGrace := true;
      killTimer := Some(now + cfg.killGraceMs);
    }

    method HandleKillGrace(delivery: Delivery)
      modifies this
      ensures View() == Step(cfg, old(View()), KillGraceFires(delivery))
    {
      if killTimer.None? || killTimer.value > now {
        return;
      }
      waitingForKillGrace := false;
      killTimer := None;
      SendSignal(SIGKILL, false, delivery);
      if childClosedResult.Some? {
        Finish(childClosedResult.value);
      }
    }

    method HandleClose(exit: Exit, groupAlive: bool)
      modifies this
      ensures View() == Step(cfg, old(View()), Closed(exit, groupAlive))
    {
      if !closeListening {
        return;
      }
      closeListening := false;
      if waitingForKillGrace && cfg.posix && groupAlive {
        childClosedResult := Some(exit);
        return;
      }
      Finish(exit);
    }

    method HandleParentSignal(signal: Signal, delivery: Delivery)
      modifies this
      ensures View() == Step(cfg, old(View()), ParentSignal(signal, delivery))
    {
      if signal in parentSignalHandlers {
        SendSignal(signal, true, delivery);
        parentSignalHandlers := {};
      }
    }

    method HandleStdout(chunk: string)
      modifies this`stdout, this`log
      ensures View() == Step(cfg, old(View()), StdoutData(chunk))
    {
      stdout := AppendBoundedProcessOutput(stdout, chunk, cfg.maxOutputChars);
      log := log.(heard := log.heard + chunk);
    }

    method HandleStderr(chunk: string)
      modifies this`stderr, this`log
      ensures View() == Step(cfg, old(View()), StderrData(chunk))
    {
      stderr := AppendBoundedProcessOutput(stderr, chunk, cfg.maxOutputChars);
      log := log.(heardErr := log.heardErr + chunk);
    }
  }

  // ----- every run -----

  // A SIGTERM of the runner's own went out at least the grace window before this moment.
  predicate AskedToStop(cfg: Config, sent: seq<Sent>, at: nat) {
    exists i :: 0 <= i < |sent| && sent[i].signal == SIGTERM && !sent[i].relayed && sent[i].at + cfg.killGraceMs <= at
  }

  // ... exactly the grace window before.
  predicate AskedAt(cfg: Config, sent: seq<Sent>, at: nat) {
    exists i :: 0 <= i < |sent| && sent[i].signal == SIGTERM && !sent[i].relayed && sent[i].at + cfg.killGraceMs == at
  }

  // Every SIGKILL comes after a SIGTERM of the runner's own and the grace window.
  predicate KillsAfterGrace(cfg: Config, sent: seq<Sent>) {
    forall k | 0 <= k < |sent| && sent[k].signal == SIGKILL :: AskedToStop(cfg, sent[..k], sent[k].at)
  }

  predicate Killed(sent: seq<Sent>) {
    exists i :: 0 <= i < |sent| && sent[i].signal == SIGKILL
  }

  // What a promise that resolved says: nothing timed out, a failure was acceptable, and stdout
  // and stderr are the tails of what had come when it settled, stdout all of it on success.
  predicate HonestResolve(cfg: Config, s: State) {
    s.result.Some? && s.result.value.Resolved? ==>
      && !s.timedOut
      && (cfg.rejectOnFailure ==> s.result.value.code == 0)
      && s.log.outAtEnd <= |s.log.heard| && s.log.errAtEnd <= |s.log.heardErr|
      && s.result.value.stdout == Tail(s.log.heard[..s.log.outAtEnd], cfg.maxOutputChars)
      && (s.result.value.code == 0 ==> s.result.value.stdout == s.log.heard[..s.log.outAtEnd])
      && s.result.value.stderr == Captured(s.log.heardErr[..s.log.errAtEnd], cfg.maxOutputChars)
  }

  predicate Settlements(s: State) {
    && s.log.settlements == (if s.settled then 1 else 0)
    && (s.settled <==> s.result.Some?)
    && (s.settled ==> s.timeout == None && s.handlers == {})
  }

  // The timers: the timeout is armed until it fires or the promise settles, the kill timer
  // only after a SIGTERM.
  predicate Timers(cfg: Config, s: State) {
    && (!s.settled ==> (s.timeout.Some? <==> !s.timedOut))
    && (s.timeout.Some? ==> !s.timedOut && !s.waitingForKillGrace && s.killTimer.None?)
    && (!s.settled && s.waitingForKillGrace ==> s.killTimer.Some?)
    && (!s.waitingForKillGrace ==> s.killTimer.None?)
    && (s.waitingForKillGrace ==> s.timedOut)
    && (s.timeout.Some? ==> s.timeout.value == cfg.timeoutMs)
    && (s.killTimer.Some? ==> AskedAt(cfg, s.log.sent, s.killTimer.value))
    && SIGKILL !in s.handlers
  }

  // An unsettled run: its close is put off exactly when it has come, with the kill timer
  // armed, and after a timeout that timer is armed or has sent its SIGKILL.
  predicate Closing(s: State) {
    !s.settled ==>
      && s.errorListening
      && (s.childClosed.Some? <==> !s.closeListening)
      && (s.childClosed.Some? ==> s.killTimer.Some?)
      && (s.timedOut && s.killTimer.None? ==> Killed(s.log.sent))
  }

  predicate Captures(cfg: Config, s: State) {
    && s.stdout == Captured(s.log.heard, cfg.maxOutputChars)
    && s.stderr == Captured(s.log.heardErr, cfg.maxOutputChars)
    && s.log.outAtEnd <= |s.log.heard| && s.log.errAtEnd <= |s.log.heardErr|
  }

  // What holds even between the statements of a callback.
  predicate Core(cfg: Config, s: State) {
    Settlements(s) && Timers(cfg, s) && KillsAfterGrace(cfg, s.log.sent) && Captures(cfg, s) && HonestResolve(cfg, s)
  }

  predicate Inv(cfg: Config, s: State) {
    Core(cfg, s) && Closing(s)
  }

  lemma LogKeeps(cfg: Config, sent: seq<Sent>, one: Sent, at: nat)
    requires AskedAt(cfg, sent, at)
    ensures AskedAt(cfg, sent + [one], at)
  {
    var i :| 0 <= i < |sent| && sent[i].signal == SIGTERM && !sent[i].relayed && sent[i].at + cfg.killGraceMs == at;
    assert (sent + [one])[i] == sent[i];
  }

  lemma LogKill(cfg: Config, sent: seq<Sent>, one: Sent)
    requires KillsAfterGrace(cfg, sent) && (one.signal == SIGKILL ==> AskedToStop(cfg, sent, one.at))
    ensures KillsAfterGrace(cfg, sent + [one])
  {
    var all := sent + [one];
    forall k | 0 <= k < |all| && all[k].signal == SIGKILL
      ensures AskedToStop(cfg, all[..k], all[k].at)
    {
      assert all[..k] == sent[..k];
      assert sent[..|sent|] == sent;
    }
  }

  lemma KilledStays(sent: seq<Sent>, one: Sent)
    ensures Killed(sent) || one.signal == SIGKILL ==> Killed(sent + [one])
  {
    assert (sent + [one])[|sent|] == one;
    assert forall i | 0 <= i < |sent| :: (sent + [one])[i] == sent[i];
  }

  lemma SettleKeeps(cfg: Config, s: State, result: Settlement)
    requires Core(cfg, s)
    requires result.Resolved? ==>
               && !s.timedOut && (cfg.rejectOnFailure ==> result.code == 0)
               && result.stdout == s.stdout.text && result.stderr == s.stderr
               && (result.code == 0 ==> s.stdout.truncatedChars == 0)
    ensures Inv(cfg, Settle(s, result)) || s.settled
    ensures Core(cfg, Settle(s, result)) && Settle(s, result).settled
  {
    assert s.log.heard[..|s.log.heard|] == s.log.heard && s.log.heardErr[..|s.log.heardErr|] == s.log.heardErr;
  }

  lemma LoggedKeeps(cfg: Config, s: State, signal: Signal, relayed: bool)
    requires Core(cfg, s)
    requires signal == SIGKILL ==> AskedToStop(cfg, s.log.sent, s.now)
    ensures Core(cfg, Logged(s, signal, relayed))
    ensures Closing(s) ==> Closing(Logged(s, signal, relayed))
  {
    var one := Sent(signal, s.now, relayed);
    LogKill(cfg, s.log.sent, one);
    KilledStays(s.log.sent, one);
    if s.killTimer.Some? {
      LogKeeps(cfg, s.log.sent, one, s.killTimer.value);
    }
  }

  // A refused signal's note counts as output: stderr stays the tail of all chunks and notes.
  lemma NotedKeeps(cfg: Config, s: State, note: string)
    requires Core(cfg, s)
    ensures Core(cfg, Noted(cfg, s, note))
  {
    AppendKeepsTail(s.log.heardErr, note, cfg.maxOutputChars);
    assert (s.log.heardErr + note)[..s.log.errAtEnd] == s.log.heardErr[..s.log.errAtEnd];
  }

  lemma SignalKeeps(cfg: Config, s: State, signal: Signal, relayed: bool, delivery: Delivery)
    requires Core(cfg, s)
    requires signal == SIGKILL ==> AskedToStop(cfg, s.log.sent, s.now)
    ensures Core(cfg, SignalChild(cfg, s, signal, relayed, delivery))
    ensures Closing(s) ==> Closing(SignalChild(cfg, s, signal, relayed, delivery))
  {
    var logged := Logged(s, signal, relayed);
    LoggedKeeps(cfg, s, signal, relayed);
    if delivery.Fallback? {
      NotedKeeps(cfg, logged, delivery.note);
      if delivery.raised.Some? && logged.errorListening {
        var noted := Noted(cfg, logged, delivery.note);
        SettleKeeps(cfg, noted.(errorListening := false), ChildError(delivery.raised.value));
      }
    }
  }

  // Asking the child to stop.
  lemma TimeoutKeeps(cfg: Config, s: State, delivery: Delivery)
    requires Inv(cfg, s) && Due(s.timeout, s.now)
    ensures Inv(cfg, Step(cfg, s, TimeoutFires(delivery)))
  {
    var fired := s.(timeout := None, timedOut := true);
    SignalKeeps(cfg, fired, SIGTERM, false, delivery);
    var sent := SignalChild(cfg, fired, SIGTERM, false, delivery).log.sent;
    assert sent == s.log.sent + [Sent(SIGTERM, s.now, false)];
    assert sent[|s.log.sent|] == Sent(SIGTERM, s.now, false);
    assert AskedAt(cfg, sent, s.now + cfg.killGraceMs);
  }

  // Killing it after the grace window.
  lemma KillKeeps(cfg: Config, s: State, delivery: Delivery)
    requires Inv(cfg, s) && Due(s.killTimer, s.now)
    ensures Inv(cfg, Step(cfg, s, KillGraceFires(delivery)))
    ensures s.childClosed.Some? ==> Step(cfg, s, KillGraceFires(delivery)).settled
  {
    var due := s.(waitingForKillGrace := false, killTimer := None);
    DueKeeps(cfg, s, due);
    var killed := KillSignal(cfg, due, delivery);
    AfterKill(cfg, killed);
  }

  lemma KillSignal(cfg: Config, due: State, delivery: Delivery) returns (killed: State)
    requires Core(cfg, due) && AskedToStop(cfg, due.log.sent, due.now)
    ensures killed == SignalChild(cfg, due, SIGKILL, false, delivery)
    ensures Core(cfg, killed) && Killed(killed.log.sent)
    ensures killed.childClosed == due.childClosed && killed.closeListening == due.closeListening
    ensures due.errorListening && !killed.errorListening ==> killed.settled
  {
    killed := SignalChild(cfg, due, SIGKILL, false, delivery);
    SignalKeeps(cfg, due, SIGKILL, false, delivery);
    SignalFrame(cfg, due, SIGKILL, false, delivery);
    KilledStays(due.log.sent, Sent(SIGKILL, due.now, false));
  }

  lemma DueKeeps(cfg: Config, s: State, due: State)
    requires Inv(cfg, s) && Due(s.killTimer, s.now)
    requires due == s.(waitingForKillGrace := false, killTimer := None)
    ensures Core(cfg, due) && AskedToStop(cfg, due.log.sent, due.now)
    ensures !due.settled && due.childClosed.None? ==> due.errorListening && due.closeListening
  {
    AskedBefore(cfg, s.log.sent, s.killTimer.value, s.now);
  }

  lemma SignalFrame(cfg: Config, s: State, signal: Signal, relayed: bool, delivery: Delivery)
    ensures
      var signalled := SignalChild(cfg, s, signal, relayed, delivery);
      && signalled.log.sent == s.log.sent + [Sent(signal, s.now, relayed)]
      && signalled.childClosed == s.childClosed && signalled.closeListening == s.closeListening
      && (s.errorListening && !signalled.errorListening ==> signalled.settled)
      && (!s.settled && signalled.settled ==> MarksAll(signalled))
  {
    if delivery.Fallback? && delivery.raised.Some? {
      ErrorFrame(Noted(cfg, Logged(s, signal, relayed), delivery.note), delivery.raised.value);
    }
  }

  lemma ErrorFrame(s: State, message: string)
    ensures
      var after := OnError(s, message);
      && after.log.sent == s.log.sent
      && after.childClosed == s.childClosed && after.closeListening == s.closeListening
      && (s.errorListening && !after.errorListening ==> after.settled)
      && (!s.settled && after.settled ==> MarksAll(after))
  {
  }

  predicate MarksAll(s: State) {
    s.log.outAtEnd == |s.log.heard| && s.log.errAtEnd == |s.log.heardErr|
  }

  // Settling then if the close was put off.
  lemma AfterKill(cfg: Config, killed: State)
    requires Core(cfg, killed) && Killed(killed.log.sent)
    requires !killed.settled && killed.childClosed.None? ==> killed.errorListening && killed.closeListening
    ensures Inv(cfg, FinishPutOff(cfg, killed)) && (killed.childClosed.Some? ==> FinishPutOff(cfg, killed).settled)
  {
  }

  lemma AskedBefore(cfg: Config, sent: seq<Sent>, at: nat, later: nat)
    requires AskedAt(cfg, sent, at) && at <= later
    ensures AskedToStop(cfg, sent, later)
  {
    var i :| 0 <= i < |sent| && sent[i].signal == SIGTERM && !sent[i].relayed && sent[i].at + cfg.killGraceMs == at;
    assert sent[i].at + cfg.killGraceMs <= later;
  }

  lemma StepKeeps(cfg: Config, s: State, event: Event)
    requires Inv(cfg, s)
    ensures Inv(cfg, Step(cfg, s, event))
  {
    match event
    case Tick(_) =>
    case StdoutData(chunk) =>
      AppendKeepsTail(s.log.heard, chunk, cfg.maxOutputChars);
      assert (s.log.heard + chunk)[..s.log.outAtEnd] == s.log.heard[..s.log.outAtEnd];
    case StderrData(chunk) =>
      NotedKeeps(cfg, s, chunk);
    case TimeoutFires(delivery) =>
      if Due(s.timeout, s.now) {
        TimeoutKeeps(cfg, s, delivery);
      }
    case KillGraceFires(delivery) =>
      if Due(s.killTimer, s.now) {
        KillKeeps(cfg, s, delivery);
      }
    case ErrorRaised(message) =>
      if s.errorListening {
        SettleKeeps(cfg, s.(errorListening := false), ChildError(message));
      }
    case Closed(exit, groupAlive) =>
    case ParentSignal(signal, delivery) =>
      if signal in s.handlers {
        SignalKeeps(cfg, s, signal, true, delivery);
      }
  }

  // In every run: one settlement at most, no SIGKILL before the grace window has passed since
  // a SIGTERM, a deferred close always followed by the kill timer, and honest results.
  lemma {:induction false} EveryRunIsSafe(cfg: Config, events: seq<Event>)
    ensures Inv(cfg, Run(cfg, events)) && Run(cfg, events).log.settlements <= 1
    decreases |events|
  {
    if events != [] {
      EveryRunIsSafe(cfg, events[..|events| - 1]);
      StepKeeps(cfg, Run(cfg, events[..|events| - 1]), events[|events| - 1]);
    }
  }

  // What is settled for good: the result and how much output it is about.
  predicate SameEnd(a: State, b: State) {
    && a.settled && b.settled && a.result == b.result
    && a.log.outAtEnd == b.log.outAtEnd && a.log.errAtEnd == b.log.errAtEnd
  }

  lemma SettledSignal(cfg: Config, s: State, signal: Signal, relayed: bool, delivery: Delivery)
    requires s.settled
    ensures SameEnd(s, SignalChild(cfg, s, signal, relayed, delivery))
  {
  }

  lemma SettledStep(cfg: Config, s: State, event: Event)
    requires s.settled
    ensures SameEnd(s, Step(cfg, s, event))
  {
    match event
    case TimeoutFires(delivery) =>
      SettledSignal(cfg, s.(timeout := None, timedOut := true), SIGTERM, false, delivery);
    case KillGraceFires(delivery) =>
      SettledSignal(cfg, s.(waitingForKillGrace := false, killTimer := None), SIGKILL, false, delivery);
    case ParentSignal(signal, delivery) =>
      SettledSignal(cfg, s, signal, true, delivery);
    case _ =>
  }

  // Once settled, a run's result is final, and so is how much output it is about.
  lemma {:induction false} SettledIsFinal(cfg: Config, events: seq<Event>, more: seq<Event>)
    requires Run(cfg, events).settled
    ensures SameEnd(Run(cfg, events), Run(cfg, events + more))
    decreases |more|
  {
    if more == [] {
      assert events + more == events;
    } else {
      assert (events + more)[..|events + more| - 1] == events + more[..|more| - 1];
      SettledIsFinal(cfg, events, more[..|more| - 1]);
      SettledStep(cfg, Run(cfg, events + more[..|more| - 1]), more[|more| - 1]);
    }
  }

  // The event that settles a run marks all that has come by then.
  lemma SettlingMarksOutput(cfg: Config, s: State, event: Event)
    requires !s.settled && Step(cfg, s, event).settled
    ensures MarksAll(Step(cfg, s, event))
  {
    match event
    case TimeoutFires(delivery) =>
      SignalFrame(cfg, s.(timeout := None, timedOut := true), SIGTERM, false, delivery);
    case KillGraceFires(delivery) =>
      SignalFrame(cfg, s.(waitingForKillGrace := false, killTimer := None), SIGKILL, false, delivery);
    case ParentSignal(signal, delivery) =>
      SignalFrame(cfg, s, signal, true, delivery);
    case _ =>
  }

  // So whatever comes later, a promise that resolved gives the tail of what stdout and stderr
  // had got at that event, all of stdout if the child exited with 0.
  lemma ResolvesWithOutput(cfg: Config, events: seq<Event>, event: Event, more: seq<Event>)
    requires !Run(cfg, events).settled && Run(cfg, events + [event]).settled
    ensures
      var end, result := Run(cfg, events + [event]), Run(cfg, events + [event] + more).result;
      && result.Some?
      && (result.value.Resolved? ==>
            && result.value.stdout == Tail(end.log.heard, cfg.maxOutputChars)
            && (result.value.code == 0 ==> result.value.stdout == end.log.heard)
            && result.value.stderr == Captured(end.log.heardErr, cfg.maxOutputChars))
  {
    assert (events + [event])[..|events|] == events;
    EveryRunIsSafe(cfg, events + [event]);
    SettlingMarksOutput(cfg, Run(cfg, events), event);
    SettledIsFinal(cfg, events + [event], more);
    var log := Run(cfg, events + [event]).log;
    assert log.heard[..|log.heard|] == log.heard && log.heardErr[..|log.heardErr|] == log.heardErr;
  }

  // ----- what each event does -----

  // The error raised while a signal is sent, if any.
  predicate Raises(delivery: Delivery) {
    delivery.Fallback? && delivery.raised.Some?
  }

  // The signal an event makes the runner send.
  function SignalOf(s: State, event: Event): seq<Sent> {
    match event
    case TimeoutFires(_) => if s.timeout.Some? && s.timeout.value <= s.now then [Sent(SIGTERM, s.now, false)] else []
    case KillGraceFires(_) =>
      if s.killTimer.Some? && s.killTimer.value <= s.now then [Sent(SIGKILL, s.now, false)] else []
    case ParentSignal(signal, _) => if signal in s.handlers then [Sent(signal, s.now, true)] else []
    case _ => []
  }

  // The error of a child that could not be signalled, as far as the runner is still listening.
  function RaisedBy(event: Event): Option<string> {
    match event
    case TimeoutFires(Fallback(_, raised)) => raised
    case KillGraceFires(Fallback(_, raised)) => raised
    case ParentSignal(_, Fallback(_, raised)) => raised
    case _ => None
  }

  // How an event settles a run, if it does: an error at once, also one raised while the child is
  // signalled; a close unless it is put off, or when the child has been killed after it was.
  function SettlementBy(cfg: Config, s: State, event: Event): Option<Settlement> {
    var signals := SignalOf(s, event) != [];
    match event
    case ErrorRaised(message) => Some(ChildError(message))
    case Closed(exit, groupAlive) =>
      if !s.closeListening || (s.waitingForKillGrace && cfg.posix && groupAlive) then None
      else Some(CloseMeans(cfg, s, match exit.code case Some(code) => code case None => 1))
    case KillGraceFires(_) =>
      if !signals then None
      else if RaisedBy(event).Some? then Some(ChildError(RaisedBy(event).value))
      else if s.childClosed.Some? then Some(TimeoutError)
      else None
    case _ =>
      if signals && RaisedBy(event).Some? then Some(ChildError(RaisedBy(event).value)) else None
  }

  // What a close with this exit code means, stated on what the child wrote.
  function CloseMeans(cfg: Config, s: State, code: int): Settlement {
    var max := cfg.maxOutputChars;
    if s.timedOut then TimeoutError
    else if code != 0 && cfg.rejectOnFailure then FailureError
    else if code == 0 && |s.log.heard| > max then TooMuchOutputError
    else Resolved(code, Tail(s.log.heard, max), Captured(s.log.heardErr, max))
  }

  // In every open run an event settles it exactly as it should, or leaves it open.
  lemma SettlesAsItShould(cfg: Config, s: State, event: Event)
    requires Inv(cfg, s) && !s.settled
    ensures Step(cfg, s, event).result == SettlementBy(cfg, s, event)
  {
    match event
    case TimeoutFires(delivery) =>
      SignalSettles(cfg, s.(timeout := None, timedOut := true), SIGTERM, false, delivery);
    case KillGraceFires(delivery) =>
      SignalSettles(cfg, s.(waitingForKillGrace := false, killTimer := None), SIGKILL, false, delivery);
    case ParentSignal(signal, delivery) =>
      SignalSettles(cfg, s, signal, true, delivery);
    case _ =>
  }

  lemma SignalSettles(cfg: Config, s: State, signal: Signal, relayed: bool, delivery: Delivery)
    requires !s.settled && s.errorListening
    ensures
      var signalled := SignalChild(cfg, s, signal, relayed, delivery);
      && (signalled.settled <==> Raises(delivery))
      && signalled.result == (if Raises(delivery) then Some(ChildError(delivery.raised.value)) else s.result)
      && signalled.childClosed == s.childClosed && signalled.timedOut == s.timedOut
  {
  }

  // What an event adds to stdout, to stderr, the notes of refused signals included, and to time.
  function OutOf(event: Event): string {
    if event.StdoutData? then event.chunk else ""
  }

  function ErrOf(s: State, event: Event): string {
    match event
    case StderrData(chunk) => chunk
    case TimeoutFires(Fallback(note, _)) => if SignalOf(s, event) != [] then note else ""
    case KillGraceFires(Fallback(note, _)) => if SignalOf(s, event) != [] then note else ""
    case ParentSignal(_, Fallback(note, _)) => if SignalOf(s, event) != [] then note else ""
    case _ => ""
  }

  function TimeOf(event: Event): nat {
    if event.Tick? then event.ms else 0
  }

  // In every state an event sends the signal it should, and nothing heard, noted or waited for
  // goes unrecorded.
  lemma RecordsAsItShould(cfg: Config, s: State, event: Event)
    ensures
      var after := Step(cfg, s, event);
      && after.log.sent == s.log.sent + SignalOf(s, event)
      && after.log.heard == s.log.heard + OutOf(event)
      && after.log.heardErr == s.log.heardErr + ErrOf(s, event)
      && after.now == s.now + TimeOf(event)
  {
    assert s.log.sent + [] == s.log.sent && s.log.heard + "" == s.log.heard && s.log.heardErr + "" == s.log.heardErr;
    match event
    case TimeoutFires(delivery) =>
      SignalRecords(cfg, s.(timeout := None, timedOut := true), SIGTERM, false, delivery);
    case KillGraceFires(delivery) =>
      SignalRecords(cfg, s.(waitingForKillGrace := false, killTimer := None), SIGKILL, false, delivery);
    case ParentSignal(signal, delivery) =>
      SignalRecords(cfg, s, signal, true, delivery);
    case _ =>
  }

  lemma SignalRecords(cfg: Config, s: State, signal: Signal, relayed: bool, delivery: Delivery)
    ensures
      var log := SignalChild(cfg, s, signal, relayed, delivery).log;
      && log.sent == s.log.sent + [Sent(signal, s.now, relayed)]
      && log.heard == s.log.heard
      && log.heardErr == s.log.heardErr + (if delivery.Fallback? then delivery.note else "")
      && SignalChild(cfg, s, signal, relayed, delivery).now == s.now
  {
    assert s.log.heardErr + "" == s.log.heardErr;
  }

  function Written(events: seq<Event>): string {
    if events == [] then "" else Written(events[..|events| - 1]) + OutOf(events[|events| - 1])
  }

  function Elapsed(events: seq<Event>): nat {
    if events == [] then 0 else Elapsed(events[..|events| - 1]) + TimeOf(events[|events| - 1])
  }

  // So what a run has heard is what the child wrote, and its clock the time that went by.
  lemma {:induction false} HearsAll(cfg: Config, events: seq<Event>)
    ensures Run(cfg, events).log.heard == Written(events) && Run(cfg, events).now == Elapsed(events)
    decreases |events|
  {
    if events != [] {
      var front := events[..|events| - 1];
      HearsAll(cfg, front);
      RecordsAsItShould(cfg, Run(cfg, front), events[|events| - 1]);
    }
  }

  // ----- timers and relayed signals -----

  // The timeout fires when it is due, once, and not earlier.
  lemma TimeoutIsOnTime(cfg: Config, events: seq<Event>, delivery: Delivery)
    requires !Run(cfg, events).settled
    ensures Step(cfg, Run(cfg, events), TimeoutFires(delivery)).timedOut
       <==> Run(cfg, events).timedOut || cfg.timeoutMs <= Elapsed(events)
  {
    EveryRunIsSafe(cfg, events);
    HearsAll(cfg, events);
    var s := Run(cfg, events);
    if Due(s.timeout, s.now) {
      SignalSettles(cfg, s.(timeout := None, timedOut := true), SIGTERM, false, delivery);
    }
  }

  predicate Relayed(sent: seq<Sent>) {
    exists i :: 0 <= i < |sent| && sent[i].relayed
  }

  // The signals to the tool that are passed on.
  function PassedOn(cfg: Config): set<Signal> {
    {SIGINT, SIGTERM} + if cfg.posix then {SIGHUP} else {}
  }

  ghost predicate RelaysFirst(cfg: Config, s: State) {
    && s.handlers == (if s.settled || Relayed(s.log.sent) then {} else PassedOn(cfg))
    && forall i, j | 0 <= i < j < |s.log.sent| :: !(s.log.sent[i].relayed && s.log.sent[j].relayed)
  }

  lemma StepRelays(cfg: Config, s: State, event: Event)
    requires RelaysFirst(cfg, s)
    ensures RelaysFirst(cfg, Step(cfg, s, event))
  {
    RecordsAsItShould(cfg, s, event);
    HandlersAfter(cfg, s, event);
    var sent := s.log.sent + SignalOf(s, event);
    assert forall i | 0 <= i < |s.log.sent| :: sent[i] == s.log.sent[i];
    if SignalOf(s, event) != [] {
      assert sent[|s.log.sent|] == SignalOf(s, event)[0];
    }
  }

  lemma HandlersAfter(cfg: Config, s: State, event: Event)
    ensures
      var after := Step(cfg, s, event);
      && (after.handlers == s.handlers || after.handlers == {})
      && (s.settled ==> after.settled)
      && (after.handlers != s.handlers ==> after.settled || (event.ParentSignal? && SignalOf(s, event) != []))
      && (!s.settled && after.settled ==> after.handlers == {})
      && (event.ParentSignal? && SignalOf(s, event) != [] ==> after.handlers == {})
  {
    match event
    case TimeoutFires(delivery) =>
      SignalHandlers(cfg, s.(timeout := None, timedOut := true), SIGTERM, false, delivery);
    case KillGraceFires(delivery) =>
      SignalHandlers(cfg, s.(waitingForKillGrace := false, killTimer := None), SIGKILL, false, delivery);
    case ParentSignal(signal, delivery) =>
      SignalHandlers(cfg, s, signal, true, delivery);
    case _ =>
  }

  lemma SignalHandlers(cfg: Config, s: State, signal: Signal, relayed: bool, delivery: Delivery)
    ensures
      var after := SignalChild(cfg, s, signal, relayed, delivery);
      && (s.settled ==> after.settled)
      && after.handlers == (if !s.settled && after.settled then {} else s.handlers)
  {
  }

  // A signal to the tool is sent on to the child, that signal and once: the first in the run,
  // while it is open, and no other.
  lemma {:induction false} RelaysTheFirst(cfg: Config, events: seq<Event>)
    ensures RelaysFirst(cfg, Run(cfg, events))
    decreases |events|
  {
    if events != [] {
      RelaysTheFirst(cfg, events[..|events| - 1]);
      StepRelays(cfg, Run(cfg, events[..|events| - 1]), events[|events| - 1]);
    }
  }

  // The child's error event arriving while the timeout is signalling it.
  predicate RaisesInTimeout(event: Event) {
    event.TimeoutFires? && event.delivery.Fallback? && event.delivery.raised.Some?
  }

  // Settling clears every timer and handler, except in the one case where it happens inside
  // the timeout's own signal: the timeout goes on to arm the kill timer of a settled run.
  lemma SettlingLeavesTimer(cfg: Config, s: State, event: Event)
    requires Inv(cfg, s) && !s.settled && Step(cfg, s, event).settled
    ensures Step(cfg, s, event).timeout == None && Step(cfg, s, event).handlers == {}
    ensures Step(cfg, s, event).killTimer.Some? <==> RaisesInTimeout(event)
  {
    StepKeeps(cfg, s, event);
  }

  predicate Quiet(s: State) {
    s.settled ==> s.timeout == None && s.killTimer == None && s.handlers == {}
  }

  lemma QuietStep(cfg: Config, s: State, event: Event)
    requires Inv(cfg, s) && Quiet(s) && !RaisesInTimeout(event)
    ensures Quiet(Step(cfg, s, event))
  {
    if !s.settled && Step(cfg, s, event).settled {
      SettlingLeavesTimer(cfg, s, event);
    }
  }

  // So in a run in which that never happens, a settled run has no timer and no handler left.
  lemma {:induction false} SettledRunsAreQuiet(cfg: Config, events: seq<Event>)
    requires forall i | 0 <= i < |events| :: !RaisesInTimeout(events[i])
    ensures Quiet(Run(cfg, events))
    decreases |events|
  {
    if events != [] {
      var front := events[..|events| - 1];
      SettledRunsAreQuiet(cfg, front);
      EveryRunIsSafe(cfg, front);
      QuietStep(cfg, Run(cfg, front), events[|events| - 1]);
    }
  }

  // ... and when it does, the run is settled with its kill timer armed, and a SIGKILL follows.
  lemma TimeoutCanKillAfterSettling(cfg: Config) returns (events: seq<Event>)
    ensures Run(cfg, events).settled && Run(cfg, events).killTimer.Some?
    ensures
      var later := Step(cfg, Step(cfg, Run(cfg, events), Tick(cfg.killGraceMs)), KillGraceFires(Delivered));
      later.log.sent != [] && later.log.sent[|later.log.sent| - 1].signal == SIGKILL
  {
    var tick, fire := Tick(cfg.timeoutMs), TimeoutFires(Fallback("", Some("EPERM")));
    events := [tick, fire];
    assert events[..1] == [tick] && [tick][..0] == [];
    assert Run(cfg, [tick]) == Step(cfg, Init(cfg), tick);
    assert Run(cfg, events) == Step(cfg, Run(cfg, [tick]), fire);
  }

  // A child that closes settles the promise at once, unless its group outlives it in the
  // grace window. Then the group is still killed, and the promise settled, when the kill timer
  // that is armed comes due.
  lemma CloseSettles(cfg: Config, s: State, exit: Exit, groupAlive: bool, delivery: Delivery, wait: nat)
    requires Inv(cfg, s) && !s.settled && s.closeListening
    ensures
      var closed := Step(cfg, s, Closed(exit, groupAlive));
      && (closed.settled <==> !(cfg.posix && groupAlive && s.waitingForKillGrace))
      && (!closed.settled ==>
            && closed.killTimer.Some?
            && (closed.now + wait >= closed.killTimer.value ==>
                  var killed := Step(cfg, Step(cfg, closed, Tick(wait)), KillGraceFires(delivery));
                  && killed.settled && !killed.result.value.Resolved?
                  && killed.log.sent == s.log.sent + [Sent(SIGKILL, s.now + wait, false)]))
  {
    var closed := Step(cfg, s, Closed(exit, groupAlive));
    StepKeeps(cfg, s, Closed(exit, groupAlive));
    if !closed.settled {
      var later := Step(cfg, closed, Tick(wait));
      StepKeeps(cfg, closed, Tick(wait));
      if Due(later.killTimer, later.now) {
        KillKeeps(cfg, later, delivery);
        StepKeeps(cfg, later, KillGraceFires(delivery));
      }
    }
  }

  // A close before the timeout resolves exactly when the command succeeded and its whole
  // stdout was kept, or failed and failures are acceptable.
  lemma ResolvesExactly(cfg: Config, events: seq<Event>, exit: Exit, groupAlive: bool)
    requires var s := Run(cfg, events); !s.settled && !s.timedOut && s.closeListening
    ensures
      var s := Run(cfg, events);
      var closed := Step(cfg, s, Closed(exit, groupAlive));
      && closed.result.Some?
      && (closed.result.value.Resolved? <==>
            if exit.code == Some(0) then |s.log.heard| <= cfg.maxOutputChars else !cfg.rejectOnFailure)
      && (closed.result.value.Resolved? && exit.code == Some(0) ==> closed.result.value.stdout == s.log.heard)
  {
    EveryRunIsSafe(cfg, events);
  }

  // The promise can stay open with no timer left in one way only: the child was killed and
  // its close has not been reported.
  lemma OpenWithoutTimers(cfg: Config, events: seq<Event>)
    ensures
      var s := Run(cfg, events);
      !s.settled && s.timeout.None? && s.killTimer.None? ==>
        && s.timedOut && s.closeListening
        && exists i :: 0 <= i < |s.log.sent| && s.log.sent[i].signal == SIGKILL
  {
    EveryRunIsSafe(cfg, events);
  }
}
