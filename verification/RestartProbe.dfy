/**
 Polling a health endpoint through one gateway restart: the state changes seen, the
 downtime, and when the service counts as back.
 */
module RestartProbe {
  import opened Wrappers
  import opened Text

  // The endpoint's answer to one attempt, or the kind of error it met.
  datatype Attempt = Answered(status: nat) | Failed(kind: string)

  // One pass of the polling loop: what the two conditions say before the attempt, the attempt
  // and when it returned.
  datatype Poll = Poll(processDone: bool, done: bool, attempt: Attempt, elapsedMs: int)

  datatype Transition = Transition(ms: int, attempt: Attempt)

  datatype ProbeResult = ProbeResult(
    downtimeMs: Option<int>, firstErrorKind: Option<string>, firstRecoveryMs: Option<int>, ms: Option<int>,
    status: Option<nat>, transitions: seq<Transition>, unavailableMs: Option<int>)

  function StatusOf(a: Attempt): Option<nat> {
    if a.Answered? then Some(a.status) else None
  }

  function ErrorKindOf(a: Attempt): Option<string> {
    match a
    case Answered(status) => if status == 200 then None else Some("http-" + Digits(status))
    case Failed(kind) => Some(kind)
  }

  function StateKey(a: Attempt): string {
    var status := if a.Answered? then Digits(a.status) else "none";
    var kind := if ErrorKindOf(a).Some? then ErrorKindOf(a).value else "ok";
    status + ":" + kind
  }

  function ColonAt(s: string): nat {
    if s == "" || s[0] == ':' then 0 else 1 + ColonAt(s[1..])
  }

  lemma {:induction false} ColonAfter(a: string, x: string)
    requires ':' !in a
    ensures ColonAt(a + ":" + x) == |a|
    ensures (a + ":" + x)[..|a|] == a && (a + ":" + x)[|a| + 1..] == x
  {
    if a != "" {
      assert (a + ":" + x)[1..] == a[1..] + ":" + x;
      ColonAfter(a[1..], x);
    }
  }

  // The loop compares states by their key; different attempts have different keys.
  lemma StateKeyIsInjective(a: Attempt, b: Attempt)
    requires StateKey(a) == StateKey(b)
    ensures a == b
  {
    ColonAfter(if a.Answered? then Digits(a.status) else "none",
               if ErrorKindOf(a).Some? then ErrorKindOf(a).value else "ok");
    ColonAfter(if b.Answered? then Digits(b.status) else "none",
               if ErrorKindOf(b).Some? then ErrorKindOf(b).value else "ok");
    assert !IsDigit("none"[0]);
    if a.Answered? && b.Answered? {
      ParseDigits(a.status);
      ParseDigits(b.status);
    }
  }

  predicate Up(p: Poll) {
    p.attempt == Answered(200)
  }

  // The position of the first attempt that is not a 200.
  function FirstDown(seen: seq<Poll>): nat {
    if seen == [] || !Up(seen[0]) then 0 else 1 + FirstDown(seen[1..])
  }

  // The states seen, each at the time it was first seen, adjacent equal ones merged.
  function Collapse(seen: seq<Poll>): seq<Transition> {
    if seen == [] then []
    else
      var last := seen[|seen| - 1];
      Collapse(seen[..|seen| - 1])
      + if |seen| > 1 && seen[|seen| - 2].attempt == last.attempt
        then [] else [Transition(last.elapsedMs, last.attempt)]
  }

  function FirstError(seen: seq<Poll>): Option<string> {
    if seen == [] then None
    else if ErrorKindOf(seen[0].attempt).Some? then ErrorKindOf(seen[0].attempt)
    else FirstError(seen[1..])
  }

  // Some 200 came after an attempt that was not.
  predicate Recovered(seen: seq<Poll>) {
    exists i, j :: 0 <= i < j < |seen| && !Up(seen[i]) && Up(seen[j])
  }

  // Whether the loop ends before its next attempt, given the attempts made so far.
  predicate StopsBefore(polls: seq<Poll>, n: nat)
    requires n <= |polls|
  {
    || n == |polls|
    || polls[n].processDone
    || (polls[n].done && n > 0 && FirstDown(polls[..n]) == n)
  }

  // What the result says about the attempts made. `down` is the first attempt that failed.
  ghost predicate Reports(seen: seq<Poll>, r: ProbeResult) {
    var down, last := FirstDown(seen), |seen| - 1;
    && r.transitions == Collapse(seen)
    && r.firstErrorKind == FirstError(seen)
    && r.status == (if seen == [] then None else StatusOf(seen[last].attempt))
    && r.unavailableMs == (if down < |seen| then Some(seen[down].elapsedMs) else None)
    && (r.downtimeMs.Some? <==> Recovered(seen))
    && (Recovered(seen) ==>
          && down < last && Up(seen[last]) && (forall j | down <= j < last :: !Up(seen[j]))
          && r.downtimeMs == Some(seen[last].elapsedMs - seen[down].elapsedMs)
          && r.firstRecoveryMs == Some(seen[last].elapsedMs)
          && r.ms == r.firstRecoveryMs)
    && (!Recovered(seen) ==>
          && r.firstRecoveryMs.None?
          && r.ms == if down == |seen| > 0 then Some(seen[last].elapsedMs) else None)
  }

  lemma {:induction false} FirstDownIs(seen: seq<Poll>)
    ensures FirstDown(seen) <= |seen|
    ensures forall i | 0 <= i < FirstDown(seen) :: Up(seen[i])
    ensures FirstDown(seen) < |seen| ==> !Up(seen[FirstDown(seen)])
  {
    if seen != [] && Up(seen[0]) {
      FirstDownIs(seen[1..]);
    }
  }

  lemma {:induction false} FirstDownOfMore(seen: seq<Poll>, p: Poll)
    ensures FirstDown(seen + [p]) ==
            if FirstDown(seen) < |seen| then FirstDown(seen) else if Up(p) then |seen| + 1 else |seen|
    ensures FirstError(seen + [p]) == if FirstError(seen).Some? then FirstError(seen) else ErrorKindOf(p.attempt)
  {
    if seen == [] {
      assert seen + [p] == [p] && [p][1..] == [];
    } else {
      assert (seen + [p])[1..] == seen[1..] + [p];
      FirstDownOfMore(seen[1..], p);
      FirstDownIs(seen[1..]);
    }
  }

  // The loop's variables.
  datatype Vars = Vars(firstErrorKind: Option<string>, lastStatus: Option<nat>, lastStateKey: Option<string>,
                       lastSuccessMs: Option<int>, unavailableMs: Option<int>, transitions: seq<Transition>)

  // Their values after these attempts, none of which ended the loop.
  ghost predicate Looping(seen: seq<Poll>, v: Vars) {
    var down, last := FirstDown(seen), |seen| - 1;
    && !Recovered(seen)
    && v.firstErrorKind == FirstError(seen)
    && v.lastStatus == (if seen == [] then None else StatusOf(seen[last].attempt))
    && v.lastStateKey == (if seen == [] then None else Some(StateKey(seen[last].attempt)))
    && v.unavailableMs == (if down < |seen| then Some(seen[down].elapsedMs) else None)
    && (down == |seen| ==> v.lastSuccessMs == if seen == [] then None else Some(seen[last].elapsedMs))
    && v.transitions == Collapse(seen)
  }

  // The result without a recovery.
  function GaveUp(v: Vars): ProbeResult {
    ProbeResult(None, v.firstErrorKind, None, if v.unavailableMs.None? then v.lastSuccessMs else None,
                v.lastStatus, v.transitions, v.unavailableMs)
  }

  lemma GaveUpReports(seen: seq<Poll>, v: Vars)
    requires Looping(seen, v)
    ensures Reports(seen, GaveUp(v))
    ensures v.unavailableMs.None? <==> FirstDown(seen) == |seen|
    ensures v.unavailableMs.None? ==>
              && (v.lastSuccessMs.Some? <==> seen != [])
              && (seen != [] ==> v.lastStatus == Some(200))
  {
    FirstDownIs(seen);
  }

  function After(v: Vars, p: Poll): Vars {
    var attempt := p.attempt;
    Vars(if v.firstErrorKind.None? then ErrorKindOf(attempt) else v.firstErrorKind,
         StatusOf(attempt),
         Some(StateKey(attempt)),
         if Up(p) then Some(p.elapsedMs) else v.lastSuccessMs,
         if !Up(p) && v.unavailableMs.None? then Some(p.elapsedMs) else v.unavailableMs,
         if Some(StateKey(attempt)) != v.lastStateKey then v.transitions + [Transition(p.elapsedMs, attempt)]
         else v.transitions)
  }

  // What recording attempt p achieves: the variables tell whether it is a recovery; if not they
  // fit the attempts up to p, otherwise the result they make reports those attempts.
  ghost predicate Observed(seen: seq<Poll>, p: Poll, next: Vars) {
    var all := seen + [p];
    && (Recovered(all) <==> Up(p) && next.unavailableMs.Some?)
    && (!Recovered(all) ==> Looping(all, next))
    && (Recovered(all) ==> Reports(all, Back(next, p.elapsedMs)))
  }

  // Recording one attempt, the variables fitting those before it.
  method Observe(ghost seen: seq<Poll>, v: Vars, p: Poll) returns (next: Vars)
    requires Looping(seen, v)
    ensures Observed(seen, p, next)
  {
    var stateKey := StateKey(p.attempt);
    var transitions := v.transitions;
    if Some(stateKey) != v.lastStateKey {
      transitions := transitions + [Transition(p.elapsedMs, p.attempt)];
    }
    var firstErrorKind, unavailableMs, lastSuccessMs := v.firstErrorKind, v.unavailableMs, v.lastSuccessMs;
    if firstErrorKind.None? {
      firstErrorKind := ErrorKindOf(p.attempt);
    }
    if p.attempt != Answered(200) && unavailableMs.None? {
      unavailableMs := Some(p.elapsedMs);
    }
    if p.attempt == Answered(200) {
      lastSuccessMs := Some(p.elapsedMs);
    }
    next := Vars(firstErrorKind, StatusOf(p.attempt), Some(stateKey), lastSuccessMs, unavailableMs, transitions);
    LoopingOn(seen, p, v);
    assert next == After(v, p);
  }

  // The loop is about to make its attempt n, nothing having ended it before.
  ghost predicate Going(polls: seq<Poll>, n: nat, v: Vars)
    requires n <= |polls|
  {
    && Looping(polls[..n], v)
    && forall m | 0 <= m < n :: !Recovered(polls[..m]) && !StopsBefore(polls, m)
  }

  // The loop ended after this many attempts: at the first recovery or stop and not before,
  // with a result that reports those attempts.
  ghost predicate EndedAt(polls: seq<Poll>, used: nat, r: ProbeResult) {
    && used <= |polls| && Reports(polls[..used], r)
    && (Recovered(polls[..used]) || StopsBefore(polls, used))
    && forall n | 0 <= n < used :: !Recovered(polls[..n]) && !StopsBefore(polls, n)
  }

  // The polling loop.
  method WaitForRestartProbe(polls: seq<Poll>) returns (r: ProbeResult)
    ensures exists used: nat :: EndedAt(polls, used, r)
  {
    var v := Vars(None, None, None, None, None, []);
    for n := 0 to |polls|
      invariant Going(polls, n, v)
    {
      Stops(polls, n, v);
      if polls[n].processDone {
        return GaveUp(v);
      }
      if polls[n].done && v.unavailableMs.None? && v.lastSuccessMs.Some? {
        return ProbeResult(None, v.firstErrorKind, None, v.lastSuccessMs, Some(200), v.transitions, None);
      }
      ghost var before := v;
      v := Observe(polls[..n], v, polls[n]);
      GoesOn(polls, n, before, v);
      if polls[n].attempt == Answered(200) && v.unavailableMs.Some? {
        return Back(v, polls[n].elapsedMs);
      }
    }
    Stops(polls, |polls|, v);
    return GaveUp(v);
  }

  lemma Stops(polls: seq<Poll>, n: nat, v: Vars)
    requires n <= |polls| && Going(polls, n, v)
    ensures n == |polls| || polls[n].processDone ==> EndedAt(polls, n, GaveUp(v))
    ensures n < |polls| && !polls[n].processDone && polls[n].done && v.unavailableMs.None? && v.lastSuccessMs.Some? ==>
              && EndedAt(polls, n, GaveUp(v))
              && GaveUp(v) == ProbeResult(None, v.firstErrorKind, None, v.lastSuccessMs, Some(200), v.transitions, None)
    ensures StopsBefore(polls, n) <==>
              n == |polls| || polls[n].processDone
              || (polls[n].done && v.unavailableMs.None? && v.lastSuccessMs.Some?)
  {
    GaveUpReports(polls[..n], v);
  }

  // So an attempt ends the loop, if it is the first recovery, or the loop goes on.
  lemma GoesOn(polls: seq<Poll>, n: nat, v: Vars, next: Vars)
    requires n < |polls| && Going(polls, n, v) && !StopsBefore(polls, n)
    requires Observed(polls[..n], polls[n], next)
    ensures
      if Up(polls[n]) && next.unavailableMs.Some? then EndedAt(polls, n + 1, Back(next, polls[n].elapsedMs))
      else Going(polls, n + 1, next)
  {
    assert polls[..n + 1] == polls[..n] + [polls[n]];
  }

  // The result of a recovery.
  function Back(v: Vars, elapsedMs: int): ProbeResult
    requires v.unavailableMs.Some?
  {
    ProbeResult(Some(elapsedMs - v.unavailableMs.value), v.firstErrorKind, Some(elapsedMs), Some(elapsedMs),
                v.lastStatus, v.transitions, v.unavailableMs)
  }

  lemma RecoveredOfMore(seen: seq<Poll>, p: Poll)
    ensures Recovered(seen + [p]) <==> Recovered(seen) || (Up(p) && FirstDown(seen) < |seen|)
  {
    var all := seen + [p];
    FirstDownIs(seen);
    if Recovered(seen) {
      var i, j :| 0 <= i < j < |seen| && !Up(seen[i]) && Up(seen[j]);
      assert !Up(all[i]) && Up(all[j]);
    }
    if Up(p) && FirstDown(seen) < |seen| {
      assert !Up(all[FirstDown(seen)]) && Up(all[|seen|]);
    }
    if Recovered(all) {
      var i, j :| 0 <= i < j < |all| && !Up(all[i]) && Up(all[j]);
      assert !Up(seen[i]);
    }
  }

  lemma CollapseOfMore(seen: seq<Poll>, p: Poll)
    ensures Collapse(seen + [p]) == Collapse(seen)
            + if seen != [] && StateKey(p.attempt) == StateKey(seen[|seen| - 1].attempt) then []
              else [Transition(p.elapsedMs, p.attempt)]
  {
    assert (seen + [p])[..|seen|] == seen;
    if seen != [] && StateKey(p.attempt) == StateKey(seen[|seen| - 1].attempt) {
      StateKeyIsInjective(p.attempt, seen[|seen| - 1].attempt);
    }
  }

  // The effect of one more attempt.
  lemma LoopingOn(seen: seq<Poll>, p: Poll, v: Vars)
    requires Looping(seen, v)
    ensures Observed(seen, p, After(v, p))
  {
    FirstDownIs(seen);
    FirstDownOfMore(seen, p);
    RecoveredOfMore(seen, p);
    CollapseOfMore(seen, p);
    var all, down := seen + [p], FirstDown(seen);
    if Recovered(all) {
      forall j | down <= j < |seen| ensures !Up(all[j]) {
        assert all[j] == seen[j] && all[down] == seen[down];
      }
    }
  }

  // ----- what the collapsed trace means -----

  // After any number of attempts the last transition tells the current state, and no
  // transition repeats the one before it.
  lemma {:induction false} TransitionsReplay(seen: seq<Poll>, n: nat)
    requires 0 < n <= |seen|
    ensures Collapse(seen[..n]) != [] && Collapse(seen[..n]) <= Collapse(seen)
    ensures Collapse(seen[..n])[|Collapse(seen[..n])| - 1].attempt == seen[n - 1].attempt
    ensures forall k | 0 < k < |Collapse(seen)| :: Collapse(seen)[k].attempt != Collapse(seen)[k - 1].attempt
    decreases |seen|, |seen| - n
  {
    var front := seen[..|seen| - 1];
    if n < |seen| {
      TransitionsReplay(front, n);
      TransitionsReplay(seen, |seen|);
      assert front[..n] == seen[..n];
    } else {
      assert seen[..n] == seen;
      if n > 1 {
        TransitionsReplay(front, n - 1);
        assert front[..n - 1] == front;
        assert front[n - 2] == seen[n - 2];
      }
    }
  }

  // An attempt whose state is new.
  predicate IsChange(seen: seq<Poll>, i: nat) {
    i < |seen| && (i == 0 || seen[i - 1].attempt != seen[i].attempt)
  }

  // Exactly the changes, in order.
  ghost predicate ChangesAt(seen: seq<Poll>, at: seq<nat>) {
    && (forall k, l | 0 <= k < l < |at| :: at[k] < at[l])
    && forall i: nat :: i in at <==> IsChange(seen, i)
  }

  ghost predicate TellsChanges(seen: seq<Poll>, at: seq<nat>, transitions: seq<Transition>) {
    && |at| == |transitions|
    && forall k | 0 <= k < |at| ::
         at[k] < |seen| && transitions[k] == Transition(seen[at[k]].elapsedMs, seen[at[k]].attempt)
  }

  lemma ChangesOfMore(seen: seq<Poll>, at: seq<nat>)
    requires seen != [] && ChangesAt(seen[..|seen| - 1], at)
    ensures ChangesAt(seen, if IsChange(seen, |seen| - 1) then at + [|seen| - 1] else at)
  {
    var front, last := seen[..|seen| - 1], |seen| - 1;
    forall i: nat ensures i in at <==> i < last && IsChange(seen, i) {
      assert i < last ==> (IsChange(seen, i) <==> IsChange(front, i));
    }
    forall k | 0 <= k < |at| ensures at[k] < last {
      assert at[k] in at;
    }
  }

  // There is one transition for each change, in order, with the time and state of that attempt.
  lemma {:induction false} TransitionsAre(seen: seq<Poll>) returns (at: seq<nat>)
    ensures ChangesAt(seen, at) && TellsChanges(seen, at, Collapse(seen))
    decreases |seen|
  {
    if seen == [] {
      return [];
    }
    var front := seen[..|seen| - 1];
    at := TransitionsAre(front);
    ChangesOfMore(seen, at);
    if IsChange(seen, |seen| - 1) {
      at := at + [|seen| - 1];
    }
  }

  // The first error is that of the first attempt that is not a 200: its status or its kind.
  lemma {:induction false} FirstErrorIs(seen: seq<Poll>)
    ensures FirstDown(seen) <= |seen|
    ensures FirstError(seen) ==
            if FirstDown(seen) == |seen| then None
            else match seen[FirstDown(seen)].attempt
                 case Answered(status) => Some("http-" + Digits(status))
                 case Failed(kind) => Some(kind)
  {
    if seen != [] && Up(seen[0]) {
      FirstErrorIs(seen[1..]);
    }
  }

  // With attempts in order of time, a reported downtime is not negative.
  lemma DowntimeIsNotNegative(seen: seq<Poll>, r: ProbeResult)
    requires Reports(seen, r) && r.downtimeMs.Some?
    requires forall i, j | 0 <= i < j < |seen| :: seen[i].elapsedMs <= seen[j].elapsedMs
    ensures 0 <= r.downtimeMs.value <= r.ms.value - r.unavailableMs.value
  {
  }
}
