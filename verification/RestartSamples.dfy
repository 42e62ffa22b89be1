/**
 Failure accounting of the gateway restart benchmark: which iteration of a sample fails,
 with which code, and what the summary of many samples makes of it.
 */
module RestartSamples {
  import opened Wrappers

  datatype FailureCode =
    | InitialHealthzTimeout | InitialReadyzTimeout | InitialReadyLogTimeout
    | RestartChildExited | RestartSignalFailed
    | NextHealthzTimeout | NextReadyzTimeout | ReadyLogTimeout | TraceMissing
    | ChildNonzeroExit | CleanupFailed

  // What the benchmark observes before the first restart ...
  datatype Startup = Startup(healthz: bool, readyz: bool, readyLogs: bool)

  // ... around each restart: whether the child is already gone, whether it could be
  // signalled, whether it is gone at the end, and the four recovery signs ...
  datatype Round = Round(goneBefore: bool, signalled: bool, goneAfter: bool,
                         healthz: bool, readyz: bool, readyLog: bool, trace: bool)

  // ... and at teardown.
  datatype Teardown = Teardown(exitedBefore: bool, exitCode: Option<int>, cleaned: bool)

  datatype Iteration = Iteration(index: nat, failureCode: Option<FailureCode>)

  datatype Sample = Sample(failureCode: Option<FailureCode>, iterations: seq<Iteration>)

  function StartupFailure(s: Startup): Option<FailureCode> {
    if !s.healthz then Some(InitialHealthzTimeout)
    else if !s.readyz then Some(InitialReadyzTimeout)
    else if !s.readyLogs then Some(InitialReadyLogTimeout)
    else None
  }

  function ResolveIterationFailure(r: Round): Option<FailureCode> {
    if !r.healthz then Some(NextHealthzTimeout)
    else if !r.readyz then Some(NextReadyzTimeout)
    else if !r.readyLog then Some(ReadyLogTimeout)
    else if !r.trace then Some(TraceMissing)
    else None
  }

  function FinalizeRestartIteration(r: Round): Option<FailureCode> {
    if r.goneAfter then Some(RestartChildExited) else ResolveIterationFailure(r)
  }

  function ResolveSampleExitFailure(t: Teardown): Option<FailureCode> {
    if !t.exitedBefore then None
    else if t.exitCode.Some? && t.exitCode.value != 0 then Some(ChildNonzeroExit)
    else Some(RestartChildExited)
  }

  // Why a round ends the restart loop, if it does.
  function RoundFailure(r: Round): Option<FailureCode> {
    if r.goneBefore then Some(RestartChildExited)
    else if !r.signalled then Some(RestartSignalFailed)
    else FinalizeRestartIteration(r)
  }

  // The number of rounds that go well before the first that does not.
  function GoodRounds(rounds: seq<Round>): nat {
    if rounds == [] || RoundFailure(rounds[0]).Some? then 0 else 1 + GoodRounds(rounds[1..])
  }

  lemma {:induction false} GoodRoundsIs(rounds: seq<Round>)
    ensures GoodRounds(rounds) <= |rounds|
    ensures forall i | 0 <= i < GoodRounds(rounds) :: RoundFailure(rounds[i]).None?
    ensures GoodRounds(rounds) < |rounds| ==> RoundFailure(rounds[GoodRounds(rounds)]).Some?
  {
    if rounds != [] && RoundFailure(rounds[0]).None? {
      GoodRoundsIs(rounds[1..]);
    }
  }

  lemma {:induction false} GoodRoundsUpTo(rounds: seq<Round>, n: nat)
    requires n <= |rounds| && forall i | 0 <= i < n :: RoundFailure(rounds[i]).None?
    requires n < |rounds| ==> RoundFailure(rounds[n]).Some?
    ensures GoodRounds(rounds) == n
    decreases n
  {
    if n > 0 {
      GoodRoundsUpTo(rounds[1..], n - 1);
    }
  }

  // The first thing that goes wrong with a sample, in order of time.
  function FirstFailure(startup: Startup, rounds: seq<Round>, teardown: Teardown): Option<FailureCode> {
    if StartupFailure(startup).Some? then StartupFailure(startup)
    else
      GoodRoundsIs(rounds);
      var n := GoodRounds(rounds);
      if n < |rounds| then RoundFailure(rounds[n])
      else if ResolveSampleExitFailure(teardown).Some? then ResolveSampleExitFailure(teardown)
      else if !teardown.cleaned then Some(CleanupFailed)
      else None
  }

  // ----- what can go wrong, in order of time -----

  // Something that is looked at, and the code if it is not as it should be.
  datatype Check = Check(good: bool, code: FailureCode)

  function RoundChecks(r: Round): seq<Check> {
    [Check(!r.goneBefore, RestartChildExited), Check(r.signalled, RestartSignalFailed),
     Check(!r.goneAfter, RestartChildExited), Check(r.healthz, NextHealthzTimeout),
     Check(r.readyz, NextReadyzTimeout), Check(r.readyLog, ReadyLogTimeout), Check(r.trace, TraceMissing)]
  }

  function AllRoundChecks(rounds: seq<Round>): seq<Check> {
    if rounds == [] then [] else RoundChecks(rounds[0]) + AllRoundChecks(rounds[1..])
  }

  function StartupChecks(s: Startup): seq<Check> {
    [Check(s.healthz, InitialHealthzTimeout), Check(s.readyz, InitialReadyzTimeout),
     Check(s.readyLogs, InitialReadyLogTimeout)]
  }

  function TeardownChecks(t: Teardown): seq<Check> {
    [Check(!(t.exitedBefore && t.exitCode.Some? && t.exitCode.value != 0), ChildNonzeroExit),
     Check(!t.exitedBefore, RestartChildExited), Check(t.cleaned, CleanupFailed)]
  }

  function FirstBad(checks: seq<Check>): Option<FailureCode> {
    if checks == [] then None else if checks[0].good then FirstBad(checks[1..]) else Some(checks[0].code)
  }

  lemma {:induction false} FirstBadOfAppend(a: seq<Check>, b: seq<Check>)
    ensures FirstBad(a + b) == if FirstBad(a).Some? then FirstBad(a) else FirstBad(b)
  {
    if a == [] {
      assert a + b == b;
    } else {
      assert (a + b)[1..] == a[1..] + b;
      FirstBadOfAppend(a[1..], b);
    }
  }

  lemma {:induction false} FirstBadOfThree(a: Check, b: Check, c: Check)
    ensures FirstBad([a, b, c]) ==
            if !a.good then Some(a.code) else if !b.good then Some(b.code) else if !c.good then Some(c.code) else None
  {
    assert [a, b, c][1..] == [b, c] && [b, c][1..] == [c] && [c][1..] == [];
    assert FirstBad([c]) == if c.good then None else Some(c.code);
    assert FirstBad([b, c]) == if b.good then FirstBad([c]) else Some(b.code);
  }

  // A round fails with the first of its checks that does.
  lemma RoundFailureIs(r: Round)
    ensures RoundFailure(r) == FirstBad(RoundChecks(r))
  {
    var c := RoundChecks(r);
    FirstBadOfThree(c[0], c[1], c[2]);
    FirstBadOfThree(c[3], c[4], c[5]);
    assert [c[6]][1..] == [];
    assert c == [c[0], c[1], c[2]] + ([c[3], c[4], c[5]] + [c[6]]);
    FirstBadOfAppend([c[0], c[1], c[2]], [c[3], c[4], c[5]] + [c[6]]);
    FirstBadOfAppend([c[3], c[4], c[5]], [c[6]]);
  }

  lemma {:induction false} RoundsFailWith(rounds: seq<Round>)
    ensures FirstBad(AllRoundChecks(rounds)) ==
            (GoodRoundsIs(rounds);
             if GoodRounds(rounds) < |rounds| then RoundFailure(rounds[GoodRounds(rounds)]) else None)
  {
    GoodRoundsIs(rounds);
    if rounds != [] {
      RoundFailureIs(rounds[0]);
      FirstBadOfAppend(RoundChecks(rounds[0]), AllRoundChecks(rounds[1..]));
      RoundsFailWith(rounds[1..]);
    }
  }

  // A sample's code is that of the first check that fails, from start-up through every round to
  // the teardown.
  lemma FirstFailureIs(startup: Startup, rounds: seq<Round>, teardown: Teardown)
    ensures FirstFailure(startup, rounds, teardown)
         == FirstBad(StartupChecks(startup) + AllRoundChecks(rounds) + TeardownChecks(teardown))
  {
    var s, t := StartupChecks(startup), TeardownChecks(teardown);
    FirstBadOfThree(s[0], s[1], s[2]);
    FirstBadOfThree(t[0], t[1], t[2]);
    assert s == [s[0], s[1], s[2]] && t == [t[0], t[1], t[2]];
    GoodRoundsIs(rounds);
    RoundsFailWith(rounds);
    FirstBadOfAppend(s + AllRoundChecks(rounds), t);
    FirstBadOfAppend(s, AllRoundChecks(rounds));
  }

  // Only the last iteration of a sample can have failed, and then its code is the sample's.
  predicate WellKept(sample: Sample) {
    && (forall i | 0 <= i < |sample.iterations| - 1 :: sample.iterations[i].failureCode.None?)
    && (sample.iterations != [] && sample.iterations[|sample.iterations| - 1].failureCode.Some? ==>
          sample.failureCode == sample.iterations[|sample.iterations| - 1].failureCode)
  }

  // The sample's code is the first thing that went wrong. A child that is gone before a
  // restart fails the sample without leaving an iteration.
  method RunGatewaySample(startup: Startup, rounds: seq<Round>, teardown: Teardown) returns (sample: Sample)
    ensures WellKept(sample)
    ensures sample.failureCode == FirstFailure(startup, rounds, teardown)
    ensures
      var n := GoodRounds(rounds);
      |sample.iterations| ==
        if StartupFailure(startup).Some? then 0
        else if n < |rounds| && !rounds[n].goneBefore then n + 1
        else n
    ensures forall i | 0 <= i < |sample.iterations| :: sample.iterations[i].index == i + 1
    ensures && sample.failureCode.Some?
            && (forall i | 0 <= i < |sample.iterations| :: sample.iterations[i].failureCode.None?) ==>
              || StartupFailure(startup).Some?
              || GoodRounds(rounds) >= |rounds|
              || rounds[GoodRounds(rounds)].goneBefore
  {
    GoodRoundsIs(rounds);
    var failureCode := StartupFailure(startup);
    var iterations: seq<Iteration> := [];
    if failureCode.None? {
      var n := 0;
      while n < |rounds| && failureCode.None?
        invariant 0 <= n <= |rounds|
        invariant failureCode.None? ==>
                    |iterations| == n && forall i | 0 <= i < n ::
                      RoundFailure(rounds[i]).None? && iterations[i] == Iteration(i + 1, None)
        invariant failureCode.Some? ==>
                    && 0 < n && GoodRounds(rounds) == n - 1 && failureCode == RoundFailure(rounds[n - 1])
                    && (forall i | 0 <= i < n - 1 :: i < |iterations| && iterations[i] == Iteration(i + 1, None))
                    && |iterations| == (if rounds[n - 1].goneBefore then n - 1 else n)
                    && (!rounds[n - 1].goneBefore ==> iterations[n - 1] == Iteration(n, failureCode))
        decreases |rounds| - n
      {
        var round := rounds[n];
        if round.goneBefore {
          failureCode := Some(RestartChildExited);
        } else {
          var code := if !round.signalled then Some(RestartSignalFailed) else FinalizeRestartIteration(round);
          iterations := iterations + [Iteration(n + 1, code)];
          failureCode := code;
        }
        if failureCode.Some? {
          GoodRoundsUpTo(rounds, n);
        }
        n := n + 1;
      }
      if failureCode.None? {
        GoodRoundsUpTo(rounds, |rounds|);
      }
    }
    if failureCode.None? {
      failureCode := ResolveSampleExitFailure(teardown);
    }
    if !teardown.cleaned && failureCode.None? {
      failureCode := Some(CleanupFailed);
    }
    return Sample(failureCode, iterations);
  }

  // ----- the summary -----

  function AllIterations(samples: seq<Sample>): seq<Iteration> {
    if samples == [] then [] else samples[0].iterations + AllIterations(samples[1..])
  }

  function CountFailed(iterations: seq<Iteration>): nat {
    if iterations == [] then 0 else (if iterations[0].failureCode.Some? then 1 else 0) + CountFailed(iterations[1..])
  }

  // A sample that failed although none of its iterations did.
  predicate FailedOutside(sample: Sample) {
    sample.failureCode.Some? && CountFailed(sample.iterations) == 0
  }

  function CountFailedOutside(samples: seq<Sample>): nat {
    if samples == [] then 0 else (if FailedOutside(samples[0]) then 1 else 0) + CountFailedOutside(samples[1..])
  }

  function FirstSampleFailure(samples: seq<Sample>): Option<FailureCode> {
    if samples == [] then None
    else if samples[0].failureCode.Some? then samples[0].failureCode
    else FirstSampleFailure(samples[1..])
  }

  function FirstIterationFailure(iterations: seq<Iteration>): Option<FailureCode> {
    if iterations == [] then None
    else if iterations[0].failureCode.Some? then iterations[0].failureCode
    else FirstIterationFailure(iterations[1..])
  }

  function Rate(failures: nat, units: nat): real {
    if units == 0 then 0.0 else failures as real / units as real
  }

  datatype Summary = Summary(failureRate: real, firstFailureCode: Option<FailureCode>)

  function FailureUnits(samples: seq<Sample>): nat {
    |AllIterations(samples)| + CountFailedOutside(samples)
  }

  function FirstFailureCode(samples: seq<Sample>): Option<FailureCode> {
    if FirstSampleFailure(samples).Some? then FirstSampleFailure(samples)
    else FirstIterationFailure(AllIterations(samples))
  }

  function SummarizeCase(samples: seq<Sample>): Summary {
    Summary(Rate(CountFailed(AllIterations(samples)) + CountFailedOutside(samples), FailureUnits(samples)),
            FirstFailureCode(samples))
  }

  predicate HasBenchmarkFailures(results: seq<Summary>) {
    exists i :: 0 <= i < |results| && (results[i].failureRate > 0.0 || results[i].firstFailureCode.Some?)
  }

  function CountFailedSamples(samples: seq<Sample>): nat {
    if samples == [] then 0
    else (if samples[0].failureCode.Some? then 1 else 0) + CountFailedSamples(samples[1..])
  }

  lemma {:induction false} CountFailedOfAppend(a: seq<Iteration>, b: seq<Iteration>)
    ensures CountFailed(a + b) == CountFailed(a) + CountFailed(b)
    ensures FirstIterationFailure(a + b).Some? <==> FirstIterationFailure(a).Some? || FirstIterationFailure(b).Some?
  {
    if a == [] {
      assert a + b == b;
    } else {
      assert (a + b)[1..] == a[1..] + b;
      CountFailedOfAppend(a[1..], b);
    }
  }

  lemma {:induction false} CountFailedIs(iterations: seq<Iteration>)
    ensures CountFailed(iterations) <= |iterations|
    ensures CountFailed(iterations) > 0 <==> exists i :: 0 <= i < |iterations| && iterations[i].failureCode.Some?
    ensures FirstIterationFailure(iterations).Some? <==> CountFailed(iterations) > 0
  {
    if iterations != [] {
      CountFailedIs(iterations[1..]);
    }
  }

  // A sample counts once if it failed and not at all otherwise.
  lemma FailedOnce(sample: Sample)
    requires WellKept(sample)
    ensures CountFailed(sample.iterations) + (if FailedOutside(sample) then 1 else 0)
         == if sample.failureCode.Some? then 1 else 0
  {
    var its := sample.iterations;
    if its != [] {
      var front, last := its[..|its| - 1], its[|its| - 1];
      assert its == front + [last] && [last][1..] == [];
      CountFailedOfAppend(front, [last]);
      CountFailedIs(front);
    }
  }

  lemma {:induction false} FailuresAreSamples(samples: seq<Sample>)
    requires forall i | 0 <= i < |samples| :: WellKept(samples[i])
    ensures CountFailed(AllIterations(samples)) + CountFailedOutside(samples) == CountFailedSamples(samples)
    ensures CountFailedSamples(samples) > 0 <==> FirstSampleFailure(samples).Some?
    ensures CountFailedSamples(samples) > 0 <==> exists i :: 0 <= i < |samples| && samples[i].failureCode.Some?
  {
    if samples != [] {
      FailuresAreSamples(samples[1..]);
      CountFailedOfAppend(samples[0].iterations, AllIterations(samples[1..]));
      FailedOnce(samples[0]);
      if i :| 0 <= i < |samples[1..]| && samples[1..][i].failureCode.Some? {
        assert samples[i + 1].failureCode.Some?;
      }
      if i :| 0 < i < |samples| && samples[i].failureCode.Some? {
        assert samples[1..][i - 1].failureCode.Some?;
      }
    }
  }

  // The units are the iterations of all samples and one more for each sample that failed although
  // none of its iterations did.
  lemma {:induction false} UnitsAre(samples: seq<Sample>)
    ensures FailureUnits(samples) == SumOver(samples, (sample: Sample) =>
              |sample.iterations| + if FailedButNoIteration(sample) then 1 else 0)
  {
    if samples != [] {
      UnitsAre(samples[1..]);
      CountFailedIs(samples[0].iterations);
    }
  }

  predicate FailedButNoIteration(sample: Sample) {
    sample.failureCode.Some? && forall i | 0 <= i < |sample.iterations| :: sample.iterations[i].failureCode.None?
  }

  function SumOver(samples: seq<Sample>, weight: Sample -> nat): nat {
    if samples == [] then 0 else weight(samples[0]) + SumOver(samples[1..], weight)
  }

  // The first code is that of a sample: an iteration only fails in a sample that does.
  lemma FirstCodeIsASamples(samples: seq<Sample>)
    requires forall i | 0 <= i < |samples| :: WellKept(samples[i])
    ensures FirstFailureCode(samples) == FirstSampleFailure(samples)
    ensures CountFailedSamples(samples) <= FailureUnits(samples)
  {
    FailuresAreSamples(samples);
    CountFailedIs(AllIterations(samples));
  }

  // The summary's numerator is the number of failed samples and its code is the first one's.
  lemma SummaryCountsSamples(samples: seq<Sample>)
    requires forall i | 0 <= i < |samples| :: WellKept(samples[i])
    ensures SummarizeCase(samples).failureRate == Rate(CountFailedSamples(samples), FailureUnits(samples))
    ensures SummarizeCase(samples).firstFailureCode == FirstSampleFailure(samples)
  {
    FailuresAreSamples(samples);
    FirstCodeIsASamples(samples);
    var failures := CountFailed(AllIterations(samples)) + CountFailedOutside(samples);
    assert failures == CountFailedSamples(samples);
  }

  // Its rate lies between 0 and 1, and is positive, and a first code given, exactly when some
  // sample failed.
  lemma SummaryIsFair(samples: seq<Sample>)
    requires forall i | 0 <= i < |samples| :: WellKept(samples[i])
    ensures
      var s := SummarizeCase(samples);
      && 0.0 <= s.failureRate <= 1.0
      && (s.failureRate > 0.0 <==> s.firstFailureCode.Some?)
      && (s.firstFailureCode.Some? <==> exists i :: 0 <= i < |samples| && samples[i].failureCode.Some?)
  {
    SummaryCountsSamples(samples);
    FirstCodeIsASamples(samples);
    FailuresAreSamples(samples);
    RateIs(CountFailedSamples(samples), FailureUnits(samples));
  }

  lemma RateIs(failures: nat, units: nat)
    requires failures <= units
    ensures units > 0 ==> Rate(failures, units) * units as real == failures as real
    ensures 0.0 <= Rate(failures, units) <= 1.0
    ensures Rate(failures, units) > 0.0 <==> failures > 0
  {
  }

  // The benchmark fails exactly when some sample of some case failed.
  lemma BenchmarkFailsWithSome(cases: seq<seq<Sample>>)
    requires forall c, i | 0 <= c < |cases| && 0 <= i < |cases[c]| :: WellKept(cases[c][i])
    ensures HasBenchmarkFailures(seq(|cases|, c requires 0 <= c < |cases| => SummarizeCase(cases[c])))
       <==> exists c, i :: 0 <= c < |cases| && 0 <= i < |cases[c]| && cases[c][i].failureCode.Some?
  {
    var results := seq(|cases|, c requires 0 <= c < |cases| => SummarizeCase(cases[c]));
    forall c | 0 <= c < |cases|
      ensures (results[c].failureRate > 0.0 || results[c].firstFailureCode.Some?)
         <==> exists i :: 0 <= i < |cases[c]| && cases[c][i].failureCode.Some?
    {
      SummaryIsFair(cases[c]);
    }
  }
}
