/**
 The checkpoints of the label audit: a file of the issues and pull requests already done,
 saved after every batch, read back by the next run, and exposed to crashes at any point.
 */
module LabelCheckpoints {

  datatype Kind = Issue | PullRequest

  datatype Ref = Ref(kind: Kind, number: nat)

  // The state file: not there, not readable, or what was saved.
  datatype File = Absent | Unreadable | Saved(done: set<Ref>)

  // What a run loads; an unreadable file counts as empty.
  function Loaded(file: File): set<Ref> {
    if file.Saved? then file.done else {}
  }

  // One run: its batches, issues first and then pull requests, and how it ends. It is
  // interrupted after `steps` steps, a step being the processing of one item or the saving of
  // the file; `torn` tells whether interrupting a save leaves the file half written.
  datatype Plan = Plan(dryRun: bool, batches: seq<seq<Ref>>, steps: nat, torn: bool)

  datatype Run = Run(file: File, known: set<Ref>, processed: set<Ref>, steps: nat, interrupted: bool)

  function Begin(file: File, plan: Plan): Run {
    Run(file, Loaded(file), {}, plan.steps, false)
  }

  function Pending(batch: seq<Ref>, known: set<Ref>): seq<Ref> {
    if batch == [] then []
    else Pending(batch[..|batch| - 1], known) + if batch[|batch| - 1] in known then [] else [batch[|batch| - 1]]
  }

  function Process(run: Run, item: Ref): Run {
    if run.interrupted then run
    else if run.steps == 0 then run.(interrupted := true)
    else run.(known := run.known + {item}, processed := run.processed + {item}, steps := run.steps - 1)
  }

  function ProcessAll(run: Run, items: seq<Ref>): Run {
    if items == [] then run else Process(ProcessAll(run, items[..|items| - 1]), items[|items| - 1])
  }

  function Save(run: Run, torn: bool): Run {
    if run.steps == 0 then run.(interrupted := true, file := if torn then Unreadable else run.file)
    else run.(file := Saved(run.known), steps := run.steps - 1)
  }

  function AuditBatch(run: Run, batch: seq<Ref>, plan: Plan): Run {
    if run.interrupted then run
    else
      var pending := Pending(batch, run.known);
      var worked := ProcessAll(run, pending);
      if !worked.interrupted && !plan.dryRun && pending != [] then Save(worked, plan.torn) else worked
  }

  function AuditBatches(run: Run, batches: seq<seq<Ref>>, plan: Plan): Run {
    if batches == [] then run
    else AuditBatch(AuditBatches(run, batches[..|batches| - 1], plan), batches[|batches| - 1], plan)
  }

  function Audit(file: File, plan: Plan): Run {
    AuditBatches(Begin(file, plan), plan.batches, plan)
  }

  method FilterPending(batch: seq<Ref>, known: set<Ref>) returns (pending: seq<Ref>)
    ensures pending == Pending(batch, known)
  {
    pending := [];
    for i := 0 to |batch|
      invariant pending == Pending(batch[..i], known)
    {
      assert batch[..i + 1][..i] == batch[..i];
      if batch[i] !in known {
        pending := pending + [batch[i]];
      }
    }
    assert batch[..|batch|] == batch;
  }

  // The loop of a run.
  method RunAudit(file: File, plan: Plan) returns (run: Run)
    ensures run == Audit(file, plan)
  {
    run := Run(file, Loaded(file), {}, plan.steps, false);
    for b := 0 to |plan.batches|
      invariant run == AuditBatches(Begin(file, plan), plan.batches[..b], plan)
    {
      assert plan.batches[..b + 1][..b] == plan.batches[..b];
      if run.interrupted {
        continue;
      }
      var pending := FilterPending(plan.batches[b], run.known);
      ghost var start := run;
      for i := 0 to |pending|
        invariant run == ProcessAll(start, pending[..i])
      {
        assert pending[..i + 1][..i] == pending[..i];
        run := Process(run, pending[i]);
      }
      assert pending[..|pending|] == pending;
      if !run.interrupted && !plan.dryRun && |pending| > 0 {
        run := Save(run, plan.torn);
      }
    }
    assert plan.batches[..|plan.batches|] == plan.batches;
  }

  // ----- one run -----

  predicate InBatch(items: set<Ref>, batch: seq<Ref>) {
    forall item | item in items :: item in batch
  }

  // What holds throughout a run that began with `file`. Nothing is saved that was not loaded
  // or processed; between batches everything processed is saved; an interruption leaves the
  // finished work of one batch unsaved at most; only a torn save loses what was saved.
  ghost predicate Safe(file: File, plan: Plan, batches: seq<seq<Ref>>, run: Run) {
    && run.known == Loaded(file) + run.processed
    && Loaded(run.file) <= run.known
    && (plan.dryRun ==> run.file == file)
    && (!plan.dryRun && !run.interrupted ==> Loaded(run.file) == run.known)
    && (run.file == Unreadable ==> file == Unreadable || (plan.torn && run.interrupted))
    && (run.file != Unreadable || !plan.torn ==> Loaded(file) <= Loaded(run.file))
    && (!plan.dryRun && !plan.torn && run.interrupted ==>
          exists b :: 0 <= b < |batches| && InBatch(run.processed - Loaded(run.file), batches[b]))
    && (!run.interrupted ==> forall b, item | 0 <= b < |batches| && item in batches[b] :: item in run.known)
  }

  lemma {:induction false} PendingIs(batch: seq<Ref>, known: set<Ref>, item: Ref)
    ensures item in Pending(batch, known) <==> item in batch && item !in known
    decreases |batch|
  {
    if batch != [] {
      PendingIs(batch[..|batch| - 1], known, item);
      assert batch == batch[..|batch| - 1] + [batch[|batch| - 1]];
    }
  }

  // Processing adds some of the items, all of them unless interrupted, and saves nothing.
  lemma {:induction false} ProcessAllAdds(run: Run, items: seq<Ref>)
    requires !run.interrupted && run.processed <= run.known
    ensures
      var worked := ProcessAll(run, items);
      && worked.file == run.file
      && worked.known == run.known + (worked.processed - run.processed)
      && run.processed <= worked.processed
      && (forall item | item in worked.processed :: item in run.processed || item in items)
      && (!worked.interrupted ==> forall item | item in items :: item in worked.processed)
    decreases |items|
  {
    if items != [] {
      ProcessAllAdds(run, items[..|items| - 1]);
      assert items == items[..|items| - 1] + [items[|items| - 1]];
    }
  }

  // A batch's items, worked through as far as the run gets.
  ghost predicate Worked(run: Run, batch: seq<Ref>, worked: Run) {
    && worked.file == run.file
    && worked.known == run.known + worked.processed && run.processed <= worked.processed
    && InBatch(worked.processed - run.known, batch)
    && (!worked.interrupted ==> forall item | item in batch :: item in worked.known)
  }

  lemma BatchIsWorked(run: Run, batch: seq<Ref>)
    requires !run.interrupted && run.processed <= run.known
    ensures Worked(run, batch, ProcessAll(run, Pending(batch, run.known)))
    ensures Pending(batch, run.known) == [] ==> forall item | item in batch :: item in run.known
  {
    var pending := Pending(batch, run.known);
    forall item: Ref ensures item in pending <==> item in batch && item !in run.known {
      PendingIs(batch, run.known, item);
    }
    ProcessAllAdds(run, pending);
  }

  lemma WorkedIsSafe(file: File, plan: Plan, batches: seq<seq<Ref>>, run: Run, batch: seq<Ref>, worked: Run,
                     saves: bool)
    requires Safe(file, plan, batches, run) && !run.interrupted && Worked(run, batch, worked)
    requires saves ==> !worked.interrupted && !plan.dryRun
    requires !saves && !worked.interrupted && !plan.dryRun ==> worked == run
    ensures Safe(file, plan, batches + [batch], if saves then Save(worked, plan.torn) else worked)
  {
    var all, after := batches + [batch], if saves then Save(worked, plan.torn) else worked;
    assert all[|batches|] == batch && forall b | 0 <= b < |batches| :: all[b] == batches[b];
    if !plan.dryRun && !plan.torn && after.interrupted {
      assert InBatch(after.processed - Loaded(after.file), all[|batches|]);
    }
  }

  lemma BatchIsSafe(file: File, plan: Plan, batches: seq<seq<Ref>>, run: Run, batch: seq<Ref>)
    requires Safe(file, plan, batches, run)
    ensures Safe(file, plan, batches + [batch], AuditBatch(run, batch, plan))
  {
    if run.interrupted {
      var all := batches + [batch];
      assert forall b | 0 <= b < |batches| :: all[b] == batches[b];
    } else {
      var pending := Pending(batch, run.known);
      BatchIsWorked(run, batch);
      var worked := ProcessAll(run, pending);
      WorkedIsSafe(file, plan, batches, run, batch, worked, !worked.interrupted && !plan.dryRun && pending != []);
    }
  }

  lemma {:induction false} EveryRunIsSafe(file: File, plan: Plan, batches: seq<seq<Ref>>)
    ensures Safe(file, plan, batches, AuditBatches(Begin(file, plan), batches, plan))
    decreases |batches|
  {
    if batches != [] {
      var front := batches[..|batches| - 1];
      EveryRunIsSafe(file, plan, front);
      BatchIsSafe(file, plan, front, AuditBatches(Begin(file, plan), front, plan), batches[|batches| - 1]);
      assert batches == front + [batches[|batches| - 1]];
    }
  }

  // A run that is not interrupted saves everything it was given, besides what it loaded.
  lemma CompleteRunSavesAll(file: File, plan: Plan)
    requires !plan.dryRun && !Audit(file, plan).interrupted
    ensures Loaded(file) <= Loaded(Audit(file, plan).file)
    ensures forall b, item | 0 <= b < |plan.batches| && item in plan.batches[b] ::
        item in Loaded(Audit(file, plan).file)
  {
    EveryRunIsSafe(file, plan, plan.batches);
  }

  // ----- many runs -----

  function AfterRuns(file: File, plans: seq<Plan>): File {
    if plans == [] then file else Audit(AfterRuns(file, plans[..|plans| - 1]), plans[|plans| - 1]).file
  }

  // Everything processed by any of the runs.
  function Processed(file: File, plans: seq<Plan>): set<Ref> {
    if plans == [] then {}
    else
      Processed(file, plans[..|plans| - 1])
      + Audit(AfterRuns(file, plans[..|plans| - 1]), plans[|plans| - 1]).processed
  }

  // Over any sequence of runs and crashes, every saved number was there at first or has been
  // processed; without torn saves no checkpoint is ever lost, and dry runs change nothing.
  lemma {:induction false} CheckpointsAreSafe(file: File, plans: seq<Plan>)
    ensures Loaded(AfterRuns(file, plans)) <= Loaded(file) + Processed(file, plans)
    ensures (forall i | 0 <= i < |plans| :: !plans[i].torn) ==> Loaded(file) <= Loaded(AfterRuns(file, plans))
    ensures (forall i | 0 <= i < |plans| :: plans[i].dryRun) ==> AfterRuns(file, plans) == file
    decreases |plans|
  {
    if plans != [] {
      var front, plan := plans[..|plans| - 1], plans[|plans| - 1];
      CheckpointsAreSafe(file, front);
      EveryRunIsSafe(AfterRuns(file, front), plan, plan.batches);
      assert forall i | 0 <= i < |front| :: plans[i] == front[i];
    }
  }

  // ----- how far a run gets -----

  function Items(batch: seq<Ref>): set<Ref> {
    set item | item in batch
  }

  function AllItems(batches: seq<seq<Ref>>): set<Ref> {
    if batches == [] then {} else AllItems(batches[..|batches| - 1]) + Items(batches[|batches| - 1])
  }

  // The steps a run that knows these items takes for the batches: one for every pending item
  // and, unless it is a dry run, one for each save.
  function StepsFor(known: set<Ref>, batches: seq<seq<Ref>>, dryRun: bool): nat {
    if batches == [] then 0
    else
      var front := batches[..|batches| - 1];
      var pending := Pending(batches[|batches| - 1], known + AllItems(front));
      StepsFor(known, front, dryRun) + |pending| + if dryRun || pending == [] then 0 else 1
  }

  // Filtering takes items one by one and keeps their order.
  lemma {:induction false} PendingAppend(a: seq<Ref>, b: seq<Ref>, known: set<Ref>)
    ensures Pending(a + b, known) == Pending(a, known) + Pending(b, known)
    decreases |b|
  {
    if b == [] {
      assert a + b == a;
    } else {
      assert (a + b)[..|a + b| - 1] == a + b[..|b| - 1];
      PendingAppend(a, b[..|b| - 1], known);
    }
  }

  // Processing takes one step an item, in order, and is interrupted exactly when the steps run
  // out.
  lemma {:induction false} ProcessAllSteps(run: Run, items: seq<Ref>)
    requires !run.interrupted
    ensures
      var worked := ProcessAll(run, items);
      && worked.file == run.file
      && (worked.interrupted <==> run.steps < |items|)
      && worked.known == run.known + Items(items[..Min(run.steps, |items|)])
      && worked.processed == run.processed + Items(items[..Min(run.steps, |items|)])
      && worked.steps == run.steps - Min(run.steps, |items|)
    decreases |items|
  {
    if items != [] {
      var front := items[..|items| - 1];
      ProcessAllSteps(run, front);
      assert items == front + [items[|items| - 1]];
      if run.steps < |items| {
        assert items[..Min(run.steps, |items|)] == front[..Min(run.steps, |front|)];
      } else {
        assert items[..|items|] == items && front[..|front|] == front;
      }
    }
  }

  function Min(a: nat, b: nat): nat {
    if a < b then a else b
  }

  // A run that has worked through these batches: it knows and has processed all their items,
  // and if it is no dry run has saved them.
  ghost predicate Through(file: File, plan: Plan, batches: seq<seq<Ref>>, run: Run) {
    var known, all := Loaded(file), AllItems(batches);
    && !run.interrupted
    && run.known == known + all && run.processed == all - known
    && StepsFor(known, batches, plan.dryRun) <= plan.steps
    && run.steps == plan.steps - StepsFor(known, batches, plan.dryRun)
    && run.file == if plan.dryRun || all <= known then file else Saved(known + all)
  }

  // A run that is interrupted in batch k: it got through the batches before, processed as many
  // pending items as it had steps left, and left the file as it was unless its save was torn.
  ghost predicate StoppedIn(file: File, plan: Plan, k: nat, through: Run, run: Run)
    requires k < |plan.batches|
  {
    && Through(file, plan, plan.batches[..k], through)
    && var pending := Pending(plan.batches[k], through.known);
    && run.interrupted
    && (if plan.dryRun then through.steps < |pending| else pending != [] && through.steps <= |pending|)
    && run.known == through.known + Items(pending[..Min(through.steps, |pending|)])
    && run.file == if through.steps == |pending| && plan.torn then Unreadable else through.file
  }

  // What one batch makes of a run, in terms of its pending items.
  lemma AuditBatchIs(run: Run, batch: seq<Ref>, plan: Plan)
    requires !run.interrupted
    ensures
      var pending, after := Pending(batch, run.known), AuditBatch(run, batch, plan);
      if pending == [] then after == run
      else if run.steps < |pending| || (run.steps == |pending| && !plan.dryRun) then
        && after.interrupted && after.known == run.known + Items(pending[..run.steps])
        && after.file == if run.steps == |pending| && plan.torn then Unreadable else run.file
      else
        && !after.interrupted
        && after.known == run.known + Items(pending) && after.processed == run.processed + Items(pending)
        && after.file == (if plan.dryRun then run.file else Saved(after.known))
        && after.steps == run.steps - |pending| - if plan.dryRun then 0 else 1
  {
    var pending := Pending(batch, run.known);
    ProcessAllSteps(run, pending);
    assert pending[..|pending|] == pending;
  }

  lemma StepsForOneMore(known: set<Ref>, batches: seq<seq<Ref>>, k: nat, dryRun: bool)
    requires k < |batches|
    ensures
      var pending := Pending(batches[k], known + AllItems(batches[..k]));
      && AllItems(batches[..k + 1]) == AllItems(batches[..k]) + Items(batches[k])
      && StepsFor(known, batches[..k + 1], dryRun)
      == StepsFor(known, batches[..k], dryRun) + |pending| + if dryRun || pending == [] then 0 else 1
  {
    assert batches[..k + 1][..k] == batches[..k];
  }

  lemma BatchThrough(file: File, plan: Plan, k: nat, through: Run)
    requires k < |plan.batches| && Through(file, plan, plan.batches[..k], through)
    ensures
      var after := AuditBatch(through, plan.batches[k], plan);
      if StepsFor(Loaded(file), plan.batches[..k + 1], plan.dryRun) <= plan.steps
      then Through(file, plan, plan.batches[..k + 1], after)
      else StoppedIn(file, plan, k, through, after)
  {
    var batch, pending := plan.batches[k], Pending(plan.batches[k], through.known);
    StepsForOneMore(Loaded(file), plan.batches, k, plan.dryRun);
    AuditBatchIs(through, batch, plan);
    ItemsThrough(Loaded(file), AllItems(plan.batches[..k]), batch);
    if through.steps == |pending| {
      assert pending[..|pending|] == pending;
    }
  }

  lemma ItemsThrough(known: set<Ref>, all: set<Ref>, batch: seq<Ref>)
    ensures
      var pending := Pending(batch, known + all);
      && (known + all) + Items(pending) == known + (all + Items(batch))
      && (all - known) + Items(pending) == (all + Items(batch)) - known
      && (pending == [] ==> known + all == known + (all + Items(batch))
                            && (all <= known <==> all + Items(batch) <= known))
      && (pending != [] ==> !(all + Items(batch) <= known))
  {
    var pending := Pending(batch, known + all);
    forall item: Ref ensures item in pending <==> item in batch && item !in known + all {
      PendingIs(batch, known + all, item);
    }
    if pending != [] {
      assert pending[0] in pending && pending[0] in Items(batch);
    }
  }

  // Batch after batch, as long as the steps last.
  lemma {:induction false} GetsThrough(file: File, plan: Plan, k: nat)
    requires k <= |plan.batches| && StepsFor(Loaded(file), plan.batches[..k], plan.dryRun) <= plan.steps
    ensures Through(file, plan, plan.batches[..k], AuditBatches(Begin(file, plan), plan.batches[..k], plan))
    decreases k
  {
    if k > 0 {
      assert plan.batches[..k][..k - 1] == plan.batches[..k - 1];
      GetsThrough(file, plan, k - 1);
      BatchThrough(file, plan, k - 1, AuditBatches(Begin(file, plan), plan.batches[..k - 1], plan));
    }
  }

  lemma {:induction false} StaysStopped(run: Run, batches: seq<seq<Ref>>, k: nat, plan: Plan)
    requires k <= |batches| && AuditBatches(run, batches[..k], plan).interrupted
    ensures AuditBatches(run, batches, plan) == AuditBatches(run, batches[..k], plan)
    decreases |batches|
  {
    if k < |batches| {
      var front := batches[..|batches| - 1];
      assert front[..k] == batches[..k];
      StaysStopped(run, front, k, plan);
    } else {
      assert batches[..k] == batches;
    }
  }

  // The batch in which the steps run out.
  lemma {:induction false} FirstUnpaid(file: File, plan: Plan, n: nat) returns (k: nat)
    requires n <= |plan.batches| && StepsFor(Loaded(file), plan.batches[..n], plan.dryRun) > plan.steps
    ensures k < n && StepsFor(Loaded(file), plan.batches[..k], plan.dryRun) <= plan.steps
    ensures StepsFor(Loaded(file), plan.batches[..k + 1], plan.dryRun) > plan.steps
    decreases n
  {
    if StepsFor(Loaded(file), plan.batches[..n - 1], plan.dryRun) > plan.steps {
      k := FirstUnpaid(file, plan, n - 1);
    } else {
      k := n - 1;
    }
  }

  // For every plan, torn or not, dry or not: a run is interrupted exactly when it has fewer steps
  // than its batches call for. With enough it gets through them all, with fewer it stops where
  // they run out.
  lemma RunsAsFarAsPaid(file: File, plan: Plan)
    ensures Audit(file, plan).interrupted <==> plan.steps < StepsFor(Loaded(file), plan.batches, plan.dryRun)
    ensures !Audit(file, plan).interrupted ==> Through(file, plan, plan.batches, Audit(file, plan))
    ensures Audit(file, plan).interrupted ==>
              exists k: nat, through :: k < |plan.batches| && StoppedIn(file, plan, k, through, Audit(file, plan))
  {
    var n := |plan.batches|;
    assert plan.batches[..n] == plan.batches;
    if StepsFor(Loaded(file), plan.batches, plan.dryRun) <= plan.steps {
      GetsThrough(file, plan, n);
    } else {
      var k := FirstUnpaid(file, plan, n);
      GetsThrough(file, plan, k);
      var through := AuditBatches(Begin(file, plan), plan.batches[..k], plan);
      BatchThrough(file, plan, k, through);
      assert plan.batches[..k + 1][..k] == plan.batches[..k];
      StaysStopped(Begin(file, plan), plan.batches, k + 1, plan);
    }
  }

  // ----- checkpoints within one run -----

  // A batch never takes anything out of the file, unless its save is torn.
  lemma BatchKeepsCheckpoints(file: File, plan: Plan, batches: seq<seq<Ref>>, run: Run, batch: seq<Ref>)
    requires Safe(file, plan, batches, run)
    ensures
      var after := AuditBatch(run, batch, plan);
      Loaded(run.file) <= Loaded(after.file) || TornIn(plan, after)
    ensures TornIn(plan, run) ==> TornIn(plan, AuditBatch(run, batch, plan))
  {
    if !run.interrupted {
      BatchIsWorked(run, batch);
    }
  }

  predicate TornIn(plan: Plan, run: Run) {
    plan.torn && run.interrupted && run.file == Unreadable
  }

  // Successive checkpoints of a run only grow, up to a torn save.
  lemma {:induction false} CheckpointsGrow(file: File, plan: Plan, n: nat, m: nat)
    requires n <= m <= |plan.batches|
    ensures
      var later := AuditBatches(Begin(file, plan), plan.batches[..m], plan);
      || TornIn(plan, later)
      || Loaded(AuditBatches(Begin(file, plan), plan.batches[..n], plan).file) <= Loaded(later.file)
    decreases m - n
  {
    if n < m {
      CheckpointsGrow(file, plan, n, m - 1);
      var front := plan.batches[..m - 1];
      assert plan.batches[..m][..m - 1] == front;
      EveryRunIsSafe(file, plan, front);
      BatchKeepsCheckpoints(file, plan, front, AuditBatches(Begin(file, plan), front, plan), plan.batches[m - 1]);
    }
  }

  // ----- when checkpoints are lost -----

  // Whether a run that knows these items comes, after exactly this many steps, to a save: each
  // batch with pending items takes a step for each of them and one for the save.
  predicate SaveDueAt(known: set<Ref>, batches: seq<seq<Ref>>, steps: nat)
    decreases |batches|
  {
    if batches == [] then false
    else
      var pending := Pending(batches[0], known);
      if pending == [] then SaveDueAt(known, batches[1..], steps)
      else
        || steps == |pending|
        || (steps > |pending| && SaveDueAt(known + Items(pending), batches[1..], steps - |pending| - 1))
  }

  // Auditing the first batch and then the others.
  lemma {:induction false} AuditFirst(run: Run, batches: seq<seq<Ref>>, plan: Plan)
    requires batches != []
    ensures AuditBatches(run, batches, plan) == AuditBatches(AuditBatch(run, batches[0], plan), batches[1..], plan)
    decreases |batches|
  {
    var front, last := batches[..|batches| - 1], batches[|batches| - 1];
    if front == [] {
      assert batches[1..] == [];
    } else {
      AuditFirst(run, front, plan);
      assert batches[1..][..|batches| - 2] == front[1..];
    }
  }

  lemma {:induction false} InterruptedStays(run: Run, batches: seq<seq<Ref>>, plan: Plan)
    requires run.interrupted
    ensures AuditBatches(run, batches, plan) == run
    decreases |batches|
  {
    if batches != [] {
      InterruptedStays(run, batches[..|batches| - 1], plan);
    }
  }

  lemma {:induction false} UnreadableWhenDue(run: Run, batches: seq<seq<Ref>>, plan: Plan)
    requires !run.interrupted && run.file != Unreadable && !plan.dryRun && plan.torn
    ensures AuditBatches(run, batches, plan).file == Unreadable <==> SaveDueAt(run.known, batches, run.steps)
    decreases |batches|
  {
    if batches != [] {
      AuditFirst(run, batches, plan);
      AuditBatchIs(run, batches[0], plan);
      var after := AuditBatch(run, batches[0], plan);
      if after.interrupted {
        InterruptedStays(after, batches[1..], plan);
      } else {
        UnreadableWhenDue(after, batches[1..], plan);
      }
    }
  }

  // The saving is not atomic: a run loses checkpoints exactly when there are some, it is not a
  // dry run, and it is interrupted at a step at which it comes to a save, which is torn.
  lemma LosesExactlyWhenTorn(file: File, plan: Plan)
    ensures !(Loaded(file) <= Loaded(Audit(file, plan).file)) <==>
              && Loaded(file) != {} && !plan.dryRun && plan.torn
              && SaveDueAt(Loaded(file), plan.batches, plan.steps)
  {
    EveryRunIsSafe(file, plan, plan.batches);
    if file.Saved? && !plan.dryRun && plan.torn {
      UnreadableWhenDue(Begin(file, plan), plan.batches, plan);
    }
  }

  // ... and that can happen to any file that has checkpoints: one new item, processed, its
  // checkpoint torn, and nothing is left.
  lemma TornSaveCanLose(file: File, item: Ref) returns (plan: Plan)
    requires Loaded(file) != {} && item !in Loaded(file)
    ensures !(Loaded(file) <= Loaded(Audit(file, plan).file)) && Loaded(Audit(file, plan).file) == {}
    ensures Audit(file, plan).processed == {item}
  {
    plan := Plan(false, [[item]], 1, true);
    var begin := Begin(file, plan);
    assert [[item]][..0] == [];
    assert [item][..0] == [] && Pending([item], begin.known) == [item];
    assert ProcessAll(begin, [item]) == Process(begin, item);
    assert AuditBatch(begin, [item], plan) == Save(Process(begin, item), true);
    assert AuditBatches(begin, [], plan) == begin;
  }
}
