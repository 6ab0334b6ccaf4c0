/** Steps whose run reports twice.

    The engine overwrites the status of a finished step without looking at it, so a second report
    can take back what later steps were started or skipped for.  The shape of the run and its
    status survive this (`WorkflowExecutions.RunKeeps`, `StatusAlwaysOk`); what the conditions of
    later steps promise survives exactly the repetitions described here. */
module WorkflowRepeats {
  import opened Guards
  import opened Workflows
  import opened WorkflowTheorems
  import opened WorkflowExecutions
  import opened WorkflowRules

  // ---- conditions -----------------------------------------------------------------------------------

  /** What became of `st` was decided by whether some step ahead of it was bad; a Parallel step
      relies on that only where it needed a bad one. */
  predicate Relied(st: Step, bad: bool) {
    if bad then
      || (st.condition == COND_ON_FAILURE && Attempted(st))
      || (st.condition == COND_ON_SUCCESS && st.when_ == "" && st.status == Skipped)
    else
      && !st.parallel
      && (|| (st.condition == COND_ON_SUCCESS && Attempted(st))
          || (st.condition == COND_ON_FAILURE && st.when_ == "" && st.status == Skipped))
  }

  /** The event turns a bad step good or a good one bad, and a later step, ahead of which no other
      step is bad, had relied on it. */
  ghost predicate Undermines(w: Wf, e: Event)
    requires 0 <= e.idx < |w.steps|
  {
    && w.status == WfRunning
    && Bad(w.steps[e.idx].status) != Bad(e.status)
    && exists i ::
        e.idx < i < |w.steps| && Relied(w.steps[i], Bad(w.steps[e.idx].status)) && AllElseGood(w.steps, e.idx, i)
  }

  /** Ahead of step `i`, no step but `k` is bad. */
  ghost predicate AllElseGood(steps: seq<Step>, k: nat, i: nat) {
    forall j :: 0 <= j < i && j < |steps| && j != k ==> !Bad(steps[j].status)
  }

  lemma BadAhead(steps: seq<Step>, k: nat, i: nat)
    requires k < i <= |steps|
    ensures AnyBad(steps[..i]) <==> Bad(steps[k].status) || !AllElseGood(steps, k, i)
  {
    if AnyBad(steps[..i]) {
      var b :| 0 <= b < i && Bad(steps[..i][b].status);
      assert steps[..i][b] == steps[b];
    }
    if Bad(steps[k].status) { assert steps[..i][k] == steps[k]; }
    if j :| 0 <= j < i && j < |steps| && j != k && Bad(steps[j].status) { assert steps[..i][j] == steps[j]; }
  }

  lemma AllElseSame(steps: seq<Step>, k: nat, st: Step, i: nat)
    requires k < |steps|
    ensures AllElseGood(steps[k := st], k, i) <==> AllElseGood(steps, k, i)
  {
    assert forall j :: 0 <= j < |steps| && j != k ==> steps[k := st][j] == steps[j];
  }

  /** One later step: its condition is still kept unless the event flips what it relied on. */
  lemma LaterStepKept(w: Wf, e: Event, i: nat)
    requires Started(w, e) && e.idx < i < |w.steps| && ConditionKept(w.steps[..i], w.steps[i])
    ensures var flips := Bad(w.steps[e.idx].status) != Bad(e.status) && AllElseGood(w.steps, e.idx, i);
            ConditionKept(Record(w, e).steps[..i], w.steps[i])
            <==> !(flips && Relied(w.steps[i], Bad(w.steps[e.idx].status)))
  {
    var steps := Record(w, e).steps;
    BadAhead(w.steps, e.idx, i);
    BadAhead(steps, e.idx, i);
    AllElseSame(w.steps, e.idx, steps[e.idx], i);
  }

  lemma EarlierStepKept(w: Wf, e: Event, i: nat)
    requires Started(w, e) && i <= e.idx && ConditionKept(w.steps[..i], w.steps[i])
    ensures ConditionKept(Record(w, e).steps[..i], Record(w, e).steps[i])
  {
    assert Record(w, e).steps[..i] == w.steps[..i];
  }

  lemma RecordConditionsIff(w: Wf, e: Event)
    requires ConditionsKept(w.steps) && Started(w, e) && w.status == WfRunning
    ensures ConditionsKept(Record(w, e).steps) <==> !Undermines(w, e)
  {
    var steps := Record(w, e).steps;
    var bad := Bad(w.steps[e.idx].status);
    forall i | 0 <= i < |steps|
      ensures i <= e.idx ==> ConditionKept(steps[..i], steps[i])
      ensures i > e.idx ==>
                (ConditionKept(steps[..i], steps[i])
                 <==> !(bad != Bad(e.status) && AllElseGood(w.steps, e.idx, i) && Relied(w.steps[i], bad)))
    {
      if i <= e.idx { EarlierStepKept(w, e, i); } else { LaterStepKept(w, e, i); }
    }
  }

  /** An event of a step in flight never undermines anything. */
  lemma FirstNeverUndermines(w: Wf, e: Event)
    requires Shape(w) && Live(w, e)
    ensures !Undermines(w, e)
  {
    forall i | e.idx < i < |w.steps| ensures !Relied(w.steps[i], false) {
      assert i < FirstPending(w.steps) ==> w.steps[i].parallel;
    }
  }

  /** Exactly which events keep the conditions of all steps: all but those that undermine a step. */
  lemma DeliverConditionsIff(w: Wf, e: Event, launch: Launcher)
    requires Shape(w) && ConditionsKept(w.steps) && Started(w, e)
    ensures ConditionsKept(Deliver(w, e, launch).steps) <==> !Undermines(w, e)
  {
    if Live(w, e) {
      FirstNeverUndermines(w, e);
      DeliverKeepsConditions(w, e, launch);
    } else {
      RepeatOnlyRecords(w, e, launch);
      if w.status == WfRunning { RecordConditionsIff(w, e); }
    }
  }

  /** The conditions hold at every moment of the execution. */
  ghost predicate ConditionsAlways(w: Wf, ds: seq<Delivery>)
    decreases |ds|
  {
    ConditionsKept(w.steps) && (ds == [] || ConditionsAlways(Deliver(w, ds[0].event, ds[0].launch), ds[1..]))
  }

  ghost predicate NeverUndermined(w: Wf, ds: seq<Delivery>)
    requires Possible(w, ds)
    decreases |ds|
  {
    ds == [] || (!Undermines(w, ds[0].event) && NeverUndermined(Deliver(w, ds[0].event, ds[0].launch), ds[1..]))
  }

  lemma {:induction false} ConditionsAlwaysIff(w: Wf, ds: seq<Delivery>)
    requires Shape(w) && Possible(w, ds) && ConditionsKept(w.steps)
    ensures ConditionsAlways(w, ds) <==> NeverUndermined(w, ds)
    decreases |ds|
  {
    if ds != [] {
      var w1 := Deliver(w, ds[0].event, ds[0].launch);
      DeliverConditionsIff(w, ds[0].event, ds[0].launch);
      DeliverKeeps(w, ds[0].event, ds[0].launch);
      if ConditionsKept(w1.steps) { ConditionsAlwaysIff(w1, ds[1..]); }
    }
  }

  /** Over every execution, repeated events included: the conditions of all steps hold at every
      moment exactly when no event undermines a step. */
  lemma ConditionsDecideIff(defs: seq<StepDef>, defaults: Vars, overrides: Vars, launch: Launcher, ds: seq<Delivery>)
    requires Possible(Start(defs, defaults, overrides, launch), ds)
    ensures ConditionsAlways(Start(defs, defaults, overrides, launch), ds)
            <==> NeverUndermined(Start(defs, defaults, overrides, launch), ds)
  {
    StartKeeps(defs, defaults, overrides, launch);
    ConditionsDecide(defs, defaults, overrides, launch, []);
    ConditionsAlwaysIff(Start(defs, defaults, overrides, launch), ds);
  }

  // ---- on_failure steps and success ---------------------------------------------------------------------

  /** The event takes back the only bad step there is, after an on_failure step was tried. */
  ghost predicate TakesBack(w: Wf, e: Event)
    requires 0 <= e.idx < |w.steps|
  {
    && w.status == WfRunning
    && Bad(w.steps[e.idx].status) && !Bad(e.status) && AllElseGood(w.steps, e.idx, |w.steps|)
    && exists i :: 0 <= i < |w.steps| && w.steps[i].condition == COND_ON_FAILURE && Attempted(w.steps[i])
  }

  lemma RecordCausesIff(w: Wf, e: Event)
    requires FailuresCaused(w) && Started(w, e) && w.status == WfRunning
    ensures FailuresCaused(Record(w, e)) <==> !TakesBack(w, e)
  {
    var steps := Record(w, e).steps;
    assert w.steps[..|w.steps|] == w.steps && steps[..|steps|] == steps;
    BadAhead(w.steps, e.idx, |w.steps|);
    BadAhead(steps, e.idx, |steps|);
    AllElseSame(w.steps, e.idx, steps[e.idx], |steps|);
    forall i | 0 <= i < |steps|
      ensures steps[i].condition == w.steps[i].condition && (Attempted(steps[i]) <==> Attempted(w.steps[i]))
    {}
    if i :| 0 <= i < |w.steps| && w.steps[i].condition == COND_ON_FAILURE && Attempted(w.steps[i]) {
      assert AnyBad(w.steps) && Attempted(steps[i]);
      assert FailuresCaused(Record(w, e)) ==> AnyBad(steps);
    }
  }

  /** Exactly which events keep it true that on_failure steps were tried only for a bad step. */
  lemma DeliverCausesIff(w: Wf, e: Event, launch: Launcher)
    requires Shape(w) && FailuresCaused(w) && Started(w, e)
    ensures FailuresCaused(Deliver(w, e, launch)) <==> !TakesBack(w, e)
  {
    if Live(w, e) {
      DeliverKeeps(w, e, launch);
    } else {
      RepeatOnlyRecords(w, e, launch);
      if w.status == WfRunning { RecordCausesIff(w, e); }
    }
  }

  ghost predicate CausesAlways(w: Wf, ds: seq<Delivery>)
    decreases |ds|
  {
    FailuresCaused(w) && (ds == [] || CausesAlways(Deliver(w, ds[0].event, ds[0].launch), ds[1..]))
  }

  ghost predicate NeverTakenBack(w: Wf, ds: seq<Delivery>)
    requires Possible(w, ds)
    decreases |ds|
  {
    ds == [] || (!TakesBack(w, ds[0].event) && NeverTakenBack(Deliver(w, ds[0].event, ds[0].launch), ds[1..]))
  }

  lemma {:induction false} CausesAlwaysIff(w: Wf, ds: seq<Delivery>)
    requires Shape(w) && Possible(w, ds) && FailuresCaused(w)
    ensures CausesAlways(w, ds) <==> NeverTakenBack(w, ds)
    ensures CausesAlways(w, ds) ==> FailuresCaused(Run(w, ds))
    decreases |ds|
  {
    if ds != [] {
      var w1 := Deliver(w, ds[0].event, ds[0].launch);
      DeliverCausesIff(w, ds[0].event, ds[0].launch);
      DeliverKeeps(w, ds[0].event, ds[0].launch);
      if FailuresCaused(w1) { CausesAlwaysIff(w1, ds[1..]); }
    }
  }

  /** Over every execution, repeated events included: on_failure steps are tried only for a bad step,
      at every moment, exactly when no event takes the last bad step back; and then a successful
      workflow skipped every on_failure step. */
  lemma VerdictOfRepeats(defs: seq<StepDef>, defaults: Vars, overrides: Vars, launch: Launcher, ds: seq<Delivery>)
    requires Possible(Start(defs, defaults, overrides, launch), ds)
    ensures var w0 := Start(defs, defaults, overrides, launch);
            && (CausesAlways(w0, ds) <==> NeverTakenBack(w0, ds))
            && (NeverTakenBack(w0, ds) ==> SuccessOk(defs, Run(w0, ds)))
  {
    var w0 := Start(defs, defaults, overrides, launch);
    StartKeeps(defs, defaults, overrides, launch);
    CausesAlwaysIff(w0, ds);
    RunKeeps(w0, ds);
    SameDefsTrans(InstantiateAll(defs), w0.steps, Run(w0, ds).steps);
    if NeverTakenBack(w0, ds) { SuccessFromHistory(defs, Run(w0, ds)); }
  }

  // ---- an execution that breaks the verdict ---------------------------------------------------------------

  const TWO_STEPS := [StepDef("t0", COND_ALWAYS, "", false), StepDef("t1", COND_ON_FAILURE, "", false)]

  function AllLaunched(): Launcher { (k: nat) => Launched("run") }

  function Report(i: int, status: Outcome): Delivery { Delivery(Event(i, "run", status, map[]), AllLaunched()) }

  function TwoSteps(a: StepStatus, b: StepStatus): seq<Step> {
    [Step("t0", COND_ALWAYS, "", false, a, if a == Pending then "" else "run"),
     Step("t1", COND_ON_FAILURE, "", false, b, if b == Pending then "" else "run")]
  }

  lemma FirstWave()
    ensures Start(TWO_STEPS, map[], map[], AllLaunched()) == Wf(TwoSteps(Running, Pending), WfRunning, map[])
  {
    var steps := InstantiateAll(TWO_STEPS);
    assert steps == TwoSteps(Pending, Pending);
    assert steps[0..] == steps && steps[..0] == [] && steps[1..] == [steps[1]];
    var none: Vars := map[];
    assert none + none == none;
    assert Scan(steps[1..], 1, false, true, none, AllLaunched()) == Scanned(steps[1..], false, true);
    assert Scan(steps, 0, false, false, none, AllLaunched()).steps == TwoSteps(Running, Pending);
  }

  lemma SecondWave()
    ensures Deliver(Wf(TwoSteps(Running, Pending), WfRunning, map[]), Report(0, Canceled).event, AllLaunched())
         == Wf(TwoSteps(Canceled, Running), WfRunning, map[])
  {
    var w := Wf(TwoSteps(Running, Pending), WfRunning, map[]);
    var w1 := Record(w, Report(0, Canceled).event);
    var none: Vars := map[];
    assert none + none == none && w1 == Wf(TwoSteps(Canceled, Pending), WfRunning, none);
    assert Bad(w1.steps[0].status);
    var steps := w1.steps;
    assert steps[0..] == steps && steps[..0] == [] && steps[1..] == [steps[1]] && steps[1..][1..] == [];
    assert Scan(steps[1..], 1, true, false, none, AllLaunched()).steps == [TwoSteps(Canceled, Running)[1]];
    assert Scan(steps, 0, true, false, none, AllLaunched()) == Scanned(TwoSteps(Canceled, Running), true, true);
  }

  lemma TakenBack()
    ensures Deliver(Wf(TwoSteps(Canceled, Running), WfRunning, map[]), Report(0, Success).event, AllLaunched())
         == Wf(TwoSteps(Success, Running), WfRunning, map[])
  {
    var none: Vars := map[];
    var w1 := Record(Wf(TwoSteps(Canceled, Running), WfRunning, none), Report(0, Success).event);
    assert none + none == none;
    assert w1 == Wf(TwoSteps(Success, Running), WfRunning, none) && w1.steps[1].status == Running;
  }

  lemma LastReport()
    ensures Deliver(Wf(TwoSteps(Success, Running), WfRunning, map[]), Report(1, Success).event, AllLaunched())
         == Wf(TwoSteps(Success, Success), WfSuccess, map[])
  {
    var none: Vars := map[];
    assert none + none == none;
    var w1 := Record(Wf(TwoSteps(Success, Running), WfRunning, none), Report(1, Success).event);
    assert w1 == Wf(TwoSteps(Success, Success), WfRunning, none);
    FirstPendingIs(w1.steps, 2);
    RescanIsCursor(w1, false, AllLaunched());
    assert w1.steps[2..] == [] && w1.steps[..2] == w1.steps;
  }

  /** A run canceled in the queue reports that, the on_failure step is started, and the run, started
      all the same, reports success: the workflow succeeds although its on_failure step was run. */
  lemma SuccessAfterOnFailure() returns (ds: seq<Delivery>)
    ensures var w0 := Start(TWO_STEPS, map[], map[], AllLaunched());
            && Possible(w0, ds)
            && Run(w0, ds).status == WfSuccess
            && Run(w0, ds).steps == TwoSteps(Success, Success)
            && !SuccessOk(TWO_STEPS, Run(w0, ds))
  {
    ds := [Report(0, Canceled), Report(0, Success), Report(1, Success)];
    var none: Vars := map[];
    FirstWave();
    SecondWave();
    TakenBack();
    LastReport();
    var w0 := Wf(TwoSteps(Running, Pending), WfRunning, none);
    var w1 := Wf(TwoSteps(Canceled, Running), WfRunning, none);
    var w2 := Wf(TwoSteps(Success, Running), WfRunning, none);
    var w3 := Wf(TwoSteps(Success, Success), WfSuccess, none);
    var rest := ds[1..];
    assert rest == [Report(0, Success), Report(1, Success)] && rest[1..] == [Report(1, Success)];
    assert rest[1..][1..] == [];
    assert Run(w3, []) == w3 && Possible(w3, []);
    assert Run(w2, rest[1..]) == w3 && Possible(w2, rest[1..]);
    assert Run(w1, rest) == w3 && Possible(w1, rest);
    assert Run(w0, ds) == w3 && Possible(w0, ds);
    assert TWO_STEPS[1].condition == COND_ON_FAILURE && w3.steps[1].status == Success;
  }
}
