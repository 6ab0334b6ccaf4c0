/** Which steps an execution starts and which it skips: the conditions and guards, stated on the
    states an execution reaches rather than on the launch loop. */
module WorkflowRules {
  import opened Guards
  import opened Workflows
  import opened WorkflowTheorems
  import opened WorkflowExecutions

  predicate KnownCondition(c: string) { c == COND_ALWAYS || c == COND_ON_SUCCESS || c == COND_ON_FAILURE }

  /** What its condition says of step `st` with the steps `before` ahead of it.  A step that is
      not Parallel looks at them finished; a Parallel one may be started before they are. */
  ghost predicate ConditionKept(before: seq<Step>, st: Step) {
    && (st.condition == COND_ON_FAILURE && Attempted(st) ==> AnyBad(before))
    && (st.condition == COND_ON_SUCCESS && st.when_ == "" && st.status == Skipped ==> AnyBad(before))
    && (st.condition == COND_ON_SUCCESS && Attempted(st) && !st.parallel ==> !AnyBad(before))
    && (st.condition == COND_ON_FAILURE && st.when_ == "" && st.status == Skipped && !st.parallel ==> !AnyBad(before))
    && (!KnownCondition(st.condition) ==> !Attempted(st))
  }

  ghost predicate ConditionsKept(steps: seq<Step>) {
    forall i :: 0 <= i < |steps| ==> ConditionKept(steps[..i], steps[i])
  }

  lemma ConditionsSnoc(front: seq<Step>, st: Step)
    requires ConditionsKept(front) && ConditionKept(front, st)
    ensures ConditionsKept(front + [st])
  {
    var all := front + [st];
    forall i | 0 <= i < |all| ensures ConditionKept(all[..i], all[i]) {
      if i < |front| {
        assert all[..i] == front[..i] && all[i] == front[i];
      } else {
        assert all[..i] == front;
      }
    }
  }

  lemma {:induction false} PendingKeepConditions(front: seq<Step>, rest: seq<Step>)
    requires ConditionsKept(front) && AllPending(rest)
    ensures ConditionsKept(front + rest)
    decreases |rest|
  {
    if rest == [] {
      assert front + rest == front;
    } else {
      ConditionsSnoc(front, rest[0]);
      PendingKeepConditions(front + [rest[0]], rest[1..]);
      Rejoin(front, rest[0], rest[1..]);
      assert [rest[0]] + rest[1..] == rest;
    }
  }

  lemma Rejoin(front: seq<Step>, st: Step, rest: seq<Step>)
    ensures front + [st] + rest == front + ([st] + rest)
  {
  }

  lemma BadSnoc(front: seq<Step>, st: Step)
    ensures AnyBad(front + [st]) <==> AnyBad(front) || Bad(st.status)
  {
    var all := front + [st];
    assert all[|front|] == st;
    assert forall i :: 0 <= i < |front| ==> all[i] == front[i];
  }

  lemma {:induction false} ScanKeepsConditions(front: seq<Step>, rest: seq<Step>, k: nat, launched: bool, vars: Vars,
                                               launch: Launcher)
    requires ConditionsKept(front) && AllPending(rest)
    ensures ConditionsKept(front + Scan(rest, k, AnyBad(front), launched, vars, launch).steps)
    decreases |rest|
  {
    if rest == [] || EndsWave(rest[0], launched) {
      PendingKeepConditions(front, rest);
    } else {
      var v := Visit(rest[0], k, AnyBad(front), launched, vars, launch);
      ConditionsSnoc(front, v.step);
      BadSnoc(front, v.step);
      ScanKeepsConditions(front + [v.step], rest[1..], k + 1, v.launched, vars, launch);
      Rejoin(front, v.step, Scan(rest[1..], k + 1, v.failed, v.launched, vars, launch).steps);
    }
  }

  lemma WaveKeepsConditions(w: Wf, launch: Launcher)
    requires Prefix(w.steps) && !AnyRunning(w.steps) && ConditionsKept(w.steps)
    ensures ConditionsKept(NextWave(w, 0, AnyBad(w.steps), launch).steps)
  {
    var p := FirstPending(w.steps);
    WaveParts(w, AnyBad(w.steps), launch);
    SplitAtCursor(w);
    FrontKeepsConditions(w.steps, p);
    ScanKeepsConditions(w.steps[..p], w.steps[p..], p, false, w.vars, launch);
  }

  lemma FrontKeepsConditions(steps: seq<Step>, p: nat)
    requires ConditionsKept(steps) && p <= |steps|
    ensures ConditionsKept(steps[..p])
  {
    forall i | 0 <= i < p ensures ConditionKept(steps[..p][..i], steps[..p][i]) {
      assert steps[..p][..i] == steps[..i];
    }
  }

  lemma RecordKeepsConditions(w: Wf, e: Event)
    requires Shape(w) && Live(w, e) && ConditionsKept(w.steps)
    ensures ConditionsKept(Record(w, e).steps)
  {
    var steps := Record(w, e).steps;
    forall i | 0 <= i < |steps| ensures ConditionKept(steps[..i], steps[i]) {
      assert ConditionKept(w.steps[..i], w.steps[i]);
      if i <= e.idx {
        assert steps[..i] == w.steps[..i];
      } else {
        assert i < FirstPending(w.steps) ==> w.steps[i].parallel;
        StillBad(w.steps, e.idx, steps[e.idx], i);
      }
    }
  }

  lemma StillBad(steps: seq<Step>, k: nat, st: Step, i: nat)
    requires k < i <= |steps| && !Bad(steps[k].status)
    ensures AnyBad(steps[..i]) ==> AnyBad(steps[k := st][..i])
  {
    if AnyBad(steps[..i]) {
      var b :| 0 <= b < i && Bad(steps[..i][b].status);
      assert steps[k := st][..i][b] == steps[b];
    }
  }

  lemma DeliverKeepsConditions(w: Wf, e: Event, launch: Launcher)
    requires Shape(w) && Live(w, e) && ConditionsKept(w.steps)
    ensures ConditionsKept(Deliver(w, e, launch).steps)
  {
    var w1 := Record(w, e);
    RecordKeepsConditions(w, e);
    RecordFacts(w, e);
    if !AnyRunning(w1.steps) { WaveKeepsConditions(w1, launch); }
  }

  lemma {:induction false} RunKeepsConditions(w: Wf, ds: seq<Delivery>)
    requires Shape(w) && Legal(w, ds) && ConditionsKept(w.steps)
    ensures ConditionsKept(Run(w, ds).steps)
    decreases |ds|
  {
    if ds != [] {
      DeliverKeeps(w, ds[0].event, ds[0].launch);
      DeliverKeepsConditions(w, ds[0].event, ds[0].launch);
      RunKeepsConditions(Deliver(w, ds[0].event, ds[0].launch), ds[1..]);
    }
  }

  /** At every moment of every execution, whatever launches and runs yield: an on_failure step was
      only ever attempted after a bad step ahead of it, an unguarded on_success step was skipped
      only because of one, and for steps that are not Parallel both hold exactly; a step with an
      unknown condition is never attempted. */
  lemma ConditionsDecide(defs: seq<StepDef>, defaults: Vars, overrides: Vars, launch: Launcher, ds: seq<Delivery>)
    requires Legal(Start(defs, defaults, overrides, launch), ds)
    ensures ConditionsKept(Run(Start(defs, defaults, overrides, launch), ds).steps)
  {
    var w := Wf(InstantiateAll(defs), WfRunning, defaults + overrides);
    StartKeeps(defs, defaults, overrides, launch);
    NothingYet(defs, defaults + overrides);
    assert [] + w.steps == w.steps;
    PendingKeepConditions([], w.steps);
    WaveKeepsConditions(w, launch);
    RunKeepsConditions(Start(defs, defaults, overrides, launch), ds);
  }

  // ---- guards ----------------------------------------------------------------------------------------

  predicate GuardHolds(st: Step, vars: Vars) { st.when_ == "" || EvalWhen(st.when_, vars) }

  /** What its guard says of a step that has just left pending. */
  ghost predicate GuardKept(st: Step, vars: Vars) {
    && (Attempted(st) ==> GuardHolds(st, vars))
    && (st.condition == COND_ALWAYS && st.status == Skipped ==> !GuardHolds(st, vars))
  }

  lemma {:induction false} ScanKeepsGuards(rest: seq<Step>, k: nat, failed: bool, launched: bool, vars: Vars,
                                           launch: Launcher, j: nat)
    requires AllPending(rest) && j < |rest|
    ensures GuardKept(Scan(rest, k, failed, launched, vars, launch).steps[j], vars)
    decreases |rest|
  {
    if !EndsWave(rest[0], launched) && j > 0 {
      var v := Visit(rest[0], k, failed, launched, vars, launch);
      ScanKeepsGuards(rest[1..], k + 1, v.failed, v.launched, vars, launch, j - 1);
    }
  }

  /** When a delivery starts a step, its guard holds of the variables as that event left them,
      exports included; when it skips an `always` step, the guard does not. */
  lemma GuardDecides(w: Wf, e: Event, launch: Launcher, i: nat)
    requires Shape(w) && Live(w, e) && i < |w.steps|
    requires w.steps[i].status == Pending && Deliver(w, e, launch).steps[i].status != Pending
    ensures Deliver(w, e, launch).vars == w.vars + e.exports
    ensures GuardKept(Deliver(w, e, launch).steps[i], w.vars + e.exports)
  {
    var w1 := Record(w, e);
    WaveIsOver(w, e, launch, i);
    RecordFacts(w, e);
    WaveParts(w1, AnyBad(w1.steps), launch);
    SplitAtCursor(w1);
    var p := FirstPending(w1.steps);
    assert w1.steps[i].status == Pending && p <= i;
    ScanKeepsGuards(w1.steps[p..], p, AnyBad(w1.steps), false, w1.vars, launch, i - p);
  }
}
