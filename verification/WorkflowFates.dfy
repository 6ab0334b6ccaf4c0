/** What becomes of each single step: whether it is started, skipped or fails to start, under which
    run, and with which variables.  `Due` states the rule on its own terms; the lemmas say that
    starting a workflow and every event follow it. */
module WorkflowFates {
  import opened Guards
  import opened Workflows
  import opened WorkflowTheorems
  import opened WorkflowExecutions

  /** A step is due if its condition fits whether a step ahead of it is bad, and its guard holds. */
  predicate Due(st: Step, bad: bool, vars: Vars) {
    && (st.condition == "always" || st.condition == if bad then "on_failure" else "on_success")
    && (st.when_ == "" || EvalWhen(st.when_, vars))
  }

  /** The pending step `st` became `st'`, its own launch having yielded `l`. */
  ghost predicate Fate(st: Step, st': Step, bad: bool, vars: Vars, l: Launch) {
    && (st'.status == Skipped <==> !Due(st, bad, vars))
    && (st'.status == Running <==> Due(st, bad, vars) && l.Launched?)
    && (st'.status == Failed <==> Due(st, bad, vars) && !l.Launched?)
    && st' == st.(status := st'.status, runId := if st'.status == Running then l.runId else st.runId)
  }

  lemma VisitFate(st: Step, k: nat, failed: bool, launched: bool, vars: Vars, launch: Launcher)
    requires st.status == Pending
    ensures var v := Visit(st, k, failed, launched, vars, launch);
            Fate(st, v.step, failed, vars, launch(k)) && (v.failed <==> failed || Bad(v.step.status))
  {
  }

  lemma BadAheadCons(st: Step, steps: seq<Step>, j: nat)
    requires j <= |steps|
    ensures AnyBad(([st] + steps)[..j + 1]) <==> Bad(st.status) || AnyBad(steps[..j])
  {
    ConsFacts(st, steps[..j]);
    assert ([st] + steps)[..j + 1] == [st] + steps[..j];
  }

  /** It met its fate, or its turn has still to come. */
  ghost predicate Met(st: Step, st': Step, bad: bool, vars: Vars, l: Launch) {
    st' == st || Fate(st, st', bad, vars, l)
  }

  lemma MetCons(st: Step, st': Step, rest: seq<Step>, steps: seq<Step>, failed: bool, failed': bool, vars: Vars,
                l: Launch, j: nat)
    requires |steps| == |rest| && j <= |rest| && (failed' <==> failed || Bad(st'.status))
    requires if j == 0 then Met(st, st', failed, vars, l)
             else Met(rest[j - 1], steps[j - 1], failed' || AnyBad(steps[..j - 1]), vars, l)
    ensures Met(([st] + rest)[j], ([st'] + steps)[j], failed || AnyBad(([st'] + steps)[..j]), vars, l)
  {
    if j > 0 { BadAheadCons(st', steps, j - 1); }
  }

  lemma {:induction false} ScanFates(rest: seq<Step>, k: nat, failed: bool, launched: bool, vars: Vars,
                                     launch: Launcher, j: nat)
    requires AllPending(rest) && j < |rest|
    ensures var steps := Scan(rest, k, failed, launched, vars, launch).steps;
            Met(rest[j], steps[j], failed || AnyBad(steps[..j]), vars, launch(k + j))
    decreases |rest|
  {
    if EndsWave(rest[0], launched) {
      assert Scan(rest, k, failed, launched, vars, launch).steps == rest;
    } else {
      var v := Visit(rest[0], k, failed, launched, vars, launch);
      var r := Scan(rest[1..], k + 1, v.failed, v.launched, vars, launch);
      VisitFate(rest[0], k, failed, launched, vars, launch);
      if j > 0 { ScanFates(rest[1..], k + 1, v.failed, v.launched, vars, launch, j - 1); }
      MetCons(rest[0], v.step, rest[1..], r.steps, failed, v.failed, vars, launch(k + j), j);
      ScanTakes(rest, k, failed, launched, vars, launch);
    }
  }

  lemma BadAheadJoin(front: seq<Step>, steps: seq<Step>, j: nat)
    requires NonePending(front) && j <= |steps|
    ensures AnyBad((front + steps)[..|front| + j]) <==> AnyBad(front) || AnyBad(steps[..j])
  {
    JoinFacts(front, steps[..j]);
    assert (front + steps)[..|front| + j] == front + steps[..j];
  }

  lemma JoinedFates(front: seq<Step>, rest: seq<Step>, vars: Vars, launch: Launcher, i: nat)
    requires NonePending(front) && AllPending(rest) && |front| <= i < |front| + |rest|
    ensures var all := front + Scan(rest, |front|, AnyBad(front), false, vars, launch).steps;
            Met((front + rest)[i], all[i], AnyBad(all[..i]), vars, launch(i))
  {
    var steps := Scan(rest, |front|, AnyBad(front), false, vars, launch).steps;
    ScanFates(rest, |front|, AnyBad(front), false, vars, launch, i - |front|);
    BadAheadJoin(front, steps, i - |front|);
  }

  /** A step that a wave takes meets its fate, with the steps ahead of it as the wave leaves them. */
  lemma WaveFates(w: Wf, launch: Launcher, i: nat)
    requires Prefix(w.steps) && !AnyRunning(w.steps) && i < |w.steps|
    ensures var w' := NextWave(w, 0, AnyBad(w.steps), launch);
            if w.steps[i].status == Pending
            then Met(w.steps[i], w'.steps[i], AnyBad(w'.steps[..i]), w.vars, launch(i))
            else w'.steps[i] == w.steps[i]
  {
    WaveParts(w, AnyBad(w.steps), launch);
    SplitAtCursor(w);
    var p := FirstPending(w.steps);
    if i >= p { JoinedFates(w.steps[..p], w.steps[p..], w.vars, launch, i); }
  }

  /** `vars` has the entries of `a` and `b`, those of `b` where both have one. */
  ghost predicate Overlaid(vars: Vars, a: Vars, b: Vars) {
    forall k :: if k in b then k in vars && vars[k] == b[k]
                else (k in vars <==> k in a) && (k in a ==> vars[k] == a[k])
  }

  /** Exactly what an event does, first or repeated: nothing once the workflow is over.  Otherwise
      its step takes the outcome and the run it reports, its exports override the variables, and
      every other step stays as it is or leaves pending as its fate says. */
  lemma DeliverFates(w: Wf, e: Event, launch: Launcher, i: nat)
    requires Shape(w) && Started(w, e) && i < |w.steps|
    ensures var w' := Deliver(w, e, launch);
            && (w.status != WfRunning ==> w' == w)
            && (w.status == WfRunning ==>
                  && Overlaid(w'.vars, w.vars, e.exports)
                  && w'.steps[e.idx] == w.steps[e.idx].(status := e.status, runId := e.runId)
                  && (i != e.idx ==>
                        if w.steps[i].status == Pending
                        then Met(w.steps[i], w'.steps[i], AnyBad(w'.steps[..i]), w'.vars, launch(i))
                        else w'.steps[i] == w.steps[i]))
  {
    if w.status == WfRunning {
      var w1 := Record(w, e);
      RecordFacts(w, e);
      if !AnyRunning(w1.steps) {
        WaveFates(w1, launch, i);
        WaveFates(w1, launch, e.idx);
      }
    }
  }

  /** The step a definition describes: without a condition, it runs on success. */
  ghost predicate Describes(d: StepDef, st: Step) {
    && st.templateId == d.templateId && st.when_ == d.when_ && st.parallel == d.parallel
    && st.condition == if d.condition == "" then "on_success" else d.condition
  }

  /** A started workflow: the defaults overridden at launch, and each step as defined, either still
      pending or as its fate says. */
  lemma StartFates(defs: seq<StepDef>, defaults: Vars, overrides: Vars, launch: Launcher, i: nat) returns (st: Step)
    requires i < |defs|
    ensures var w := Start(defs, defaults, overrides, launch);
            && |w.steps| == |defs|
            && Overlaid(w.vars, defaults, overrides)
            && Describes(defs[i], st) && st.status == Pending && st.runId == ""
            && Met(st, w.steps[i], AnyBad(w.steps[..i]), w.vars, launch(i))
  {
    var w0 := Wf(InstantiateAll(defs), WfRunning, defaults + overrides);
    NothingYet(defs, defaults + overrides);
    WaveFates(w0, launch, i);
    st := w0.steps[i];
  }

  /** Over every execution each step keeps the template, condition, guard and Parallel flag it was
      defined with. */
  lemma StepsAsDefined(defs: seq<StepDef>, defaults: Vars, overrides: Vars, launch: Launcher, ds: seq<Delivery>, i: nat)
    requires Possible(Start(defs, defaults, overrides, launch), ds) && i < |defs|
    ensures var w := Run(Start(defs, defaults, overrides, launch), ds);
            |w.steps| == |defs| && Describes(defs[i], w.steps[i])
  {
    var w0 := Start(defs, defaults, overrides, launch);
    StartKeeps(defs, defaults, overrides, launch);
    RunKeeps(w0, ds);
    SameDefsTrans(InstantiateAll(defs), w0.steps, Run(w0, ds).steps);
    assert SameDef(InstantiateAll(defs)[i], Run(w0, ds).steps[i]);
  }
}
