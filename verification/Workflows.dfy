/** The workflow engine: a list of steps with conditions, guards and Parallel flags, advanced
    wave by wave by run-terminal events.

    `WorkflowRun` is the engine in its own form: an object whose step list, status and
    variables are updated in loops.  Its methods are proved against the functions `Scan`,
    `NextWave` and `Deliver`; what those functions guarantee over whole executions is
    proved in module `WorkflowTheorems`. */
module Workflows {
  import opened Guards

  datatype StepStatus = Pending | Running | Success | Failed | Canceled | Skipped

  /** What a run's terminal event can report. */
  type Outcome = s: StepStatus | s in {Success, Failed, Canceled} witness Success

  const COND_ALWAYS := "always"
  const COND_ON_SUCCESS := "on_success"
  const COND_ON_FAILURE := "on_failure"

  datatype Step = Step(templateId: string, condition: string, when_: string, parallel: bool,
                       status: StepStatus, runId: string)

  datatype WfStatus = WfRunning | WfSuccess | WfFailed

  datatype Wf = Wf(steps: seq<Step>, status: WfStatus, vars: Vars)

  /** What launching a step yields: its template may be gone, or the launch may be refused. */
  datatype Launch = NoTemplate | LaunchRefused | Launched(runId: string)

  /** The launch result of each step, by index. */
  type Launcher = nat -> Launch

  /** A run-terminal event of the run of step `idx`, with the variables the run exported
      (none when it left no output file, or one that is not a flat object). */
  datatype Event = Event(idx: int, runId: string, status: Outcome, exports: Vars)

  predicate Bad(s: StepStatus) { s == Failed || s == Canceled }

  predicate AnyBad(steps: seq<Step>) { exists i :: 0 <= i < |steps| && Bad(steps[i].status) }

  predicate AnyRunning(steps: seq<Step>) { exists i :: 0 <= i < |steps| && steps[i].status == Running }

  predicate Runnable(st: Step, failed: bool, vars: Vars) {
    && (|| st.condition == COND_ALWAYS
        || (st.condition == COND_ON_SUCCESS && !failed)
        || (st.condition == COND_ON_FAILURE && failed))
    && (st.when_ != "" ==> EvalWhen(st.when_, vars))
  }

  // ---- the engine as functions ------------------------------------------------------------

  datatype Scanned = Scanned(steps: seq<Step>, failed: bool, launched: bool)

  /** What the launch loop makes of `rest`, the steps from index `k` on. */
  function Scan(rest: seq<Step>, k: nat, failed: bool, launched: bool, vars: Vars, launch: Launcher): (r: Scanned)
    ensures |r.steps| == |rest|
  {
    if rest == [] || EndsWave(rest[0], launched) then Scanned(rest, failed, launched)
    else
      var v := Visit(rest[0], k, failed, launched, vars, launch);
      var r := Scan(rest[1..], k + 1, v.failed, v.launched, vars, launch);
      r.(steps := [v.step] + r.steps)
  }

  /** After the wave's first step, a pending step that is not Parallel waits for the next wave. */
  predicate EndsWave(st: Step, launched: bool) {
    st.status == Pending && launched && !st.parallel
  }

  datatype Visited = Visited(step: Step, failed: bool, launched: bool)

  /** One step of the launch loop: pass over, skip, launch, or fail to launch. */
  function Visit(st: Step, k: nat, failed: bool, launched: bool, vars: Vars, launch: Launcher): Visited {
    if st.status != Pending then Visited(st, failed, launched)
    else if !Runnable(st, failed, vars) then Visited(st.(status := Skipped), failed, launched)
    else
      match launch(k)
      case Launched(id) => Visited(st.(status := Running, runId := id), failed, true)
      case _ => Visited(st.(status := Failed), true, launched)
  }

  /** Launch the next wave of `w`, scanning from `from`, or finalise it. */
  function NextWave(w: Wf, from: nat, failed: bool, launch: Launcher): (w': Wf)
    requires from <= |w.steps|
    ensures |w'.steps| == |w.steps|
  {
    var r := Scan(w.steps[from..], from, failed, false, w.vars, launch);
    Wf(w.steps[..from] + r.steps,
       if r.launched then w.status else if r.failed then WfFailed else WfSuccess,
       w.vars)
  }

  /** Record a terminal event; once the wave is over, launch the next one. */
  function Deliver(w: Wf, e: Event, launch: Launcher): (w': Wf)
    ensures |w'.steps| == |w.steps|
  {
    if w.status != WfRunning || e.idx < 0 || e.idx >= |w.steps| then w
    else
      var w1 := Record(w, e);
      if AnyRunning(w1.steps) then w1 else NextWave(w1, 0, AnyBad(w1.steps), launch)
  }

  function Record(w: Wf, e: Event): Wf
    requires 0 <= e.idx < |w.steps|
  {
    w.(steps := w.steps[e.idx := w.steps[e.idx].(status := e.status, runId := e.runId)], vars := w.vars + e.exports)
  }

  /** A step as the workflow's author wrote it. */
  datatype StepDef = StepDef(templateId: string, condition: string, when_: string, parallel: bool)

  function Instantiate(d: StepDef): Step {
    Step(d.templateId, if d.condition == "" then COND_ON_SUCCESS else d.condition, d.when_, d.parallel, Pending, "")
  }

  function InstantiateAll(defs: seq<StepDef>): (steps: seq<Step>)
    ensures |steps| == |defs| && forall i :: 0 <= i < |defs| ==> steps[i] == Instantiate(defs[i])
  {
    seq(|defs|, i requires 0 <= i < |defs| => Instantiate(defs[i]))
  }

  /** A freshly started workflow run: the defaults overridden at launch, and its first wave. */
  function Start(defs: seq<StepDef>, defaults: Vars, overrides: Vars, launch: Launcher): Wf {
    NextWave(Wf(InstantiateAll(defs), WfRunning, defaults + overrides), 0, false, launch)
  }

  /** The launch loop part way: `steps[from..i]` is done and `steps[i..]` is still to be scanned. */
  ghost function Midway(steps: seq<Step>, from: nat, i: nat, failed: bool, launched: bool, vars: Vars,
                        launch: Launcher): Scanned
    requires from <= i <= |steps|
  {
    var r := Scan(steps[i..], i, failed, launched, vars, launch);
    r.(steps := steps[from..i] + r.steps)
  }

  lemma MidwayStart(steps: seq<Step>, from: nat, failed: bool, vars: Vars, launch: Launcher)
    requires from <= |steps|
    ensures Midway(steps, from, from, failed, false, vars, launch)
         == Scan(steps[from..], from, failed, false, vars, launch)
  {
    var r := Scan(steps[from..], from, failed, false, vars, launch);
    assert steps[from..from] + r.steps == r.steps;
  }

  lemma MidwayStep(steps: seq<Step>, from: nat, i: nat, failed: bool, launched: bool, vars: Vars, launch: Launcher)
    requires from <= i < |steps| && !EndsWave(steps[i], launched)
    ensures var v := Visit(steps[i], i, failed, launched, vars, launch);
            Midway(steps, from, i, failed, launched, vars, launch)
            == Midway(steps[i := v.step], from, i + 1, v.failed, v.launched, vars, launch)
  {
    var v := Visit(steps[i], i, failed, launched, vars, launch);
    var now := steps[i := v.step];
    assert steps[i..][0] == steps[i] && steps[i..][1..] == steps[i + 1..] == now[i + 1..];
    var r := Scan(now[i + 1..], i + 1, v.failed, v.launched, vars, launch);
    assert now[from..i + 1] == steps[from..i] + [v.step];
    assert steps[from..i] + ([v.step] + r.steps) == now[from..i + 1] + r.steps;
  }

  lemma MidwayStop(steps: seq<Step>, from: nat, i: nat, failed: bool, launched: bool, vars: Vars, launch: Launcher)
    requires from <= i <= |steps| && (i == |steps| || EndsWave(steps[i], launched))
    ensures Midway(steps, from, i, failed, launched, vars, launch) == Scanned(steps[from..], failed, launched)
  {
    assert steps[from..i] + steps[i..] == steps[from..];
    if i < |steps| { assert steps[i..][0] == steps[i]; }
  }

  // ---- the engine as an object -------------------------------------------------------------

  class WorkflowRun {
    var steps: seq<Step>
    var status: WfStatus
    var vars: Vars

    function Value(): Wf
      reads this
    {
      Wf(steps, status, vars)
    }

    /** The run as `StartWorkflow` fills it in, before its first wave. */
    constructor (defs: seq<StepDef>, defaults: Vars, overrides: Vars)
      ensures Value() == Wf(InstantiateAll(defs), WfRunning, defaults + overrides)
    {
      steps, status, vars := [], WfRunning, map[];
      new;
      Merge(defaults);
      Merge(overrides);
      assert vars == defaults + overrides;
      for i := 0 to |defs|
        invariant |steps| == i && forall j :: 0 <= j < i ==> steps[j] == Instantiate(defs[j])
        invariant status == WfRunning && vars == defaults + overrides
      {
        steps := steps + [Instantiate(defs[i])];
      }
    }

    /** Copy every entry of `extra` over the variables. */
    method Merge(extra: Vars)
      modifies this`vars
      ensures vars == old(vars) + extra
    {
      var todo := extra.Keys;
      while todo != {}
        invariant todo <= extra.Keys
        invariant vars == old(vars) + (map k | k in extra && k !in todo :: extra[k])
        decreases todo
      {
        var k :| k in todo;
        vars := vars[k := extra[k]];
        todo := todo - {k};
      }
      assert (map k | k in extra && k !in todo :: extra[k]) == extra;
    }

    /** The body of the launch loop, for a step that does not end the wave. */
    method VisitStep(i: nat, failed: bool, launched: bool, launch: Launcher) returns (failed': bool, launched': bool)
      requires i < |steps|
      modifies this`steps
      ensures var v := Visit(old(steps[i]), i, failed, launched, vars, launch);
              steps == old(steps)[i := v.step] && failed' == v.failed && launched' == v.launched
    {
      failed', launched' := failed, launched;
      var st := steps[i];
      if st.status != Pending {
        return;
      }
      if !Runnable(st, failed, vars) {
        steps := steps[i := st.(status := Skipped)];
        return;
      }
      match launch(i)
      case Launched(id) =>
        steps := steps[i := st.(status := Running, runId := id)];
        launched' := true;
      case _ =>
        steps := steps[i := st.(status := Failed)];
        failed' := true;
    }

    /** The launch loop: what became of the steps from `from` on. */
    method LaunchWave(from: nat, failed: bool, launch: Launcher) returns (failed': bool, launched: bool)
      requires from <= |steps|
      modifies this`steps
      ensures |steps| == |old(steps)| && forall j :: 0 <= j < from ==> steps[j] == old(steps)[j]
      ensures Scanned(steps[from..], failed', launched) == Scan(old(steps)[from..], from, failed, false, vars, launch)
    {
      failed', launched := failed, false;
      var i := from;
      MidwayStart(steps, from, failed, vars, launch);
      ghost var goal := Scan(steps[from..], from, failed, false, vars, launch);
      while i < |steps|
        invariant from <= i <= |steps| == |old(steps)|
        invariant forall j :: 0 <= j < from ==> steps[j] == old(steps)[j]
        invariant goal == Midway(steps, from, i, failed', launched, vars, launch)
      {
        if steps[i].status == Pending && launched && !steps[i].parallel {
          break;
        }
        MidwayStep(steps, from, i, failed', launched, vars, launch);
        failed', launched := VisitStep(i, failed', launched, launch);
        i := i + 1;
      }
      MidwayStop(steps, from, i, failed', launched, vars, launch);
    }

    method AdvanceFrom(from: nat, failed: bool, launch: Launcher)
      requires from <= |steps|
      modifies this`steps, this`status
      ensures Value() == NextWave(old(Value()), from, failed, launch)
    {
      var failed', launched := LaunchWave(from, failed, launch);
      if !launched {
        status := if failed' then WfFailed else WfSuccess;
      }
      assert steps[..from] == old(steps)[..from];
      assert steps == steps[..from] + steps[from..];
    }

    /** The terminal hook: record the outcome and, once the wave is over, launch the next one. */
    method Advance(e: Event, launch: Launcher)
      modifies this
      ensures Value() == Deliver(old(Value()), e, launch)
    {
      if status != WfRunning || e.idx < 0 || e.idx >= |steps| {
        return;
      }
      steps := steps[e.idx := steps[e.idx].(status := e.status, runId := e.runId)];
      Merge(e.exports);
      for i := 0 to |steps|
        invariant forall j :: 0 <= j < i ==> steps[j].status != Running
      {
        if steps[i].status == Running {
          return;
        }
      }
      var failed := false;
      for i := 0 to |steps|
        invariant failed <==> exists j :: 0 <= j < i && Bad(steps[j].status)
      {
        if steps[i].status == Failed || steps[i].status == Canceled {
          failed := true;
        }
      }
      AdvanceFrom(0, failed, launch);
    }
  }

  /** Start a workflow: refused when it has no steps. */
  method StartWorkflow(defs: seq<StepDef>, defaults: Vars, overrides: Vars, launch: Launcher)
    returns (wr: WorkflowRun?)
    ensures wr == null <==> defs == []
    ensures wr != null ==> fresh(wr) && wr.Value() == Start(defs, defaults, overrides, launch)
  {
    if |defs| == 0 {
      return null;
    }
    wr := new WorkflowRun(defs, defaults, overrides);
    wr.AdvanceFrom(0, false, launch);
  }
}
