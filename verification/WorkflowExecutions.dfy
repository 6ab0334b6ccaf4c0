/** Whole executions of a workflow: invariants, verdict, termination, and the equality
    with an engine that remembers where it stopped. */
module WorkflowExecutions {
  import opened Guards
  import opened Workflows
  import opened WorkflowTheorems

  /** A terminal event together with the launch results it meets. */
  datatype Delivery = Delivery(event: Event, launch: Launcher)

  function Run(w: Wf, ds: seq<Delivery>): Wf
    decreases |ds|
  {
    if ds == [] then w else Run(Deliver(w, ds[0].event, ds[0].launch), ds[1..])
  }

  /** Each event is the first one of a run that is in flight when it arrives. */
  ghost predicate Legal(w: Wf, ds: seq<Delivery>)
    decreases |ds|
  {
    ds == [] || (Live(w, ds[0].event) && Legal(Deliver(w, ds[0].event, ds[0].launch), ds[1..]))
  }

  /** The event of a step that was started: the first one, or a repetition.  A run that was
      started twice, or canceled in the queue and then started, reports twice. */
  predicate Started(w: Wf, e: Event) {
    0 <= e.idx < |w.steps| && Attempted(w.steps[e.idx])
  }

  ghost predicate Possible(w: Wf, ds: seq<Delivery>)
    decreases |ds|
  {
    ds == [] || (Started(w, ds[0].event) && Possible(Deliver(w, ds[0].event, ds[0].launch), ds[1..]))
  }

  lemma {:induction false} LegalIsPossible(w: Wf, ds: seq<Delivery>)
    requires Legal(w, ds)
    ensures Possible(w, ds)
    decreases |ds|
  {
    if ds != [] { LegalIsPossible(Deliver(w, ds[0].event, ds[0].launch), ds[1..]); }
  }

  // ---- invariants over every run ---------------------------------------------------------------

  lemma StartKeeps(defs: seq<StepDef>, defaults: Vars, overrides: Vars, launch: Launcher)
    ensures var w := Start(defs, defaults, overrides, launch);
            Shape(w) && History(w) && SameDefs(InstantiateAll(defs), w.steps)
  {
    NothingYet(defs, defaults + overrides);
    WaveKeeps(Wf(InstantiateAll(defs), WfRunning, defaults + overrides), launch);
  }

  lemma NothingYet(defs: seq<StepDef>, vars: Vars)
    ensures var w := Wf(InstantiateAll(defs), WfRunning, vars);
            Prefix(w.steps) && !AnyRunning(w.steps) && !AnyBad(w.steps) && History(w)
  {
  }

  /** Over every execution, repeated events included: the shape, the definitions, and that no
      unguarded `always` step is passed over. */
  lemma {:induction false} RunKeeps(w: Wf, ds: seq<Delivery>)
    requires Shape(w) && Possible(w, ds)
    ensures Shape(Run(w, ds)) && SameDefs(w.steps, Run(w, ds).steps)
    ensures AlwaysTried(w) ==> AlwaysTried(Run(w, ds))
    decreases |ds|
  {
    if ds != [] {
      var w1 := Deliver(w, ds[0].event, ds[0].launch);
      DeliverKeeps(w, ds[0].event, ds[0].launch);
      RunKeeps(w1, ds[1..]);
      SameDefsTrans(w.steps, w1.steps, Run(w, ds).steps);
    }
  }

  lemma {:induction false} RunKeepsHistory(w: Wf, ds: seq<Delivery>)
    requires Shape(w) && FailuresCaused(w) && Legal(w, ds)
    ensures FailuresCaused(Run(w, ds))
    decreases |ds|
  {
    if ds != [] {
      DeliverKeeps(w, ds[0].event, ds[0].launch);
      RunKeepsHistory(Deliver(w, ds[0].event, ds[0].launch), ds[1..]);
    }
  }

  ghost predicate Done(st: Step) { st.status in {Success, Failed, Canceled, Skipped} }

  /** The status of a workflow run: running while a step runs; final once all steps are finished or
      skipped, and failed exactly if one failed or was canceled; no unguarded `always` step skipped. */
  ghost predicate StatusOk(defs: seq<StepDef>, w: Wf) {
    && |w.steps| == |defs|
    && (w.status == WfRunning <==> exists i :: 0 <= i < |defs| && w.steps[i].status == Running)
    && (w.status != WfRunning ==> forall i :: 0 <= i < |defs| ==> Done(w.steps[i]))
    && (w.status != WfRunning ==> (w.status == WfFailed <==> exists i :: 0 <= i < |defs| && Bad(w.steps[i].status)))
    && (forall i :: 0 <= i < |defs| && defs[i].condition == COND_ALWAYS && defs[i].when_ == "" ==>
          w.steps[i].status != Skipped)
  }

  /** On success every on_failure step was skipped. */
  ghost predicate SuccessOk(defs: seq<StepDef>, w: Wf) {
    w.status == WfSuccess && |w.steps| == |defs| ==>
      forall i :: 0 <= i < |defs| && defs[i].condition == COND_ON_FAILURE ==> w.steps[i].status == Skipped
  }

  lemma StatusFromShape(defs: seq<StepDef>, w: Wf)
    requires Shape(w) && AlwaysTried(w) && SameDefs(InstantiateAll(defs), w.steps)
    ensures StatusOk(defs, w)
  {
    assert w.status != WfRunning ==> FirstPending(w.steps) == |w.steps| && !AnyRunning(w.steps);
    forall i | 0 <= i < |defs| && defs[i].condition == COND_ALWAYS && defs[i].when_ == "" ensures Always(w.steps[i]) {
      assert SameDef(InstantiateAll(defs)[i], w.steps[i]);
    }
  }

  lemma SuccessFromHistory(defs: seq<StepDef>, w: Wf)
    requires Shape(w) && FailuresCaused(w) && SameDefs(InstantiateAll(defs), w.steps)
    ensures SuccessOk(defs, w)
  {
    forall i | 0 <= i < |defs| && defs[i].condition == COND_ON_FAILURE ensures w.steps[i].condition == COND_ON_FAILURE {
      assert SameDef(InstantiateAll(defs)[i], w.steps[i]);
    }
    assert w.status == WfSuccess ==> FirstPending(w.steps) == |w.steps| && !AnyBad(w.steps);
  }

  /** The status, over every execution, repeated events included. */
  lemma StatusAlwaysOk(defs: seq<StepDef>, defaults: Vars, overrides: Vars, launch: Launcher, ds: seq<Delivery>)
    requires Possible(Start(defs, defaults, overrides, launch), ds)
    ensures StatusOk(defs, Run(Start(defs, defaults, overrides, launch), ds))
  {
    var w0 := Start(defs, defaults, overrides, launch);
    StartKeeps(defs, defaults, overrides, launch);
    RunKeeps(w0, ds);
    SameDefsTrans(InstantiateAll(defs), w0.steps, Run(w0, ds).steps);
    StatusFromShape(defs, Run(w0, ds));
  }

  /** The verdict, while each run reports once: moreover a successful workflow skipped every
      on_failure step. */
  lemma Verdict(defs: seq<StepDef>, defaults: Vars, overrides: Vars, launch: Launcher, ds: seq<Delivery>)
    requires Legal(Start(defs, defaults, overrides, launch), ds)
    ensures StatusOk(defs, Run(Start(defs, defaults, overrides, launch), ds))
    ensures SuccessOk(defs, Run(Start(defs, defaults, overrides, launch), ds))
  {
    var w0 := Start(defs, defaults, overrides, launch);
    LegalIsPossible(w0, ds);
    StatusAlwaysOk(defs, defaults, overrides, launch, ds);
    StartKeeps(defs, defaults, overrides, launch);
    RunKeeps(w0, ds);
    RunKeepsHistory(w0, ds);
    SameDefsTrans(InstantiateAll(defs), w0.steps, Run(w0, ds).steps);
    SuccessFromHistory(defs, Run(w0, ds));
  }

  // ---- termination -------------------------------------------------------------------------------

  /** A weight of `p` for each pending step and `r` for each running one. */
  function Weight(steps: seq<Step>, p: nat, r: nat): nat {
    if steps == [] then 0
    else (match steps[0].status case Pending => p case Running => r case _ => 0) + Weight(steps[1..], p, r)
  }

  lemma {:induction false} WeightOfForward(a: seq<Step>, b: seq<Step>, p: nat, r: nat)
    requires Forward(a, b) && r <= p
    ensures Weight(b, p, r) <= Weight(a, p, r)
  {
    if a != [] {
      assert b[0] == a[0] || (a[0].status == Pending && b[0].status in {Running, Failed, Skipped});
      assert forall i :: 0 <= i < |a| - 1 ==> a[1..][i] == a[i + 1] && b[1..][i] == b[i + 1];
      WeightOfForward(a[1..], b[1..], p, r);
    }
  }

  lemma {:induction false} WeightOfUpdate(a: seq<Step>, i: nat, st: Step, p: nat, r: nat)
    requires i < |a| && a[i].status == Running && st.status !in {Pending, Running}
    ensures Weight(a[i := st], p, r) == Weight(a, p, r) - r
  {
    var b := a[i := st];
    if i == 0 {
      assert b[1..] == a[1..];
    } else {
      assert b[1..] == a[1..][i - 1 := st] && b[0] == a[0];
      WeightOfUpdate(a[1..], i - 1, st, p, r);
    }
  }

  /** Each event strictly lowers 2 * pending + running, and pending + running as well. */
  lemma EventLowersWeight(w: Wf, e: Event, launch: Launcher, p: nat, r: nat)
    requires Shape(w) && Live(w, e) && 0 < r <= p
    ensures Weight(Deliver(w, e, launch).steps, p, r) <= Weight(w.steps, p, r) - r
  {
    var w' := Deliver(w, e, launch);
    DeliverForward(w, e, launch);
    WeightOfUpdate(w.steps, e.idx, w'.steps[e.idx], p, r);
    WeightOfForward(w.steps[e.idx := w'.steps[e.idx]], w'.steps, p, r);
  }

  /** While a step is in flight, a repeated event is recorded and nothing else happens; once none
      is, the workflow is final and the event is dropped. */
  lemma RepeatOnlyRecords(w: Wf, e: Event, launch: Launcher)
    requires Shape(w) && Started(w, e) && !Live(w, e)
    ensures Deliver(w, e, launch) == if w.status == WfRunning then Record(w, e) else w
  {
    if w.status == WfRunning {
      var i :| 0 <= i < |w.steps| && w.steps[i].status == Running;
      assert Record(w, e).steps[i].status == Running;
    }
  }

  lemma {:induction false} WeightOfFinished(a: seq<Step>, i: nat, st: Step, p: nat, r: nat)
    requires i < |a| && a[i].status !in {Pending, Running} && st.status !in {Pending, Running}
    ensures Weight(a[i := st], p, r) == Weight(a, p, r)
  {
    var b := a[i := st];
    if i == 0 {
      assert b[1..] == a[1..];
    } else {
      assert b[1..] == a[1..][i - 1 := st] && b[0] == a[0];
      WeightOfFinished(a[1..], i - 1, st, p, r);
    }
  }

  /** How many events are the first one of their step. */
  function Firsts(w: Wf, ds: seq<Delivery>): nat
    decreases |ds|
  {
    if ds == [] then 0
    else (if Live(w, ds[0].event) then 1 else 0) + Firsts(Deliver(w, ds[0].event, ds[0].launch), ds[1..])
  }

  lemma {:induction false} LegalAllFirst(w: Wf, ds: seq<Delivery>)
    requires Legal(w, ds)
    ensures Firsts(w, ds) == |ds|
    decreases |ds|
  {
    if ds != [] { LegalAllFirst(Deliver(w, ds[0].event, ds[0].launch), ds[1..]); }
  }

  lemma {:induction false} EventsBounded(w: Wf, ds: seq<Delivery>)
    requires Shape(w) && Possible(w, ds)
    ensures Firsts(w, ds) + Weight(Run(w, ds).steps, 1, 1) <= Weight(w.steps, 1, 1)
    decreases |ds|
  {
    if ds != [] {
      var e, launch := ds[0].event, ds[0].launch;
      DeliverKeeps(w, e, launch);
      if Live(w, e) {
        EventLowersWeight(w, e, launch, 1, 1);
      } else {
        RepeatOnlyRecords(w, e, launch);
        WeightOfFinished(w.steps, e.idx, Record(w, e).steps[e.idx], 1, 1);
      }
      EventsBounded(Deliver(w, e, launch), ds[1..]);
    }
  }

  lemma {:induction false} WeightAtMost(steps: seq<Step>)
    ensures Weight(steps, 1, 1) <= |steps|
  {
    if steps != [] { WeightAtMost(steps[1..]); }
  }

  /** A workflow of n steps takes at most n first events, is final once it has had n, and while it
      is running the first event of some step is due. */
  lemma AtMostOneEventPerStep(defs: seq<StepDef>, defaults: Vars, overrides: Vars, launch: Launcher, ds: seq<Delivery>)
    requires Possible(Start(defs, defaults, overrides, launch), ds)
    ensures var w := Run(Start(defs, defaults, overrides, launch), ds);
            var n := Firsts(Start(defs, defaults, overrides, launch), ds);
            && n <= |defs|
            && (n == |defs| ==> w.status != WfRunning)
            && (w.status == WfRunning ==> exists i :: 0 <= i < |w.steps| && w.steps[i].status == Running)
  {
    var w0 := Start(defs, defaults, overrides, launch);
    StartKeeps(defs, defaults, overrides, launch);
    EventsBounded(w0, ds);
    WeightAtMost(w0.steps);
    RunKeeps(w0, ds);
    var w := Run(w0, ds);
    if w.status == WfRunning {
      var i :| 0 <= i < |w.steps| && w.steps[i].status == Running;
      WeightOfUpdate(w.steps, i, w.steps[i].(status := Success), 1, 1);
    }
  }

  /** How often step `i` is started along the run. */
  function Starts(w: Wf, ds: seq<Delivery>, i: nat): nat
    requires i < |w.steps|
    decreases |ds|
  {
    if ds == [] then 0
    else
      var w1 := Deliver(w, ds[0].event, ds[0].launch);
      (if w.steps[i].status == Pending && w1.steps[i].status == Running then 1 else 0) + Starts(w1, ds[1..], i)
  }

  /** A step is started at most once, and never once it has left pending. */
  lemma {:induction false} StartsAtMostOnce(w: Wf, ds: seq<Delivery>, i: nat)
    requires Shape(w) && Possible(w, ds) && i < |w.steps|
    ensures Starts(w, ds, i) <= if w.steps[i].status == Pending then 1 else 0
    decreases |ds|
  {
    if ds != [] {
      var w1 := Deliver(w, ds[0].event, ds[0].launch);
      DeliverKeeps(w, ds[0].event, ds[0].launch);
      if w.steps[i].status != Pending { DeliverOnward(w, ds[0].event, ds[0].launch, i); }
      StartsAtMostOnce(w1, ds[1..], i);
    }
  }

  // ---- an engine with a cursor ---------------------------------------------------------------------

  /** The engine a reader might expect: it remembers how far the last scan came. */
  datatype CursorWf = CursorWf(wf: Wf, cursor: nat)

  function CursorDeliver(c: CursorWf, e: Event, launch: Launcher): (c': CursorWf)
    requires c.cursor <= |c.wf.steps|
    ensures c'.cursor <= |c'.wf.steps|
  {
    if c.wf.status != WfRunning || e.idx < 0 || e.idx >= |c.wf.steps| then c
    else
      var w1 := Record(c.wf, e);
      if AnyRunning(w1.steps) then CursorWf(w1, c.cursor)
      else
        var w2 := NextWave(w1, c.cursor, AnyBad(w1.steps), launch);
        CursorWf(w2, c.cursor + FirstPending(w2.steps[c.cursor..]))
  }

  function CursorRun(c: CursorWf, ds: seq<Delivery>): CursorWf
    requires c.cursor <= |c.wf.steps|
    decreases |ds|
  {
    if ds == [] then c else CursorRun(CursorDeliver(c, ds[0].event, ds[0].launch), ds[1..])
  }

  lemma CursorDeliverIs(w: Wf, e: Event, launch: Launcher)
    requires Shape(w) && Started(w, e)
    ensures var w' := Deliver(w, e, launch);
            CursorDeliver(CursorWf(w, FirstPending(w.steps)), e, launch) == CursorWf(w', FirstPending(w'.steps))
  {
    var w1, w' := Record(w, e), Deliver(w, e, launch);
    DeliverKeeps(w, e, launch);
    RecordFacts(w, e);
    RescanIsCursor(w1, AnyBad(w1.steps), launch);
    CursorFrom(w'.steps, FirstPending(w.steps));
  }

  /** Over every run, rescanning from the first step equals resuming at the cursor. */
  lemma {:induction false} RescanRefinesCursor(w: Wf, ds: seq<Delivery>)
    requires Shape(w) && Possible(w, ds)
    ensures CursorRun(CursorWf(w, FirstPending(w.steps)), ds) == CursorWf(Run(w, ds), FirstPending(Run(w, ds).steps))
    decreases |ds|
  {
    if ds != [] {
      CursorDeliverIs(w, ds[0].event, ds[0].launch);
      DeliverKeeps(w, ds[0].event, ds[0].launch);
      RescanRefinesCursor(Deliver(w, ds[0].event, ds[0].launch), ds[1..]);
    }
  }

  lemma {:induction false} CursorFrom(steps: seq<Step>, p: nat)
    requires p <= FirstPending(steps)
    ensures p + FirstPending(steps[p..]) == FirstPending(steps)
  {
    FirstPendingIs(steps, p + FirstPending(steps[p..]));
  }
}
