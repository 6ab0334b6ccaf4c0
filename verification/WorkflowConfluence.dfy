/** The order in which the runs of a wave finish does not matter.

    `Pass` is an independent account of what a workflow does: one left-to-right pass over the
    step list, with no events, no rescanning and no running steps.  Every complete execution of
    the engine ends exactly where the pass ends, whatever the order of its events, provided runs
    that are in flight together export nothing conflicting. */
module WorkflowConfluence {
  import opened Guards
  import opened Workflows
  import opened WorkflowTheorems
  import opened WorkflowExecutions

  /** How the run of each step ends, if it is launched, and what it exports. */
  datatype Finish = Finish(status: Outcome, exports: Vars)

  /** A fixed world: what launching each step yields and how each run ends. */
  datatype Scenario = Scenario(launch: Launcher, finish: nat -> Finish)

  function RunIdOf(l: Launch): string { if l.Launched? then l.runId else "" }

  function EventOf(i: nat, sc: Scenario): Event {
    Event(i, RunIdOf(sc.launch(i)), sc.finish(i).status, sc.finish(i).exports)
  }

  function Deliveries(order: seq<nat>, sc: Scenario): (ds: seq<Delivery>)
    ensures |ds| == |order|
  {
    if order == [] then [] else [Delivery(EventOf(order[0], sc), sc.launch)] + Deliveries(order[1..], sc)
  }

  // ---- the pass ------------------------------------------------------------------------------------

  /** What decides the next step (`failed`, `vars`), and what will once the open wave is over. */
  datatype Ledger = Ledger(failed: bool, vars: Vars, open: bool, endFailed: bool, endVars: Vars)

  function Closed(failed: bool, vars: Vars): Ledger { Ledger(failed, vars, false, failed, vars) }

  datatype Passed = Passed(steps: seq<Step>, failed: bool, vars: Vars)

  function Pass(rest: seq<Step>, k: nat, l: Ledger, sc: Scenario): Passed {
    if rest == [] then Passed([], l.endFailed, l.endVars)
    else
      var l := if l.open && !rest[0].parallel then Closed(l.endFailed, l.endVars) else l;
      var v := Visit(rest[0], k, l.failed, l.open, l.vars, sc.launch);
      var q := Pass(rest[1..], k + 1, Book(l, v, k, sc), sc);
      q.(steps := [Credit(v.step, k, sc)] + q.steps)
  }

  function Book(l: Ledger, v: Visited, k: nat, sc: Scenario): Ledger {
    if v.step.status == Running then
      Ledger(l.failed, l.vars, true, l.endFailed || Bad(sc.finish(k).status), l.endVars + sc.finish(k).exports)
    else
      Ledger(v.failed, l.vars, l.open, l.endFailed || Bad(v.step.status), l.endVars)
  }

  /** A running step as it will be once its run has ended. */
  function Credit(st: Step, k: nat, sc: Scenario): Step {
    if st.status == Running then st.(status := sc.finish(k).status, runId := RunIdOf(sc.launch(k))) else st
  }

  // ---- what a run in progress will come to ------------------------------------------------------------

  function CreditAll(steps: seq<Step>, k: nat, sc: Scenario): (r: seq<Step>)
    ensures |r| == |steps|
  {
    if steps == [] then [] else [Credit(steps[0], k, sc)] + CreditAll(steps[1..], k + 1, sc)
  }

  function MergeAll(vars: Vars, steps: seq<Step>, k: nat, sc: Scenario): Vars
    decreases |steps|
  {
    if steps == [] then vars
    else MergeAll(if steps[0].status == Running then vars + sc.finish(k).exports else vars, steps[1..], k + 1, sc)
  }

  /** The steps `front` done or in flight, `tail` still to be passed over. */
  function Forecast(front: seq<Step>, tail: seq<Step>, k: nat, failed: bool, vars: Vars, sc: Scenario): Passed {
    var q := Pass(tail, k + |front|, Closed(failed || AnyBad(CreditAll(front, k, sc)), MergeAll(vars, front, k, sc)),
                  sc);
    Passed(CreditAll(front, k, sc) + q.steps, q.failed, q.vars)
  }

  function Predict(w: Wf, sc: Scenario): Passed {
    var p := FirstPending(w.steps);
    Forecast(w.steps[..p], w.steps[p..], 0, false, w.vars, sc)
  }

  // ---- launching a wave realises the forecast -----------------------------------------------------------

  lemma ForecastCons(st: Step, front: seq<Step>, tail: seq<Step>, k: nat, l: Ledger, v: Visited, sc: Scenario)
    requires v.step == st && st.status != Pending
    ensures var q := Forecast(front, tail, k + 1, Book(l, v, k, sc).endFailed, Book(l, v, k, sc).endVars, sc);
            Forecast([st] + front, tail, k, l.endFailed, l.endVars, sc) == q.(steps := [Credit(st, k, sc)] + q.steps)
  {
    var all := [st] + front;
    assert all[0] == st && all[1..] == front;
    var c := CreditAll(front, k + 1, sc);
    ConsFacts(Credit(st, k, sc), c);
    var q := Pass(tail, k + 1 + |front|,
                  Closed(l.endFailed || AnyBad(CreditAll(all, k, sc)), MergeAll(l.endVars, all, k, sc)), sc);
    assert [Credit(st, k, sc)] + c + q.steps == [Credit(st, k, sc)] + (c + q.steps);
  }

  /** What the pass makes of pending steps is what it makes of the wave the engine launches
      from them, once that wave is credited. */
  lemma {:induction false} PassThroughScan(rest: seq<Step>, k: nat, l: Ledger, sc: Scenario)
    requires AllPending(rest)
    ensures var r := Scan(rest, k, l.failed, l.open, l.vars, sc.launch);
            var m := FirstPending(r.steps);
            Pass(rest, k, l, sc) == Forecast(r.steps[..m], r.steps[m..], k, l.endFailed, l.endVars, sc)
  {
    var r := Scan(rest, k, l.failed, l.open, l.vars, sc.launch);
    var m := FirstPending(r.steps);
    if rest == [] || EndsWave(rest[0], l.open) {
      var q := Pass(rest, k, Closed(l.endFailed, l.endVars), sc);
      assert r.steps[..m] == [] && r.steps[m..] == rest && [] + q.steps == q.steps;
    } else {
      var v := Visit(rest[0], k, l.failed, l.open, l.vars, sc.launch);
      PassThroughScan(rest[1..], k + 1, Book(l, v, k, sc), sc);
      PassOne(rest, k, l, sc);
    }
  }

  /** The pass and the scan take a pending step alike, as long as it does not end the wave. */
  lemma TakeAlike(rest: seq<Step>, k: nat, l: Ledger, sc: Scenario)
    requires rest != [] && rest[0].status == Pending && !EndsWave(rest[0], l.open)
    ensures var v := Visit(rest[0], k, l.failed, l.open, l.vars, sc.launch);
            var l1 := Book(l, v, k, sc);
            var q := Pass(rest[1..], k + 1, l1, sc);
            && v.step.status != Pending
            && Pass(rest, k, l, sc) == q.(steps := [Credit(v.step, k, sc)] + q.steps)
            && Scan(rest, k, l.failed, l.open, l.vars, sc.launch).steps
               == [v.step] + Scan(rest[1..], k + 1, l1.failed, l1.open, l1.vars, sc.launch).steps
  {
    var v := Visit(rest[0], k, l.failed, l.open, l.vars, sc.launch);
    VisitIsOk(rest[0], k, l.failed, l.open, l.vars, sc.launch);
    var l1 := Book(l, v, k, sc);
    assert l1.failed == v.failed && l1.open == v.launched && l1.vars == l.vars;
  }

  lemma PassOne(rest: seq<Step>, k: nat, l: Ledger, sc: Scenario)
    requires rest != [] && rest[0].status == Pending && !EndsWave(rest[0], l.open)
    requires var v := Visit(rest[0], k, l.failed, l.open, l.vars, sc.launch);
             var l1 := Book(l, v, k, sc);
             var r1 := Scan(rest[1..], k + 1, l1.failed, l1.open, l1.vars, sc.launch);
             var m1 := FirstPending(r1.steps);
             Pass(rest[1..], k + 1, l1, sc)
             == Forecast(r1.steps[..m1], r1.steps[m1..], k + 1, l1.endFailed, l1.endVars, sc)
    ensures var r := Scan(rest, k, l.failed, l.open, l.vars, sc.launch);
            var m := FirstPending(r.steps);
            Pass(rest, k, l, sc) == Forecast(r.steps[..m], r.steps[m..], k, l.endFailed, l.endVars, sc)
  {
    var v := Visit(rest[0], k, l.failed, l.open, l.vars, sc.launch);
    var l1 := Book(l, v, k, sc);
    var r1 := Scan(rest[1..], k + 1, l1.failed, l1.open, l1.vars, sc.launch);
    TakeAlike(rest, k, l, sc);
    JoinPrefix(v.step, r1.steps);
    var m1 := FirstPending(r1.steps);
    ForecastCons(v.step, r1.steps[..m1], r1.steps[m1..], k, l, v, sc);
  }

  lemma JoinPrefix(st: Step, rest: seq<Step>)
    requires st.status != Pending
    ensures var all := [st] + rest;
            var m := FirstPending(rest);
            FirstPending(all) == m + 1 && all[..m + 1] == [st] + rest[..m] && all[m + 1..] == rest[m..]
  {
    FirstPendingCons(st, rest);
  }

  lemma {:induction false} CreditAllJoin(a: seq<Step>, b: seq<Step>, k: nat, sc: Scenario)
    ensures CreditAll(a + b, k, sc) == CreditAll(a, k, sc) + CreditAll(b, k + |a|, sc)
  {
    if a == [] {
      assert a + b == b;
    } else {
      assert (a + b)[0] == a[0] && (a + b)[1..] == a[1..] + b;
      CreditAllJoin(a[1..], b, k + 1, sc);
    }
  }

  lemma {:induction false} MergeAllJoin(vars: Vars, a: seq<Step>, b: seq<Step>, k: nat, sc: Scenario)
    ensures MergeAll(vars, a + b, k, sc) == MergeAll(MergeAll(vars, a, k, sc), b, k + |a|, sc)
    decreases |a|
  {
    if a == [] {
      assert a + b == b;
    } else {
      assert (a + b)[0] == a[0] && (a + b)[1..] == a[1..] + b;
      MergeAllJoin(if a[0].status == Running then vars + sc.finish(k).exports else vars, a[1..], b, k + 1, sc);
    }
  }

  ghost predicate NoneRunning(steps: seq<Step>) { forall i :: 0 <= i < |steps| ==> steps[i].status != Running }

  lemma {:induction false} NothingInFlight(steps: seq<Step>, vars: Vars, k: nat, sc: Scenario)
    requires NoneRunning(steps)
    ensures CreditAll(steps, k, sc) == steps && MergeAll(vars, steps, k, sc) == vars
    decreases |steps|
  {
    if steps != [] {
      NothingInFlight(steps[1..], vars, k + 1, sc);
    }
  }

  lemma BadJoin(a: seq<Step>, b: seq<Step>)
    ensures AnyBad(a + b) <==> AnyBad(a) || AnyBad(b)
  {
    assert forall i :: 0 <= i < |a| ==> (a + b)[i] == a[i];
    assert forall i :: 0 <= i < |b| ==> (a + b)[|a| + i] == b[i];
  }

  lemma Regroup(a: seq<Step>, b: seq<Step>, c: seq<Step>)
    ensures a + b + c == a + (b + c)
  {
  }

  /** Forecasting past a finished front is forecasting the rest from where the front leaves off. */
  lemma ForecastJoin(front: seq<Step>, mid: seq<Step>, tail: seq<Step>, vars: Vars, sc: Scenario)
    requires NoneRunning(front)
    ensures var q := Forecast(mid, tail, |front|, AnyBad(front), vars, sc);
            Forecast(front + mid, tail, 0, false, vars, sc) == q.(steps := front + q.steps)
  {
    CreditAllJoin(front, mid, 0, sc);
    MergeAllJoin(vars, front, mid, 0, sc);
    NothingInFlight(front, vars, 0, sc);
    var c := CreditAll(mid, |front|, sc);
    BadJoin(front, c);
    var p := Pass(tail, |front| + |mid|, Closed(AnyBad(front) || AnyBad(c), MergeAll(vars, mid, |front|, sc)), sc);
    Regroup(front, c, p.steps);
  }

  lemma SplitJoined(front: seq<Step>, back: seq<Step>, m: nat)
    requires m <= |back|
    ensures (front + back)[..|front| + m] == front + back[..m] && (front + back)[|front| + m..] == back[m..]
  {
  }

  lemma PredictJoin(front: seq<Step>, back: seq<Step>, w: Wf, sc: Scenario)
    requires NoneRunning(front) && NonePending(front) && w.steps == front + back
    ensures var m := FirstPending(back);
            var q := Forecast(back[..m], back[m..], |front|, AnyBad(front), w.vars, sc);
            Predict(w, sc) == q.(steps := front + q.steps)
  {
    var m := FirstPending(back);
    JoinFacts(front, back);
    SplitJoined(front, back, m);
    ForecastJoin(front, back[..m], back[m..], w.vars, sc);
  }

  /** A wave launched after a finished front comes to what the pass makes of the pending rest. */
  lemma {:induction false} PredictPending(front: seq<Step>, rest: seq<Step>, w: Wf, sc: Scenario)
    requires NoneRunning(front) && NonePending(front) && AllPending(rest) && w.steps == front + rest
    ensures var q := Pass(rest, |front|, Closed(AnyBad(front), w.vars), sc);
            Predict(w, sc) == q.(steps := front + q.steps)
  {
    assert FirstPending(rest) == 0 && rest[..0] == [] && rest[0..] == rest;
    PredictJoin(front, rest, w, sc);
    ForecastEmpty(rest, |front|, AnyBad(front), w.vars, sc);
  }

  lemma {:induction false} PredictLaunched(front: seq<Step>, rest: seq<Step>, w: Wf, sc: Scenario)
    requires NoneRunning(front) && NonePending(front) && AllPending(rest)
    requires w.steps == front + Scan(rest, |front|, AnyBad(front), false, w.vars, sc.launch).steps
    ensures var q := Pass(rest, |front|, Closed(AnyBad(front), w.vars), sc);
            Predict(w, sc) == q.(steps := front + q.steps)
  {
    PassThroughScan(rest, |front|, Closed(AnyBad(front), w.vars), sc);
    PredictJoin(front, Scan(rest, |front|, AnyBad(front), false, w.vars, sc.launch).steps, w, sc);
  }

  lemma PredictWave(w: Wf, sc: Scenario)
    requires Prefix(w.steps) && NoneRunning(w.steps)
    ensures Predict(NextWave(w, 0, AnyBad(w.steps), sc.launch), sc) == Predict(w, sc)
  {
    var p := FirstPending(w.steps);
    WaveParts(w, AnyBad(w.steps), sc.launch);
    SplitAtCursor(w);
    PredictPending(w.steps[..p], w.steps[p..], w, sc);
    PredictLaunched(w.steps[..p], w.steps[p..], NextWave(w, 0, AnyBad(w.steps), sc.launch), sc);
  }

  lemma ForecastEmpty(tail: seq<Step>, k: nat, failed: bool, vars: Vars, sc: Scenario)
    ensures Forecast([], tail, k, failed, vars, sc) == Pass(tail, k, Closed(failed, vars), sc)
  {
    var q := Pass(tail, k, Closed(failed, vars), sc);
    assert [] + q.steps == q.steps;
  }

  // ---- recording a finished run keeps the forecast --------------------------------------------------------

  ghost predicate Agree(a: Vars, b: Vars) { forall x :: x in a && x in b ==> a[x] == b[x] }

  lemma AgreeCommutes(v: Vars, a: Vars, b: Vars)
    ensures v + a + b == v + b + a <==> Agree(a, b)
  {
    if v + a + b == v + b + a {
      forall x | x in a && x in b ensures a[x] == b[x] {
        assert (v + a + b)[x] == b[x] && (v + b + a)[x] == a[x];
      }
    }
  }

  lemma {:induction false} MergeOne(vars: Vars, steps: seq<Step>, k: nat, i: nat, done: Step, sc: Scenario)
    requires i < |steps| && steps[i].status == Running && done.status != Running
    requires forall j :: 0 <= j < i && steps[j].status == Running ==>
         Agree(sc.finish(k + i).exports, sc.finish(k + j).exports)
    ensures MergeAll(vars + sc.finish(k + i).exports, steps[i := done], k, sc) == MergeAll(vars, steps, k, sc)
    decreases i
  {
    var ex := sc.finish(k + i).exports;
    if i == 0 {
      assert steps[i := done][1..] == steps[1..];
    } else {
      var v1 := if steps[0].status == Running then vars + sc.finish(k).exports else vars;
      assert steps[i := done][1..] == steps[1..][i - 1 := done] && steps[i := done][0] == steps[0];
      if steps[0].status == Running {
        assert Agree(sc.finish(k + i).exports, sc.finish(k + 0).exports);
        AgreeCommutes(vars, ex, sc.finish(k).exports);
      }
      forall j | 0 <= j < i - 1 && steps[1..][j].status == Running
        ensures Agree(sc.finish(k + 1 + (i - 1)).exports, sc.finish(k + 1 + j).exports)
      {
        assert steps[j + 1].status == Running;
        assert Agree(sc.finish(k + i).exports, sc.finish(k + (j + 1)).exports);
      }
      MergeOne(v1, steps[1..], k + 1, i - 1, done, sc);
    }
  }

  lemma {:induction false} CreditOne(steps: seq<Step>, k: nat, i: nat, sc: Scenario)
    requires i < |steps|
    ensures CreditAll(steps[i := Credit(steps[i], k + i, sc)], k, sc) == CreditAll(steps, k, sc)
  {
    var c := steps[i := Credit(steps[i], k + i, sc)];
    if i == 0 {
      assert c[1..] == steps[1..];
    } else {
      assert c[0] == steps[0] && c[1..] == steps[1..][i - 1 := Credit(steps[1..][i - 1], k + 1 + (i - 1), sc)];
      CreditOne(steps[1..], k + 1, i - 1, sc);
    }
  }

  /** Runs that are in flight together export no different values for the same variable. */
  ghost predicate Harmonious(w: Wf, sc: Scenario) {
    forall i, j ::
      && 0 <= i < |w.steps| && w.steps[i].status == Running
      && 0 <= j < |w.steps| && w.steps[j].status == Running && i != j ==>
        Agree(sc.finish(i).exports, sc.finish(j).exports)
  }

  /** No two runs of one wave clash, in any execution from `w` on. */
  ghost predicate NoClash(w: Wf, sc: Scenario) {
    forall order :: Legal(w, Deliveries(order, sc)) ==> Harmonious(Run(w, Deliveries(order, sc)), sc)
  }

  lemma RunCons(w: Wf, i: nat, rest: seq<nat>, sc: Scenario)
    ensures var w1 := Deliver(w, EventOf(i, sc), sc.launch);
            && Run(w, Deliveries([i] + rest, sc)) == Run(w1, Deliveries(rest, sc))
            && (Legal(w, Deliveries([i] + rest, sc)) <==> Live(w, EventOf(i, sc)) && Legal(w1, Deliveries(rest, sc)))
  {
    assert ([i] + rest)[0] == i && ([i] + rest)[1..] == rest;
    assert Deliveries([i] + rest, sc)[1..] == Deliveries(rest, sc);
  }

  lemma NoClashNow(w: Wf, sc: Scenario)
    requires NoClash(w, sc)
    ensures Harmonious(w, sc)
  {
    assert Legal(w, Deliveries([], sc));
  }

  lemma NoClashNext(w: Wf, i: nat, sc: Scenario)
    requires NoClash(w, sc) && Live(w, EventOf(i, sc))
    ensures NoClash(Deliver(w, EventOf(i, sc), sc.launch), sc)
  {
    var w1 := Deliver(w, EventOf(i, sc), sc.launch);
    forall order | Legal(w1, Deliveries(order, sc)) ensures Harmonious(Run(w1, Deliveries(order, sc)), sc) {
      RunCons(w, i, order, sc);
      assert Legal(w, Deliveries([i] + order, sc));
    }
  }

  lemma ForecastRecord(front: seq<Step>, tail: seq<Step>, vars: Vars, i: nat, sc: Scenario)
    requires i < |front| && front[i].status == Running
    requires forall j :: 0 <= j < i && front[j].status == Running ==> Agree(sc.finish(i).exports, sc.finish(j).exports)
    ensures Forecast(front[i := Credit(front[i], i, sc)], tail, 0, false, vars + sc.finish(i).exports, sc)
         == Forecast(front, tail, 0, false, vars, sc)
  {
    CreditOne(front, 0, i, sc);
    assert Credit(front[i], 0 + i, sc) == Credit(front[i], i, sc);
    forall j | 0 <= j < i && front[j].status == Running
      ensures Agree(sc.finish(0 + i).exports, sc.finish(0 + j).exports)
    {
      assert Agree(sc.finish(i).exports, sc.finish(j).exports);
    }
    MergeOne(vars, front, 0, i, Credit(front[i], i, sc), sc);
  }

  lemma PredictRecord(w: Wf, i: nat, sc: Scenario)
    requires Shape(w) && Harmonious(w, sc) && Live(w, EventOf(i, sc))
    ensures Predict(Record(w, EventOf(i, sc)), sc) == Predict(w, sc)
  {
    var w1 := Record(w, EventOf(i, sc));
    var p := FirstPending(w.steps);
    RecordFacts(w, EventOf(i, sc));
    var front := w.steps[..p];
    var done := Credit(front[i], i, sc);
    assert w1.steps == w.steps[i := done];
    assert w1.steps[..p] == front[i := done] && w1.steps[p..] == w.steps[p..];
    forall j | 0 <= j < i && front[j].status == Running ensures Agree(sc.finish(i).exports, sc.finish(j).exports) {
      assert w.steps[j].status == Running;
    }
    ForecastRecord(front, w.steps[p..], w.vars, i, sc);
  }

  lemma PredictDeliver(w: Wf, i: nat, sc: Scenario)
    requires Shape(w) && Harmonious(w, sc) && Live(w, EventOf(i, sc))
    ensures Predict(Deliver(w, EventOf(i, sc), sc.launch), sc) == Predict(w, sc)
  {
    var w1 := Record(w, EventOf(i, sc));
    PredictRecord(w, i, sc);
    if !AnyRunning(w1.steps) {
      RecordFacts(w, EventOf(i, sc));
      PredictWave(w1, sc);
    }
  }

  // ---- theorems ----------------------------------------------------------------------------------------------

  lemma {:induction false} PredictRun(w: Wf, order: seq<nat>, sc: Scenario)
    requires Shape(w) && NoClash(w, sc) && Legal(w, Deliveries(order, sc))
    ensures Predict(Run(w, Deliveries(order, sc)), sc) == Predict(w, sc)
    ensures Shape(Run(w, Deliveries(order, sc)))
    decreases |order|
  {
    if order != [] {
      var i, rest := order[0], order[1..];
      assert order == [i] + rest;
      RunCons(w, i, rest, sc);
      DeliverKeeps(w, EventOf(i, sc), sc.launch);
      NoClashNow(w, sc);
      PredictDeliver(w, i, sc);
      NoClashNext(w, i, sc);
      PredictRun(Deliver(w, EventOf(i, sc), sc.launch), rest, sc);
    }
  }

  /** The whole workflow as one pass. */
  function PassOf(defs: seq<StepDef>, defaults: Vars, overrides: Vars, sc: Scenario): Passed {
    Pass(InstantiateAll(defs), 0, Closed(false, defaults + overrides), sc)
  }

  lemma PredictStart(defs: seq<StepDef>, defaults: Vars, overrides: Vars, sc: Scenario)
    ensures Predict(Start(defs, defaults, overrides, sc.launch), sc) == PassOf(defs, defaults, overrides, sc)
  {
    var w := Wf(InstantiateAll(defs), WfRunning, defaults + overrides);
    assert FirstPending(w.steps) == 0;
    PredictWave(w, sc);
    assert w.steps[..0] == [] && w.steps[0..] == w.steps;
    ForecastEmpty(w.steps, 0, false, w.vars, sc);
  }

  lemma PredictFinal(w: Wf, sc: Scenario)
    requires Shape(w) && w.status != WfRunning
    ensures Predict(w, sc) == Passed(w.steps, w.status == WfFailed, w.vars)
  {
    var n := |w.steps|;
    assert w.steps[..n] == w.steps && w.steps[n..] == [];
    NothingInFlight(w.steps, w.vars, 0, sc);
    assert w.steps + [] == w.steps;
  }

  /** Every complete execution, in whatever order its runs finish, ends where the pass ends. */
  lemma {:induction false} ExecutionIsPass(defs: seq<StepDef>, defaults: Vars, overrides: Vars, order: seq<nat>,
                                           sc: Scenario)
    requires NoClash(Start(defs, defaults, overrides, sc.launch), sc)
    requires Legal(Start(defs, defaults, overrides, sc.launch), Deliveries(order, sc))
    requires Run(Start(defs, defaults, overrides, sc.launch), Deliveries(order, sc)).status != WfRunning
    ensures var p := PassOf(defs, defaults, overrides, sc);
            Run(Start(defs, defaults, overrides, sc.launch), Deliveries(order, sc))
            == Wf(p.steps, if p.failed then WfFailed else WfSuccess, p.vars)
  {
    var w0 := Start(defs, defaults, overrides, sc.launch);
    StartKeeps(defs, defaults, overrides, sc.launch);
    PredictStart(defs, defaults, overrides, sc);
    PredictRun(w0, order, sc);
    PredictFinal(Run(w0, Deliveries(order, sc)), sc);
  }

  /** Confluence: two complete executions end alike. */
  lemma {:induction false} Confluence(defs: seq<StepDef>, defaults: Vars, overrides: Vars, a: seq<nat>, b: seq<nat>,
                                      sc: Scenario)
    requires NoClash(Start(defs, defaults, overrides, sc.launch), sc)
    requires var w0 := Start(defs, defaults, overrides, sc.launch);
             forall o :: o == a || o == b ==>
                 Legal(w0, Deliveries(o, sc)) && Run(w0, Deliveries(o, sc)).status != WfRunning
    ensures var w0 := Start(defs, defaults, overrides, sc.launch);
            Run(w0, Deliveries(a, sc)) == Run(w0, Deliveries(b, sc))
  {
    ExecutionIsPass(defs, defaults, overrides, a, sc);
    ExecutionIsPass(defs, defaults, overrides, b, sc);
  }

  lemma DueEvent(w: Wf, sc: Scenario) returns (i: nat)
    requires Shape(w) && w.status == WfRunning
    ensures Live(w, EventOf(i, sc))
    ensures var w1 := Deliver(w, EventOf(i, sc), sc.launch);
            Shape(w1) && Weight(w1.steps, 1, 1) < Weight(w.steps, 1, 1)
  {
    i :| 0 <= i < |w.steps| && w.steps[i].status == Running;
    EventLowersWeight(w, EventOf(i, sc), sc.launch, 1, 1);
    DeliverKeeps(w, EventOf(i, sc), sc.launch);
  }

  /** Complete executions exist: delivering any running step's event again and again gets there,
      within the number of unfinished steps. */
  lemma {:induction false} CompletionExists(w: Wf, n: nat, sc: Scenario) returns (order: seq<nat>)
    requires Shape(w) && Weight(w.steps, 1, 1) <= n
    ensures Legal(w, Deliveries(order, sc)) && Run(w, Deliveries(order, sc)).status != WfRunning
    ensures |order| <= n
    decreases n
  {
    if w.status != WfRunning {
      order := [];
    } else {
      var i := DueEvent(w, sc);
      var rest := CompletionExists(Deliver(w, EventOf(i, sc), sc.launch), n - 1, sc);
      order := [i] + rest;
      RunCons(w, i, rest, sc);
    }
  }

  /** Exactly when the order of two runs of one wave does not matter: when what they export agrees. */
  lemma SwapIffAgree(w: Wf, i: nat, j: nat, sc: Scenario)
    requires Shape(w) && i != j && Live(w, EventOf(i, sc)) && Live(w, EventOf(j, sc))
    ensures Run(w, Deliveries([i, j], sc)) == Run(w, Deliveries([j, i], sc))
            <==> Agree(sc.finish(i).exports, sc.finish(j).exports)
  {
    var a, b := Record(w, EventOf(i, sc)), Record(w, EventOf(j, sc));
    RunTwo(w, i, j, sc);
    RunTwo(w, j, i, sc);
    assert Record(a, EventOf(j, sc)).steps == Record(b, EventOf(i, sc)).steps;
    AgreeCommutes(w.vars, sc.finish(i).exports, sc.finish(j).exports);
  }

  lemma RunTwo(w: Wf, i: nat, j: nat, sc: Scenario)
    requires Shape(w) && i != j && Live(w, EventOf(i, sc)) && Live(w, EventOf(j, sc))
    ensures var w2 := Record(Record(w, EventOf(i, sc)), EventOf(j, sc));
            Run(w, Deliveries([i, j], sc))
            == if AnyRunning(w2.steps) then w2 else NextWave(w2, 0, AnyBad(w2.steps), sc.launch)
  {
    var w1 := Deliver(w, EventOf(i, sc), sc.launch);
    RunCons(w, i, [j], sc);
    RunCons(w1, j, [], sc);
    assert [i] + [j] == [i, j] && [j] + [] == [j];
    assert Record(w, EventOf(i, sc)).steps[j].status == Running;
    assert w1 == Record(w, EventOf(i, sc));
  }
}
