/** What the workflow engine guarantees over whole executions. */
module WorkflowTheorems {
  import opened Guards
  import opened Workflows

  // ---- the shape every reachable workflow run has ---------------------------------------------

  /** The cursor: how many leading steps are no longer pending. */
  function FirstPending(steps: seq<Step>): (p: nat)
    ensures p <= |steps|
    ensures forall i :: 0 <= i < p ==> steps[i].status != Pending
    ensures p < |steps| ==> steps[p].status == Pending
  {
    if steps == [] || steps[0].status == Pending then 0 else 1 + FirstPending(steps[1..])
  }

  ghost predicate AllPending(steps: seq<Step>) { forall i :: 0 <= i < |steps| ==> steps[i].status == Pending }

  /** The steps no longer pending form a prefix. */
  ghost predicate Prefix(steps: seq<Step>) {
    forall i :: FirstPending(steps) <= i < |steps| ==> steps[i].status == Pending
  }

  /** Between a running step and the cursor, every step is Parallel: one wave. */
  ghost predicate OneWave(steps: seq<Step>) {
    forall i, k :: 0 <= i < k < FirstPending(steps) && steps[i].status == Running ==> steps[k].parallel
  }

  ghost predicate Shape(w: Wf) {
    var p := FirstPending(w.steps);
    && Prefix(w.steps)
    && OneWave(w.steps)
    && (w.status == WfRunning <==> AnyRunning(w.steps))
    && (AnyRunning(w.steps) ==> p == |w.steps| || !w.steps[p].parallel)
    && (!AnyRunning(w.steps) ==> p == |w.steps| && (w.status == WfFailed <==> AnyBad(w.steps)))
  }

  predicate Always(st: Step) { st.condition == COND_ALWAYS && st.when_ == "" }

  /** A step that was started or failed to start, as opposed to waiting or passed over. */
  predicate Attempted(st: Step) { st.status != Pending && st.status != Skipped }

  /** No unguarded `always` step was passed over. */
  ghost predicate AlwaysTried(w: Wf) {
    forall i :: 0 <= i < |w.steps| && Always(w.steps[i]) ==> w.steps[i].status != Skipped
  }

  /** An on_failure step was tried only if some step is bad. */
  ghost predicate FailuresCaused(w: Wf) {
    forall i :: 0 <= i < |w.steps| && w.steps[i].condition == COND_ON_FAILURE && Attempted(w.steps[i]) ==>
      AnyBad(w.steps)
  }

  ghost predicate History(w: Wf) { AlwaysTried(w) && FailuresCaused(w) }

  ghost predicate SameDefs(a: seq<Step>, b: seq<Step>) {
    |a| == |b| && forall i :: 0 <= i < |a| ==> SameDef(a[i], b[i])
  }

  // ---- one scan ----------------------------------------------------------------------------------

  lemma FirstPendingIs(steps: seq<Step>, p: nat)
    requires p <= |steps|
    requires forall i :: 0 <= i < p ==> steps[i].status != Pending
    requires p < |steps| ==> steps[p].status == Pending
    ensures FirstPending(steps) == p
  {
  }

  predicate SameDef(a: Step, b: Step) {
    a.templateId == b.templateId && a.condition == b.condition && a.when_ == b.when_ && a.parallel == b.parallel
  }

  /** What visiting the pending step `st` may do. */
  ghost predicate VisitOk(st: Step, failed: bool, launched: bool, v: Visited) {
    && SameDef(st, v.step)
    && v.step.status in {Running, Failed, Skipped}
    && (v.launched <==> launched || v.step.status == Running)
    && (v.failed <==> failed || v.step.status == Failed)
    && (Always(st) ==> v.step.status != Skipped)
    && (st.condition == COND_ON_FAILURE && v.step.status != Skipped ==> failed)
  }

  lemma VisitIsOk(st: Step, k: nat, failed: bool, launched: bool, vars: Vars, launch: Launcher)
    requires st.status == Pending
    ensures VisitOk(st, failed, launched, Visit(st, k, failed, launched, vars, launch))
  {
  }

  /** What scanning may make of the pending step `st`, `done` when the scan reached it. */
  ghost predicate CellOk(st: Step, st': Step, done: bool, launched: bool, failed': bool) {
    if done then
      && SameDef(st, st')
      && st'.status in {Running, Failed, Skipped}
      && (launched ==> st.parallel)
      && (Always(st) ==> st'.status != Skipped)
      && (st.condition == COND_ON_FAILURE && st'.status != Skipped ==> failed')
    else st' == st && st.status == Pending
  }

  ghost predicate CellsOk(rest: seq<Step>, steps: seq<Step>, m: nat, launched: bool, failed': bool) {
    |steps| == |rest| && forall i :: 0 <= i < |rest| ==> CellOk(rest[i], steps[i], i < m, launched, failed')
  }

  /** What scanning the pending steps `rest` may do: turn a prefix of them into one wave. */
  ghost predicate ScanOk(rest: seq<Step>, failed: bool, launched: bool, r: Scanned) {
    var m := FirstPending(r.steps);
    && CellsOk(rest, r.steps, m, launched, r.failed)
    && (m < |rest| ==> r.launched && !rest[m].parallel)
    && OneWave(r.steps)
    && (r.launched <==> launched || AnyRunning(r.steps))
    && (r.failed <==> failed || AnyBad(r.steps))
  }

  lemma CellsCons(st: Step, st': Step, rest: seq<Step>, steps: seq<Step>, m: nat, launched: bool, launched1: bool,
                  failed': bool)
    requires CellOk(st, st', true, launched, failed')
    requires CellsOk(rest, steps, m, launched1, failed')
    requires launched ==> launched1
    ensures CellsOk([st] + rest, [st'] + steps, m + 1, launched, failed')
  {
    forall i | 0 <= i < |rest| + 1
      ensures CellOk(([st] + rest)[i], ([st'] + steps)[i], i < m + 1, launched, failed')
    {
      if i > 0 { assert CellOk(rest[i - 1], steps[i - 1], i - 1 < m, launched1, failed'); }
    }
  }

  lemma OneWaveCons(st': Step, rest: seq<Step>, steps: seq<Step>, launched: bool, failed': bool)
    requires CellsOk(rest, steps, FirstPending(steps), launched, failed') && OneWave(steps)
    requires st'.status == Running ==> launched
    ensures OneWave([st'] + steps)
  {
    var all := [st'] + steps;
    FirstPendingCons(st', steps);
    forall i, k | 0 <= i < k < FirstPending(all) && all[i].status == Running ensures all[k].parallel {
      assert CellOk(rest[k - 1], steps[k - 1], true, launched, failed');
      if i > 0 { assert steps[i - 1].status == Running && steps[k - 1].parallel; }
    }
  }

  lemma ScanOkCons(st: Step, v: Visited, rest: seq<Step>, failed: bool, launched: bool, r: Scanned)
    requires VisitOk(st, failed, launched, v) && ScanOk(rest, v.failed, v.launched, r)
    requires launched ==> st.parallel
    ensures ScanOk([st] + rest, failed, launched, r.(steps := [v.step] + r.steps))
  {
    var m := FirstPending(r.steps);
    var all, steps := [st] + rest, [v.step] + r.steps;
    assert CellsOk(all, steps, m + 1, launched, r.failed) by {
      CellsCons(st, v.step, rest, r.steps, m, launched, v.launched, r.failed);
    }
    assert OneWave(steps) by {
      OneWaveCons(v.step, rest, r.steps, v.launched, r.failed);
    }
    assert m < |rest| ==> all[m + 1] == rest[m];
    FirstPendingCons(v.step, r.steps);
    ConsFacts(v.step, r.steps);
  }

  lemma FirstPendingCons(st: Step, rest: seq<Step>)
    ensures FirstPending([st] + rest) == if st.status == Pending then 0 else 1 + FirstPending(rest)
  {
    assert ([st] + rest)[1..] == rest;
  }

  lemma ScanStops(rest: seq<Step>, failed: bool, launched: bool)
    requires AllPending(rest) && (rest == [] || EndsWave(rest[0], launched))
    ensures ScanOk(rest, failed, launched, Scanned(rest, failed, launched))
  {
  }

  lemma ScanTakes(rest: seq<Step>, k: nat, failed: bool, launched: bool, vars: Vars, launch: Launcher)
    requires rest != [] && !EndsWave(rest[0], launched)
    ensures var v := Visit(rest[0], k, failed, launched, vars, launch);
            var r := Scan(rest[1..], k + 1, v.failed, v.launched, vars, launch);
            && rest == [rest[0]] + rest[1..]
            && Scan(rest, k, failed, launched, vars, launch) == r.(steps := [v.step] + r.steps)
  {
  }

  lemma {:induction false} ScanWave(rest: seq<Step>, k: nat, failed: bool, launched: bool, vars: Vars, launch: Launcher)
    requires AllPending(rest)
    ensures ScanOk(rest, failed, launched, Scan(rest, k, failed, launched, vars, launch))
  {
    if rest == [] || EndsWave(rest[0], launched) {
      ScanStops(rest, failed, launched);
    } else {
      var v := Visit(rest[0], k, failed, launched, vars, launch);
      var r := Scan(rest[1..], k + 1, v.failed, v.launched, vars, launch);
      ScanTakes(rest, k, failed, launched, vars, launch);
      VisitIsOk(rest[0], k, failed, launched, vars, launch);
      ScanWave(rest[1..], k + 1, v.failed, v.launched, vars, launch);
      ScanOkCons(rest[0], v, rest[1..], failed, launched, r);
    }
  }

  lemma ConsFacts(st: Step, rest: seq<Step>)
    ensures AnyRunning([st] + rest) <==> st.status == Running || AnyRunning(rest)
    ensures AnyBad([st] + rest) <==> Bad(st.status) || AnyBad(rest)
  {
    var all := [st] + rest;
    assert all[0] == st;
    assert forall i :: 0 <= i < |rest| ==> all[i + 1] == rest[i];
  }

  // ---- one wave, and the cursor that makes rescanning unnecessary ------------------------------

  ghost predicate NonePending(steps: seq<Step>) { forall i :: 0 <= i < |steps| ==> steps[i].status != Pending }

  lemma ScanPassesOne(st: Step, rest: seq<Step>, k: nat, failed: bool, launched: bool, vars: Vars, launch: Launcher)
    requires st.status != Pending
    ensures var r := Scan(rest, k + 1, failed, launched, vars, launch);
            Scan([st] + rest, k, failed, launched, vars, launch) == Scanned([st] + r.steps, r.failed, r.launched)
  {
    assert ([st] + rest)[1..] == rest;
  }

  lemma HeadOut<T>(front: seq<T>, back: seq<T>)
    requires front != []
    ensures front + back == [front[0]] + (front[1..] + back)
  {
  }

  lemma {:induction false} ScanPassesOver(front: seq<Step>, rest: seq<Step>, k: nat, failed: bool, launched: bool,
                                          vars: Vars, launch: Launcher)
    requires NonePending(front)
    ensures var r := Scan(rest, k + |front|, failed, launched, vars, launch);
            Scan(front + rest, k, failed, launched, vars, launch) == Scanned(front + r.steps, r.failed, r.launched)
  {
    var r := Scan(rest, k + |front|, failed, launched, vars, launch);
    if front == [] {
      assert front + rest == rest && front + r.steps == r.steps;
    } else {
      ScanPassesOver(front[1..], rest, k + 1, failed, launched, vars, launch);
      ScanPassesOne(front[0], front[1..] + rest, k, failed, launched, vars, launch);
      HeadOut(front, rest);
      HeadOut(front, r.steps);
    }
  }

  /** Scanning from the first step gives what an engine that remembers where it stopped gives. */
  lemma RescanIsCursor(w: Wf, failed: bool, launch: Launcher)
    ensures NextWave(w, 0, failed, launch) == NextWave(w, FirstPending(w.steps), failed, launch)
  {
    var p := FirstPending(w.steps);
    ScanPassesOver(w.steps[..p], w.steps[p..], 0, failed, false, w.vars, launch);
    assert w.steps[..p] + w.steps[p..] == w.steps;
    assert w.steps[0..] == w.steps && w.steps[..0] == [];
    var r := Scan(w.steps, 0, failed, false, w.vars, launch);
    assert w.steps[..0] + r.steps == r.steps;
  }

  lemma JoinFacts(front: seq<Step>, back: seq<Step>)
    requires NonePending(front)
    ensures FirstPending(front + back) == |front| + FirstPending(back)
    ensures AnyRunning(front + back) <==> AnyRunning(front) || AnyRunning(back)
    ensures AnyBad(front + back) <==> AnyBad(front) || AnyBad(back)
  {
    var all := front + back;
    assert forall i :: 0 <= i < |front| ==> all[i] == front[i];
    assert forall i :: 0 <= i < |back| ==> all[|front| + i] == back[i];
    assert forall i :: |front| <= i < |all| ==> all[i] == back[i - |front|];
    FirstPendingIs(all, |front| + FirstPending(back));
  }

  /** Launching a wave after a finished prefix gives a well-shaped run again. */
  lemma JoinShape(front: seq<Step>, rest: seq<Step>, r: Scanned, vars: Vars)
    requires NonePending(front) && !AnyRunning(front)
    requires ScanOk(rest, AnyBad(front), false, r)
    ensures Shape(Wf(front + r.steps, if r.launched then WfRunning else if r.failed then WfFailed else WfSuccess, vars))
  {
    var all := front + r.steps;
    var m := FirstPending(r.steps);
    var p := |front| + m;
    JoinFacts(front, r.steps);
    forall i | p <= i < |all| ensures all[i].status == Pending && all[i] == rest[i - |front|] {
      assert CellOk(rest[i - |front|], r.steps[i - |front|], false, false, r.failed);
    }
    assert forall i :: 0 <= i < |front| ==> all[i].status != Running;
    forall i, k | 0 <= i < k < p && all[i].status == Running ensures all[k].parallel {
      assert r.steps[i - |front|].status == Running && r.steps[k - |front|].parallel;
    }
  }

  /** Pending steps may start, fail to start or be skipped; all others stay as they are. */
  ghost predicate Forward(a: seq<Step>, b: seq<Step>) {
    && |a| == |b|
    && forall i :: 0 <= i < |a| ==>
        b[i] == a[i] || (a[i].status == Pending && b[i].status in {Running, Failed, Skipped})
  }

  lemma JoinForward(front: seq<Step>, rest: seq<Step>, r: Scanned)
    requires ScanOk(rest, AnyBad(front), false, r) && AllPending(rest)
    ensures var a, b := front + rest, front + r.steps;
            && SameDefs(a, b) && Forward(a, b)
            && forall i :: 0 <= i < |a| ==> b[i] == a[i] || CellOk(a[i], b[i], true, false, r.failed)
  {
    var a, b := front + rest, front + r.steps;
    forall i | 0 <= i < |a| ensures b[i] == a[i] || CellOk(a[i], b[i], true, false, r.failed) {
      if i >= |front| {
        var j := i - |front|;
        assert CellOk(rest[j], r.steps[j], j < FirstPending(r.steps), false, r.failed);
      }
    }
  }

  lemma JoinHistory(front: seq<Step>, rest: seq<Step>, r: Scanned, w: Wf, w': Wf)
    requires NonePending(front) && w.steps == front + rest && w'.steps == front + r.steps
    requires ScanOk(rest, AnyBad(front), false, r) && AllPending(rest)
    ensures SameDefs(w.steps, w'.steps) && Forward(w.steps, w'.steps)
    ensures (AlwaysTried(w) ==> AlwaysTried(w')) && (FailuresCaused(w) ==> FailuresCaused(w'))
  {
    JoinForward(front, rest, r);
    JoinFacts(front, r.steps);
    JoinFacts(front, rest);
    assert AnyBad(w'.steps) <==> r.failed;
    assert AnyBad(w.steps) ==> AnyBad(front);
  }

  /** A new wave leaves the steps before the cursor alone and scans the others. */
  lemma WaveParts(w: Wf, failed: bool, launch: Launcher)
    ensures var p := FirstPending(w.steps);
            var r := Scan(w.steps[p..], p, failed, false, w.vars, launch);
            NextWave(w, 0, failed, launch)
            == Wf(w.steps[..p] + r.steps,
                  if r.launched then w.status else if r.failed then WfFailed else WfSuccess, w.vars)
  {
    RescanIsCursor(w, failed, launch);
  }

  lemma CursorParts(front: seq<Step>, back: seq<Step>)
    requires |front| == FirstPending(front + back) && Prefix(front + back) && !AnyRunning(front + back)
    ensures NonePending(front) && !AnyRunning(front) && AllPending(back)
    ensures AnyBad(front + back) <==> AnyBad(front)
  {
    forall i | 0 <= i < |front| ensures front[i].status != Pending { assert (front + back)[i] == front[i]; }
    forall i | 0 <= i < |back| ensures back[i].status == Pending { assert (front + back)[|front| + i] == back[i]; }
    JoinFacts(front, back);
  }

  lemma SplitAtCursor(w: Wf)
    requires Prefix(w.steps) && !AnyRunning(w.steps)
    ensures var p := FirstPending(w.steps);
            && w.steps == w.steps[..p] + w.steps[p..]
            && NonePending(w.steps[..p]) && !AnyRunning(w.steps[..p]) && AllPending(w.steps[p..])
            && (AnyBad(w.steps) <==> AnyBad(w.steps[..p]))
  {
    var p := FirstPending(w.steps);
    assert w.steps == w.steps[..p] + w.steps[p..];
    CursorParts(w.steps[..p], w.steps[p..]);
  }

  lemma WaveKeeps(w: Wf, launch: Launcher)
    requires Prefix(w.steps) && !AnyRunning(w.steps) && w.status == WfRunning
    ensures var w' := NextWave(w, 0, AnyBad(w.steps), launch);
            && Shape(w') && SameDefs(w.steps, w'.steps) && Forward(w.steps, w'.steps)
            && (AlwaysTried(w) ==> AlwaysTried(w')) && (FailuresCaused(w) ==> FailuresCaused(w'))
            && FirstPending(w'.steps) >= FirstPending(w.steps)
  {
    var p := FirstPending(w.steps);
    var front, rest := w.steps[..p], w.steps[p..];
    var r := Scan(rest, p, AnyBad(w.steps), false, w.vars, launch);
    var w' := NextWave(w, 0, AnyBad(w.steps), launch);
    WaveParts(w, AnyBad(w.steps), launch);
    SplitAtCursor(w);
    ScanWave(rest, p, AnyBad(front), false, w.vars, launch);
    JoinShape(front, rest, r, w.vars);
    JoinFacts(front, r.steps);
    JoinHistory(front, rest, r, w, w');
  }

  // ---- one event ---------------------------------------------------------------------------------

  /** The event of a run that is in flight. */
  predicate Live(w: Wf, e: Event) {
    0 <= e.idx < |w.steps| && w.steps[e.idx].status == Running
  }

  lemma RecordFacts(w: Wf, e: Event)
    requires 0 <= e.idx < |w.steps| && w.steps[e.idx].status != Pending
    ensures var w1 := Record(w, e);
            && FirstPending(w1.steps) == FirstPending(w.steps)
            && SameDefs(w.steps, w1.steps)
            && (Prefix(w.steps) ==> Prefix(w1.steps))
            && (OneWave(w.steps) ==> OneWave(w1.steps))
            && (AnyRunning(w1.steps) ==> AnyRunning(w.steps))
  {
    var w1 := Record(w, e);
    FirstPendingIs(w1.steps, FirstPending(w.steps));
    if AnyRunning(w1.steps) {
      var i :| 0 <= i < |w1.steps| && w1.steps[i].status == Running;
      assert w.steps[i].status == Running;
    }
  }

  lemma RecordTried(w: Wf, e: Event)
    requires 0 <= e.idx < |w.steps| && AlwaysTried(w)
    ensures AlwaysTried(Record(w, e))
  {
    var w1 := Record(w, e);
    forall i | 0 <= i < |w1.steps| && Always(w1.steps[i]) ensures w1.steps[i].status != Skipped {
      assert Always(w.steps[i]);
    }
  }

  lemma RecordShape(w: Wf, e: Event)
    requires Shape(w) && w.status == WfRunning && 0 <= e.idx < |w.steps| && w.steps[e.idx].status != Pending
    requires AnyRunning(Record(w, e).steps)
    ensures Shape(Record(w, e))
  {
    RecordFacts(w, e);
  }

  /** Every delivery keeps the shape, even one that repeats the event of a finished step; an
      event of a step in flight also keeps on_failure steps caused. */
  lemma DeliverKeeps(w: Wf, e: Event, launch: Launcher)
    requires Shape(w)
    requires 0 <= e.idx < |w.steps| ==> w.steps[e.idx].status != Pending
    ensures var w' := Deliver(w, e, launch);
            && Shape(w') && SameDefs(w.steps, w'.steps)
            && FirstPending(w'.steps) >= FirstPending(w.steps)
            && (AlwaysTried(w) ==> AlwaysTried(w')) && (FailuresCaused(w) && Live(w, e) ==> FailuresCaused(w'))
  {
    if w.status == WfRunning && 0 <= e.idx < |w.steps| {
      var w1 := Record(w, e);
      RecordFacts(w, e);
      if AlwaysTried(w) { RecordTried(w, e); }
      if FailuresCaused(w) && Live(w, e) { RecordHistory(w, e); }
      if AnyRunning(w1.steps) {
        RecordShape(w, e);
      } else {
        WaveKeeps(w1, launch);
        SameDefsTrans(w.steps, w1.steps, Deliver(w, e, launch).steps);
      }
    }
  }

  lemma RecordHistory(w: Wf, e: Event)
    requires FailuresCaused(w) && Live(w, e)
    ensures FailuresCaused(Record(w, e))
  {
    var w1 := Record(w, e);
    if AnyBad(w.steps) {
      var b :| 0 <= b < |w.steps| && Bad(w.steps[b].status);
      assert Bad(w1.steps[b].status);
    }
    forall i | 0 <= i < |w1.steps| && w1.steps[i].condition == COND_ON_FAILURE && Attempted(w1.steps[i])
      ensures AnyBad(w1.steps)
    {
      assert Attempted(w.steps[i]);
    }
  }

  lemma SameDefsTrans(a: seq<Step>, b: seq<Step>, c: seq<Step>)
    requires SameDefs(a, b) && SameDefs(b, c)
    ensures SameDefs(a, c)
  {
    forall i | 0 <= i < |a| ensures SameDef(a[i], c[i]) { assert SameDef(a[i], b[i]) && SameDef(b[i], c[i]); }
  }

  /** A delivery for a step that has left pending, first or repeated, never makes a step pending again. */
  lemma DeliverOnward(w: Wf, e: Event, launch: Launcher, i: nat)
    requires Shape(w) && i < |w.steps|
    requires 0 <= e.idx < |w.steps| ==> w.steps[e.idx].status != Pending
    requires w.steps[i].status != Pending
    ensures |Deliver(w, e, launch).steps| == |w.steps| && Deliver(w, e, launch).steps[i].status != Pending
  {
    if w.status == WfRunning && 0 <= e.idx < |w.steps| {
      var w1 := Record(w, e);
      RecordFacts(w, e);
      assert w1.steps[i].status != Pending;
      if !AnyRunning(w1.steps) { WaveKeeps(w1, launch); }
    }
  }

  /** A delivery finishes the step it is for and moves other steps only forward out of pending. */
  lemma DeliverForward(w: Wf, e: Event, launch: Launcher)
    requires Shape(w) && Live(w, e)
    ensures var w' := Deliver(w, e, launch);
            && w'.steps[e.idx].status == e.status
            && Forward(w.steps[e.idx := w'.steps[e.idx]], w'.steps)
  {
    var w1 := Record(w, e);
    RecordFacts(w, e);
    assert w.status == WfRunning;
    if !AnyRunning(w1.steps) {
      WaveKeeps(w1, launch);
    }
    assert w1.steps == w.steps[e.idx := Deliver(w, e, launch).steps[e.idx]];
  }

  /** The starting rule: when a delivery starts step `i`, every earlier step has left pending,
      no step of the previous wave is in flight, and unless `i` is Parallel every earlier step
      is finished. */
  lemma StartingRule(w: Wf, e: Event, launch: Launcher, i: nat)
    requires Shape(w) && Live(w, e) && i < |w.steps|
    requires w.steps[i].status == Pending && Deliver(w, e, launch).steps[i].status == Running
    ensures var w' := Deliver(w, e, launch);
            && (forall j :: 0 <= j < i ==> w'.steps[j].status != Pending)
            && (forall j :: 0 <= j < |w.steps| && w.steps[j].status == Running ==> w'.steps[j].status != Running)
            && (!w.steps[i].parallel ==> forall j :: 0 <= j < i ==> w'.steps[j].status != Running)
  {
    var w1, w' := Record(w, e), Deliver(w, e, launch);
    assert w1.steps[i] == w.steps[i];
    WaveIsOver(w, e, launch, i);
    assert forall j :: 0 <= j < |w.steps| ==> w1.steps[j].status != Running;
    RecordFacts(w, e);
    WaveKeeps(w1, launch);
    assert SameDef(w1.steps[i], w'.steps[i]);
    forall j | 0 <= j < |w.steps| && w.steps[j].status == Running ensures w'.steps[j].status != Running {
      assert w1.steps[j].status != Pending && w'.steps[j] == w1.steps[j];
    }
  }

  lemma WaveIsOver(w: Wf, e: Event, launch: Launcher, i: nat)
    requires Shape(w) && Live(w, e) && i < |w.steps|
    requires w.steps[i].status == Pending && Deliver(w, e, launch).steps[i].status != Pending
    ensures !AnyRunning(Record(w, e).steps)
    ensures Deliver(w, e, launch) == NextWave(Record(w, e), 0, AnyBad(Record(w, e).steps), launch)
  {
    assert w.status == WfRunning;
    assert Record(w, e).steps[i] == w.steps[i];
  }
}
