/** Runner capacity over whole executions: the executions, the states reached without two decisions
    under way for one run, and what holds in them. */
module CapacityRuns {
  import opened Capacity
  import opened Dispatch
  import opened Runs
  import opened Wrappers

  // ---- executions --------------------------------------------------------------------------------------

  const Initial := State(map[], {}, Resting, [], map[], map[])

  ghost predicate Trace(g: Registry, s: State, steps: seq<Step>)
    decreases |steps|
  {
    steps == [] || (Enabled(g, s, steps[0]) && Trace(g, Next(g, s, steps[0]), steps[1..]))
  }

  ghost function After(g: Registry, s: State, steps: seq<Step>): State
    requires Trace(g, s, steps)
    decreases |steps|
  {
    if steps == [] then s else After(g, Next(g, s, steps[0]), steps[1..])
  }

  ghost predicate Reachable(g: Registry, s: State) {
    exists steps :: Trace(g, Initial, steps) && After(g, Initial, steps) == s
  }

  /** A trace along which no run ever has two decisions under way. */
  ghost predicate CalmTrace(g: Registry, s: State, steps: seq<Step>)
    decreases |steps|
  {
    OneDecision(s) && (steps == [] || (Enabled(g, s, steps[0]) && CalmTrace(g, Next(g, s, steps[0]), steps[1..])))
  }

  ghost predicate Calm(g: Registry, s: State) {
    exists steps :: CalmTrace(g, Initial, steps) && Trace(g, Initial, steps) && After(g, Initial, steps) == s
  }

  lemma InvCalm(g: Registry, s: State)
    requires Calm(g, s)
    ensures Inv(g, s)
  {
    NothingActive(g);
    var steps :| CalmTrace(g, Initial, steps) && Trace(g, Initial, steps) && After(g, Initial, steps) == s;
    InvAfter(g, Initial, steps);
  }

  lemma {:induction false} InvAfter(g: Registry, s: State, steps: seq<Step>)
    requires Inv(g, s) && CalmTrace(g, s, steps) && Trace(g, s, steps)
    ensures Inv(g, After(g, s, steps))
    decreases |steps|
  {
    if steps != [] {
      StepKeeps(g, s, steps[0]);
      InvAfter(g, Next(g, s, steps[0]), steps[1..]);
    }
  }

  /** In every state reached without two decisions under way for one run, with the handlers as
      written, a capped runner that does not advertise "default" has at most `cap` pending or
      running runs. */
  lemma NeverOverCapacity(g: Registry, s: State, r: Runner)
    requires Calm(g, s) && Guarded(g, r)
    ensures |ActiveOn(s.rows, r.id)| <= r.cap
  {
    InvCalm(g, s);
  }

  /** Whenever the pass consults its load map, the map counts at least the runs that occupy each
      runner, whatever finished or was canceled since it was read. */
  lemma LoadNeverUndercounts(g: Registry, s: State, r: string)
    requires Calm(g, s) && r != ""
    ensures s.pass.Turn? || s.pass.Held? || s.pass.Picked? ==> |ActiveOn(s.rows, r)| <= LoadOf(s.pass.load, r)
  {
    InvCalm(g, s);
  }

  lemma NothingActive(g: Registry)
    ensures Inv(g, Initial)
  {
    forall r ensures ActiveOn(Initial.rows, r) == {} {}
  }

  predicate NoDecisions(s: State) { s.deciders == map[] }

  lemma {:induction false} CheckAndSetTrace(g: Registry, s: State, steps: seq<Step>)
    requires g.checkAndSet && NoDecisions(s) && Trace(g, s, steps)
    ensures CalmTrace(g, s, steps)
    decreases |steps|
  {
    if steps != [] { CheckAndSetTrace(g, Next(g, s, steps[0]), steps[1..]); }
  }

  /** With check-and-set decisions every reachable state is calm. */
  lemma CheckAndSetIsCalm(g: Registry, s: State)
    requires g.checkAndSet && Reachable(g, s)
    ensures Calm(g, s)
  {
    var steps :| Trace(g, Initial, steps) && After(g, Initial, steps) == s;
    CheckAndSetTrace(g, Initial, steps);
  }

  /** No run is held for approval along `steps`. */
  predicate NothingHeld(steps: seq<Step>) { forall a :: a in steps && a.Create? ==> !a.held }

  lemma {:induction false} NothingHeldTrace(g: Registry, s: State, steps: seq<Step>)
    requires NoDecisions(s) && (forall id :: id in s.rows ==> Decided(s, id))
    requires NothingHeld(steps) && Trace(g, s, steps)
    ensures CalmTrace(g, s, steps)
    decreases |steps|
  {
    if steps != [] {
      var a, s' := steps[0], Next(g, s, steps[0]);
      assert a in steps;
      assert NoDecisions(s');
      assert forall id :: id in s'.rows ==> Decided(s', id);
      assert forall b :: b in steps[1..] ==> b in steps;
      NothingHeldTrace(g, s', steps[1..]);
    }
  }

  /** So is every state reached without holding a run for approval. */
  lemma NothingHeldIsCalm(g: Registry, steps: seq<Step>)
    requires NothingHeld(steps) && Trace(g, Initial, steps)
    ensures Calm(g, After(g, Initial, steps))
  {
    NothingHeldTrace(g, Initial, steps);
  }

  // ---- slots and decisions ------------------------------------------------------------------------------

  /** Right after it is counted the load is exactly the number of pending or running runs. */
  lemma CountIsExact(rows: Rows, r: string)
    ensures var occupying := set id | id in rows && rows[id].status in {Status.Pending, Status.Running}
                                      && rows[id].runner == r;
            LoadOf(CountActive(rows), r) == |occupying|
  {
    assert ActiveOn(rows, r)
        == set id | id in rows && rows[id].status in {Status.Pending, Status.Running} && rows[id].runner == r;
    if id :| id in ActiveOn(rows, r) {
      assert r in CountActive(rows);
    } else {
      assert ActiveOn(rows, r) == {};
    }
  }

  /** A run that ends frees the slot it took on its runner, and no other. */
  lemma FinishFreesSlot(g: Registry, s: State, id: string, o: Status)
    requires Inv(g, s) && Enabled(g, s, Finish(id, o))
    ensures forall r :: |ActiveOn(Next(g, s, Finish(id, o)).rows, r)|
                        == |ActiveOn(s.rows, r)| - if r == s.rows[id].runner then 1 else 0
  {
    var s' := Next(g, s, Finish(id, o));
    forall r ensures |ActiveOn(s'.rows, r)| == |ActiveOn(s.rows, r)| - if r == s.rows[id].runner then 1 else 0 {
      assert ActiveOn(s'.rows, r) == ActiveOn(s.rows, r) - {id};
      assert id in ActiveOn(s.rows, r) <==> r == s.rows[id].runner;
    }
  }

  /** Undisturbed, a decision as the handlers write it comes to the same as a check-and-set one: an
      approved run is queued, a rejected one canceled, and nothing else changes. */
  lemma DecisionsAgree(g: Registry, s: State, d: Decision, k: nat)
    requires InStatus(s, d.id, Awaiting) && k !in s.deciders
    ensures var asWritten, atOnce := g.(checkAndSet := false), g.(checkAndSet := true);
            var steps := [ReadAwaiting(k, d)] + [WriteDecision(k)];
            var step := if d.Approving? then Approve(d.id) else Reject(d.id);
            && Trace(asWritten, s, steps) && Enabled(atOnce, s, step)
            && After(asWritten, s, steps) == Next(atOnce, s, step)
            && Next(atOnce, s, step)
               == s.(rows := s.rows[d.id := s.rows[d.id].(status := if d.Approving? then Queued else Canceled)])
  {
    var asWritten := g.(checkAndSet := false);
    var steps := [ReadAwaiting(k, d)] + [WriteDecision(k)];
    assert steps[1..] == [WriteDecision(k)] && [WriteDecision(k)][1..] == [];
    var s1 := Next(asWritten, s, ReadAwaiting(k, d));
    var s2 := Next(asWritten, s1, WriteDecision(k));
    assert s1.deciders - {k} == s.deciders;
    assert After(asWritten, s2, []) == s2 && After(asWritten, s1, steps[1..]) == s2;
  }
}
