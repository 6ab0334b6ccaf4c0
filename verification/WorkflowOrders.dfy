/** Exactly when the order of a workflow's run-terminal events is irrelevant. */
module WorkflowOrders {
  import opened Guards
  import opened Workflows
  import opened WorkflowTheorems
  import opened WorkflowExecutions
  import opened WorkflowConfluence

  /** Whatever order the same events come in, they lead to the same state, step lists, statuses
      and variables, also half-way through a wave. */
  ghost predicate OrderIrrelevant(w: Wf, sc: Scenario) {
    forall a, b :: Legal(w, Deliveries(a, sc)) && Legal(w, Deliveries(b, sc)) && multiset(a) == multiset(b) ==>
      Run(w, Deliveries(a, sc)) == Run(w, Deliveries(b, sc))
  }

  // ---- a step list is enough to see that no two runs clash ----------------------------------------

  /** Steps that can share a wave, a Parallel stretch after the first, export nothing conflicting. */
  ghost predicate Compatible(steps: seq<Step>, sc: Scenario) {
    forall i, j :: 0 <= i < j < |steps| && (forall k :: i < k <= j ==> steps[k].parallel) ==>
      Agree(sc.finish(i).exports, sc.finish(j).exports)
  }

  lemma SameWaveAgree(steps: seq<Step>, w: Wf, sc: Scenario)
    requires Compatible(steps, sc) && Shape(w) && SameDefs(steps, w.steps)
    ensures Harmonious(w, sc)
  {
    forall i, j | 0 <= i < j < |w.steps| && w.steps[i].status == Running && w.steps[j].status == Running
      ensures Agree(sc.finish(i).exports, sc.finish(j).exports)
    {
      forall k | i < k <= j ensures steps[k].parallel { assert SameDef(steps[k], w.steps[k]); }
    }
  }

  /** A check of the step list that a caller can make before starting the workflow. */
  lemma CompatibleNeverClash(defs: seq<StepDef>, defaults: Vars, overrides: Vars, sc: Scenario)
    requires Compatible(InstantiateAll(defs), sc)
    ensures NoClash(Start(defs, defaults, overrides, sc.launch), sc)
  {
    var w0 := Start(defs, defaults, overrides, sc.launch);
    StartKeeps(defs, defaults, overrides, sc.launch);
    forall order | Legal(w0, Deliveries(order, sc)) ensures Harmonious(Run(w0, Deliveries(order, sc)), sc) {
      LegalIsPossible(w0, Deliveries(order, sc));
      RunKeeps(w0, Deliveries(order, sc));
      SameDefsTrans(InstantiateAll(defs), w0.steps, Run(w0, Deliveries(order, sc)).steps);
      SameWaveAgree(InstantiateAll(defs), Run(w0, Deliveries(order, sc)), sc);
    }
  }

  // ---- without clashes, any order will do -----------------------------------------------------------

  /** While another run of the wave is in flight, a delivery only records. */
  lemma StaysLive(w: Wf, i: nat, j: nat, sc: Scenario)
    requires Shape(w) && i != j && Live(w, EventOf(i, sc)) && Live(w, EventOf(j, sc))
    ensures Deliver(w, EventOf(i, sc), sc.launch) == Record(w, EventOf(i, sc))
    ensures Live(Deliver(w, EventOf(i, sc), sc.launch), EventOf(j, sc))
  {
    assert Record(w, EventOf(i, sc)).steps[j].status == Running;
  }

  lemma SwapTwo(w: Wf, i: nat, j: nat, rest: seq<nat>, sc: Scenario)
    requires Shape(w) && Harmonious(w, sc) && i != j && Live(w, EventOf(i, sc)) && Live(w, EventOf(j, sc))
    ensures Legal(w, Deliveries([i] + ([j] + rest), sc)) <==> Legal(w, Deliveries([j] + ([i] + rest), sc))
    ensures Run(w, Deliveries([i] + ([j] + rest), sc)) == Run(w, Deliveries([j] + ([i] + rest), sc))
  {
    SwapIffAgree(w, i, j, sc);
    assert Agree(sc.finish(i).exports, sc.finish(j).exports);
    ThenTwo(w, i, j, rest, sc);
    ThenTwo(w, j, i, rest, sc);
  }

  lemma ThenTwo(w: Wf, i: nat, j: nat, rest: seq<nat>, sc: Scenario)
    requires Shape(w) && i != j && Live(w, EventOf(i, sc)) && Live(w, EventOf(j, sc))
    ensures var w2 := Run(w, Deliveries([i, j], sc));
            && Run(w, Deliveries([i] + ([j] + rest), sc)) == Run(w2, Deliveries(rest, sc))
            && (Legal(w, Deliveries([i] + ([j] + rest), sc)) <==> Legal(w2, Deliveries(rest, sc)))
  {
    var w1 := Deliver(w, EventOf(i, sc), sc.launch);
    StaysLive(w, i, j, sc);
    RunCons(w, i, [j] + rest, sc);
    RunCons(w1, j, rest, sc);
    RunCons(w, i, [j], sc);
    RunCons(w1, j, [], sc);
    assert [i] + [j] == [i, j] && [j] + [] == [j];
  }

  /** The event of a run in flight can be delivered first. */
  lemma {:induction false} MoveToFront(w: Wf, pre: seq<nat>, i: nat, post: seq<nat>, sc: Scenario)
    requires Shape(w) && NoClash(w, sc) && Live(w, EventOf(i, sc)) && i !in pre
    requires Legal(w, Deliveries(pre + ([i] + post), sc))
    ensures Legal(w, Deliveries([i] + (pre + post), sc))
    ensures Run(w, Deliveries([i] + (pre + post), sc)) == Run(w, Deliveries(pre + ([i] + post), sc))
    decreases |pre|
  {
    if pre == [] {
      assert pre + ([i] + post) == [i] + post && pre + post == post;
    } else {
      var p, rest := pre[0], pre[1..];
      var w1 := Deliver(w, EventOf(p, sc), sc.launch);
      HeadOut(pre, [i] + post);
      HeadOut(pre, post);
      RunCons(w, p, rest + ([i] + post), sc);
      StaysLive(w, p, i, sc);
      DeliverKeeps(w, EventOf(p, sc), sc.launch);
      NoClashNext(w, p, sc);
      MoveToFront(w1, rest, i, post, sc);
      RunCons(w, p, [i] + (rest + post), sc);
      NoClashNow(w, sc);
      SwapTwo(w, p, i, rest + post, sc);
    }
  }

  lemma SplitAtFirst(b: seq<nat>, i: nat) returns (pre: seq<nat>, post: seq<nat>)
    requires i in b
    ensures b == pre + ([i] + post) && i !in pre
  {
    if b[0] == i {
      pre, post := [], b[1..];
    } else {
      var rest;
      rest, post := SplitAtFirst(b[1..], i);
      pre := [b[0]] + rest;
    }
  }

  lemma TakeOut(rest: seq<nat>, pre: seq<nat>, i: nat, post: seq<nat>)
    requires multiset([i] + rest) == multiset(pre + ([i] + post))
    ensures multiset(rest) == multiset(pre + post)
  {
    assert multiset([i] + rest) == multiset{i} + multiset(rest);
    assert multiset(pre + ([i] + post)) == multiset(pre) + (multiset{i} + multiset(post));
    assert multiset(rest) == multiset([i] + rest) - multiset{i};
  }

  lemma {:induction false} SameEventsSameState(w: Wf, a: seq<nat>, b: seq<nat>, sc: Scenario)
    requires Shape(w) && NoClash(w, sc)
    requires Legal(w, Deliveries(a, sc)) && Legal(w, Deliveries(b, sc)) && multiset(a) == multiset(b)
    ensures Run(w, Deliveries(a, sc)) == Run(w, Deliveries(b, sc))
    decreases |a|
  {
    if a == [] {
      assert |multiset(b)| == |b|;
    } else {
      var i, rest := a[0], a[1..];
      assert a == [i] + rest;
      assert i in multiset(b);
      var pre, post := SplitAtFirst(b, i);
      RunCons(w, i, rest, sc);
      MoveToFront(w, pre, i, post, sc);
      RunCons(w, i, pre + post, sc);
      DeliverKeeps(w, EventOf(i, sc), sc.launch);
      NoClashNext(w, i, sc);
      TakeOut(rest, pre, i, post);
      SameEventsSameState(Deliver(w, EventOf(i, sc), sc.launch), rest, pre + post, sc);
    }
  }

  // ---- with a clash, some two orders differ ------------------------------------------------------------

  lemma {:induction false} RunJoin(w: Wf, a: seq<nat>, b: seq<nat>, sc: Scenario)
    requires Legal(w, Deliveries(a, sc))
    ensures var w1 := Run(w, Deliveries(a, sc));
            && Run(w, Deliveries(a + b, sc)) == Run(w1, Deliveries(b, sc))
            && (Legal(w, Deliveries(a + b, sc)) <==> Legal(w1, Deliveries(b, sc)))
    decreases |a|
  {
    if a == [] {
      assert a + b == b;
    } else {
      var i, rest := a[0], a[1..];
      assert a == [i] + rest && a + b == [i] + (rest + b);
      RunCons(w, i, rest, sc);
      RunCons(w, i, rest + b, sc);
      RunJoin(Deliver(w, EventOf(i, sc), sc.launch), rest, b, sc);
    }
  }

  lemma {:induction false} ShapeOfRun(w: Wf, order: seq<nat>, sc: Scenario)
    requires Shape(w) && Legal(w, Deliveries(order, sc))
    ensures Shape(Run(w, Deliveries(order, sc)))
    decreases |order|
  {
    if order != [] {
      var i, rest := order[0], order[1..];
      assert order == [i] + rest;
      RunCons(w, i, rest, sc);
      DeliverKeeps(w, EventOf(i, sc), sc.launch);
      ShapeOfRun(Deliver(w, EventOf(i, sc), sc.launch), rest, sc);
    }
  }

  lemma ClashShows(w: Wf, order: seq<nat>, i: nat, j: nat, sc: Scenario)
    requires Shape(w) && Legal(w, Deliveries(order, sc))
    requires var w1 := Run(w, Deliveries(order, sc));
             i != j && Live(w1, EventOf(i, sc)) && Live(w1, EventOf(j, sc))
    requires !Agree(sc.finish(i).exports, sc.finish(j).exports)
    ensures !OrderIrrelevant(w, sc)
  {
    var w1 := Run(w, Deliveries(order, sc));
    ShapeOfRun(w, order, sc);
    SwapIffAgree(w1, i, j, sc);
    LegalTwo(w1, i, j, sc);
    LegalTwo(w1, j, i, sc);
    RunJoin(w, order, [i, j], sc);
    RunJoin(w, order, [j, i], sc);
    SameEvents(order, i, j);
    TheyDiffer(w, order + [i, j], order + [j, i], sc);
  }

  lemma TheyDiffer(w: Wf, a: seq<nat>, b: seq<nat>, sc: Scenario)
    requires Legal(w, Deliveries(a, sc)) && Legal(w, Deliveries(b, sc)) && multiset(a) == multiset(b)
    requires Run(w, Deliveries(a, sc)) != Run(w, Deliveries(b, sc))
    ensures !OrderIrrelevant(w, sc)
  {
  }

  lemma SameEvents(order: seq<nat>, i: nat, j: nat)
    ensures multiset(order + [i, j]) == multiset(order + [j, i])
  {
  }

  lemma LegalTwo(w: Wf, i: nat, j: nat, sc: Scenario)
    requires Shape(w) && i != j && Live(w, EventOf(i, sc)) && Live(w, EventOf(j, sc))
    ensures Legal(w, Deliveries([i, j], sc))
  {
    ThenTwo(w, i, j, [], sc);
    assert [i] + ([j] + []) == [i, j];
  }

  /** The order in which events arrive never matters, at any point of any execution, exactly when
      no two runs of one wave export different values for the same variable. */
  lemma OrderIrrelevantIff(w: Wf, sc: Scenario)
    requires Shape(w)
    ensures OrderIrrelevant(w, sc) <==> NoClash(w, sc)
  {
    if NoClash(w, sc) {
      forall a, b | Legal(w, Deliveries(a, sc)) && Legal(w, Deliveries(b, sc)) && multiset(a) == multiset(b)
        ensures Run(w, Deliveries(a, sc)) == Run(w, Deliveries(b, sc))
      {
        SameEventsSameState(w, a, b, sc);
      }
    } else {
      var order :| Legal(w, Deliveries(order, sc)) && !Harmonious(Run(w, Deliveries(order, sc)), sc);
      var w1 := Run(w, Deliveries(order, sc));
      var i, j :| 0 <= i < |w1.steps| && 0 <= j < |w1.steps| && i != j
                  && w1.steps[i].status == Running && w1.steps[j].status == Running
                  && !Agree(sc.finish(i).exports, sc.finish(j).exports);
      ClashShows(w, order, i, j, sc);
    }
  }
}
