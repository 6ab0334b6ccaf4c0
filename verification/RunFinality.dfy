/** When a terminal row is final: exactly which rows can still be failed, or change at all. */
module RunFinality {
  import opened Runs
  import opened RunLifecycle

  ghost predicate Reaches(c: Config, s: State, t: Status) {
    exists steps :: Trace(c, s, steps) && After(c, s, steps).status == t
  }

  lemma Now(c: Config, s: State)
    ensures Reaches(c, s, s.status)
  {
    assert Trace(c, s, []) && After(c, s, []) == s;
  }

  lemma Then(c: Config, s: State, a: Step, t: Status)
    requires Enabled(c, s, a) && Reaches(c, Next(c, s, a), t)
    ensures Reaches(c, s, t)
  {
    var steps :| Trace(c, Next(c, s, a), steps) && After(c, Next(c, s, a), steps).status == t;
    assert ([a] + steps)[0] == a && ([a] + steps)[1..] == steps;
    assert Trace(c, s, [a] + steps) && After(c, s, [a] + steps).status == t;
  }

  lemma Step1(c: Config, s: State, a: Step)
    requires Enabled(c, s, a)
    ensures Reaches(c, s, Next(c, s, a).status)
  {
    Now(c, Next(c, s, a));
    Then(c, s, a, Next(c, s, a).status);
  }

  // ---- ways to fail a row ----------------------------------------------------------------------------

  /** Past the claim, or failing the run. */
  predicate Committed(at: At) { at in {Won, Cleared, GivingUp, GivenUp} }

  /** A drainer listed the run and may find no envelope. */
  ghost predicate MayFindNothing(s: State) {
    (exists d :: AtOf(s, d) == Listed) && (!s.envelope || s.cancelersHalf > 0 || s.rejecters > 0)
  }

  ghost predicate MayFail(c: Config, s: State) {
    || s.executors > 0
    || (exists d :: Committed(AtOf(s, d)))
    || MayFindNothing(s)
    || (s.approvers > 0 && c.drainers > 0)
  }

  lemma CommittedFails(c: Config, s: State, d: nat)
    requires Committed(AtOf(s, d))
    ensures Reaches(c, s, Failed)
    decreases match AtOf(s, d) case Won => 3 case Cleared => 2 case GivingUp => 1 case _ => 0
  {
    match AtOf(s, d)
    case Won =>
      CommittedFails(c, Next(c, s, Drop(d)), d);
      Then(c, s, Drop(d), Failed);
    case Cleared =>
      CommittedFails(c, Next(c, s, SyncFails(d)), d);
      Then(c, s, SyncFails(d), Failed);
    case GivingUp =>
      CommittedFails(c, Next(c, s, GiveUpDrop(d)), d);
      Then(c, s, GiveUpDrop(d), Failed);
    case GivenUp =>
      Step1(c, s, GiveUpFinish(d));
  }

  lemma BlindFails(c: Config, s: State, d: nat)
    requires AtOf(s, d) == Listed && !s.envelope
    ensures Reaches(c, s, Failed)
  {
    CommittedFails(c, Next(c, s, Load(d)), d);
    Then(c, s, Load(d), Failed);
  }

  lemma ListedFails(c: Config, s: State)
    requires MayFindNothing(s)
    ensures Reaches(c, s, Failed)
  {
    var d :| AtOf(s, d) == Listed;
    if !s.envelope {
      BlindFails(c, s, d);
    } else {
      var a := if s.cancelersHalf > 0 then CancelDrop else RejectDrop;
      BlindFails(c, Next(c, s, a), d);
      Then(c, s, a, Failed);
    }
  }

  lemma QueuedFails(c: Config, s: State)
    requires c.drainers > 0 && Exists(s) && s.status == Queued
    ensures Reaches(c, s, Failed)
    decreases match AtOf(s, 0) case Idle => 2 case Listed => 1 case _ => 0
  {
    match AtOf(s, 0)
    case Idle =>
      QueuedFails(c, Next(c, s, List(0)));
      Then(c, s, List(0), Failed);
    case Listed =>
      var s' := Next(c, s, Load(0));
      if s.envelope { QueuedFails(c, s'); } else { CommittedFails(c, s', 0); }
      Then(c, s, Load(0), Failed);
    case Loaded =>
      CommittedFails(c, Next(c, s, Claim(0)), 0);
      Then(c, s, Claim(0), Failed);
    case _ =>
      CommittedFails(c, s, 0);
  }

  lemma MayFailFails(c: Config, s: State)
    requires MayFail(c, s) && Exists(s)
    ensures Reaches(c, s, Failed)
  {
    if s.executors > 0 {
      Step1(c, s, Finish(Failed));
    } else if d :| Committed(AtOf(s, d)) {
      CommittedFails(c, s, d);
    } else if MayFindNothing(s) {
      ListedFails(c, s);
    } else {
      QueuedFails(c, Next(c, s, ApproveWrite));
      Then(c, s, ApproveWrite, Failed);
    }
  }

  // ---- without them it stays ----------------------------------------------------------------------------

  /** Nothing exists before the run does. */
  lemma {:induction false} ExistsOrInitial(c: Config, s: State, steps: seq<Step>)
    requires Trace(c, s, steps) && (Exists(s) || s == Initial)
    ensures Exists(After(c, s, steps)) || After(c, s, steps) == Initial
    decreases |steps|
  {
    if steps != [] { ExistsOrInitial(c, Next(c, s, steps[0]), steps[1..]); }
  }

  lemma ReachableExists(c: Config, s: State)
    requires Reachable(c, s) && s.status != Awaiting
    ensures Exists(s)
  {
    var steps :| Trace(c, Initial, steps) && After(c, Initial, steps) == s;
    ExistsOrInitial(c, Initial, steps);
  }

  ghost predicate CannotFail(c: Config, s: State) {
    && Exists(s) && s.status != Failed && !MayFail(c, s)
    && (if c.drainers == 0 then forall d :: AtOf(s, d) == Idle else s.status == Success || s.status == Canceled)
  }

  lemma CannotFailStep(c: Config, s: State, a: Step)
    requires CannotFail(c, s) && Enabled(c, s, a)
    ensures CannotFail(c, Next(c, s, a))
  {
    var s' := Next(c, s, a);
    forall d ensures !Committed(AtOf(s', d)) && (AtOf(s', d) == Listed ==> AtOf(s, d) == Listed)
             ensures c.drainers == 0 ==> AtOf(s', d) == Idle
    {
      assert !Committed(AtOf(s, d));
      OthersStay(c, s, a, d);
    }
  }

  lemma {:induction false} CannotFailAfter(c: Config, s: State, steps: seq<Step>)
    requires CannotFail(c, s) && Trace(c, s, steps)
    ensures After(c, s, steps).status != Failed
    decreases |steps|
  {
    if steps != [] {
      CannotFailStep(c, s, steps[0]);
      CannotFailAfter(c, Next(c, s, steps[0]), steps[1..]);
    }
  }

  /** Exactly when a canceled or successful row can still end failed, in every configuration: when
      an executor is under way, a drainer is past its claim or failing the run, a drainer listed
      the run and may find its envelope gone, or an approval still to be written may revive it. */
  lemma CanEndFailedIff(c: Config, s: State)
    requires Reachable(c, s) && (s.status == Canceled || s.status == Success)
    ensures Reaches(c, s, Failed) <==> MayFail(c, s)
  {
    ReachableExists(c, s);
    InvReachable(c, s);
    if MayFail(c, s) {
      MayFailFails(c, s);
    } else {
      assert CannotFail(c, s);
      forall steps | Trace(c, s, steps) ensures After(c, s, steps).status != Failed { CannotFailAfter(c, s, steps); }
    }
  }

  /** With check-and-set decisions, a run canceled in the queue can end failed only through a
      drainer that had listed it before the cancel. */
  lemma CanceledInQueueCanEndFailedIff(c: Config, s: State)
    requires c.checkAndSet && Reachable(c, s) && s.status == Canceled && s.canceledQueued
    ensures Reaches(c, s, Failed)
       <==> (exists d :: AtOf(s, d) == GivingUp || AtOf(s, d) == GivenUp)
            || ((exists d :: AtOf(s, d) == Listed) && (!s.envelope || s.cancelersHalf > 0))
  {
    CanEndFailedIff(c, s);
    InvReachable(c, s);
    forall d ensures AtOf(s, d) != Won && AtOf(s, d) != Cleared { assert !PastClaim(AtOf(s, d)); }
    assert s.executors == 0 && s.approvers == 0 && s.rejecters == 0;
    if d :| Committed(AtOf(s, d)) { assert AtOf(s, d) == GivingUp || AtOf(s, d) == GivenUp; }
    if d :| AtOf(s, d) == GivingUp || AtOf(s, d) == GivenUp { assert Committed(AtOf(s, d)); }
  }

  // ---- finality -------------------------------------------------------------------------------------------

  /** Nobody is left who would write a different status. */
  ghost predicate Settled(c: Config, s: State) {
    && s.executors == 0 && s.approvers == 0
    && (forall d :: AtOf(s, d) != Won && AtOf(s, d) != Cleared)
    && (s.status != Canceled ==> s.rejecters == 0 && s.rejectersHalf == 0)
    && (s.status != Failed ==> !MayFindNothing(s) && forall d :: AtOf(s, d) != GivingUp && AtOf(s, d) != GivenUp)
  }

  lemma SettledStep(c: Config, s: State, a: Step)
    requires Exists(s) && Terminal(s.status) && Settled(c, s) && Enabled(c, s, a)
    ensures Exists(Next(c, s, a)) && Next(c, s, a).status == s.status && Settled(c, Next(c, s, a))
  {
    var s' := Next(c, s, a);
    forall d ensures AtOf(s', d) != Won && AtOf(s', d) != Cleared
             ensures s.status != Failed ==> AtOf(s', d) != GivingUp && AtOf(s', d) != GivenUp
             ensures AtOf(s', d) == Listed ==> AtOf(s, d) == Listed
    {
      OthersStay(c, s, a, d);
    }
  }

  lemma {:induction false} SettledAfter(c: Config, s: State, steps: seq<Step>)
    requires Exists(s) && Terminal(s.status) && Settled(c, s) && Trace(c, s, steps)
    ensures After(c, s, steps).status == s.status
    decreases |steps|
  {
    if steps != [] {
      SettledStep(c, s, steps[0]);
      SettledAfter(c, Next(c, s, steps[0]), steps[1..]);
    }
  }

  ghost predicate CanChange(c: Config, s: State) {
    exists steps :: Trace(c, s, steps) && After(c, s, steps).status != s.status
  }

  lemma ReachesOther(c: Config, s: State, t: Status)
    requires Reaches(c, s, t) && t != s.status
    ensures CanChange(c, s)
  {
    var steps :| Trace(c, s, steps) && After(c, s, steps).status == t;
  }

  lemma ExecutorRuns(c: Config, s: State)
    requires s.executors > 0
    ensures Reaches(c, s, Running)
  {
    Step1(c, s, MarkRunning);
  }

  lemma ClaimerRuns(c: Config, s: State, d: nat)
    requires PastClaim(AtOf(s, d))
    ensures Reaches(c, s, Running)
    decreases AtOf(s, d) == Won
  {
    if AtOf(s, d) == Won {
      ClaimerRuns(c, Next(c, s, Drop(d)), d);
      Then(c, s, Drop(d), Running);
    } else {
      ExecutorRuns(c, Next(c, s, Start(d)));
      Then(c, s, Start(d), Running);
    }
  }

  lemma RejecterCancels(c: Config, s: State)
    requires s.rejecters > 0 || s.rejectersHalf > 0
    ensures Reaches(c, s, Canceled)
  {
    if s.rejectersHalf > 0 {
      Step1(c, s, RejectFinish);
    } else {
      Step1(c, Next(c, s, RejectDrop), RejectFinish);
      Then(c, s, RejectDrop, Canceled);
    }
  }

  lemma UnsettledChanges(c: Config, s: State)
    requires Exists(s) && Terminal(s.status) && !Settled(c, s)
    ensures CanChange(c, s)
  {
    if s.executors > 0 {
      ExecutorRuns(c, s);
      ReachesOther(c, s, Running);
    } else if d :| PastClaim(AtOf(s, d)) {
      ClaimerRuns(c, s, d);
      ReachesOther(c, s, Running);
    } else if s.approvers > 0 {
      Step1(c, s, ApproveWrite);
      ReachesOther(c, s, Queued);
    } else if s.status != Canceled && (s.rejecters > 0 || s.rejectersHalf > 0) {
      RejecterCancels(c, s);
      ReachesOther(c, s, Canceled);
    } else if MayFindNothing(s) {
      ListedFails(c, s);
      ReachesOther(c, s, Failed);
    } else {
      var d :| AtOf(s, d) == GivingUp || AtOf(s, d) == GivenUp;
      CommittedFails(c, s, d);
      ReachesOther(c, s, Failed);
    }
  }

  /** Exactly when a terminal row is final, in every configuration. */
  lemma TerminalIsFinalIff(c: Config, s: State)
    requires Reachable(c, s) && Terminal(s.status)
    ensures CanChange(c, s) <==> !Settled(c, s)
  {
    ReachableExists(c, s);
    if Settled(c, s) {
      forall steps | Trace(c, s, steps) ensures After(c, s, steps).status == s.status { SettledAfter(c, s, steps); }
    } else {
      UnsettledChanges(c, s);
    }
  }
}
