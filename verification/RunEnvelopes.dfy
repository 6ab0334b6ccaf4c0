/** The launch envelope of one run, which carries its secrets: who drops it, that it does not outlive
    the run, and that an approved or queued run really can be started with it. */
module RunEnvelopes {
  import opened Runs
  import opened RunLifecycle

  // ---- dropped for good ------------------------------------------------------------------------------

  predicate Drops(a: Step) {
    a.RejectDrop? || a.RejectAtOnce? || a.CancelDrop? || a.Drop? || a.GiveUpDrop?
  }

  lemma {:induction false} NoneAppears(c: Config, s: State, later: seq<Step>)
    requires !s.envelope && StoreEnvelope !in later && Trace(c, s, later)
    ensures !After(c, s, later).envelope
    decreases |later|
  {
    if later != [] {
      assert later[0] in later && forall a :: a in later[1..] ==> a in later;
      NoneAppears(c, Next(c, s, later[0]), later[1..]);
    }
  }

  /** A rejecter, a canceler, a drainer before it starts the run and one that gives it up all drop the
      envelope, and only its creator can bring it back. */
  lemma DroppedStaysDropped(c: Config, s: State, a: Step, later: seq<Step>)
    requires Enabled(c, s, a) && Drops(a) && Trace(c, Next(c, s, a), later) && StoreEnvelope !in later
    ensures !After(c, Next(c, s, a), later).envelope
  {
    NoneAppears(c, Next(c, s, a), later);
  }

  // ---- an ended run has none --------------------------------------------------------------------------

  /** While the envelope is there nobody has got past it, and a canceler is about to drop that of a
      canceled run. */
  ghost predicate StillNeeded(s: State) {
    && Exists(s) && s.written
    && (s.envelope ==>
          && s.executors == 0 && s.rejectersHalf == 0
          && (forall d :: AtOf(s, d) in {Idle, Listed, Loaded, Won})
          && s.status in {Awaiting, Queued, Pending, Canceled}
          && (s.status == Canceled ==> s.cancelersHalf > 0))
  }

  lemma StillNeededStep(c: Config, s: State, a: Step)
    requires StillNeeded(s) && Enabled(c, s, a)
    ensures StillNeeded(Next(c, s, a))
  {
    forall d { OthersStay(c, s, a, d); }
  }

  lemma {:induction false} StillNeededAfter(c: Config, s: State, steps: seq<Step>)
    requires StillNeeded(s) && Trace(c, s, steps)
    ensures StillNeeded(After(c, s, steps))
    decreases |steps|
  {
    if steps != [] {
      StillNeededStep(c, s, steps[0]);
      StillNeededAfter(c, Next(c, s, steps[0]), steps[1..]);
    }
  }

  /** The creator stores the envelope before anybody else touches the run. */
  predicate PromptlyStored(steps: seq<Step>) {
    |steps| >= 2 && (steps[0] == Enqueue || steps[0] == Hold) && steps[1] == StoreEnvelope
  }

  /** In every configuration, a run that is over has no envelope left, but for the moment in which a
      canceler that won has still to drop it. */
  lemma EndedHasNoEnvelope(c: Config, steps: seq<Step>)
    requires Trace(c, Initial, steps) && PromptlyStored(steps)
    ensures var s := After(c, Initial, steps);
            s.status in {Success, Failed, Canceled} && s.envelope ==> s.status == Canceled && s.cancelersHalf > 0
  {
    var s1 := Next(c, Initial, steps[0]);
    var s2 := Next(c, s1, StoreEnvelope);
    assert steps[1..][0] == StoreEnvelope;
    StillNeededAfter(c, s2, steps[1..][1..]);
  }

  /** Otherwise it can: a run canceled before its envelope is stored keeps it. */
  lemma LateEnvelopeStays(c: Config) returns (s: State)
    ensures Reachable(c, s) && s.status == Canceled && s.envelope && s.cancelersHalf == 0
  {
    InitialReachable(c);
    s := Go(c, Initial, Enqueue);
    s := Go(c, s, CancelRead);
    s := Go(c, s, CancelWin);
    s := Go(c, s, CancelDrop);
    s := Go(c, s, StoreEnvelope);
  }

  // ---- what a decision leads to -----------------------------------------------------------------------

  ghost predicate Leads(c: Config, s: State, t: State) {
    exists steps :: Trace(c, s, steps) && After(c, s, steps) == t
  }

  lemma LeadsSelf(c: Config, s: State)
    ensures Leads(c, s, s)
  {
    assert Trace(c, s, []) && After(c, s, []) == s;
  }

  lemma LeadsOn(c: Config, s: State, t: State, a: Step) returns (t': State)
    requires Leads(c, s, t) && Enabled(c, t, a)
    ensures t' == Next(c, t, a) && Leads(c, s, t')
  {
    var steps :| Trace(c, s, steps) && After(c, s, steps) == t;
    TraceSnoc(c, s, steps, a);
    t' := Next(c, t, a);
  }

  /** A queued run with its envelope can be started by any idle drainer. */
  lemma QueuedCanStart(c: Config, s: State, t: State, d: nat) returns (t': State)
    requires Leads(c, s, t) && Exists(t) && t.status == Queued && t.envelope
    requires d < c.drainers && AtOf(t, d) == Idle
    ensures Leads(c, s, t') && t'.starts == t.starts + 1 && t'.executors == t.executors + 1 && !t'.envelope
    ensures t'.approvals == t.approvals
  {
    t' := LeadsOn(c, s, t, List(d));
    t' := LeadsOn(c, s, t', Load(d));
    t' := LeadsOn(c, s, t', Claim(d));
    t' := LeadsOn(c, s, t', Drop(d));
    t' := LeadsOn(c, s, t', Start(d));
  }

  /** Whichever way approvals are written, approving a held run lets an idle drainer start it. */
  lemma ApprovedCanStart(c: Config, s: State, d: nat) returns (t: State)
    requires Exists(s) && s.status == Awaiting && s.envelope && d < c.drainers && AtOf(s, d) == Idle
    ensures Leads(c, s, t) && t.approvals == s.approvals + 1 && t.starts == s.starts + 1
  {
    LeadsSelf(c, s);
    if c.checkAndSet {
      t := LeadsOn(c, s, s, ApproveAtOnce);
    } else {
      t := LeadsOn(c, s, s, ApproveRead);
      t := LeadsOn(c, s, t, ApproveWrite);
    }
    t := QueuedCanStart(c, s, t, d);
  }

  /** And rejecting it ends it, without an envelope. */
  lemma RejectedEnds(c: Config, s: State) returns (t: State)
    requires Exists(s) && s.status == Awaiting
    ensures Leads(c, s, t) && t.status == Canceled && !t.envelope && t.starts == s.starts && t.approvals == s.approvals
  {
    LeadsSelf(c, s);
    if c.checkAndSet {
      t := LeadsOn(c, s, s, RejectAtOnce);
    } else {
      t := LeadsOn(c, s, s, RejectRead);
      t := LeadsOn(c, s, t, RejectDrop);
      t := LeadsOn(c, s, t, RejectFinish);
    }
  }
}
