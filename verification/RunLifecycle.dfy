/** One run's row under every interleaving of the actors that touch it.

    Each store call is one atomic step.  Creation, approval, rejection, cancellation, the drain
    pass and the executor are split into their separate store calls, any number of each may be
    under way, and their steps interleave freely.  Actors of a kind are interchangeable, so those
    waiting at the same point are counted; drainers are told apart by number.

    The configuration says how many drainers may work at once and whether approval and rejection
    are check-and-set (one conditional update) or, as the handlers are written, a read followed by
    unconditional writes. */
module RunLifecycle {
  import opened Runs

  datatype Config = Config(drainers: nat, checkAndSet: bool)

  datatype Birth = NotYet | ToQueue | ToApproval

  /** Where a drainer is with this run. */
  datatype At =
    | Idle
    | Listed                 // the run was in the list of queued runs
    | Loaded                 // its envelope was read and found
    | Won                    // the claim succeeded
    | Cleared                // the envelope was dropped
    | GivingUp               // failing the run: envelope still to be dropped
    | GivenUp                // failing the run: row still to be finished

  datatype State = State(
    birth: Birth,
    written: bool,           // the creator has stored the envelope
    status: Status,
    envelope: bool,
    drainers: map<nat, At>,
    approvers: nat,          // approvers that read `awaiting` and have not yet written
    rejecters: nat,          // rejecters that read `awaiting`
    rejectersHalf: nat,      // rejecters that dropped the envelope and have not yet finished the row
    cancelers: nat,          // cancelers that read `queued`
    cancelersHalf: nat,      // cancelers that won and have not yet dropped the envelope
    executors: nat,          // executors started and not yet finished
    // what happened so far
    claims: nat,
    starts: nat,
    approvals: nat,
    canceledQueued: bool)    // a cancel won against the queued run

  function AtOf(s: State, d: nat): At { if d in s.drainers then s.drainers[d] else Idle }

  predicate Exists(s: State) { s.birth != NotYet }

  const Initial := State(NotYet, false, Awaiting, false, map[], 0, 0, 0, 0, 0, 0, 0, 0, 0, false)

  // ---- the steps ---------------------------------------------------------------------------------

  datatype Step =
    | Enqueue | Hold | StoreEnvelope
    | ApproveRead | ApproveWrite | ApproveAtOnce
    | RejectRead | RejectDrop | RejectFinish | RejectAtOnce
    | CancelRead | CancelWin | CancelDrop
    | List(d: nat) | Load(d: nat) | LeaveQueued(d: nat) | Claim(d: nat) | Drop(d: nat)
    | Start(d: nat) | SyncFails(d: nat)
    | GiveUpDrop(d: nat) | GiveUpFinish(d: nat)
    | MarkRunning | Finish(outcome: Status)

  predicate Enabled(c: Config, s: State, a: Step) {
    match a
    case Enqueue | Hold => !Exists(s)
    case StoreEnvelope => Exists(s) && !s.written
    case ApproveRead => !c.checkAndSet && Exists(s) && s.status == Awaiting
    case ApproveWrite => s.approvers > 0
    case ApproveAtOnce => c.checkAndSet && Exists(s) && s.status == Awaiting
    case RejectRead => !c.checkAndSet && Exists(s) && s.status == Awaiting
    case RejectDrop => s.rejecters > 0
    case RejectFinish => s.rejectersHalf > 0
    case RejectAtOnce => c.checkAndSet && Exists(s) && s.status == Awaiting
    case CancelRead => Exists(s) && s.status == Queued
    case CancelWin => s.cancelers > 0
    case CancelDrop => s.cancelersHalf > 0
    case List(d) => d < c.drainers && AtOf(s, d) == Idle && Exists(s) && s.status == Queued
    case Load(d) => AtOf(s, d) == Listed
    case LeaveQueued(d) => AtOf(s, d) == Loaded
    case Claim(d) => AtOf(s, d) == Loaded
    case Drop(d) => AtOf(s, d) == Won
    case Start(d) => AtOf(s, d) == Cleared
    case SyncFails(d) => AtOf(s, d) == Cleared
    case GiveUpDrop(d) => AtOf(s, d) == GivingUp
    case GiveUpFinish(d) => AtOf(s, d) == GivenUp
    case MarkRunning => s.executors > 0
    case Finish(o) => s.executors > 0 && o in {Success, Failed, Canceled}
  }

  function Move(s: State, d: nat, at: At): State { s.(drainers := s.drainers[d := at]) }

  function Next(c: Config, s: State, a: Step): State
    requires Enabled(c, s, a)
  {
    match a
    case Enqueue => s.(birth := ToQueue, status := Queued)
    case Hold => s.(birth := ToApproval, status := Awaiting)
    case StoreEnvelope => s.(written := true, envelope := true)
    case ApproveRead => s.(approvers := s.approvers + 1)
    case ApproveWrite => s.(approvers := s.approvers - 1, status := Queued, approvals := s.approvals + 1)
    case ApproveAtOnce => s.(status := Queued, approvals := s.approvals + 1)
    case RejectRead => s.(rejecters := s.rejecters + 1)
    case RejectDrop => s.(rejecters := s.rejecters - 1, rejectersHalf := s.rejectersHalf + 1, envelope := false)
    case RejectFinish => s.(rejectersHalf := s.rejectersHalf - 1, status := Canceled)
    case RejectAtOnce => s.(status := Canceled, envelope := false)
    case CancelRead => s.(cancelers := s.cancelers + 1)
    case CancelWin =>
      if s.status == Queued
      then s.(cancelers := s.cancelers - 1, cancelersHalf := s.cancelersHalf + 1,
              status := Canceled, canceledQueued := true)
      else s.(cancelers := s.cancelers - 1)
    case CancelDrop => s.(cancelersHalf := s.cancelersHalf - 1, envelope := false)
    case List(d) => Move(s, d, Listed)
    case Load(d) => Move(s, d, if s.envelope then Loaded else GivingUp)
    case LeaveQueued(d) => Move(s, d, Idle)
    case Claim(d) =>
      if s.status == Queued then Move(s, d, Won).(status := Pending, claims := s.claims + 1) else Move(s, d, Idle)
    case Drop(d) => Move(s, d, Cleared).(envelope := false)
    case Start(d) => Move(s, d, Idle).(starts := s.starts + 1, executors := s.executors + 1)
    case SyncFails(d) => Move(s, d, GivingUp)
    case GiveUpDrop(d) => Move(s, d, GivenUp).(envelope := false)
    case GiveUpFinish(d) => Move(s, d, Idle).(status := Failed)
    case MarkRunning => s.(status := Running)
    case Finish(o) => s.(executors := s.executors - 1, status := o)
  }

  ghost predicate Trace(c: Config, s: State, steps: seq<Step>)
    decreases |steps|
  {
    steps == [] || (Enabled(c, s, steps[0]) && Trace(c, Next(c, s, steps[0]), steps[1..]))
  }

  ghost function After(c: Config, s: State, steps: seq<Step>): State
    requires Trace(c, s, steps)
    decreases |steps|
  {
    if steps == [] then s else After(c, Next(c, s, steps[0]), steps[1..])
  }

  ghost predicate Reachable(c: Config, s: State) {
    exists steps :: Trace(c, Initial, steps) && After(c, Initial, steps) == s
  }

  // ---- one drainer ------------------------------------------------------------------------------

  /** A drainer that has read the envelope and not yet used it up. */
  predicate Holding(at: At) { at in {Loaded, Won, Cleared} }

  /** The envelope is a token used once: it is still to be written, or stored, or in the hands of
      the only drainer, or spent on the one start there was. */
  ghost predicate OneToken(s: State) {
    && s.drainers.Keys <= {0}
    && (s.envelope ==> s.written)
    && (Holding(AtOf(s, 0)) ==> s.written)
    && (AtOf(s, 0) == Cleared ==> !s.envelope)
    && s.starts + (if !s.written || s.envelope || Holding(AtOf(s, 0)) then 1 else 0) <= 1
    && s.claims + (if !s.written || (s.envelope && AtOf(s, 0) != Won) || AtOf(s, 0) == Loaded then 1 else 0) <= 1
  }

  lemma OneTokenStep(c: Config, s: State, a: Step)
    requires c.drainers <= 1 && OneToken(s) && Enabled(c, s, a)
    ensures OneToken(Next(c, s, a))
  {
  }

  // ---- facts of every configuration ---------------------------------------------------------------

  /** Before it is created, nothing has happened to a run; held for approval and not approved,
      it was at most rejected. */
  ghost predicate Quiet(s: State) {
    && s.claims == 0 && s.starts == 0 && s.executors == 0 && !s.canceledQueued
    && s.cancelers == 0 && s.cancelersHalf == 0
    && forall d :: AtOf(s, d) == Idle
  }

  ghost predicate NeedsApproval(s: State) {
    && (!Exists(s) ==> Quiet(s) && s.approvals == 0 && s.approvers == 0 && s.rejecters == 0 && s.rejectersHalf == 0)
    && (s.birth == ToApproval && s.approvals == 0 ==> Quiet(s) && (s.status == Awaiting || s.status == Canceled))
  }

  /** An envelope is stored once; a run that was started, or is about to be, has none left. */
  ghost predicate EnvelopeOnce(s: State) {
    && (s.envelope ==> s.written)
    && (forall d :: Holding(AtOf(s, d)) ==> s.written)
    && (s.starts > 0 ==> s.written && !s.envelope)
    && (forall d :: AtOf(s, d) == Cleared ==> !s.envelope)
  }

  predicate OfDrainer(a: Step, d: nat) {
    a in {List(d), Load(d), LeaveQueued(d), Claim(d), Drop(d), Start(d), SyncFails(d), GiveUpDrop(d), GiveUpFinish(d)}
  }

  lemma OthersStay(c: Config, s: State, a: Step, d: nat)
    requires Enabled(c, s, a)
    ensures AtOf(Next(c, s, a), d) == AtOf(s, d) || OfDrainer(a, d)
  {
  }

  lemma NeedsApprovalStep(c: Config, s: State, a: Step)
    requires NeedsApproval(s) && Enabled(c, s, a)
    ensures NeedsApproval(Next(c, s, a))
  {
    forall d ensures AtOf(s, d) == Idle && (!Exists(s) || s.status != Queued) ==> AtOf(Next(c, s, a), d) == Idle {
      OthersStay(c, s, a, d);
    }
  }

  lemma EnvelopeOnceStep(c: Config, s: State, a: Step)
    requires EnvelopeOnce(s) && Enabled(c, s, a)
    ensures EnvelopeOnce(Next(c, s, a))
  {
    var s' := Next(c, s, a);
    forall d ensures Holding(AtOf(s', d)) ==> Holding(AtOf(s, d)) || s.envelope
             ensures AtOf(s', d) == Cleared ==> AtOf(s, d) == Cleared || !s'.envelope
    {
      OthersStay(c, s, a, d);
    }
  }

  // ---- any number of drainers, check-and-set decisions -------------------------------------------

  predicate PastClaim(at: At) { at == Won || at == Cleared }

  /** No actor holds a stale reading of `awaiting`, and a run that can still be decided or claimed
      was never claimed. */
  ghost predicate NothingStale(s: State) {
    && s.approvers == 0 && s.rejecters == 0 && s.rejectersHalf == 0
    && (s.status == Awaiting || s.status == Queued ==> s.claims == 0 && s.starts == 0 && !s.canceledQueued)
    && (s.canceledQueued ==> s.claims == 0)
    && s.starts <= s.claims <= 1
    && (s.executors > 0 ==> s.starts == 1)
  }

  /** At most one drainer, the winner of the only claim, is past the claim. */
  ghost predicate OneWinner(s: State) {
    && (forall d :: PastClaim(AtOf(s, d)) ==> s.claims == 1 && s.starts == 0)
    && (forall d, e :: PastClaim(AtOf(s, d)) && PastClaim(AtOf(s, e)) ==> d == e)
    && (Exists(s) && s.status == Awaiting ==> forall d :: AtOf(s, d) == Idle)
  }

  /** The row leaves `queued` for good, so at most one claim succeeds. */
  ghost predicate OneClaim(s: State) { NothingStale(s) && OneWinner(s) }

  lemma SeatsAfter(c: Config, s: State, a: Step, d: nat)
    requires Enabled(c, s, a)
    ensures var at, at' := AtOf(s, d), AtOf(Next(c, s, a), d);
            && (PastClaim(at') ==> PastClaim(at) || (a == Claim(d) && s.status == Queued))
            && (at == Idle && (!Exists(s) || s.status != Queued) ==> at' == Idle)
            && (a == Start(d) ==> at' == Idle)
  {
    OthersStay(c, s, a, d);
  }

  lemma NothingStaleStep(c: Config, s: State, a: Step)
    requires c.checkAndSet && OneClaim(s) && NeedsApproval(s) && Enabled(c, s, a)
    ensures NothingStale(Next(c, s, a))
  {
  }

  lemma OneWinnerStep(c: Config, s: State, a: Step)
    requires c.checkAndSet && OneClaim(s) && NeedsApproval(s) && Enabled(c, s, a)
    ensures OneWinner(Next(c, s, a))
  {
    forall d { SeatsAfter(c, s, a, d); }
  }

  lemma OneClaimStep(c: Config, s: State, a: Step)
    requires c.checkAndSet && OneClaim(s) && NeedsApproval(s) && Enabled(c, s, a)
    ensures OneClaim(Next(c, s, a))
  {
    NothingStaleStep(c, s, a);
    OneWinnerStep(c, s, a);
  }

  // ---- every reachable state ---------------------------------------------------------------------

  ghost predicate Inv(c: Config, s: State) {
    && NeedsApproval(s)
    && EnvelopeOnce(s)
    && (forall d :: d >= c.drainers ==> AtOf(s, d) == Idle)
    && (c.drainers == 0 ==> s.starts == 0 && s.claims == 0)
    && (c.drainers <= 1 ==> OneToken(s))
    && (c.checkAndSet ==> OneClaim(s))
  }

  lemma SeatsKept(c: Config, s: State, a: Step)
    requires Enabled(c, s, a) && forall d :: d >= c.drainers ==> AtOf(s, d) == Idle
    ensures forall d :: d >= c.drainers ==> AtOf(Next(c, s, a), d) == Idle
    ensures c.drainers == 0 ==> Next(c, s, a).starts == s.starts && Next(c, s, a).claims == s.claims
  {
    forall d | d >= c.drainers ensures AtOf(Next(c, s, a), d) == Idle { OthersStay(c, s, a, d); }
  }

  lemma InvStep(c: Config, s: State, a: Step)
    requires Inv(c, s) && Enabled(c, s, a)
    ensures Inv(c, Next(c, s, a))
  {
    NeedsApprovalStep(c, s, a);
    EnvelopeOnceStep(c, s, a);
    SeatsKept(c, s, a);
    if c.drainers <= 1 { OneTokenStep(c, s, a); }
    if c.checkAndSet { OneClaimStep(c, s, a); }
  }

  lemma {:induction false} InvAfter(c: Config, s: State, steps: seq<Step>)
    requires Inv(c, s) && Trace(c, s, steps)
    ensures Inv(c, After(c, s, steps))
    decreases |steps|
  {
    if steps != [] {
      InvStep(c, s, steps[0]);
      InvAfter(c, Next(c, s, steps[0]), steps[1..]);
    }
  }

  lemma InvReachable(c: Config, s: State)
    requires Reachable(c, s)
    ensures Inv(c, s)
  {
    var steps :| Trace(c, Initial, steps) && After(c, Initial, steps) == s;
    InvAfter(c, Initial, steps);
  }

  lemma {:induction false} TraceSnoc(c: Config, s: State, steps: seq<Step>, a: Step)
    requires Trace(c, s, steps) && Enabled(c, After(c, s, steps), a)
    ensures Trace(c, s, steps + [a]) && After(c, s, steps + [a]) == Next(c, After(c, s, steps), a)
    decreases |steps|
  {
    if steps == [] {
      assert [] + [a] == [a] && [a][1..] == [];
    } else {
      assert (steps + [a])[0] == steps[0] && (steps + [a])[1..] == steps[1..] + [a];
      TraceSnoc(c, Next(c, s, steps[0]), steps[1..], a);
    }
  }

  lemma Go(c: Config, s: State, a: Step) returns (s': State)
    requires Reachable(c, s) && Enabled(c, s, a)
    ensures s' == Next(c, s, a) && Reachable(c, s')
  {
    var steps :| Trace(c, Initial, steps) && After(c, Initial, steps) == s;
    TraceSnoc(c, Initial, steps, a);
    s' := Next(c, s, a);
  }

  lemma InitialReachable(c: Config)
    ensures Reachable(c, Initial)
  {
    assert Trace(c, Initial, []) && After(c, Initial, []) == Initial;
  }
}
