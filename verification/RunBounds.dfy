/** How often a run can be claimed and started, by how often it was put into the queue.

    A run enters the queue when it is launched without approval, and once more with every approval
    that is written, stale or not. */
module RunBounds {
  import opened Runs
  import opened RunLifecycle
  import RunOutcomes

  function Queuings(s: State): nat { s.approvals + if s.birth == ToQueue then 1 else 0 }

  function One(b: bool): nat { if b then 1 else 0 }

  /** Each time in the queue is used up by one claim or one cancel. */
  ghost predicate Budget(s: State) {
    s.claims + One(s.status == Queued) + One(s.canceledQueued) <= Queuings(s)
  }

  lemma BudgetStep(c: Config, s: State, a: Step)
    requires Budget(s) && Enabled(c, s, a)
    ensures Budget(Next(c, s, a))
  {
  }

  // ---- each claim starts the run at most once ---------------------------------------------------------

  function Claimers(s: State): set<nat> { set d | d in s.drainers && PastClaim(s.drainers[d]) }

  ghost predicate ClaimedStarts(s: State) { s.starts + |Claimers(s)| <= s.claims }

  lemma ClaimersAfter(c: Config, s: State, a: Step)
    requires Enabled(c, s, a)
    ensures var before, after := Claimers(s), Claimers(Next(c, s, a));
            match a
            case Claim(d) => d !in before && after == before + if s.status == Queued then {d} else {}
            case Start(d) => d in before && after == before - {d}
            case SyncFails(d) => d in before && after == before - {d}
            case _ => after == before
  {
    var s' := Next(c, s, a);
    forall d ensures d in Claimers(s) <==> PastClaim(AtOf(s, d)) {}
    forall d ensures d in Claimers(s') <==> PastClaim(AtOf(s', d)) {}
    forall d ensures AtOf(s', d) == AtOf(s, d) || OfDrainer(a, d) { OthersStay(c, s, a, d); }
  }

  lemma ClaimedStartsStep(c: Config, s: State, a: Step)
    requires ClaimedStarts(s) && Enabled(c, s, a)
    ensures ClaimedStarts(Next(c, s, a))
  {
    ClaimersAfter(c, s, a);
  }

  // ---- each drainer starts it at most once ---------------------------------------------------------------

  function Holders(s: State): set<nat> { set d | d in s.drainers && Holding(s.drainers[d]) }

  /** Starting a run takes an envelope read before the first start dropped it. */
  ghost predicate HeldStarts(c: Config, s: State) { s.starts + |Holders(s)| <= c.drainers }

  lemma {:induction false} Below(ds: set<nat>, n: nat)
    requires forall d :: d in ds ==> d < n
    ensures |ds| <= n
  {
    if n > 0 {
      Below(ds - {n - 1}, n - 1);
      assert ds <= (ds - {n - 1}) + {n - 1};
      assert |ds| <= |ds - {n - 1}| + 1;
    } else {
      assert ds == {};
    }
  }

  lemma HoldersAfter(c: Config, s: State, a: Step)
    requires Enabled(c, s, a)
    ensures var before, after := Holders(s), Holders(Next(c, s, a));
            match a
            case Load(d) => after == before + if s.envelope then {d} else {}
            case Start(d) => d in before && after == before - {d}
            case _ => after <= before
  {
    var s' := Next(c, s, a);
    forall d ensures d in Holders(s) <==> Holding(AtOf(s, d)) {}
    forall d ensures d in Holders(s') <==> Holding(AtOf(s', d)) {}
    forall d ensures AtOf(s', d) == AtOf(s, d) || OfDrainer(a, d) { OthersStay(c, s, a, d); }
  }

  lemma Fewer(a: set<nat>, b: set<nat>)
    requires a <= b
    ensures |a| <= |b|
  {
    assert b == a + (b - a);
  }

  lemma HeldStartsStep(c: Config, s: State, a: Step)
    requires HeldStarts(c, s) && Inv(c, s) && Enabled(c, s, a)
    ensures HeldStarts(c, Next(c, s, a))
  {
    HoldersAfter(c, s, a);
    InvStep(c, s, a);
    var s' := Next(c, s, a);
    if a.Load? && s.envelope {
      forall d | d in Holders(s') ensures d < c.drainers { assert AtOf(s', d) != Idle; }
      Below(Holders(s'), c.drainers);
    } else if !a.Start? && !a.Load? {
      Fewer(Holders(s'), Holders(s));
    }
  }

  // ---- every reachable state ------------------------------------------------------------------------------

  lemma {:induction false} BoundsAfter(c: Config, s: State, steps: seq<Step>)
    requires Inv(c, s) && Budget(s) && ClaimedStarts(s) && HeldStarts(c, s) && Trace(c, s, steps)
    ensures var s' := After(c, s, steps);
            Budget(s') && ClaimedStarts(s') && HeldStarts(c, s')
    decreases |steps|
  {
    if steps != [] {
      InvStep(c, s, steps[0]);
      BudgetStep(c, s, steps[0]);
      ClaimedStartsStep(c, s, steps[0]);
      HeldStartsStep(c, s, steps[0]);
      BoundsAfter(c, Next(c, s, steps[0]), steps[1..]);
    }
  }

  /** In every configuration, with any number of drainers and approvals as they are written: a run
      is not claimed or canceled in the queue more often than it was put there, and not started
      more often than it was claimed or than there are drainers. */
  lemma StartsBounded(c: Config, s: State)
    requires Reachable(c, s)
    ensures s.starts <= s.claims && s.claims + One(s.canceledQueued) <= Queuings(s) && s.starts <= c.drainers
  {
    var steps :| Trace(c, Initial, steps) && After(c, Initial, steps) == s;
    BoundsAfter(c, Initial, steps);
  }

  /** A run launched directly never awaits a decision, and none is ever under way for it. */
  ghost predicate NeverHeld(s: State) {
    && (!Exists(s) ==> s == Initial)
    && (s.birth == ToQueue ==> s.status != Awaiting && s.approvers == 0 && s.approvals == 0)
  }

  lemma NeverHeldStep(c: Config, s: State, a: Step)
    requires NeverHeld(s) && Enabled(c, s, a)
    ensures NeverHeld(Next(c, s, a))
  {
  }

  lemma {:induction false} NeverHeldAfter(c: Config, s: State, steps: seq<Step>)
    requires NeverHeld(s) && Trace(c, s, steps)
    ensures NeverHeld(After(c, s, steps))
    decreases |steps|
  {
    if steps != [] {
      NeverHeldStep(c, s, steps[0]);
      NeverHeldAfter(c, Next(c, s, steps[0]), steps[1..]);
    }
  }

  /** A run that was put into the queue once, launched directly or approved once, is claimed and
      started at most once, and never started once it was canceled in the queue. */
  lemma QueuedOnceStartsOnce(c: Config, s: State)
    requires Reachable(c, s) && (s.birth == ToQueue || s.approvals <= 1)
    ensures Queuings(s) <= 1
    ensures s.claims <= 1 && s.starts <= 1 && !(s.canceledQueued && s.starts > 0)
  {
    var steps :| Trace(c, Initial, steps) && After(c, Initial, steps) == s;
    NeverHeldAfter(c, Initial, steps);
    StartsBounded(c, s);
  }

  // ---- the bounds are reached --------------------------------------------------------------------------------

  lemma {:induction false} Approving(c: Config, n: nat) returns (s: State)
    requires !c.checkAndSet
    ensures Reachable(c, s)
    ensures s == Initial.(birth := ToApproval, written := true, envelope := true, approvers := n)
  {
    if n == 0 {
      InitialReachable(c);
      s := Go(c, Initial, Hold);
      s := Go(c, s, StoreEnvelope);
    } else {
      s := Approving(c, n - 1);
      s := Go(c, s, ApproveRead);
    }
  }

  /** The drainers from `lo` up to `hi` have won the run, the others are idle. */
  ghost predicate Winners(at: map<nat, At>, lo: nat, hi: nat) {
    && (forall d :: lo <= d < hi ==> d in at && at[d] == Won)
    && (forall d :: d in at && !(lo <= d < hi) ==> at[d] == Idle)
  }

  /** Of `n` racing approvals `k` were written, each just before another drainer claimed the run. */
  ghost predicate WonBy(s: State, n: nat, k: nat) {
    && s.birth == ToApproval && s.envelope && s.approvers == n - k && s.approvals == k && s.starts == 0
    && Winners(s.drainers, 0, k)
  }

  /** An idle drainer wins a queued run. */
  lemma QueuedIsWon(c: Config, s: State, d: nat) returns (s': State)
    requires Reachable(c, s) && Exists(s) && s.status == Queued && s.envelope && d < c.drainers && AtOf(s, d) == Idle
    ensures Reachable(c, s') && s' == s.(status := Pending, drainers := s'.drainers, claims := s.claims + 1)
    ensures s'.drainers == s.drainers[d := Won]
  {
    s' := Go(c, s, List(d));
    s' := Go(c, s', Load(d));
    s' := Go(c, s', Claim(d));
  }

  lemma {:induction false} Winning(c: Config, n: nat, k: nat) returns (s: State)
    requires !c.checkAndSet && k <= n <= c.drainers
    ensures Reachable(c, s) && WonBy(s, n, k)
  {
    if k == 0 {
      s := Approving(c, n);
    } else {
      s := Winning(c, n, k - 1);
      s := Go(c, s, ApproveWrite);
      s := QueuedIsWon(c, s, k - 1);
    }
  }

  lemma {:induction false} Starting(c: Config, n: nat, k: nat) returns (s: State)
    requires !c.checkAndSet && k <= n <= c.drainers
    ensures Reachable(c, s) && s.birth == ToApproval && s.approvals == n && s.starts == k
    ensures Winners(s.drainers, k, n)
  {
    if k == 0 {
      s := Winning(c, n, n);
    } else {
      s := Starting(c, n, k - 1);
      s := Go(c, s, Drop(k - 1));
      s := Go(c, s, Start(k - 1));
    }
  }

  /** A run launched directly is started. */
  lemma StartedOnce(c: Config) returns (s: State)
    requires c.drainers >= 1
    ensures Reachable(c, s) && Queuings(s) == 1 && s.starts == 1
  {
    InitialReachable(c);
    s := Go(c, Initial, Enqueue);
    s := Go(c, s, StoreEnvelope);
    s := QueuedIsWon(c, s, 0);
    s := Go(c, s, Drop(0));
    s := Go(c, s, Start(0));
  }

  ghost predicate CanStart(c: Config, q: nat, n: nat) {
    exists s :: Reachable(c, s) && Queuings(s) <= q && s.starts >= n
  }

  /** Exactly how often a run put into the queue up to `q` times can be started: up to `q` times and
      once per drainer, and with check-and-set decisions never more than once. */
  lemma StartsIff(c: Config, q: nat, n: nat)
    ensures CanStart(c, q, n) <==> n <= q && n <= c.drainers && (n <= 1 || !c.checkAndSet)
  {
    if CanStart(c, q, n) {
      var s :| Reachable(c, s) && Queuings(s) <= q && s.starts >= n;
      StartsBounded(c, s);
      InvReachable(c, s);
    }
    if n == 0 {
      InitialReachable(c);
      assert Queuings(Initial) == 0;
    } else if n <= q && n <= c.drainers && n == 1 {
      var s := StartedOnce(c);
    } else if n <= q && n <= c.drainers && !c.checkAndSet {
      var s := Starting(c, n, n);
      assert Queuings(s) == n;
    }
  }

  ghost predicate CanStartCanceled(c: Config, q: nat) {
    exists s :: Reachable(c, s) && Queuings(s) <= q && s.canceledQueued && s.starts > 0
  }

  /** Exactly when a run canceled in the queue can be started all the same: when it was put there
      twice, by approvals that are not check-and-set, and there is a drainer. */
  lemma CanceledStartsIff(c: Config, q: nat)
    ensures CanStartCanceled(c, q) <==> q >= 2 && c.drainers >= 1 && !c.checkAndSet
  {
    if CanStartCanceled(c, q) {
      var s :| Reachable(c, s) && Queuings(s) <= q && s.canceledQueued && s.starts > 0;
      StartsBounded(c, s);
      InvReachable(c, s);
    }
    if q >= 2 && c.drainers >= 1 && !c.checkAndSet {
      var s := RunOutcomes.CanceledYetStarted(c);
      assert Queuings(s) == 2;
    }
  }
}
