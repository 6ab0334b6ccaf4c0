/** What can become of a run, by configuration: how racing approvals start it twice or after a
    cancel, and which configurations rule that out. */
module RunOutcomes {
  import opened Runs
  import opened RunLifecycle

  /** Two racing approvals have put a run held for approval into the queue; one of the two
      approvers has still to write. */
  lemma TwoApprovals(c: Config) returns (s: State)
    requires !c.checkAndSet
    ensures Reachable(c, s)
    ensures s == Initial.(birth := ToApproval, written := true, envelope := true, status := Queued,
                            approvers := 1, approvals := 1)
  {
    InitialReachable(c);
    s := Go(c, Initial, Hold);
    s := Go(c, s, StoreEnvelope);
    s := Go(c, s, ApproveRead);
    s := Go(c, s, ApproveRead);
    s := Go(c, s, ApproveWrite);
  }

  /** The first drainer holds a run of which `approvers` approvals are still under way. */
  lemma FirstLoad(c: Config) returns (s: State)
    requires !c.checkAndSet && c.drainers >= 1
    ensures Reachable(c, s) && Exists(s) && s.envelope && s.status == Queued && s.approvers == 1
    ensures s.cancelers == 0 && s.starts == 0 && AtOf(s, 0) == Loaded && AtOf(s, 1) == Idle
    ensures s.birth == ToApproval && s.approvals == 1
  {
    s := TwoApprovals(c);
    s := Go(c, s, List(0));
    s := Go(c, s, Load(0));
  }

  /** The second approval revives the run after the first claim: two drainers have claimed it. */
  lemma ClaimedTwice(c: Config) returns (s: State)
    requires !c.checkAndSet && c.drainers >= 2
    ensures Reachable(c, s) && s.starts == 0 && AtOf(s, 0) == Won && AtOf(s, 1) == Won
  {
    s := FirstLoad(c);
    s := Go(c, s, Claim(0));
    s := Go(c, s, ApproveWrite);
    s := Go(c, s, List(1));
    s := Go(c, s, Load(1));
    s := Go(c, s, Claim(1));
  }

  /** With two drainers, a stale approval between the first claim and the dropping of the
      envelope makes the run start twice. */
  lemma StartedTwice(c: Config) returns (s: State)
    requires !c.checkAndSet && c.drainers >= 2
    ensures Reachable(c, s) && s.starts == 2
  {
    s := ClaimedTwice(c);
    s := Go(c, s, Drop(0));
    s := Go(c, s, Start(0));
    s := Go(c, s, Drop(1));
    s := Go(c, s, Start(1));
  }

  /** Even with one drainer, a stale approval revives a run canceled in the queue. */
  lemma CanceledYetQueued(c: Config) returns (s: State)
    requires !c.checkAndSet && c.drainers >= 1
    ensures Reachable(c, s) && s.canceledQueued && s.starts == 0 && s.status == Queued && AtOf(s, 0) == Loaded
    ensures s.birth == ToApproval && s.approvals == 2
  {
    s := FirstLoad(c);
    s := Go(c, s, CancelRead);
    s := Go(c, s, CancelWin);
    s := Go(c, s, ApproveWrite);
  }

  lemma CanceledYetStarted(c: Config) returns (s: State)
    requires !c.checkAndSet && c.drainers >= 1
    ensures Reachable(c, s) && s.canceledQueued && s.starts == 1 && s.birth == ToApproval && s.approvals == 2
  {
    s := CanceledYetQueued(c);
    s := Go(c, s, Claim(0));
    s := Go(c, s, Drop(0));
    s := Go(c, s, Start(0));
  }

  /** Each run is claimed and started at most once, exactly when one drainer works at a time or
      approvals and rejections are check-and-set. */
  lemma AtMostOneStartIff(c: Config)
    ensures (forall s :: Reachable(c, s) ==> s.claims <= 1 && s.starts <= 1) <==> c.drainers <= 1 || c.checkAndSet
  {
    if c.drainers <= 1 || c.checkAndSet {
      forall s | Reachable(c, s) ensures s.claims <= 1 && s.starts <= 1 { InvReachable(c, s); }
    } else {
      var s := StartedTwice(c);
    }
  }

  /** A run canceled while queued is never started, exactly when decisions are check-and-set
      (or nobody drains). */
  lemma CanceledNeverStartsIff(c: Config)
    ensures (forall s :: Reachable(c, s) ==> !(s.canceledQueued && s.starts > 0)) <==> c.checkAndSet || c.drainers == 0
  {
    if c.checkAndSet || c.drainers == 0 {
      forall s | Reachable(c, s) ensures !(s.canceledQueued && s.starts > 0) { InvReachable(c, s); }
    } else {
      var s := CanceledYetStarted(c);
    }
  }

  /** In every configuration, a run held for approval is claimed or started only once approved,
      and a started run's envelope, with the secrets in it, is gone for good. */
  lemma StartNeedsApprovalAndSpendsEnvelope(c: Config, s: State)
    requires Reachable(c, s)
    ensures s.birth == ToApproval && (s.claims > 0 || s.starts > 0) ==> s.approvals > 0
    ensures s.starts > 0 ==> s.written && !s.envelope
  {
    InvReachable(c, s);
  }

  lemma CanceledWhileListed(c: Config) returns (s: State)
    requires c.drainers >= 1
    ensures Reachable(c, s) && s.canceledQueued && s.status == Canceled && !s.envelope && AtOf(s, 0) == Listed
  {
    InitialReachable(c);
    s := Go(c, Initial, Enqueue);
    s := Go(c, s, StoreEnvelope);
    s := Go(c, s, List(0));
    s := Go(c, s, CancelRead);
    s := Go(c, s, CancelWin);
    s := Go(c, s, CancelDrop);
  }

  /** A terminal row is not final: a pass that listed the run before it was canceled finds no
      envelope and fails it. */
  lemma CanceledRowCanEndFailed(c: Config) returns (s: State)
    requires c.drainers >= 1
    ensures Reachable(c, s) && s.canceledQueued && s.status == Failed
  {
    s := CanceledWhileListed(c);
    s := Go(c, s, Load(0));
    s := Go(c, s, GiveUpDrop(0));
    s := Go(c, s, GiveUpFinish(0));
  }
}
