/** Executions of the viewing protocol: what each way of viewing delivers from every reachable state,
    and the two ways in which the end of a live view disappoints. */
module ViewerRuns {
  import opened Relay
  import opened Runs
  import opened Viewers

  // ---- the status at the end of a live view ------------------------------------------------------------

  /** The status sent with "end" need not be final: a live viewer's channel closes before the row
      is finished, so it can be told that the ended run is running. */
  lemma LiveEndCanReportRunning() returns (s: State)
    ensures Reachable(s) && 0 in s.viewers && s.viewers[0] == Ended("", 0, Running)
  {
    assert Trace(Initial, []) && After(Initial, []) == Initial;
    s := Go(Initial, Begin);
    s := Go(s, MarkRunning);
    s := Go(s, Open(0, true));
    s := Go(s, Step.Attach(0));
    s := Go(s, CloseChannels);
    s := Go(s, LiveEnd(0));
  }

  /** Or even that it is pending: when the runner cannot be reached, the run ends without having been
      marked running. */
  lemma LiveEndCanReportPending() returns (s: State)
    ensures Reachable(s) && 0 in s.viewers && s.viewers[0] == Ended("", 0, Pending)
  {
    assert Trace(Initial, []) && After(Initial, []) == Initial;
    s := Go(Initial, Begin);
    s := Go(s, Open(0, true));
    s := Go(s, Step.Attach(0));
    s := Go(s, CloseChannels);
    s := Go(s, LiveEnd(0));
  }

  // ---- what each way of viewing delivers, in every reachable state -----------------------------------

  lemma Unfolded(s: State, a: Step, rest: seq<Step>)
    requires Enabled(s, a)
    ensures Trace(s, [a] + rest) <==> Trace(Next(s, a), rest)
    ensures Trace(Next(s, a), rest) ==> After(s, [a] + rest) == After(Next(s, a), rest)
  {
    assert ([a] + rest)[0] == a && ([a] + rest)[1..] == rest;
  }

  /** On the owner replica: the output so far at once, and each chunk from then on. */
  lemma HomeViewerStreams(s: State, v: nat, b: Bytes)
    requires Reachable(s) && s.phase == Streaming && v !in s.viewers
    ensures var steps := [Open(v, true)] + ([Step.Attach(v)] + ([Append(b)] + ([Take(v)] + [])));
            && Trace(s, steps) && v in After(s, steps).viewers
            && After(s, steps).viewers[v] == Live([], true, s.buf + b, 0)
  {
    InvReachable(s);
    var s1 := Next(s, Open(v, true));
    var s2 := Next(s1, Step.Attach(v));
    var s3 := Next(s2, Append(b));
    Unfolded(s3, Take(v), []);
    Unfolded(s2, Append(b), [Take(v)] + []);
    Unfolded(s1, Step.Attach(v), [Append(b)] + ([Take(v)] + []));
    Unfolded(s, Open(v, true), [Step.Attach(v)] + ([Append(b)] + ([Take(v)] + [])));
    assert s3.viewers[v] == Live([b], true, s.buf, 0);
  }

  /** On another replica, while the run is in progress: what is stored. */
  lemma RemoteViewerTails(s: State, v: nat)
    requires Reachable(s) && s.status in {Awaiting, Queued, Pending, Running} && v !in s.viewers
    ensures var steps := [Open(v, false)] + ([Step.Attach(v)] + ([Poll(v)] + []));
            Trace(s, steps) && v in After(s, steps).viewers && After(s, steps).viewers[v] == Tailing(s.stored)
  {
    var s1 := Next(s, Open(v, false));
    var s2 := Next(s1, Step.Attach(v));
    Unfolded(s2, Poll(v), []);
    Unfolded(s1, Step.Attach(v), [Poll(v)] + []);
    Unfolded(s, Open(v, false), [Step.Attach(v)] + ([Poll(v)] + []));
    assert "" + s.stored[0..] == s.stored;
  }

  /** After the end, on any replica: the whole output and the final status. */
  lemma LateViewerReplays(s: State, v: nat, home: bool)
    requires Reachable(s) && s.status in {Success, Failed, Canceled} && v !in s.viewers
    ensures var steps := [Open(v, home)] + ([Step.Attach(v)] + ([Replay(v)] + []));
            Trace(s, steps) && After(s, steps) == s.(viewers := s.viewers[v := Ended(s.buf, 0, s.status)])
  {
    InvReachable(s);
    var s1 := Next(s, Open(v, home));
    var s2 := Next(s1, Step.Attach(v));
    Unfolded(s2, Replay(v), []);
    Unfolded(s1, Step.Attach(v), [Replay(v)] + []);
    Unfolded(s, Open(v, home), [Step.Attach(v)] + ([Replay(v)] + []));
  }

  /** The outcome with which the owner finishes is the one that everybody later is shown. */
  lemma OutcomeIsShown(s: State, o: Status, v: nat, home: bool)
    requires Reachable(s) && s.phase == Finished && o in {Success, Failed, Canceled} && v !in s.viewers
    ensures var steps := [Store(o)] + ([Open(v, home)] + ([Step.Attach(v)] + ([Replay(v)] + [])));
            Trace(s, steps) && After(s, steps).status == o
            && v in After(s, steps).viewers && After(s, steps).viewers[v] == Ended(s.buf, 0, o)
  {
    var s1 := Go(s, Store(o));
    Unfolded(s, Store(o), [Open(v, home)] + ([Step.Attach(v)] + ([Replay(v)] + [])));
    LateViewerReplays(s1, v, home);
  }

  /** A flush and a poll bring a tail up to the output so far. */
  lemma FlushedIsTailed(s: State, v: nat)
    requires Reachable(s) && s.phase == Streaming && v in s.viewers && s.viewers[v].Tailing?
    ensures var steps := [Flush] + ([Poll(v)] + []);
            Trace(s, steps) && v in After(s, steps).viewers && After(s, steps).viewers[v] == Tailing(s.buf)
  {
    var s1 := Go(s, Flush);
    Unfolded(s1, Poll(v), []);
    Unfolded(s, Flush, [Poll(v)] + []);
    TailAdvancesAndEnds(s1, v);
  }

  /** Viewers neither touch the run nor each other, and one that left is gone. */
  lemma ViewersStayApart(s: State, a: Step, u: nat)
    requires Enabled(s, a)
    requires a.Open? || a.Attach? || a.Leave? || a.Take? || a.LiveEnd? || a.Poll? || a.Check? || a.TailEnd? || a.Replay?
    ensures var s' := Next(s, a);
            && s' == s.(viewers := s'.viewers)
            && (u != a.v ==> (u in s'.viewers <==> u in s.viewers))
            && (u != a.v && u in s.viewers ==> s'.viewers[u] == s.viewers[u])
            && (a.v in s'.viewers <==> !a.Leave?)
  {
  }

  /** Polling brings a tail up to what is stored; once the run is over the tail ends, with the whole
      output, and before that it goes on. */
  lemma TailAdvancesAndEnds(s: State, v: nat)
    requires Reachable(s) && v in s.viewers && s.viewers[v].Tailing?
    ensures Next(s, Poll(v)).viewers[v] == Tailing(s.stored)
    ensures s.status in {Awaiting, Queued, Pending, Running} ==> Next(s, Check(v)) == s
    ensures s.status in {Success, Failed, Canceled} ==>
              var steps := [Check(v)] + ([TailEnd(v)] + []);
              Trace(s, steps) && v in After(s, steps).viewers && After(s, steps).viewers[v] == Ended(s.buf, 0, s.status)
  {
    InvReachable(s);
    assert ViewerOk(s, s.viewers[v]);
    CaughtUp(s.viewers[v].got, s.stored);
    if s.status in {Success, Failed, Canceled} {
      var s1 := Next(s, Check(v));
      Unfolded(s1, TailEnd(v), []);
      Unfolded(s, Check(v), [TailEnd(v)] + []);
    }
  }

  lemma CaughtUp(got: Bytes, stored: Bytes)
    requires got <= stored
    ensures CatchUp(got, stored) == stored
  {
  }

  // ---- a viewer that is too slow ----------------------------------------------------------------------

  /** A live viewer that has read nothing, with `n` chunks waiting. */
  ghost predicate Backlog(s: State, n: nat) {
    && s.phase == Streaming && 0 in s.viewers
    && s.viewers[0].Live? && s.viewers[0].open && |s.viewers[0].queue| == n && s.viewers[0].lost == 0
  }

  lemma {:induction false} FillQueue(n: nat) returns (s: State)
    requires n <= CHANNEL_CAPACITY
    ensures Reachable(s) && Backlog(s, n)
  {
    if n == 0 {
      assert Trace(Initial, []) && After(Initial, []) == Initial;
      s := Go(Initial, Begin);
      s := Go(s, Open(0, true));
      s := Go(s, Step.Attach(0));
    } else {
      s := FillQueue(n - 1);
      s := Go(s, Append("x"));
    }
  }

  lemma {:induction false} DrainQueue(s: State, n: nat) returns (s': State)
    requires Reachable(s) && 0 in s.viewers && s.viewers[0].Live? && |s.viewers[0].queue| == n
    ensures Reachable(s') && 0 in s'.viewers && s'.viewers[0].Live? && s'.viewers[0].queue == []
    ensures s' == s.(viewers := s'.viewers) && s'.viewers[0].lost == s.viewers[0].lost
         && s'.viewers[0].open == s.viewers[0].open
    decreases n
  {
    if n == 0 {
      s' := s;
    } else {
      s' := Go(s, Take(0));
      s' := DrainQueue(s', n - 1);
    }
  }

  lemma Overflowed() returns (s: State)
    ensures Reachable(s) && s.phase == Finished && 0 in s.viewers
    ensures s.viewers[0].Live? && !s.viewers[0].open && s.viewers[0].lost > 0
  {
    s := FillQueue(CHANNEL_CAPACITY);
    s := Go(s, Append("x"));
    s := Go(s, CloseChannels);
  }

  /** A viewer does lose output: one that reads nothing while its channel fills is sent "end" after
      everything it was still sent, and lacks part of what is stored for good. */
  lemma SlowViewerMissesOutput() returns (s: State)
    ensures Reachable(s) && 0 in s.viewers && s.viewers[0].Ended? && s.viewers[0].lost > 0
    ensures Terminal(s.status) && s.viewers[0].got != s.stored
  {
    s := Overflowed();
    s := DrainQueue(s, |s.viewers[0].queue|);
    s := Go(s, LiveEnd(0));
    s := Go(s, Store(Success));
    assert Trace(s, []) && After(s, []) == s;
    EndMeansFinalOutput(s, [], 0);
  }
}
