/** What viewers of one run receive, whichever way and moment they attach.

    The owner replica appends output, flushes prefixes to the row, and finishes in three steps:
    it closes the channels, stores status and output in one update, and forgets the run.  Viewers
    on any replica read the row's status, then subscribe, tail the row or replay it.  All steps
    interleave freely.  Only the owner's finish makes the row terminal. */
module Viewers {
  import opened Runs
  import opened Relay

  datatype Phase = Waiting | Streaming | Finished | Stored | Forgotten

  datatype Viewer =
    | Asked(home: bool, terminal: bool)                   // read the status; `home`: on the owner replica
    | Live(queue: seq<Bytes>, open: bool, got: Bytes, lost: nat)
    | Tailing(got: Bytes)
    | Checked(got: Bytes, status: Status)                 // tailing, and read a terminal status
    | Replaying(status: Status)
    | Ended(got: Bytes, lost: nat, status: Status)        // was sent "end" with this status

  datatype State = State(buf: Bytes, phase: Phase, stored: Bytes, status: Status, viewers: map<nat, Viewer>)

  datatype Step =
    | Begin | Append(b: Bytes) | Flush | MarkRunning | CloseChannels | Store(outcome: Status) | Forget
    | Open(v: nat, home: bool) | Attach(v: nat) | Leave(v: nat)
    | Take(v: nat) | LiveEnd(v: nat)
    | Poll(v: nat) | Check(v: nat) | TailEnd(v: nat)
    | Replay(v: nat)

  function Concat(q: seq<Bytes>): Bytes {
    if q == [] then "" else q[0] + Concat(q[1..])
  }

  /** A live viewer is offered a chunk: queued, or lost when the channel is full. */
  function Offer(x: Viewer, b: Bytes): Viewer {
    if x.Live? && x.open then
      if |x.queue| < CHANNEL_CAPACITY then Live(x.queue + [b], true, x.got, x.lost)
      else Live(x.queue, true, x.got, x.lost + |b|)
    else x
  }

  function Close(x: Viewer): Viewer { if x.Live? then Live(x.queue, false, x.got, x.lost) else x }

  /** The tail's flush: send what the stored output has beyond what was sent. */
  function CatchUp(got: Bytes, stored: Bytes): Bytes {
    if |stored| > |got| then got + stored[|got|..] else got
  }

  predicate Enabled(s: State, a: Step) {
    match a
    case Begin => s.phase == Waiting
    case Append(_) => s.phase == Streaming
    case Flush => s.phase == Streaming
    case MarkRunning => s.phase == Streaming
    case CloseChannels => s.phase == Streaming
    case Store(o) => s.phase == Finished && Terminal(o)
    case Forget => s.phase == Stored
    case Open(v, _) => v !in s.viewers
    case Leave(v) => v in s.viewers
    case Attach(v) => v in s.viewers && s.viewers[v].Asked?
    case Take(v) => v in s.viewers && s.viewers[v].Live? && s.viewers[v].queue != []
    case LiveEnd(v) => v in s.viewers && s.viewers[v].Live? && !s.viewers[v].open && s.viewers[v].queue == []
    case Poll(v) => v in s.viewers && s.viewers[v].Tailing?
    case Check(v) => v in s.viewers && s.viewers[v].Tailing?
    case TailEnd(v) => v in s.viewers && s.viewers[v].Checked?
    case Replay(v) => v in s.viewers && s.viewers[v].Replaying?
  }

  function Put(s: State, v: nat, x: Viewer): State { s.(viewers := s.viewers[v := x]) }

  function Next(s: State, a: Step): State
    requires Enabled(s, a)
  {
    match a
    case Begin => s.(phase := Streaming, status := Pending)
    case Append(b) => s.(buf := s.buf + b, viewers := map v | v in s.viewers :: Offer(s.viewers[v], b))
    case Flush => s.(stored := s.buf)
    case MarkRunning => s.(status := Running)
    case CloseChannels => s.(phase := Finished, viewers := map v | v in s.viewers :: Close(s.viewers[v]))
    case Store(o) => s.(phase := Stored, stored := s.buf, status := o)
    case Forget => s.(phase := Forgotten)
    case Open(v, home) => Put(s, v, Asked(home, Terminal(s.status)))
    case Leave(v) => s.(viewers := s.viewers - {v})
    case Attach(v) =>
      var x := s.viewers[v];
      Put(s, v, if x.home && s.phase == Streaming then Live([], true, s.buf, 0)
                else if x.terminal then Replaying(s.status)
                else Tailing(""))
    case Take(v) =>
      var x := s.viewers[v];
      Put(s, v, Live(x.queue[1..], x.open, x.got + x.queue[0], x.lost))
    case LiveEnd(v) => Put(s, v, Ended(s.viewers[v].got, s.viewers[v].lost, s.status))
    case Poll(v) => Put(s, v, Tailing(CatchUp(s.viewers[v].got, s.stored)))
    case Check(v) => if Terminal(s.status) then Put(s, v, Checked(s.viewers[v].got, s.status)) else s
    case TailEnd(v) => Put(s, v, Ended(CatchUp(s.viewers[v].got, s.stored), 0, s.viewers[v].status))
    case Replay(v) => Put(s, v, Ended(s.stored, 0, s.viewers[v].status))
  }

  // ---- the invariant -----------------------------------------------------------------------------

  predicate Closing(p: Phase) { p == Finished || p == Stored || p == Forgotten }

  predicate Final(p: Phase) { p == Stored || p == Forgotten }

  /** What a viewer has, lost and has still to read adds up to the output so far. */
  ghost predicate Accounts(got: Bytes, lost: nat, buf: Bytes) {
    |got| + lost == |buf| && (lost == 0 ==> got == buf)
  }

  ghost predicate ViewerOk(s: State, x: Viewer) {
    match x
    case Asked(_, terminal) => terminal ==> Final(s.phase)
    case Live(queue, open, got, lost) =>
      && (s.phase == Streaming || Closing(s.phase))
      && (open <==> s.phase == Streaming)
      && Accounts(got + Concat(queue), lost, s.buf)
    case Tailing(got) => got <= s.stored
    case Checked(got, status) => got <= s.stored && Final(s.phase) && status == s.status
    case Replaying(status) => Final(s.phase) && status == s.status
    case Ended(got, lost, status) => Closing(s.phase) && Accounts(got, lost, s.buf)
  }

  ghost predicate Inv(s: State) {
    && s.stored <= s.buf
    && (Final(s.phase) ==> s.stored == s.buf)
    && (Terminal(s.status) <==> Final(s.phase))
    && forall v :: v in s.viewers ==> ViewerOk(s, s.viewers[v])
  }

  lemma {:induction false} ConcatSnoc(q: seq<Bytes>, b: Bytes)
    ensures Concat(q + [b]) == Concat(q) + b
  {
    if q == [] {
      assert [] + [b] == [b] && [b][1..] == [];
    } else {
      assert (q + [b])[0] == q[0] && (q + [b])[1..] == q[1..] + [b];
      ConcatSnoc(q[1..], b);
    }
  }

  lemma OfferKeeps(s: State, s': State, b: Bytes, x: Viewer)
    requires Inv(s) && s.phase == Streaming && ViewerOk(s, x)
    requires s' == s.(buf := s.buf + b, viewers := s'.viewers)
    ensures ViewerOk(s', Offer(x, b))
  {
    if x.Live? {
      ConcatSnoc(x.queue, b);
      assert x.got + (Concat(x.queue) + b) == x.got + Concat(x.queue) + b;
    }
  }

  lemma TakeKeeps(s: State, v: nat)
    requires Inv(s) && Enabled(s, Take(v))
    ensures Inv(Next(s, Take(v)))
  {
    var x := s.viewers[v];
    assert x.got + (x.queue[0] + Concat(x.queue[1..])) == x.got + x.queue[0] + Concat(x.queue[1..]);
  }

  lemma OwnerKeeps(s: State, a: Step)
    requires Inv(s) && Enabled(s, a)
    requires a.Begin? || a.Append? || a.Flush? || a.MarkRunning? || a.CloseChannels? || a.Store? || a.Forget?
    ensures Inv(Next(s, a))
  {
    var s' := Next(s, a);
    forall v | v in s'.viewers ensures ViewerOk(s', s'.viewers[v]) {
      assert ViewerOk(s, s.viewers[v]);
      if a.Append? { OfferKeeps(s, s', a.b, s.viewers[v]); }
    }
  }

  lemma ViewerKeeps(s: State, a: Step)
    requires Inv(s) && Enabled(s, a)
    requires a.Open? || a.Attach? || a.Leave? || a.LiveEnd? || a.Poll? || a.Check? || a.TailEnd? || a.Replay?
    ensures Inv(Next(s, a))
  {
    match a
    case LiveEnd(v) =>
      assert s.viewers[v].got + "" == s.viewers[v].got;
    case Attach(v) =>
      assert s.buf + "" == s.buf;
    case _ =>
  }

  lemma StepKeeps(s: State, a: Step)
    requires Inv(s) && Enabled(s, a)
    ensures Inv(Next(s, a))
  {
    match a
    case Begin | Append(_) | Flush | MarkRunning | CloseChannels | Store(_) | Forget => OwnerKeeps(s, a);
    case Take(v) => TakeKeeps(s, v);
    case _ => ViewerKeeps(s, a);
  }

  // ---- theorems -----------------------------------------------------------------------------------

  const Initial := State("", Waiting, "", Queued, map[])

  ghost predicate Trace(s: State, steps: seq<Step>)
    decreases |steps|
  {
    steps == [] || (Enabled(s, steps[0]) && Trace(Next(s, steps[0]), steps[1..]))
  }

  ghost function After(s: State, steps: seq<Step>): State
    requires Trace(s, steps)
    decreases |steps|
  {
    if steps == [] then s else After(Next(s, steps[0]), steps[1..])
  }

  lemma {:induction false} InvAfter(s: State, steps: seq<Step>)
    requires Inv(s) && Trace(s, steps)
    ensures Inv(After(s, steps))
    decreases |steps|
  {
    if steps != [] {
      StepKeeps(s, steps[0]);
      InvAfter(Next(s, steps[0]), steps[1..]);
    }
  }

  lemma InvReachable(s: State)
    requires Reachable(s)
    ensures Inv(s)
  {
    var steps :| Trace(Initial, steps) && After(Initial, steps) == s;
    InvAfter(Initial, steps);
  }

  lemma {:induction false} OutputFrozen(s: State, steps: seq<Step>)
    requires Closing(s.phase) && Trace(s, steps)
    ensures After(s, steps).buf == s.buf && Closing(After(s, steps).phase)
    decreases |steps|
  {
    if steps != [] {
      OutputFrozen(Next(s, steps[0]), steps[1..]);
    }
  }

  /** A viewer that was sent "end" after `steps` has received exactly the output stored for good,
      whenever that is stored, exactly when its channel never overflowed.  A viewer that tailed or
      replayed never loses anything. */
  lemma EndMeansFinalOutput(s: State, later: seq<Step>, v: nat)
    requires Reachable(s) && Trace(s, later)
    requires v in s.viewers && s.viewers[v].Ended?
    requires Terminal(After(s, later).status)
    ensures s.viewers[v].got == After(s, later).stored <==> s.viewers[v].lost == 0
  {
    InvReachable(s);
    InvAfter(s, later);
    assert ViewerOk(s, s.viewers[v]);
    OutputFrozen(s, later);
  }

  /** Tailing and replaying lose nothing: their "end" always follows the whole stored output. */
  lemma TailAndReplayAreComplete(s: State, a: Step)
    requires Reachable(s) && Enabled(s, a) && (a.TailEnd? || a.Replay?)
    ensures Next(s, a).viewers[a.v] == Ended(s.stored, 0, s.status) && Terminal(s.status)
  {
    InvReachable(s);
    assert ViewerOk(s, s.viewers[a.v]);
  }

  /** At every moment, what a viewer that lost nothing has received is a prefix of the output. */
  lemma ReceivedIsPrefix(s: State, v: nat)
    requires Reachable(s) && v in s.viewers
    ensures var x := s.viewers[v];
            && (x.Live? && x.lost == 0 ==> x.got + Concat(x.queue) == s.buf)
            && (x.Tailing? || x.Checked? ==> x.got <= s.buf)
  {
    InvReachable(s);
    assert ViewerOk(s, s.viewers[v]);
  }

  ghost predicate Reachable(s: State) {
    exists steps :: Trace(Initial, steps) && After(Initial, steps) == s
  }

  lemma {:induction false} TraceSnoc(s: State, steps: seq<Step>, a: Step)
    requires Trace(s, steps) && Enabled(After(s, steps), a)
    ensures Trace(s, steps + [a]) && After(s, steps + [a]) == Next(After(s, steps), a)
    decreases |steps|
  {
    if steps == [] {
      assert [] + [a] == [a] && [a][1..] == [];
    } else {
      assert (steps + [a])[0] == steps[0] && (steps + [a])[1..] == steps[1..] + [a];
      TraceSnoc(Next(s, steps[0]), steps[1..], a);
    }
  }

  lemma Go(s: State, a: Step) returns (s': State)
    requires Reachable(s) && Enabled(s, a)
    ensures s' == Next(s, a) && Reachable(s')
  {
    var steps :| Trace(Initial, steps) && After(Initial, steps) == s;
    TraceSnoc(Initial, steps, a);
    s' := Next(s, a);
  }

  lemma {:induction false} StatusFrozen(s: State, steps: seq<Step>)
    requires Final(s.phase) && Trace(s, steps)
    ensures Final(After(s, steps).phase) && After(s, steps).status == s.status && After(s, steps).stored == s.stored
    decreases |steps|
  {
    if steps != [] {
      StatusFrozen(Next(s, steps[0]), steps[1..]);
    }
  }

  /** When the "end" of a live view reports the final state: exactly when the owner had stored the
      outcome before the row was read.  Then the reported status is the one the row keeps in every
      continuation; otherwise it is not terminal, and so never the one the row ends with. */
  lemma LiveEndIsFinalIff(s: State, v: nat, later: seq<Step>)
    requires Reachable(s) && Enabled(s, LiveEnd(v)) && Trace(Next(s, LiveEnd(v)), later)
    ensures var sent := Next(s, LiveEnd(v)).viewers[v].status;
            var row := After(Next(s, LiveEnd(v)), later).status;
            && (Terminal(sent) <==> Final(s.phase))
            && (Final(s.phase) ==> row == sent)
            && (Terminal(row) ==> (row == sent <==> Final(s.phase)))
  {
    InvReachable(s);
    if Final(s.phase) { StatusFrozen(Next(s, LiveEnd(v)), later); }
  }
}
