/** Exactly which runners keep their caps, with the executions in which the others do not. */
module CapacityLimits {
  import opened Capacity
  import opened CapacityRuns
  import opened Dispatch
  import opened Runs
  import opened Wrappers

  lemma {:induction false} TraceSnoc(g: Registry, s: State, steps: seq<Step>, a: Step)
    requires Trace(g, s, steps) && Enabled(g, After(g, s, steps), a)
    ensures Trace(g, s, steps + [a]) && After(g, s, steps + [a]) == Next(g, After(g, s, steps), a)
    decreases |steps|
  {
    if steps == [] {
      assert [] + [a] == [a] && [a][1..] == [];
    } else {
      assert (steps + [a])[0] == steps[0] && (steps + [a])[1..] == steps[1..] + [a];
      TraceSnoc(g, Next(g, s, steps[0]), steps[1..], a);
    }
  }

  lemma Go(g: Registry, s: State, a: Step) returns (s': State)
    requires Reachable(g, s) && Enabled(g, s, a)
    ensures s' == Next(g, s, a) && Reachable(g, s')
  {
    var steps :| Trace(g, Initial, steps) && After(g, Initial, steps) == s;
    TraceSnoc(g, Initial, steps, a);
    s' := Next(g, s, a);
  }

  lemma InitialReachable(g: Registry)
    ensures Reachable(g, Initial)
  {
    assert Trace(g, Initial, []) && After(g, Initial, []) == Initial;
  }

  /** A pass reads the envelope of the first run it lists. */
  lemma ReadFirst(g: Registry, s: State, env: Envelope, q: seq<string>) returns (s': State)
    requires Reachable(g, s) && s.pass.Resting? && ListsQueue(s, q)
    requires q != [] && InStatus(s, q[0], Queued) && s.rows[q[0]].envelope == Some(env)
    ensures Reachable(g, s') && s' == s.(pass := Held(q[0], env, q[1..], CountActive(s.rows)))
  {
    s' := Go(g, s, ListQueue(q));
    s' := Go(g, s', Count);
    s' := Go(g, s', LoadEnvelope);
  }

  /** Its claim succeeds if `r` is picked for it. */
  lemma ClaimFor(g: Registry, s: State, r: Runner) returns (s': State)
    requires Reachable(g, s) && s.pass.Held? && InStatus(s, s.pass.id, Queued)
    requires Pick(s.pass.env.tag, s.pass.load, s.online, g.builtinUrl) == Chosen(r.url, r.id)
    ensures Reachable(g, s') && s'.pass.Won? && s'.pass.id == s.pass.id && s'.pass.runner == r.id
         && s'.pass.todo == s.pass.todo
    ensures s' == s.(rows := s.rows[s.pass.id := s.rows[s.pass.id].(status := Pending, runner := r.id)],
                     pass := s'.pass)
  {
    s' := Go(g, s, Choose);
    s' := Go(g, s', Claim);
  }

  lemma StartLast(g: Registry, s: State) returns (s': State)
    requires Reachable(g, s) && s.pass.Won? && s.pass.id in s.rows && s.pass.todo == []
    ensures Reachable(g, s')
    ensures s' == s.(rows := s.rows[s.pass.id := s.rows[s.pass.id].(runner := s.pass.runner, envelope := None)],
                     executing := s.executing + {s.pass.id}, pass := Resting)
  {
    s' := Go(g, s, SetRunner);
    s' := Go(g, s', DropEnvelope);
    s' := Go(g, s', Start);
    s' := Go(g, s', EndPass);
  }

  lemma NewRun(g: Registry, s: State, id: string, env: Envelope, held: bool) returns (s': State)
    requires Reachable(g, s) && id !in s.rows && Launchable(env)
    ensures Reachable(g, s')
    ensures s' == s.(rows := s.rows[id := Row(if held then Awaiting else Queued, "", Some(env))],
                     created := s.created[id := |s.created|])
  {
    s' := Go(g, s, Create(id, held));
    s' := Go(g, s', WriteEnvelope(id, Some(env)));
  }

  /** The envelope of a run for tag `tag`, backed by git where it has to be. */
  function EnvelopeFor(tag: string): Envelope { Envelope(tag, !DefaultPool(tag)) }

  /** With nobody else online, `r` is picked for tag `tag` up to a load of `n`. */
  ghost predicate Takes(g: Registry, r: Runner, tag: string, n: nat) {
    forall load :: LoadOf(load, r.id) <= n ==> Pick(tag, load, [r], g.builtinUrl) == Chosen(r.url, r.id)
  }

  lemma TakesDefault(g: Registry, r: Runner, n: nat)
    requires "default" in r.tags
    ensures Takes(g, r, "", n)
  {
    assert Pool([r], "default") == [r];
  }

  lemma TakesBelowCap(g: Registry, r: Runner, tag: string, n: nat)
    requires tag in r.tags && !DefaultPool(tag) && n < r.cap
    ensures Takes(g, r, tag, n)
  {
    assert [r][1..] == [] && Pool([r], tag) == [r];
    forall load | LoadOf(load, r.id) <= n ensures LeastLoaded([r], load) == Some(r) {
      assert LeastLoaded([r][1..], load) == None;
    }
  }

  lemma IdleRow(rows: Rows, id: string, row: Row, r: string)
    requires id !in ActiveOn(rows, r) && !Active(row.status)
    ensures ActiveOn(rows[id := row], r) == ActiveOn(rows, r)
    ensures LoadOf(CountActive(rows[id := row]), r) <= |ActiveOn(rows, r)|
  {
  }

  /** The drainer rests, only `r` is online, and every run there is occupies `r`. */
  ghost predicate AllOn(s: State, r: Runner) {
    && s.pass.Resting? && s.online == [r]
    && forall id :: id in s.rows ==> s.rows[id] == Row(Pending, r.id, None)
  }

  /** A queued run, alone in the queue, is started on `r`. */
  lemma StartOn(g: Registry, s: State, id: string, r: Runner, tag: string) returns (s': State)
    requires Reachable(g, s) && s.pass.Resting? && s.online == [r] && id in s.rows
    requires s.rows[id] == Row(Queued, "", Some(EnvelopeFor(tag))) && ListsQueue(s, [id])
    requires Takes(g, r, tag, LoadOf(CountActive(s.rows), r.id))
    ensures Reachable(g, s')
    ensures s' == s.(rows := s.rows[id := Row(Pending, r.id, None)], executing := s.executing + {id})
  {
    s' := ReadFirst(g, s, EnvelopeFor(tag), [id]);
    s' := ClaimFor(g, s', r);
    s' := StartLast(g, s');
  }

  lemma RunningCounts(rows: Rows, id: string, row: Row, r: string)
    requires id !in ActiveOn(rows, r) && Active(row.status) && row.runner == r
    ensures |ActiveOn(rows[id := row], r)| == |ActiveOn(rows, r)| + 1
  {
    assert ActiveOn(rows[id := row], r) == ActiveOn(rows, r) + {id};
  }

  lemma NewIsAllQueue(s: State, s': State, id: string, r: Runner)
    requires AllOn(s, r) && id !in s.rows && id in s'.rows && s'.rows[id].status == Queued
    requires s'.rows == s.rows[id := s'.rows[id]]
    ensures ListsQueue(s', [id])
  {
    forall x ensures x in [id] <==> InStatus(s', x, Queued) {
      assert x in s.rows ==> s.rows[x].status == Pending;
    }
  }

  lemma OneMore(g: Registry, s: State, id: string, r: Runner, tag: string) returns (s': State)
    requires Reachable(g, s) && AllOn(s, r) && id !in s.rows && Takes(g, r, tag, |ActiveOn(s.rows, r.id)|)
    ensures Reachable(g, s') && AllOn(s', r) && |ActiveOn(s'.rows, r.id)| == |ActiveOn(s.rows, r.id)| + 1
    ensures s' == s.(rows := s.rows[id := Row(Pending, r.id, None)], executing := s.executing + {id},
                     created := s.created[id := |s.created|])
  {
    s' := NewRun(g, s, id, EnvelopeFor(tag), false);
    IdleRow(s.rows, id, s'.rows[id], r.id);
    NewIsAllQueue(s, s', id, r);
    s' := StartOn(g, s', id, r, tag);
    assert s'.rows == s.rows[id := Row(Pending, r.id, None)];
    RunningCounts(s.rows, id, Row(Pending, r.id, None), r.id);
  }

  function Name(n: nat): string { seq(n, _ => 'r') }

  /** Any number of runs that `r` takes can be piled up on it. */
  lemma {:induction false} FillUp(g: Registry, s: State, r: Runner, tag: string, n: nat) returns (s': State)
    requires Reachable(g, s) && AllOn(s, r) && forall k :: Name(k) !in s.rows
    requires forall m :: 0 <= m < |ActiveOn(s.rows, r.id)| + n ==> Takes(g, r, tag, m)
    ensures Reachable(g, s') && AllOn(s', r) && |ActiveOn(s'.rows, r.id)| == |ActiveOn(s.rows, r.id)| + n
    ensures s'.deciders == s.deciders && s.executing <= s'.executing && s.rows.Keys <= s'.rows.Keys
    ensures forall id :: id in s'.rows ==> id in s.rows || (|id| < n && id == Name(|id|))
    ensures forall id :: id in s.created && id in s.rows ==> id in s'.created && s'.created[id] == s.created[id]
  {
    if n == 0 {
      s' := s;
    } else {
      var t := FillUp(g, s, r, tag, n - 1);
      assert |Name(n - 1)| == n - 1;
      s' := OneMore(g, t, Name(n - 1), r, tag);
    }
  }

  lemma OnlyOnline(g: Registry, r: Runner) returns (s: State)
    requires r in g.runners
    ensures Reachable(g, s) && s == Initial.(online := [r])
  {
    InitialReachable(g);
    s := Go(g, Initial, Heartbeat(r));
  }

  /** A heartbeat puts a runner that advertises "default" first, and untagged runs then pile up on it. */
  lemma DefaultOverfull(g: Registry, r: Runner, n: nat) returns (s: State)
    requires r in g.runners && "default" in r.tags
    ensures Reachable(g, s) && |ActiveOn(s.rows, r.id)| == n
  {
    s := OnlyOnline(g, r);
    assert ActiveOn(s.rows, r.id) == {};
    forall m | 0 <= m < n ensures Takes(g, r, "", m) { TakesDefault(g, r, m); }
    s := FillUp(g, s, r, "", n);
  }

  const VICTIM := "x"

  lemma VictimIsNoName(n: nat)
    ensures Name(n) != VICTIM
  {
    if |Name(n)| == 1 { assert Name(n)[0] == 'r'; }
  }

  lemma VictimQueued(g: Registry, r: Runner, tag: string) returns (s: State)
    requires !g.checkAndSet && r in g.runners
    ensures Reachable(g, s) && s.pass.Resting? && s.online == [r] && s.deciders == map[1 := Approving(VICTIM)]
    ensures s.rows == map[VICTIM := Row(Queued, "", Some(EnvelopeFor(tag)))] && s.executing == {}
    ensures s.created == map[VICTIM := 0]
  {
    s := OnlyOnline(g, r);
    s := NewRun(g, s, VICTIM, EnvelopeFor(tag), true);
    s := Go(g, s, ReadAwaiting(0, Approving(VICTIM)));
    s := Go(g, s, ReadAwaiting(1, Approving(VICTIM)));
    s := Go(g, s, WriteDecision(0));
  }

  /** A run approved twice occupies `r`; the second approval has still to be written. */
  lemma VictimStarted(g: Registry, r: Runner, tag: string) returns (s: State)
    requires !g.checkAndSet && r in g.runners && tag in r.tags && !DefaultPool(tag) && r.cap > 0
    ensures Reachable(g, s) && AllOn(s, r) && s.rows.Keys == {VICTIM} && VICTIM in s.executing
    ensures s.deciders == map[1 := Approving(VICTIM)]
    ensures |ActiveOn(s.rows, r.id)| == 1 && s.created == map[VICTIM := 0]
  {
    s := VictimQueued(g, r, tag);
    IdleRow(map[], VICTIM, s.rows[VICTIM], r.id);
    TakesBelowCap(g, r, tag, 0);
    s := StartOn(g, s, VICTIM, r, tag);
    assert ActiveOn(s.rows, r.id) == {VICTIM};
  }

  /** The stale approval puts the run back into the queue, although it occupies `r`. */
  lemma Requeued(g: Registry, full: State, r: Runner) returns (s: State)
    requires Reachable(g, full) && AllOn(full, r) && full.deciders == map[1 := Approving(VICTIM)] && VICTIM in full.rows
    ensures Reachable(g, s) && |ActiveOn(s.rows, r.id)| == |ActiveOn(full.rows, r.id)| - 1
    ensures s == full.(rows := full.rows[VICTIM := Row(Queued, r.id, None)], deciders := map[])
  {
    s := Go(g, full, WriteDecision(1));
    assert ActiveOn(s.rows, r.id) == ActiveOn(full.rows, r.id) - {VICTIM};
  }

  /** A newer run joins the victim in the queue, and a pass counts the load. */
  lemma BothListed(g: Registry, s: State, id: string, tag: string) returns (s': State)
    requires Reachable(g, s) && s.pass.Resting? && id !in s.rows && id != VICTIM
    requires forall x :: InStatus(s, x, Queued) <==> x == VICTIM
    requires VICTIM in s.created && s.created[VICTIM] == 0
    ensures Reachable(g, s')
    ensures s' == s.(rows := s.rows[id := Row(Queued, "", Some(EnvelopeFor(tag)))],
                     created := s.created[id := |s.created|],
                     pass := Turn([VICTIM, id], CountActive(s'.rows)))
  {
    s' := NewRun(g, s, id, EnvelopeFor(tag), false);
    assert VICTIM in s.created.Keys;
    assert CreatedAt(s', VICTIM) < CreatedAt(s', id);
    forall x ensures x in [VICTIM, id] <==> InStatus(s', x, Queued) {
      assert x != id ==> (InStatus(s', x, Queued) <==> InStatus(s, x, Queued));
    }
    s' := Go(g, s', ListQueue([VICTIM, id]));
    s' := Go(g, s', Count);
  }

  /** The pass finds no envelope and gives the victim up; then its executor marks it running. */
  lemma VictimGivenUp(g: Registry, s: State, r: Runner, id: string) returns (s': State)
    requires Reachable(g, s) && s.pass.Turn? && s.pass.todo == [VICTIM, id] && VICTIM in s.executing
    requires VICTIM in s.rows && s.rows[VICTIM] == Row(Queued, r.id, None)
    ensures Reachable(g, s')
    ensures s' == s.(rows := s.rows[VICTIM := Row(Running, r.id, None)], pass := Turn([id], s.pass.load))
  {
    assert [VICTIM, id][1..] == [id];
    s' := Go(g, s, LoadEnvelope);
    s' := Go(g, s', GiveUpDrop);
    s' := Go(g, s', GiveUpFinish);
    s' := Go(g, s', MarkRunning(VICTIM));
  }

  /** The newer run is claimed with the load counted before that. */
  lemma NewerClaimed(g: Registry, s: State, r: Runner, tag: string, id: string) returns (s': State)
    requires Reachable(g, s) && s.online == [r] && id in s.rows && s.rows[id] == Row(Queued, "", Some(EnvelopeFor(tag)))
    requires s.pass.Turn? && s.pass.todo == [id] && Takes(g, r, tag, LoadOf(s.pass.load, r.id))
    ensures Reachable(g, s') && |ActiveOn(s'.rows, r.id)| == |ActiveOn(s.rows, r.id)| + 1
  {
    s' := Go(g, s, LoadEnvelope);
    s' := ClaimFor(g, s', r);
    assert ActiveOn(s'.rows, r.id) == ActiveOn(s.rows, r.id) + {id};
  }

  /** From a runner with one free slot, the victim queued again although it occupies another. */
  lemma OneTooMany(g: Registry, s: State, r: Runner, tag: string, id: string) returns (s': State)
    requires Reachable(g, s) && s.pass.Resting? && s.online == [r] && id !in s.rows && id != VICTIM
    requires forall x :: InStatus(s, x, Queued) <==> x == VICTIM
    requires VICTIM in s.created && s.created[VICTIM] == 0 && VICTIM in s.executing
    requires VICTIM in s.rows && s.rows[VICTIM] == Row(Queued, r.id, None)
    requires forall m :: 0 <= m <= |ActiveOn(s.rows, r.id)| ==> Takes(g, r, tag, m)
    ensures Reachable(g, s') && |ActiveOn(s'.rows, r.id)| == |ActiveOn(s.rows, r.id)| + 2
  {
    s' := BothListed(g, s, id, tag);
    IdleRow(s.rows, id, s'.rows[id], r.id);
    var listed := s'.rows;
    s' := VictimGivenUp(g, s', r, id);
    RunningCounts(listed, VICTIM, s'.rows[VICTIM], r.id);
    s' := NewerClaimed(g, s', r, tag, id);
  }

  /** With the handlers as written, two racing approvals of one run put any runner over its cap. */
  lemma StaleOverfull(g: Registry, r: Runner, tag: string) returns (s: State)
    requires !g.checkAndSet && r in g.runners && tag in r.tags && !DefaultPool(tag) && r.cap > 0
    ensures Reachable(g, s) && |ActiveOn(s.rows, r.id)| == r.cap + 1
  {
    s := VictimStarted(g, r, tag);
    forall n ensures Name(n) !in s.rows { VictimIsNoName(n); }
    forall m | 0 <= m < r.cap ensures Takes(g, r, tag, m) { TakesBelowCap(g, r, tag, m); }
    s := FillUp(g, s, r, tag, r.cap - 1);
    s := Requeued(g, s, r);
    VictimIsNoName(r.cap - 1);
    assert |Name(r.cap - 1)| == r.cap - 1;
    s := OneTooMany(g, s, r, tag, Name(r.cap - 1));
  }

  // ---- heartbeats and silence --------------------------------------------------------------------------

  /** An untagged run goes to the runner advertising "default" whose heartbeat came last. */
  lemma HeartbeatDraws(g: Registry, s: State, r: Runner)
    requires s.pass.Held? && s.pass.env.tag in {"", "default"} && r in g.runners && "default" in r.tags
    ensures Trace(g, s, [Heartbeat(r), Choose])
    ensures After(g, s, [Heartbeat(r), Choose]).pass == Picked(s.pass.id, r.id, s.pass.todo, s.pass.load)
  {
    var s1 := Next(g, s, Heartbeat(r));
    assert [Heartbeat(r), Choose][1..] == [Choose] && [Choose][1..] == [];
    assert FirstWith(s1.online, "default", 0);
    DefaultIsSeenLast(s1.online, s.pass.load, g.builtinUrl, s.pass.env.tag);
    assert After(g, Next(g, s1, Choose), []) == Next(g, s1, Choose);
  }

  /** A runner that went silent is not chosen. */
  lemma SilentIsPassedOver(g: Registry, s: State, r: Runner)
    requires s.pass.Held? && r in s.online && OnlyOne(r, s.online)
    ensures Trace(g, s, [Silence(r), Choose])
    ensures var p := After(g, s, [Silence(r), Choose]).pass;
            p.Picked? ==> p.runner != r.id
  {
    var s1 := Next(g, s, Silence(r));
    assert [Silence(r), Choose][1..] == [Choose] && [Choose][1..] == [];
    assert After(g, Next(g, s1, Choose), []) == Next(g, s1, Choose);
    ChosenIsOnline(s.pass.env.tag, s.pass.load, s1.online, g.builtinUrl);
  }

  /** A runner without a tag that runs can ask for, other than "default", is never used. */
  ghost predicate Unused(g: Registry, s: State, r: Runner) {
    && (forall x :: x in s.online ==> x in g.runners)
    && (forall id :: id in s.rows ==> s.rows[id].runner != r.id)
    && (s.pass.Picked? || s.pass.Won? || s.pass.RunnerSet? || s.pass.Cleared? ==> s.pass.runner != r.id)
  }

  lemma NeverPicked(g: Registry, tag: string, load: Load, online: seq<Runner>, r: Runner)
    requires OnlyOne(r, g.runners) && (forall x :: x in online ==> x in g.runners)
    requires "default" !in r.tags && forall t :: t in r.tags ==> DefaultPool(t)
    ensures var c := Pick(tag, load, online, g.builtinUrl);
            c.Chosen? ==> c.id != r.id
  {
    LeastLoadedIs(Pool(online, tag), load);
    assert Pool(online, "default") != [] ==> Pool(online, "default")[0] in online;
  }

  lemma UnusedOutside(g: Registry, s: State, a: Step, r: Runner)
    requires OnlyOne(r, g.runners) && Unused(g, s, r) && Enabled(g, s, a) && Outside(a)
    ensures Unused(g, Next(g, s, a), r)
  {
    var s' := Next(g, s, a);
    if a.Heartbeat? || a.Silence? {
      assert s'.rows == s.rows;
    } else {
      assert s'.online == s.online;
      forall id | id in s'.rows ensures s'.rows[id].runner != r.id {
        assert if id in s.rows then s'.rows[id].runner == s.rows[id].runner else s'.rows[id].runner == "";
      }
    }
  }

  lemma UnusedPass(g: Registry, s: State, a: Step, r: Runner)
    requires OnlyOne(r, g.runners) && "default" !in r.tags && forall t :: t in r.tags ==> DefaultPool(t)
    requires Unused(g, s, r) && Enabled(g, s, a) && !Outside(a)
    ensures Unused(g, PassNext(g, s, a), r)
  {
    if a.Choose? { NeverPicked(g, s.pass.env.tag, s.pass.load, s.online, r); }
  }

  lemma UnusedStep(g: Registry, s: State, a: Step, r: Runner)
    requires OnlyOne(r, g.runners) && "default" !in r.tags && forall t :: t in r.tags ==> DefaultPool(t)
    requires Unused(g, s, r) && Enabled(g, s, a)
    ensures Unused(g, Next(g, s, a), r)
  {
    if Outside(a) {
      UnusedOutside(g, s, a, r);
    } else {
      UnusedPass(g, s, a, r);
    }
  }

  lemma {:induction false} UnusedAfter(g: Registry, s: State, steps: seq<Step>, r: Runner)
    requires OnlyOne(r, g.runners) && "default" !in r.tags && forall t :: t in r.tags ==> DefaultPool(t)
    requires Unused(g, s, r) && Trace(g, s, steps)
    ensures ActiveOn(After(g, s, steps).rows, r.id) == {}
    decreases |steps|
  {
    if steps != [] {
      UnusedStep(g, s, steps[0], r);
      UnusedAfter(g, Next(g, s, steps[0]), steps[1..], r);
    }
  }

  /** Exactly which caps are kept in every reachable state: that of a runner which does not
      advertise "default", if decisions are check-and-set or nothing can be sent to it at all. */
  lemma CapKeptIff(g: Registry, r: Runner)
    requires r in g.runners && r.cap > 0 && OnlyOne(r, g.runners)
    ensures (forall s :: Reachable(g, s) ==> |ActiveOn(s.rows, r.id)| <= r.cap)
       <==> "default" !in r.tags && (g.checkAndSet || forall t :: t in r.tags ==> DefaultPool(t))
  {
    if "default" in r.tags {
      var s := DefaultOverfull(g, r, r.cap + 1);
    } else if g.checkAndSet {
      forall s | Reachable(g, s) ensures |ActiveOn(s.rows, r.id)| <= r.cap {
        CheckAndSetIsCalm(g, s);
        NeverOverCapacity(g, s, r);
      }
    } else if tag :| tag in r.tags && !DefaultPool(tag) {
      var s := StaleOverfull(g, r, tag);
    } else {
      forall s | Reachable(g, s) ensures |ActiveOn(s.rows, r.id)| <= r.cap {
        var steps :| Trace(g, Initial, steps) && After(g, Initial, steps) == s;
        UnusedAfter(g, Initial, steps, r);
      }
    }
  }
}
