/** The two models of the drain pass agree: run step by step and left alone, the pass of `Capacity`
    does with each run what the loop body of `Dispatch` does. */
module PassRefinement {
  import opened Capacity
  import opened CapacityLimits
  import opened CapacityRuns
  import opened Dispatch
  import opened Runs
  import opened Wrappers

  /** Some steps lead from `s` to `t`. */
  ghost predicate Leads(g: Registry, s: State, t: State) {
    exists steps :: Trace(g, s, steps) && After(g, s, steps) == t
  }

  lemma LeadsSelf(g: Registry, s: State)
    ensures Leads(g, s, s)
  {
    assert Trace(g, s, []) && After(g, s, []) == s;
  }

  lemma LeadsOn(g: Registry, s: State, t: State, a: Step) returns (t': State)
    requires Leads(g, s, t) && Enabled(g, t, a)
    ensures t' == Next(g, t, a) && Leads(g, s, t')
  {
    var steps :| Trace(g, s, steps) && After(g, s, steps) == t;
    TraceSnoc(g, s, steps, a);
    t' := Next(g, t, a);
  }

  /** Nobody else acts, and the runners online stay the same. */
  function Undisturbed(g: Registry, online: seq<Runner>, syncOk: string -> bool): World {
    World((k: nat) => online, g.builtinUrl, (k: nat) => (rows: Rows) => rows, syncOk)
  }

  /** The state after the pass settled the first run on its list as `t` says. */
  function Settle(s: State, t: Turned): State
    requires s.pass.Turn? && s.pass.todo != []
  {
    var id := s.pass.todo[0];
    s.(rows := t.rows, pass := PassAt.Turn(s.pass.todo[1..], t.load),
       executing := if t.outcome.Claimed? && t.outcome.started then s.executing + {id} else s.executing)
  }

  lemma GivesUp(g: Registry, s0: State, s: State) returns (s': State)
    requires Leads(g, s0, s) && s.pass.GivingUp? && s.pass.id in s.rows
    ensures Leads(g, s0, s')
    ensures s' == s.(rows := FailRun(s.rows, s.pass.id), pass := PassAt.Turn(s.pass.todo, s.pass.load))
  {
    s' := LeadsOn(g, s0, s, GiveUpDrop);
    s' := LeadsOn(g, s0, s', GiveUpFinish);
  }

  /** From the claim on. */
  lemma ClaimSimulated(g: Registry, s0: State, s: State, env: Envelope, url: string, syncOk: string -> bool)
    returns (s': State)
    requires Leads(g, s0, s) && s.pass.Picked? && s.pass.id in s.rows
    requires s.pass.runner != "" || url == g.builtinUrl
    ensures Leads(g, s0, s')
    ensures var t := ClaimAndDispatch(s.pass.id, env, url, s.pass.runner, s.rows, s.pass.load,
                                      Undisturbed(g, s.online, syncOk));
            s' == s.(rows := t.rows, pass := PassAt.Turn(s.pass.todo, t.load),
                     executing := if t.outcome.Claimed? && t.outcome.started then s.executing + {s.pass.id}
                                  else s.executing)
  {
    s' := LeadsOn(g, s0, s, Claim);
    if Claimable(s.rows, s.pass.id) {
      s' := Sent(g, s0, s');
      if env.gitBacked && url != g.builtinUrl && !syncOk(s.pass.id) {
        s' := LeadsOn(g, s0, s', SyncFails);
        assert s'.pass.load == Keep(s.pass.load, s.pass.runner);
        s' := GivesUp(g, s0, s');
      } else {
        s' := LeadsOn(g, s0, s', Step.Start);
      }
    }
  }

  lemma Sent(g: Registry, s0: State, s: State) returns (s': State)
    requires Leads(g, s0, s) && s.pass.Won? && s.pass.id in s.rows && s.rows[s.pass.id].runner == s.pass.runner
    ensures Leads(g, s0, s')
    ensures s' == s.(rows := ClearEnvelope(s.rows, s.pass.id),
                     pass := Cleared(s.pass.id, s.pass.runner, s.pass.todo, s.pass.load))
  {
    s' := LeadsOn(g, s0, s, SetRunner);
    assert s'.rows == s.rows;
    s' := LeadsOn(g, s0, s', DropEnvelope);
  }

  /** For every state of the table, the load and the runners online: the drainer's own steps can settle
      the next run on its list exactly as one turn of the loop does. */
  lemma TurnSimulated(g: Registry, s: State, syncOk: string -> bool) returns (s': State)
    requires s.pass.Turn? && s.pass.todo != [] && s.pass.todo[0] in s.rows
    requires forall r :: r in s.online ==> r.id != ""
    ensures Leads(g, s, s')
    ensures s' == Settle(s, Dispatch.Turn(s.pass.todo[0], 0, s.rows, s.pass.load, Undisturbed(g, s.online, syncOk)))
  {
    LeadsSelf(g, s);
    var id := s.pass.todo[0];
    s' := LeadsOn(g, s, s, LoadEnvelope);
    if s.rows[id].envelope.None? {
      s' := GivesUp(g, s, s');
    } else {
      var env := s.rows[id].envelope.value;
      var c := Pick(env.tag, s.pass.load, s.online, g.builtinUrl);
      ChosenIsOnline(env.tag, s.pass.load, s.online, g.builtinUrl);
      s' := LeadsOn(g, s, s', Choose);
      if c.Chosen? { s' := ClaimSimulated(g, s, s', env, c.url, syncOk); }
    }
  }

  /** A cancel that comes between the choice of a runner and the claim wins: the run ends canceled, and
      the pass goes on with the load it had. */
  lemma CancelBeatsClaim(g: Registry, s: State) returns (s': State)
    requires s.pass.Picked? && InStatus(s, s.pass.id, Queued)
    ensures Leads(g, s, s')
    ensures s' == s.(rows := s.rows[s.pass.id := s.rows[s.pass.id].(status := Status.Canceled)],
                     pass := PassAt.Turn(s.pass.todo, s.pass.load))
  {
    LeadsSelf(g, s);
    s' := LeadsOn(g, s, s, Cancel(s.pass.id));
    s' := LeadsOn(g, s, s', Claim);
  }

  /** An envelope that is stored only after the pass found none is dropped all the same. */
  lemma LateEnvelopeIsDropped(g: Registry, s: State, e: Envelope) returns (s': State)
    requires s.pass.Turn? && s.pass.todo != [] && s.pass.todo[0] in s.rows && Launchable(e)
    requires s.rows[s.pass.todo[0]].envelope == None
    ensures Leads(g, s, s')
    ensures s' == s.(rows := FailRun(s.rows, s.pass.todo[0]), pass := PassAt.Turn(s.pass.todo[1..], s.pass.load))
  {
    LeadsSelf(g, s);
    var id := s.pass.todo[0];
    s' := LeadsOn(g, s, s, LoadEnvelope);
    s' := LeadsOn(g, s, s', WriteEnvelope(id, Some(e)));
    s' := GivesUp(g, s, s');
    assert s'.rows == FailRun(s.rows, id);
  }
}
