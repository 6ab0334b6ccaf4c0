/** Host checks that overlap: the periodic one, the one an administrator asks for, and the one
    started when monitoring is switched on all read the rows, ping, and write later.

    One host is followed.  A check reads the row and later writes the outcome of its ping as
    computed from what it read; checks, and changes of the configuration, interleave freely. */
module MonitorOverlap {
  import opened Monitoring

  datatype State = State(row: Monitor, pending: map<nat, Monitor>, alerts: seq<Alert>)

  datatype Step = Read(check: nat) | Write(check: nat, reachable: bool) | Configure(inventory: string, threshold: int)

  /** What a check that read `stale` makes of the row: the status and the failure count are its own. */
  function Written(m: Monitor, stale: Monitor, reachable: bool): Monitor {
    var c := Check(stale, reachable).monitor;
    m.(status := c.status, consecFails := c.consecFails)
  }

  /** One step, with up to `checks` checks under way; one that is not possible changes nothing. */
  function Next(checks: nat, s: State, a: Step): State {
    match a
    case Read(k) => if k < checks && k !in s.pending then s.(pending := s.pending[k := s.row]) else s
    case Write(k, r) =>
      if k !in s.pending then s
      else State(Written(s.row, s.pending[k], r), s.pending - {k}, s.alerts + Check(s.pending[k], r).alerts)
    case Configure(inv, t) => s.(row := Ensured([s.row], inv, t))
  }

  function Run(checks: nat, s: State, steps: seq<Step>): State
    decreases |steps|
  {
    if steps == [] then s else Run(checks, Next(checks, s, steps[0]), steps[1..])
  }

  function Initial(inventory: string, threshold: int): State { State(Fresh(inventory, threshold), map[], []) }

  /** Exactly which writes keep the alerts in step with the status: those of checks that read the
      host as down just when it is still down, or as not down just when it still is not. */
  lemma StaleWriteKeepsIff(m: Monitor, stale: Monitor, alerts: seq<Alert>, reachable: bool)
    requires Consistent(m, alerts)
    ensures Consistent(Written(m, stale, reachable), alerts + Check(stale, reachable).alerts)
            <==> (stale.status == Down <==> m.status == Down)
    ensures Written(m, m, reachable) == Check(m, reachable).monitor
  {
    var fired := Check(stale, reachable).alerts;
    assert alerts + [] == alerts;
    forall a, b { CountSnoc(alerts, a, b); }
    if fired != [] {
      assert fired == [fired[0]];
      assert (alerts + fired)[|alerts|] == fired[0];
    }
  }

  /** At most one check is under way, and the row still has the status it read. */
  ghost predicate Alone(s: State) {
    && Consistent(s.row, s.alerts)
    && forall k :: k in s.pending ==> k == 0 && s.pending[k].status == s.row.status
  }

  lemma AloneStep(s: State, a: Step)
    requires Alone(s)
    ensures Alone(Next(1, s, a)) && Alone(Next(0, s, a))
  {
    if a.Write? && a.check in s.pending {
      StaleWriteKeepsIff(s.row, s.pending[a.check], s.alerts, a.reachable);
    }
  }

  lemma {:induction false} AloneRun(checks: nat, s: State, steps: seq<Step>)
    requires checks <= 1 && Alone(s)
    ensures Alone(Run(checks, s, steps))
    decreases |steps|
  {
    if steps != [] {
      AloneStep(s, steps[0]);
      AloneRun(checks, Next(checks, s, steps[0]), steps[1..]);
    }
  }

  function Overlapping(): seq<Step> {
    [Step.Configure("", 1), Read(0), Read(1), Write(0, false), Write(1, false)]
  }

  /** Two checks that both read the host before either wrote fire host-down twice. */
  lemma DownTwice(checks: nat, s: State)
    requires checks >= 2 && s.pending == map[] && s.alerts == [] && s.row.status != Down
    ensures Run(checks, s, Overlapping()).alerts == [HostDown, HostDown]
  {
    var steps := Overlapping();
    var s1 := Next(checks, s, steps[0]);
    var s2 := Next(checks, s1, steps[1]);
    var s3 := Next(checks, s2, steps[2]);
    var s4 := Next(checks, s3, steps[3]);
    var s5 := Next(checks, s4, steps[4]);
    assert s3.pending == map[0 := s1.row, 1 := s1.row] && s4.alerts == [] + [HostDown] == [HostDown];
    assert s5.alerts == [HostDown] + [HostDown] == [HostDown, HostDown];
    assert steps[1..][1..] == steps[2..] && steps[2..][1..] == steps[3..] && steps[3..][1..] == [steps[4]];
    assert [steps[4]][1..] == [];
    assert Run(checks, s4, [steps[4]]) == Run(checks, s5, []) == s5;
    assert Run(checks, s3, steps[3..]) == s5;
    assert Run(checks, s2, steps[2..]) == s5;
    assert Run(checks, s1, steps[1..]) == s5;
  }

  /** Alerts alternate, beginning with host-down, in every execution exactly when no two checks are
      ever under way together. */
  lemma AlternateIff(checks: nat, inventory: string, threshold: int)
    ensures (forall steps :: Alternate(Run(checks, Initial(inventory, threshold), steps).alerts)) <==> checks <= 1
  {
    var s := Initial(inventory, threshold);
    if checks <= 1 {
      forall steps ensures Alternate(Run(checks, s, steps).alerts) { AloneRun(checks, s, steps); }
    } else {
      DownTwice(checks, s);
      var alerts := Run(checks, s, Overlapping()).alerts;
      assert alerts[1] == HostDown && !Alternate(alerts);
    }
  }
}
