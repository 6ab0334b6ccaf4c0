/** Host reachability monitoring: failure streaks, thresholds, and the alerts they fire. */
module Monitoring {

  datatype Status = Unknown | Up | Down

  datatype Alert = HostDown | HostUp

  datatype Monitor = Monitor(inventory: string, status: Status, consecFails: nat, threshold: int)

  type Monitors = map<string, Monitor>

  const DEFAULT_THRESHOLD := 3

  // ---- one host --------------------------------------------------------------------------------

  datatype Checked = Checked(monitor: Monitor, alerts: seq<Alert>)

  /** What one ping result makes of a monitor, and the alert it fires. */
  function Check(m: Monitor, reachable: bool): Checked {
    if reachable then
      Checked(m.(status := Up, consecFails := 0), if m.status == Down then [HostUp] else [])
    else
      var consec := m.consecFails + 1;
      var status := if consec >= m.threshold then Down else if m.status != Down then Unknown else m.status;
      Checked(m.(status := status, consecFails := consec),
              if m.status != Down && status == Down then [HostDown] else [])
  }

  /** Monitoring switched on: a new monitor, or a new inventory and threshold for an old one. */
  function Ensured(old_: seq<Monitor>, inventory: string, threshold: int): Monitor {
    var t := if threshold <= 0 then DEFAULT_THRESHOLD else threshold;
    if old_ == [] then Monitor(inventory, Unknown, 0, t)
    else old_[0].(inventory := inventory, threshold := t)
  }

  // ---- the check over all hosts ------------------------------------------------------------------

  /** The rows, and the alerts fired so far with their hosts, in order. */
  class MonitorTable {
    var rows: Monitors
    var alerts: seq<(string, Alert)>

    constructor ()
      ensures rows == map[] && alerts == []
    {
      rows, alerts := map[], [];
    }

    method EnsureHostMonitor(host: string, inventory: string, threshold: int)
      modifies this`rows
      ensures rows == old(rows)[host := Ensured(if host in old(rows) then [old(rows)[host]] else [],
                                                inventory, threshold)]
    {
      var t := if threshold <= 0 then DEFAULT_THRESHOLD else threshold;
      if host in rows {
        rows := rows[host := rows[host].(inventory := inventory, threshold := t)];
      } else {
        rows := rows[host := Monitor(inventory, Unknown, 0, t)];
      }
    }

    method UpdateHostMonitorStatus(host: string, status: Status, consecFails: nat)
      modifies this`rows
      ensures rows == if host in old(rows)
                      then old(rows)[host := old(rows)[host].(status := status, consecFails := consecFails)]
                      else old(rows)
    {
      if host in rows { rows := rows[host := rows[host].(status := status, consecFails := consecFails)]; }
    }

    /** One host's ping result: its row moves as `Check` says and its alert, if any, fires. */
    method CheckHost(host: string, isReachable: bool)
      requires host in rows
      modifies this
      ensures rows == old(rows)[host := Check(old(rows)[host], isReachable).monitor]
      ensures alerts == old(alerts) + Tag(host, Check(old(rows)[host], isReachable).alerts)
    {
      var m := rows[host];
      var prev := m.status;
      if isReachable {
        UpdateHostMonitorStatus(host, Up, 0);
        if prev == Down {
          alerts := alerts + [(host, HostUp)];
        }
        return;
      }
      var consec := m.consecFails + 1;
      var status := m.status;
      if consec >= m.threshold {
        status := Down;
      } else if status != Down {
        status := Unknown;
      }
      UpdateHostMonitorStatus(host, status, consec);
      if prev != Down && status == Down {
        alerts := alerts + [(host, HostDown)];
      }
    }

    /** One pass over the listed hosts with the ping results: each row moves as `Check` says, its
        alerts follow in the order of the list, and no other row changes. */
    method CheckHostMonitors(hosts: seq<string>, reachable: set<string>)
      requires forall h :: h in hosts ==> h in rows
      requires forall i, j :: 0 <= i < j < |hosts| ==> hosts[i] != hosts[j]
      modifies this
      ensures rows == map h | h in old(rows) ::
                        if h in hosts then Check(old(rows)[h], h in reachable).monitor else old(rows)[h]
      ensures alerts == old(alerts) + AlertsOf(hosts, old(rows), reachable)
    {
      for i := 0 to |hosts|
        invariant rows == map h | h in old(rows) ::
                            if h in hosts[..i] then Check(old(rows)[h], h in reachable).monitor else old(rows)[h]
        invariant alerts == old(alerts) + AlertsOf(hosts[..i], old(rows), reachable)
      {
        assert hosts[i] !in hosts[..i];
        AlertsSnoc(hosts[..i], hosts[i], old(rows), reachable);
        assert hosts[..i + 1] == hosts[..i] + [hosts[i]];
        CheckHost(hosts[i], hosts[i] in reachable);
      }
      assert hosts[..|hosts|] == hosts;
    }
  }

  function Tag(host: string, alerts: seq<Alert>): seq<(string, Alert)> {
    seq(|alerts|, i requires 0 <= i < |alerts| => (host, alerts[i]))
  }

  function AlertsOf(hosts: seq<string>, rows: Monitors, reachable: set<string>): seq<(string, Alert)>
    requires forall h :: h in hosts ==> h in rows
  {
    if hosts == [] then []
    else Tag(hosts[0], Check(rows[hosts[0]], hosts[0] in reachable).alerts) + AlertsOf(hosts[1..], rows, reachable)
  }

  lemma {:induction false} AlertsSnoc(hosts: seq<string>, host: string, rows: Monitors, reachable: set<string>)
    requires host in rows && forall h :: h in hosts ==> h in rows
    ensures AlertsOf(hosts + [host], rows, reachable)
         == AlertsOf(hosts, rows, reachable) + Tag(host, Check(rows[host], host in reachable).alerts)
  {
    if hosts == [] {
      assert [] + [host] == [host] && [host][1..] == [];
    } else {
      assert (hosts + [host])[0] == hosts[0] && (hosts + [host])[1..] == hosts[1..] + [host];
      AlertsSnoc(hosts[1..], host, rows, reachable);
    }
  }

  /** A pass alerts exactly for the listed hosts whose own ping calls for it, each under its own name. */
  lemma {:induction false} AlertsNameTheirHosts(hosts: seq<string>, rows: Monitors, reachable: set<string>,
                                                host: string, a: Alert)
    requires forall h :: h in hosts ==> h in rows
    ensures (host, a) in AlertsOf(hosts, rows, reachable)
       <==> host in hosts && a in Check(rows[host], host in reachable).alerts
  {
    if hosts != [] {
      var own := Check(rows[hosts[0]], hosts[0] in reachable).alerts;
      AlertsNameTheirHosts(hosts[1..], rows, reachable, host, a);
      assert host in hosts <==> host == hosts[0] || host in hosts[1..];
      TagMembers(hosts[0], own, host, a);
    }
  }

  lemma TagMembers(tag: string, alerts: seq<Alert>, host: string, a: Alert)
    ensures (host, a) in Tag(tag, alerts) <==> host == tag && a in alerts
  {
    if host == tag && a in alerts {
      var i :| 0 <= i < |alerts| && alerts[i] == a;
      assert Tag(tag, alerts)[i] == (host, a);
    }
  }

  // ---- the life of one monitor ---------------------------------------------------------------------

  datatype Event = Ping(reachable: bool) | Configure(inventory: string, threshold: int)

  function Fresh(inventory: string, threshold: int): Monitor { Ensured([], inventory, threshold) }

  function After(m: Monitor, events: seq<Event>): Monitor {
    if events == [] then m
    else
      var e := events[|events| - 1];
      var before := After(m, events[..|events| - 1]);
      match e
      case Ping(r) => Check(before, r).monitor
      case Configure(inv, t) => Ensured([before], inv, t)
  }

  function Alerts(m: Monitor, events: seq<Event>): seq<Alert> {
    if events == [] then []
    else
      var e := events[|events| - 1];
      var front := events[..|events| - 1];
      Alerts(m, front) + if e.Ping? then Check(After(m, front), e.reachable).alerts else []
  }

  /** The number of failed pings since the last successful one. */
  function Streak(events: seq<Event>): nat {
    if events == [] then 0
    else
      var e := events[|events| - 1];
      var before := Streak(events[..|events| - 1]);
      if !e.Ping? then before else if e.reachable then 0 else before + 1
  }

  function Count(alerts: seq<Alert>, a: Alert): nat {
    if alerts == [] then 0 else (if alerts[|alerts| - 1] == a then 1 else 0) + Count(alerts[..|alerts| - 1], a)
  }

  /** Alerts alternate, beginning with host-down. */
  ghost predicate Alternate(alerts: seq<Alert>) {
    forall i :: 0 <= i < |alerts| ==> alerts[i] == if i % 2 == 0 then HostDown else HostUp
  }

  lemma CountSnoc(alerts: seq<Alert>, a: Alert, b: Alert)
    ensures Count(alerts + [a], b) == Count(alerts, b) + if a == b then 1 else 0
  {
    assert (alerts + [a])[..|alerts|] == alerts;
  }

  /** What the alerts fired so far say about the monitor's status. */
  ghost predicate Consistent(m: Monitor, alerts: seq<Alert>) {
    && Alternate(alerts)
    && Count(alerts, HostDown) == Count(alerts, HostUp) + (if m.status == Down then 1 else 0)
    && (|alerts| % 2 == 1 <==> m.status == Down)
  }

  lemma CheckConsistent(m: Monitor, alerts: seq<Alert>, reachable: bool)
    requires Consistent(m, alerts)
    ensures Consistent(Check(m, reachable).monitor, alerts + Check(m, reachable).alerts)
  {
    forall a, b { CountSnoc(alerts, a, b); }
    assert alerts + [] == alerts;
  }

  /** For every history of pings and reconfigurations: alerts strictly alternate beginning with
      host-down; the host is down exactly while one host-down is unanswered; and the failure
      count is the trailing streak. */
  lemma {:induction false} AlertsAlternate(inventory: string, threshold: int, events: seq<Event>)
    ensures var m, alerts := After(Fresh(inventory, threshold), events), Alerts(Fresh(inventory, threshold), events);
            Consistent(m, alerts) && m.consecFails == Streak(events) && m.threshold > 0
    decreases |events|
  {
    if events != [] {
      var front, e := events[..|events| - 1], events[|events| - 1];
      var m, alerts := After(Fresh(inventory, threshold), front), Alerts(Fresh(inventory, threshold), front);
      AlertsAlternate(inventory, threshold, front);
      if e.Ping? {
        CheckConsistent(m, alerts, e.reachable);
      } else {
        assert alerts + [] == alerts;
      }
    }
  }

  ghost predicate Configured(m: Monitor, inventory: string, threshold: int) {
    m.inventory == inventory && m.threshold == if threshold > 0 then threshold else 3
  }

  /** Over every history the inventory and the threshold are those of the last configuration, the one
      that switched monitoring on if there was none since; a threshold that is not positive means 3. */
  lemma {:induction false} LastConfigurationHolds(inventory: string, threshold: int, events: seq<Event>, k: nat)
    requires k <= |events| && forall j :: k <= j < |events| ==> events[j].Ping?
    requires k > 0 ==> events[k - 1].Configure?
    ensures var m := After(Fresh(inventory, threshold), events);
            if k > 0 then Configured(m, events[k - 1].inventory, events[k - 1].threshold)
            else Configured(m, inventory, threshold)
    decreases |events|
  {
    if k < |events| {
      var front := events[..|events| - 1];
      assert events[|events| - 1].Ping?;
      LastConfigurationHolds(inventory, threshold, front, k);
    }
  }

  ghost predicate FixedThreshold(events: seq<Event>) { forall e :: e in events ==> e.Ping? }

  /** With the threshold left alone, the host is down exactly when the trailing streak of failed
      pings has reached it, and up exactly when the last ping succeeded. */
  lemma {:induction false} DownIffStreakReached(inventory: string, threshold: int, events: seq<Event>)
    requires FixedThreshold(events)
    ensures var m := After(Fresh(inventory, threshold), events);
            && m.threshold == (if threshold > 0 then threshold else 3)
            && (m.status == Down <==> Streak(events) >= m.threshold)
            && (m.status == Up <==> events != [] && Streak(events) == 0)
    decreases |events|
  {
    if events != [] {
      var front := events[..|events| - 1];
      assert events[|events| - 1] in events;
      assert forall e :: e in front ==> e in events;
      DownIffStreakReached(inventory, threshold, front);
      AlertsAlternate(inventory, threshold, front);
    }
  }
}
