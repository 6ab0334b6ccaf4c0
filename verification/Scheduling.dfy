/** The schedule evaluator: recurring (cron) and one-time schedules, fired by the leader's ticks.

    Times are integers.  A cron expression is known only through the function that yields its next
    instant strictly after a given time, or none when the expression does not parse. */
module Scheduling {
  import opened Wrappers

  datatype Schedule = Schedule(cron: string, once: bool, active: bool, last: Option<int>, next: Option<int>)

  type NextFn = int -> int

  type CronTable = string -> Option<NextFn>

  // ---- one evaluation of one schedule ---------------------------------------------------------

  /** Times are set together; a missing last time keeps the old one, a missing next time clears it. */
  function SetTimes(s: Schedule, last: Option<int>, next: Option<int>): Schedule {
    s.(last := if last.Some? then last else s.last, next := next)
  }

  datatype Ticked = Ticked(schedule: Schedule, fired: bool)

  function Tick(s: Schedule, now: int, crons: CronTable): Ticked {
    if !s.active then Ticked(s, false)
    else if s.once then
      if s.next.Some? && s.next.value <= now
      then Ticked(SetTimes(s, Some(now), None).(active := false), true)
      else Ticked(s, false)
    else
      match crons(s.cron)
      case None => Ticked(s, false)
      case Some(next) =>
        if s.next.None? then Ticked(SetTimes(s, None, Some(next(now))), false)
        else if s.next.value > now then Ticked(s, false)
        else Ticked(SetTimes(s, Some(now), Some(next(now))), true)
  }

  // ---- the evaluator over the table ---------------------------------------------------------------

  type Schedules = map<string, Schedule>

  class Scheduler {
    var rows: Schedules
    /** Every firing, in order. */
    var fired: seq<(string, int)>

    constructor (rows: Schedules)
      ensures this.rows == rows && fired == []
    {
      this.rows, fired := rows, [];
    }

    method SetScheduleTimes(id: string, last: Option<int>, next: Option<int>)
      modifies this`rows
      ensures rows == if id in old(rows) then old(rows)[id := SetTimes(old(rows)[id], last, next)] else old(rows)
    {
      if id in rows {
        var s := rows[id];
        rows := rows[id := s.(last := if last.None? then s.last else last, next := next)];
      }
    }

    method SetScheduleActive(id: string, active: bool)
      modifies this`rows
      ensures rows == if id in old(rows) then old(rows)[id := old(rows)[id].(active := active)] else old(rows)
    {
      if id in rows { rows := rows[id := rows[id].(active := active)]; }
    }

    /** One evaluation of the listed active schedules at time `now`: each row ticks, the fired
        ones are started in list order, and no other row changes. */
    method EvaluateSchedules(ids: seq<string>, now: int, crons: CronTable)
      requires forall id :: id in ids ==> id in rows && rows[id].active
      requires forall i, j :: 0 <= i < j < |ids| ==> ids[i] != ids[j]
      modifies this
      ensures rows == map id | id in old(rows) ::
                        if id in ids then Tick(old(rows)[id], now, crons).schedule else old(rows)[id]
      ensures fired == old(fired) + FiredOf(ids, old(rows), now, crons)
    {
      for i := 0 to |ids|
        invariant rows == map id | id in old(rows) ::
                            if id in ids[..i] then Tick(old(rows)[id], now, crons).schedule else old(rows)[id]
        invariant fired == old(fired) + FiredOf(ids[..i], old(rows), now, crons)
      {
        assert ids[i] !in ids[..i];
        FiredSnoc(ids[..i], ids[i], old(rows), now, crons);
        assert ids[..i + 1] == ids[..i] + [ids[i]];
        EvaluateOne(ids[i], now, crons);
      }
      assert ids[..|ids|] == ids;
    }

    method EvaluateOne(id: string, now: int, crons: CronTable)
      requires id in rows && rows[id].active
      modifies this
      ensures var t := Tick(old(rows)[id], now, crons);
              rows == old(rows)[id := t.schedule] && fired == old(fired) + Fire(id, old(rows)[id], now, crons)
    {
      var s := rows[id];
      assert rows == rows[id := s];
      if s.once {
        if s.next.Some? && s.next.value <= now {
          fired := fired + [(id, now)];
          SetScheduleTimes(id, Some(now), None);
          SetScheduleActive(id, false);
        }
        return;
      }
      var cron := crons(s.cron);
      if cron.None? {
        return;
      }
      if s.next.None? {
        SetScheduleTimes(id, None, Some(cron.value(now)));
        return;
      }
      if s.next.value > now {
        return;
      }
      fired := fired + [(id, now)];
      SetScheduleTimes(id, Some(now), Some(cron.value(now)));
    }
  }

  function FiredOf(ids: seq<string>, rows: Schedules, now: int, crons: CronTable): seq<(string, int)>
    requires forall id :: id in ids ==> id in rows
  {
    if ids == [] then []
    else Fire(ids[0], rows[ids[0]], now, crons) + FiredOf(ids[1..], rows, now, crons)
  }

  function Fire(id: string, s: Schedule, now: int, crons: CronTable): seq<(string, int)> {
    if Tick(s, now, crons).fired then [(id, now)] else []
  }

  lemma {:induction false} FiredSnoc(ids: seq<string>, id: string, rows: Schedules, now: int, crons: CronTable)
    requires id in rows && forall x :: x in ids ==> x in rows
    ensures FiredOf(ids + [id], rows, now, crons)
         == FiredOf(ids, rows, now, crons) + Fire(id, rows[id], now, crons)
  {
    if ids == [] {
      assert [] + [id] == [id] && [id][1..] == [];
    } else {
      assert (ids + [id])[0] == ids[0] && (ids + [id])[1..] == ids[1..] + [id];
      FiredSnoc(ids[1..], id, rows, now, crons);
    }
  }

  /** An evaluation fires exactly the listed schedules that are due, each under its own id and at the
      time of the evaluation. */
  lemma {:induction false} FiringsAreDue(ids: seq<string>, rows: Schedules, now: int, crons: CronTable, id: string,
                                         at: int)
    requires forall x :: x in ids ==> x in rows
    ensures (id, at) in FiredOf(ids, rows, now, crons)
       <==> at == now && id in ids && Tick(rows[id], now, crons).fired
  {
    if ids != [] {
      FiringsAreDue(ids[1..], rows, now, crons, id, at);
      assert id in ids <==> id == ids[0] || id in ids[1..];
    }
  }

  // ---- a schedule over a sequence of ticks ----------------------------------------------------------

  ghost predicate Increasing(ticks: seq<int>) { forall i, j :: 0 <= i < j < |ticks| ==> ticks[i] < ticks[j] }

  function After(s: Schedule, ticks: seq<int>, crons: CronTable): Schedule {
    if ticks == [] then s else Tick(After(s, ticks[..|ticks| - 1], crons), ticks[|ticks| - 1], crons).schedule
  }

  /** The schedule fires at tick `k`. */
  predicate FiresAt(s: Schedule, ticks: seq<int>, k: nat, crons: CronTable)
    requires k < |ticks|
  {
    Tick(After(s, ticks[..k], crons), ticks[k], crons).fired
  }

  lemma AfterStep(s: Schedule, ticks: seq<int>, k: nat, crons: CronTable)
    requires k < |ticks|
    ensures After(s, ticks[..k + 1], crons) == Tick(After(s, ticks[..k], crons), ticks[k], crons).schedule
  {
    assert ticks[..k + 1][..k] == ticks[..k];
  }

  lemma LastStep(s: Schedule, ticks: seq<int>, k: nat, crons: CronTable)
    requires k < |ticks|
    ensures After(s, ticks[..k + 1], crons).last
         == if FiresAt(s, ticks, k, crons) then Some(ticks[k]) else After(s, ticks[..k], crons).last
  {
    AfterStep(s, ticks, k, crons);
  }

  /** The row tells when the schedule last fired: between two ticks, the time of the latest tick so far
      at which it did, and what it said before if it did at none. */
  lemma {:induction false} LastIsLastFiring(s: Schedule, ticks: seq<int>, k: nat, n: nat, crons: CronTable)
    requires k <= n <= |ticks| && forall j :: k <= j < n ==> !FiresAt(s, ticks, j, crons)
    requires k > 0 ==> FiresAt(s, ticks, k - 1, crons)
    ensures After(s, ticks[..n], crons).last == if k > 0 then Some(ticks[k - 1]) else s.last
  {
    if k < n {
      LastIsLastFiring(s, ticks, k, n - 1, crons);
      LastStep(s, ticks, n - 1, crons);
    } else if k > 0 {
      LastStep(s, ticks, k - 1, crons);
    }
  }

  /** A schedule that is switched off, or whose expression does not parse, never fires nor changes. */
  lemma {:induction false} Sleeps(s: Schedule, ticks: seq<int>, k: nat, crons: CronTable)
    requires !s.active || (!s.once && crons(s.cron) == None)
    requires k < |ticks|
    ensures After(s, ticks[..k], crons) == s && !FiresAt(s, ticks, k, crons)
  {
    if k > 0 {
      Sleeps(s, ticks, k - 1, crons);
      AfterStep(s, ticks, k - 1, crons);
    }
  }

  /** `next` yields the least of the instants strictly after its argument. */
  ghost predicate IsNext(next: NextFn, instant: int -> bool) {
    forall t :: t < next(t) && instant(next(t)) && forall x :: t < x < next(t) ==> !instant(x)
  }

  lemma NextIs(next: NextFn, instant: int -> bool, a: int, b: int)
    requires IsNext(next, instant) && a <= b < next(a)
    ensures next(b) == next(a)
  {
    assert instant(next(a)) && instant(next(b));
  }

  /** The moment the schedule has looked up to before tick `k`: the previous tick, or the moment
      `since` when its next time was computed. */
  function LookedUpTo(since: int, ticks: seq<int>, k: nat): int
    requires k <= |ticks|
  {
    if k == 0 then since else ticks[k - 1]
  }

  ghost predicate Recurring(s: Schedule, crons: CronTable, next: NextFn) {
    s.active && !s.once && crons(s.cron) == Some(next)
  }

  lemma {:induction false} NextStaysNext(s: Schedule, since: int, ticks: seq<int>, k: nat, crons: CronTable,
                                         next: NextFn, instant: int -> bool)
    requires Recurring(s, crons, next) && IsNext(next, instant) && s.next == Some(next(since))
    requires Increasing(ticks) && (ticks != [] ==> since <= ticks[0]) && k <= |ticks|
    ensures var a := After(s, ticks[..k], crons);
            Recurring(a, crons, next) && a.next == Some(next(LookedUpTo(since, ticks, k)))
  {
    if k > 0 {
      NextStaysNext(s, since, ticks, k - 1, crons, next, instant);
      AfterStep(s, ticks, k - 1, crons);
      var before := LookedUpTo(since, ticks, k - 1);
      if next(before) > ticks[k - 1] { NextIs(next, instant, before, ticks[k - 1]); }
    }
  }

  /** A recurring schedule fires at a tick exactly when an instant lies after the previous tick
      and not after this one: at the first tick at or after each instant, and once for all the
      instants missed in between. */
  lemma FiresIffInstantPassed(s: Schedule, since: int, ticks: seq<int>, k: nat, crons: CronTable, next: NextFn,
                              instant: int -> bool)
    requires Recurring(s, crons, next) && IsNext(next, instant) && s.next == Some(next(since))
    requires Increasing(ticks) && (ticks != [] ==> since <= ticks[0]) && k < |ticks|
    ensures FiresAt(s, ticks, k, crons) <==> exists x :: LookedUpTo(since, ticks, k) < x <= ticks[k] && instant(x)
  {
    NextStaysNext(s, since, ticks, k, crons, next, instant);
    var n := next(LookedUpTo(since, ticks, k));
    assert instant(n);
    forall x | LookedUpTo(since, ticks, k) < x <= ticks[k] && instant(x) ensures n <= ticks[k] {}
  }

  /** A schedule stored without a next time spends its first tick computing one, and then fires
      as if created at that tick. */
  lemma FirstTickOnlyPlans(s: Schedule, ticks: seq<int>, k: nat, crons: CronTable, next: NextFn, instant: int -> bool)
    requires Recurring(s, crons, next) && IsNext(next, instant) && s.next == None
    requires Increasing(ticks) && k < |ticks|
    ensures FiresAt(s, ticks, k, crons) <==> k > 0 && exists x :: ticks[k - 1] < x <= ticks[k] && instant(x)
  {
    assert ticks[..0] == [];
    if k > 0 {
      var s1, rest := Tick(s, ticks[0], crons).schedule, ticks[1..];
      AfterTail(s, ticks, k, crons);
      assert rest[..k - 1] == ticks[1..k];
      assert FiresAt(s, ticks, k, crons) == FiresAt(s1, rest, k - 1, crons);
      FiresIffInstantPassed(s1, ticks[0], rest, k - 1, crons, next, instant);
    }
  }

  lemma {:induction false} AfterTail(s: Schedule, ticks: seq<int>, k: nat, crons: CronTable)
    requires 0 < k <= |ticks|
    ensures After(s, ticks[..k], crons) == After(Tick(s, ticks[0], crons).schedule, ticks[1..k], crons)
  {
    AfterStep(s, ticks, k - 1, crons);
    if k == 1 {
      assert ticks[..0] == [] && ticks[1..1] == [];
    } else {
      AfterTail(s, ticks, k - 1, crons);
      assert ticks[1..k][..k - 2] == ticks[1..k - 1] && ticks[1..k][k - 2] == ticks[k - 1];
    }
  }

  /** An unedited one-time schedule fires at the first tick that reaches its time and at no other,
      so exactly once if some tick reaches it and never otherwise. */
  lemma {:induction false} OnceFiresOnce(s: Schedule, at: int, ticks: seq<int>, k: nat, crons: CronTable)
    requires s.active && s.once && s.next == Some(at) && Increasing(ticks) && k < |ticks|
    ensures FiresAt(s, ticks, k, crons) <==> at <= ticks[k] && forall j :: 0 <= j < k ==> ticks[j] < at
  {
    OnceState(s, at, ticks, k, crons);
  }

  lemma {:induction false} OnceState(s: Schedule, at: int, ticks: seq<int>, k: nat, crons: CronTable)
    requires s.active && s.once && s.next == Some(at) && k <= |ticks|
    ensures var a := After(s, ticks[..k], crons);
            if forall j :: 0 <= j < k ==> ticks[j] < at then a == s else !a.active && a.next == None
  {
    if k > 0 {
      OnceState(s, at, ticks, k - 1, crons);
      AfterStep(s, ticks, k - 1, crons);
    }
  }
}
