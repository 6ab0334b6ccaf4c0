/** The dispatch queue: choosing a runner, and the leader's pass over the queued runs.

    The runs table is a map of rows.  `Dispatcher` is the server's view of it: store calls and the
    drain pass update its fields.  Everything other actors do to the table meanwhile is the
    parameter `World.others`, an arbitrary change applied before each of the pass's statements
    that read or conditionally update a run. */
module Dispatch {
  import opened Runs
  import opened Wrappers

  datatype Envelope = Envelope(tag: string, gitBacked: bool)

  datatype Row = Row(status: Status, runner: string, envelope: Option<Envelope>)

  type Rows = map<string, Row>

  /** A registered runner; `cap` limits its simultaneous runs, no limit when it is not positive. */
  datatype Runner = Runner(id: string, url: string, tags: set<string>, cap: int)

  type Load = map<string, nat>

  function LoadOf(load: Load, id: string): nat { if id in load then load[id] else 0 }

  function Bump(load: Load, id: string): Load { load[id := LoadOf(load, id) + 1] }

  /** The load with an entry for `id`, after a slot was reserved and given back. */
  function Keep(load: Load, id: string): Load { load[id := LoadOf(load, id)] }

  // ---- choosing a runner -----------------------------------------------------------------------

  datatype Choice = NoRunner | PoolBusy | Chosen(url: string, id: string)

  predicate DefaultPool(tag: string) { tag == "" || tag == "default" }

  predicate Saturated(r: Runner, load: Load) { r.cap > 0 && LoadOf(load, r.id) >= r.cap }

  /** The online runners advertising `tag`, most recently seen first. */
  function Pool(online: seq<Runner>, tag: string): (p: seq<Runner>)
    ensures forall i :: 0 <= i < |p| ==> p[i] in online && tag in p[i].tags
    ensures forall r :: r in online && tag in r.tags ==> r in p
  {
    if online == [] then []
    else (if tag in online[0].tags then [online[0]] else []) + Pool(online[1..], tag)
  }

  /** `pool` is `online` without some runners: its i-th runner stands at position `at[i]`. */
  ghost predicate Selects(pool: seq<Runner>, online: seq<Runner>, at: seq<nat>) {
    && |at| == |pool|
    && (forall i :: 0 <= i < |at| ==> at[i] < |online| && pool[i] == online[at[i]])
    && (forall i, j :: 0 <= i < j < |at| ==> at[i] < at[j])
  }

  function Shifted(at: seq<nat>): (r: seq<nat>)
    ensures |r| == |at| && forall i :: 0 <= i < |r| ==> 0 < r[i]
  {
    seq(|at|, i requires 0 <= i < |at| => at[i] + 1)
  }

  lemma SelectsShifted(pool: seq<Runner>, online: seq<Runner>, at: seq<nat>, head: Runner)
    requires Selects(pool, online, at)
    ensures Selects(pool, [head] + online, Shifted(at))
  {
    var all, at' := [head] + online, Shifted(at);
    forall i | 0 <= i < |at'| ensures at'[i] < |all| && pool[i] == all[at'[i]] { assert at'[i] == at[i] + 1; }
    forall i, j | 0 <= i < j < |at'| ensures at'[i] < at'[j] { assert at[i] < at[j]; }
  }

  lemma SelectsHead(pool: seq<Runner>, online: seq<Runner>, at: seq<nat>)
    requires online != [] && Selects(pool, online, at) && forall i :: 0 <= i < |at| ==> 0 < at[i]
    ensures Selects([online[0]] + pool, online, [0] + at)
  {
    var more, at' := [online[0]] + pool, [0] + at;
    forall i | 0 <= i < |at'| ensures at'[i] < |online| && more[i] == online[at'[i]] {
      if i > 0 { assert at'[i] == at[i - 1] && more[i] == pool[i - 1]; }
    }
    forall i, j | 0 <= i < j < |at'| ensures at'[i] < at'[j] {
      assert at'[j] == at[j - 1];
      if i > 0 { assert at'[i] == at[i - 1]; }
    }
  }

  lemma ShiftedMembers(at: seq<nat>, j: nat)
    ensures j + 1 in Shifted(at) <==> j in at
  {
    if j in at {
      var i :| 0 <= i < |at| && at[i] == j;
      assert Shifted(at)[i] == j + 1;
    }
  }

  /** A pool keeps the order of the online runners, most recently seen first, and selects exactly
      those that advertise the tag. */
  lemma {:induction false} PoolInOrder(online: seq<Runner>, tag: string) returns (at: seq<nat>)
    ensures Selects(Pool(online, tag), online, at)
    ensures forall j: nat :: j < |online| ==> (j in at <==> tag in online[j].tags)
  {
    if online == [] {
      at := [];
    } else {
      var rest := PoolInOrder(online[1..], tag);
      SelectsShifted(Pool(online[1..], tag), online[1..], rest, online[0]);
      assert [online[0]] + online[1..] == online && [] + Pool(online[1..], tag) == Pool(online[1..], tag);
      at := Shifted(rest);
      if tag in online[0].tags {
        SelectsHead(Pool(online[1..], tag), online, at);
        at := [0] + at;
      }
      forall j: nat | j < |online| ensures j in at <==> tag in online[j].tags {
        if j > 0 { ShiftedMembers(rest, j - 1); }
      }
    }
  }

  /** Position `k` is the first with a runner that advertises `tag`. */
  ghost predicate FirstWith(online: seq<Runner>, tag: string, k: nat) {
    k < |online| && tag in online[k].tags && forall j :: 0 <= j < k ==> tag !in online[j].tags
  }

  lemma {:induction false} FirstOfPool(online: seq<Runner>, tag: string, k: nat)
    requires FirstWith(online, tag, k)
    ensures Pool(online, tag) != [] && Pool(online, tag)[0] == online[k]
  {
    if k > 0 {
      assert online[1..][k - 1] == online[k] && forall j :: 0 <= j < k - 1 ==> online[1..][j] == online[j + 1];
      FirstOfPool(online[1..], tag, k - 1);
    }
  }

  lemma {:induction false} NoneInPool(online: seq<Runner>, tag: string)
    requires forall r :: r in online ==> tag !in r.tags
    ensures Pool(online, tag) == []
  {
    if online != [] { NoneInPool(online[1..], tag); }
  }

  /** Untagged runs go to the runner advertising "default" that was seen last, whatever its load,
      and to the built-in address if none is online. */
  lemma DefaultIsSeenLast(online: seq<Runner>, load: Load, builtinUrl: string, tag: string)
    requires tag == "" || tag == "default"
    ensures forall k: nat :: FirstWith(online, "default", k) ==>
              Pick(tag, load, online, builtinUrl) == Chosen(online[k].url, online[k].id)
    ensures (forall r :: r in online ==> "default" !in r.tags) ==>
              Pick(tag, load, online, builtinUrl) == Chosen(builtinUrl, "")
  {
    forall k: nat | FirstWith(online, "default", k)
      ensures Pick(tag, load, online, builtinUrl) == Chosen(online[k].url, online[k].id)
    {
      FirstOfPool(online, "default", k);
    }
    if forall r :: r in online ==> "default" !in r.tags {
      NoneInPool(online, "default");
    }
  }

  /** The first of the least loaded runners of `pool` that are below their caps. */
  function LeastLoaded(pool: seq<Runner>, load: Load): Option<Runner> {
    if pool == [] then None
    else
      var rest := LeastLoaded(pool[1..], load);
      if Saturated(pool[0], load) then rest
      else if rest.Some? && LoadOf(load, rest.value.id) < LoadOf(load, pool[0].id) then rest
      else Some(pool[0])
  }

  function Pick(tag: string, load: Load, online: seq<Runner>, builtinUrl: string): Choice {
    if DefaultPool(tag) then
      var pool := Pool(online, "default");
      if pool != [] then Chosen(pool[0].url, pool[0].id) else Chosen(builtinUrl, "")
    else
      var pool := Pool(online, tag);
      if pool == [] then NoRunner
      else
        match LeastLoaded(pool, load)
        case None => PoolBusy
        case Some(r) => Chosen(r.url, r.id)
  }

  lemma {:induction false} LeastLoadedIs(pool: seq<Runner>, load: Load)
    ensures LeastLoaded(pool, load).None? <==> forall i :: 0 <= i < |pool| ==> Saturated(pool[i], load)
    ensures LeastLoaded(pool, load).Some? ==>
              exists b :: 0 <= b < |pool| && IsLeastLoaded(pool, load, b) && pool[b] == LeastLoaded(pool, load).value
  {
    if pool != [] {
      var rest := LeastLoaded(pool[1..], load);
      LeastLoadedIs(pool[1..], load);
      assert forall i :: 0 < i < |pool| ==> pool[i] == pool[1..][i - 1];
      if rest.None? {
        assert !Saturated(pool[0], load) ==> IsLeastLoaded(pool, load, 0);
      } else {
        var b :| 0 <= b < |pool| - 1 && IsLeastLoaded(pool[1..], load, b) && pool[1..][b] == rest.value;
        assert pool[b + 1] == rest.value;
        if Saturated(pool[0], load) || LoadOf(load, rest.value.id) < LoadOf(load, pool[0].id) {
          assert IsLeastLoaded(pool, load, b + 1);
        } else {
          assert IsLeastLoaded(pool, load, 0);
        }
      }
    }
  }

  /** `pool[b]` is below its cap, no runner below its cap has less load, and no earlier one as little. */
  ghost predicate IsLeastLoaded(pool: seq<Runner>, load: Load, b: nat)
    requires b < |pool|
  {
    && !Saturated(pool[b], load)
    && forall i :: 0 <= i < |pool| && !Saturated(pool[i], load) ==>
        && LoadOf(load, pool[b].id) <= LoadOf(load, pool[i].id)
        && (i < b ==> LoadOf(load, pool[b].id) < LoadOf(load, pool[i].id))
  }

  /** The k-th online runner advertises `tag` and has a free slot; without a positive cap it always has. */
  ghost predicate CanTake(online: seq<Runner>, tag: string, load: Load, k: nat) {
    k < |online| && tag in online[k].tags && (online[k].cap <= 0 || LoadOf(load, online[k].id) < online[k].cap)
  }

  /** Of those that can take a run for `tag`, the k-th has the least load, and was seen last among equals. */
  ghost predicate Preferred(online: seq<Runner>, tag: string, load: Load, k: nat) {
    && CanTake(online, tag, load, k)
    && forall j: nat :: CanTake(online, tag, load, j) ==>
        && LoadOf(load, online[k].id) <= LoadOf(load, online[j].id)
        && (j < k ==> LoadOf(load, online[k].id) < LoadOf(load, online[j].id))
  }

  lemma PreferredUnique(online: seq<Runner>, tag: string, load: Load, j: nat, k: nat)
    requires Preferred(online, tag, load, j) && Preferred(online, tag, load, k)
    ensures j == k
  {
  }

  lemma LeastLoadedPreferred(online: seq<Runner>, tag: string, load: Load, at: seq<nat>, b: nat)
    requires Selects(Pool(online, tag), online, at) && b < |at| && IsLeastLoaded(Pool(online, tag), load, b)
    requires forall j: nat :: j < |online| ==> (j in at <==> tag in online[j].tags)
    ensures Preferred(online, tag, load, at[b])
  {
    var pool := Pool(online, tag);
    forall j: nat | CanTake(online, tag, load, j)
      ensures LoadOf(load, online[at[b]].id) <= LoadOf(load, online[j].id)
      ensures j < at[b] ==> LoadOf(load, online[at[b]].id) < LoadOf(load, online[j].id)
    {
      var i :| 0 <= i < |at| && at[i] == j;
      assert !Saturated(pool[i], load);
      assert b < i ==> at[b] < at[i];
    }
  }

  /** A tagged run goes to the preferred of the online runners.  It is refused exactly when none of
      them advertises its tag, and told to wait exactly when some do but have no free slot. */
  lemma TaggedGoesToPreferred(tag: string, load: Load, online: seq<Runner>, builtinUrl: string)
    requires tag != "" && tag != "default"
    ensures var c := Pick(tag, load, online, builtinUrl);
            && (forall k: nat :: Preferred(online, tag, load, k) ==> c == Chosen(online[k].url, online[k].id))
            && (c.Chosen? <==> exists k: nat :: Preferred(online, tag, load, k))
            && (c.Chosen? <==> exists k: nat :: CanTake(online, tag, load, k))
            && (c.NoRunner? <==> forall r :: r in online ==> tag !in r.tags)
  {
    var pool := Pool(online, tag);
    var at := PoolInOrder(online, tag);
    LeastLoadedIs(pool, load);
    if b :| 0 <= b < |pool| && IsLeastLoaded(pool, load, b) && pool[b] == LeastLoaded(pool, load).value {
      LeastLoadedPreferred(online, tag, load, at, b);
      forall k: nat | Preferred(online, tag, load, k) ensures k == at[b] {
        PreferredUnique(online, tag, load, k, at[b]);
      }
    }
    if k: nat :| CanTake(online, tag, load, k) {
      var i :| 0 <= i < |at| && at[i] == k;
      assert !Saturated(pool[i], load);
    }
    assert pool == [] <==> forall r :: r in online ==> tag !in r.tags;
  }

  lemma IsLeastLoadedUnique(pool: seq<Runner>, load: Load, a: nat, b: nat)
    requires a < |pool| && b < |pool| && IsLeastLoaded(pool, load, a) && IsLeastLoaded(pool, load, b)
    ensures a == b
  {
  }

  /** The choice as the server makes it, scanning the pool once. */
  method PickRunner(tag: string, load: Load, online: seq<Runner>, builtinUrl: string) returns (c: Choice)
    ensures c == Pick(tag, load, online, builtinUrl)
  {
    if tag == "" || tag == "default" {
      var found := Pool(online, "default");
      if |found| > 0 {
        return Chosen(found[0].url, found[0].id);
      }
      return Chosen(builtinUrl, "");
    }
    var pool := Pool(online, tag);
    if |pool| == 0 {
      return NoRunner;
    }
    var best: Option<Runner>, bestLoad, at := None, 0, 0;
    for i := 0 to |pool|
      invariant best.None? ==> forall j :: 0 <= j < i ==> Saturated(pool[j], load)
      invariant best.Some? ==> at < i && pool[at] == best.value && bestLoad == LoadOf(load, best.value.id)
      invariant best.Some? ==> IsLeastLoaded(pool[..i], load, at)
    {
      var l := LoadOf(load, pool[i].id);
      if pool[i].cap > 0 && l >= pool[i].cap {
      } else if best.None? || l < bestLoad {
        best, bestLoad, at := Some(pool[i]), l, i;
      }
    }
    assert pool[..|pool|] == pool;
    LeastLoadedIs(pool, load);
    if best.None? {
      return PoolBusy;
    }
    ghost var b :| 0 <= b < |pool| && IsLeastLoaded(pool, load, b) && pool[b] == LeastLoaded(pool, load).value;
    IsLeastLoadedUnique(pool, load, at, b);
    return Chosen(best.value.url, best.value.id);
  }

  // ---- the pass --------------------------------------------------------------------------------

  datatype World = World(
    online: nat -> seq<Runner>,       // the online runners as each turn finds them, most recently seen first
    builtinUrl: string,
    others: nat -> Rows -> Rows,      // what other actors did to the table since the last statement
    syncOk: string -> bool)           // whether syncing a run's workspace on its runner succeeds

  /** What a pass does with one run. */
  datatype Outcome =
    | Lost                                        // no envelope: failed
    | Waits(tag: string)                          // left queued
    | ClaimLost                                   // no longer queued when claimed
    | Claimed(tag: string, runner: string, url: string, started: bool)   // claimed; failed unless started

  datatype Passed = Passed(outcomes: seq<Outcome>, rows: Rows, load: Load)

  function SetStatus(rows: Rows, id: string, s: Status): Rows {
    if id in rows then rows[id := rows[id].(status := s)] else rows
  }

  function ClearEnvelope(rows: Rows, id: string): Rows {
    if id in rows then rows[id := rows[id].(envelope := None)] else rows
  }

  function EnvelopeOf(rows: Rows, id: string): Option<Envelope> {
    if id in rows then rows[id].envelope else None
  }

  /** A run given up: its envelope dropped, its row failed. */
  function FailRun(rows: Rows, id: string): Rows { SetStatus(ClearEnvelope(rows, id), id, Failed) }

  predicate Claimable(rows: Rows, id: string) { id in rows && rows[id].status == Queued }

  datatype Turned = Turned(outcome: Outcome, rows: Rows, load: Load)

  /** The k-th turn of a pass, for run `id`. */
  function Turn(id: string, k: nat, rows: Rows, load: Load, w: World): Turned {
    var rows := w.others(2 * k)(rows);
    match EnvelopeOf(rows, id)
    case None => Turned(Lost, FailRun(rows, id), load)
    case Some(env) =>
      match Pick(env.tag, load, w.online(k), w.builtinUrl)
      case Chosen(url, runner) => ClaimAndDispatch(id, env, url, runner, w.others(2 * k + 1)(rows), load, w)
      case _ => Turned(Waits(env.tag), rows, load)
  }

  function ClaimAndDispatch(id: string, env: Envelope, url: string, runner: string, rows: Rows, load: Load,
                            w: World): Turned {
    if !Claimable(rows, id) then Turned(ClaimLost, rows, load)
    else
      var sent := ClearEnvelope(rows[id := rows[id].(status := Pending, runner := runner)], id);
      if env.gitBacked && url != w.builtinUrl && !w.syncOk(id) then
        Turned(Claimed(env.tag, runner, url, false), FailRun(sent, id),
               if runner != "" then Keep(load, runner) else load)
      else
        Turned(Claimed(env.tag, runner, url, true), sent, if runner != "" then Bump(load, runner) else load)
  }

  function Drain(queue: seq<string>, k: nat, rows: Rows, load: Load, w: World): (r: Passed)
    ensures |r.outcomes| == |queue|
  {
    if queue == [] then Passed([], rows, load)
    else
      var t := Turn(queue[0], k, rows, load, w);
      var r := Drain(queue[1..], k + 1, t.rows, t.load, w);
      r.(outcomes := [t.outcome] + r.outcomes)
  }

  /** A pass part way: `outcomes` are settled and the runs from the k-th on are still to be handled. */
  ghost function Midpass(queue: seq<string>, k: nat, outcomes: seq<Outcome>, rows: Rows, load: Load, w: World): Passed
    requires k <= |queue|
  {
    var r := Drain(queue[k..], k, rows, load, w);
    r.(outcomes := outcomes + r.outcomes)
  }

  lemma MidpassStart(queue: seq<string>, rows: Rows, load: Load, w: World)
    ensures Midpass(queue, 0, [], rows, load, w) == Drain(queue, 0, rows, load, w)
  {
    assert queue[0..] == queue;
    var r := Drain(queue, 0, rows, load, w);
    assert [] + r.outcomes == r.outcomes;
  }

  lemma MidpassStep(queue: seq<string>, k: nat, outcomes: seq<Outcome>, rows: Rows, load: Load, w: World)
    requires k < |queue|
    ensures var t := Turn(queue[k], k, rows, load, w);
            Midpass(queue, k, outcomes, rows, load, w)
            == Midpass(queue, k + 1, outcomes + [t.outcome], t.rows, t.load, w)
  {
    var t := Turn(queue[k], k, rows, load, w);
    assert queue[k..][0] == queue[k] && queue[k..][1..] == queue[k + 1..];
    var r := Drain(queue[k + 1..], k + 1, t.rows, t.load, w);
    assert outcomes + ([t.outcome] + r.outcomes) == outcomes + [t.outcome] + r.outcomes;
  }

  lemma MidpassEnd(queue: seq<string>, outcomes: seq<Outcome>, rows: Rows, load: Load, w: World)
    ensures Midpass(queue, |queue|, outcomes, rows, load, w) == Passed(outcomes, rows, load)
  {
    assert queue[|queue|..] == [] && outcomes + [] == outcomes;
  }

  // ---- the pass as the server runs it ------------------------------------------------------------

  class Dispatcher {
    var rows: Rows
    /** The runs handed to the executor, with the runner address each was started on. */
    var started: seq<(string, string)>

    constructor (rows: Rows)
      ensures this.rows == rows && started == []
    {
      this.rows, started := rows, [];
    }

    method SetRunStatus(id: string, s: Status)
      modifies this`rows
      ensures rows == SetStatus(old(rows), id, s)
    {
      if id in rows { rows := rows[id := rows[id].(status := s)]; }
    }

    method SetRunEnvelope(id: string, e: Option<Envelope>)
      modifies this`rows
      ensures rows == if id in old(rows) then old(rows)[id := old(rows)[id].(envelope := e)] else old(rows)
    {
      if id in rows { rows := rows[id := rows[id].(envelope := e)]; }
    }

    method SetRunRunner(id: string, runner: string)
      modifies this`rows
      ensures rows == if id in old(rows) then old(rows)[id := old(rows)[id].(runner := runner)] else old(rows)
    {
      if id in rows { rows := rows[id := rows[id].(runner := runner)]; }
    }

    /** queued -> pending and the runner, in one conditional update. */
    method ClaimQueuedRun(id: string, runner: string) returns (ok: bool)
      modifies this`rows
      ensures ok == Claimable(old(rows), id)
      ensures rows == if ok then old(rows)[id := old(rows)[id].(status := Pending, runner := runner)] else old(rows)
    {
      ok := id in rows && rows[id].status == Queued;
      if ok { rows := rows[id := rows[id].(status := Pending, runner := runner)]; }
    }

    method FailTheRun(id: string)
      modifies this`rows
      ensures rows == FailRun(old(rows), id)
    {
      SetRunEnvelope(id, None);
      SetRunStatus(id, Failed);
    }

    method DispatchRun(id: string, env: Envelope, url: string, runner: string, w: World) returns (ok: bool)
      modifies this
      ensures ok == !(env.gitBacked && url != w.builtinUrl && !w.syncOk(id))
      ensures started == if ok then old(started) + [(id, url)] else old(started)
      ensures id in old(rows) ==> rows == ClearEnvelope(old(rows)[id := old(rows)[id].(runner := runner)], id)
    {
      SetRunRunner(id, runner);
      SetRunEnvelope(id, None);
      if env.gitBacked && url != w.builtinUrl {
        if !w.syncOk(id) {
          return false;
        }
      }
      started := started + [(id, url)];
      return true;
    }

    /** One pass over the listed runs, with the load counted when it began. */
    method DrainQueue(queued: seq<string>, counted: Load, w: World) returns (load: Load, outcomes: seq<Outcome>)
      modifies this
      ensures var r := Drain(queued, 0, old(rows), counted, w);
              outcomes == r.outcomes && rows == r.rows && load == r.load
      ensures started == old(started) + StartsOf(queued, outcomes)
    {
      load, outcomes := counted, [];
      ghost var goal := Drain(queued, 0, rows, counted, w);
      MidpassStart(queued, rows, counted, w);
      assert started == old(started) + StartsOf(queued[..0], outcomes);
      for k := 0 to |queued|
        invariant |outcomes| == k
        invariant goal == Midpass(queued, k, outcomes, rows, load, w)
        invariant started == old(started) + StartsOf(queued[..k], outcomes)
      {
        MidpassStep(queued, k, outcomes, rows, load, w);
        StartsOfStep(queued, k, outcomes, Turn(queued[k], k, rows, load, w).outcome);
        var o;
        load, o := TakeTurn(queued[k], k, load, w);
        outcomes := outcomes + [o];
      }
      MidpassEnd(queued, outcomes, rows, load, w);
      assert queued[..|queued|] == queued;
    }

    method TakeTurn(id: string, k: nat, load: Load, w: World) returns (load': Load, o: Outcome)
      modifies this
      ensures var t := Turn(id, k, old(rows), load, w);
              o == t.outcome && rows == t.rows && load' == t.load
      ensures started == old(started) + StartOf(id, o)
    {
      rows := w.others(2 * k)(rows);
      var env := EnvelopeOf(rows, id);
      if env.None? {
        FailTheRun(id);
        return load, Lost;
      }
      var c := PickRunner(env.value.tag, load, w.online(k), w.builtinUrl);
      if !c.Chosen? {
        return load, Waits(env.value.tag);
      }
      rows := w.others(2 * k + 1)(rows);
      load', o := ClaimThenDispatch(id, env.value, c.url, c.id, load, w);
    }

    method ClaimThenDispatch(id: string, env: Envelope, url: string, runner: string, load: Load, w: World)
      returns (load': Load, o: Outcome)
      modifies this
      ensures var t := ClaimAndDispatch(id, env, url, runner, old(rows), load, w);
              o == t.outcome && rows == t.rows && load' == t.load
      ensures started == old(started) + StartOf(id, o)
    {
      load' := load;
      var ok := ClaimQueuedRun(id, runner);
      if !ok {
        return load', ClaimLost;
      }
      if runner != "" {
        load' := load'[runner := LoadOf(load', runner) + 1];
      }
      assert rows[id := rows[id].(runner := runner)] == rows;
      var done := DispatchRun(id, env, url, runner, w);
      if !done {
        if runner != "" {
          load' := load'[runner := LoadOf(load', runner) - 1];
        }
        FailTheRun(id);
      }
      o := Claimed(env.tag, runner, url, done);
    }
  }

  function StartOf(id: string, o: Outcome): seq<(string, string)> {
    if o.Claimed? && o.started then [(id, o.url)] else []
  }

  function StartsOf(queue: seq<string>, outcomes: seq<Outcome>): seq<(string, string)>
    requires |queue| == |outcomes|
  {
    if queue == [] then [] else StartOf(queue[0], outcomes[0]) + StartsOf(queue[1..], outcomes[1..])
  }

  lemma StartsOfStep(queue: seq<string>, k: nat, outcomes: seq<Outcome>, o: Outcome)
    requires k < |queue| && |outcomes| == k
    ensures StartsOf(queue[..k + 1], outcomes + [o]) == StartsOf(queue[..k], outcomes) + StartOf(queue[k], o)
  {
    StartsOfSnoc(queue[..k], outcomes, queue[k], o);
    assert queue[..k] + [queue[k]] == queue[..k + 1];
  }

  lemma {:induction false} StartsOfSnoc(queue: seq<string>, outcomes: seq<Outcome>, id: string, o: Outcome)
    requires |queue| == |outcomes|
    ensures StartsOf(queue + [id], outcomes + [o]) == StartsOf(queue, outcomes) + StartOf(id, o)
  {
    if queue != [] {
      assert (queue + [id])[1..] == queue[1..] + [id] && (outcomes + [o])[1..] == outcomes[1..] + [o];
      StartsOfSnoc(queue[1..], outcomes[1..], id, o);
    }
  }

  // ---- what a pass guarantees ----------------------------------------------------------------------

  /** No runner has less load in `b` than in `a`. */
  ghost predicate NoLess(a: Load, b: Load) { forall id :: LoadOf(a, id) <= LoadOf(b, id) }

  function StartedOn(o: Outcome, id: string): nat { if o.Claimed? && o.started && o.runner == id then 1 else 0 }

  /** How many runs a pass started on runner `id`. */
  function StartsOn(outcomes: seq<Outcome>, id: string): nat {
    if outcomes == [] then 0 else StartedOn(outcomes[0], id) + StartsOn(outcomes[1..], id)
  }

  lemma TurnFacts(id: string, k: nat, rows: Rows, load: Load, w: World)
    ensures var t := Turn(id, k, rows, load, w);
            && NoLess(load, t.load)
            && (forall r :: r != "" ==> LoadOf(t.load, r) == LoadOf(load, r) + StartedOn(t.outcome, r))
            && (t.outcome.Waits? ==> t.load == load && !Pick(t.outcome.tag, load, w.online(k), w.builtinUrl).Chosen?)
            && (t.outcome.Claimed? ==>
                  Pick(t.outcome.tag, load, w.online(k), w.builtinUrl) == Chosen(t.outcome.url, t.outcome.runner))
  {
  }

  /** What becomes of run `i` is decided in its turn, from the rows and load the earlier turns left. */
  lemma DrainCons(queue: seq<string>, k: nat, rows: Rows, load: Load, w: World)
    requires queue != []
    ensures var t := Turn(queue[0], k, rows, load, w);
            var p, q := Drain(queue, k, rows, load, w), Drain(queue[1..], k + 1, t.rows, t.load, w);
            p.outcomes == [t.outcome] + q.outcomes && p.load == q.load && p.rows == q.rows
  {
  }

  lemma {:induction false} LoadNeverShrinks(queue: seq<string>, k: nat, rows: Rows, load: Load, w: World)
    ensures NoLess(load, Drain(queue, k, rows, load, w).load)
  {
    if queue != [] {
      var t := Turn(queue[0], k, rows, load, w);
      TurnFacts(queue[0], k, rows, load, w);
      LoadNeverShrinks(queue[1..], k + 1, t.rows, t.load, w);
      DrainCons(queue, k, rows, load, w);
      LessTrans(load, t.load, Drain(queue, k, rows, load, w).load);
    }
  }

  lemma LessTrans(a: Load, b: Load, c: Load)
    requires NoLess(a, b) && NoLess(b, c)
    ensures NoLess(a, c)
  {
    forall id ensures LoadOf(a, id) <= LoadOf(c, id) { assert LoadOf(a, id) <= LoadOf(b, id) <= LoadOf(c, id); }
  }

  /** The load at the end of a pass is the load counted plus the runs the pass started; a failed
      dispatch gives its slot back. */
  lemma {:induction false} LoadIsCountPlusStarts(queue: seq<string>, k: nat, rows: Rows, load: Load, w: World,
                                                 r: string)
    requires r != ""
    ensures var p := Drain(queue, k, rows, load, w);
            LoadOf(p.load, r) == LoadOf(load, r) + StartsOn(p.outcomes, r)
  {
    if queue != [] {
      var t := Turn(queue[0], k, rows, load, w);
      TurnFacts(queue[0], k, rows, load, w);
      LoadIsCountPlusStarts(queue[1..], k + 1, t.rows, t.load, w, r);
      DrainCons(queue, k, rows, load, w);
    }
  }

  predicate SamePool(a: string, b: string) { a == b || (DefaultPool(a) && DefaultPool(b)) }

  /** No default pool, and every online runner of the pool at its cap. */
  ghost predicate Held(tag: string, load: Load, online: seq<Runner>) {
    !DefaultPool(tag) && forall r :: r in online && tag in r.tags ==> Saturated(r, load)
  }

  lemma WaitsMeans(tag: string, load: Load, online: seq<Runner>, builtinUrl: string)
    ensures !Pick(tag, load, online, builtinUrl).Chosen? <==> Held(tag, load, online)
  {
    var pool := Pool(online, tag);
    LeastLoadedIs(pool, load);
    if Held(tag, load, online) {
      forall i | 0 <= i < |pool| ensures Saturated(pool[i], load) { assert pool[i] in online; }
    }
    if forall i :: 0 <= i < |pool| ==> Saturated(pool[i], load) {
      forall r | r in online && tag in r.tags ensures Saturated(r, load) { assert r in pool; }
    }
  }

  /** No runner comes online during the pass; some may go, and heartbeats may reorder them. */
  ghost predicate NobodyJoins(w: World) {
    forall j, k, r :: j <= k && r in w.online(k) ==> r in w.online(j)
  }

  /** A pool that is held stays held as the load grows and runners go or are reordered. */
  lemma HeldPersists(tag: string, a: Load, b: Load, w: World, j: nat, k: nat)
    requires NobodyJoins(w) && j <= k && NoLess(a, b) && Held(tag, a, w.online(j))
    ensures Held(tag, b, w.online(k))
  {
    forall r | r in w.online(k) && tag in r.tags ensures Saturated(r, b) {
      assert r in w.online(j) && Saturated(r, a);
    }
  }

  lemma TurnClaimsElsewhere(id: string, k: nat, rows: Rows, load: Load, w: World, tag: string)
    requires Held(tag, load, w.online(k))
    ensures var o := Turn(id, k, rows, load, w).outcome;
            o.Claimed? ==> !SamePool(o.tag, tag)
  {
    TurnFacts(id, k, rows, load, w);
    WaitsMeans(tag, load, w.online(k), w.builtinUrl);
  }

  lemma {:induction false} NoneClaimed(queue: seq<string>, k: nat, rows: Rows, load: Load, w: World, tag: string,
                                       j: nat)
    requires NobodyJoins(w) && Held(tag, load, w.online(k)) && j < |queue|
    ensures var o := Drain(queue, k, rows, load, w).outcomes[j];
            o.Claimed? ==> !SamePool(o.tag, tag)
  {
    DrainCons(queue, k, rows, load, w);
    if j == 0 {
      TurnClaimsElsewhere(queue[0], k, rows, load, w, tag);
    } else {
      var t := Turn(queue[0], k, rows, load, w);
      TurnFacts(queue[0], k, rows, load, w);
      HeldPersists(tag, load, t.load, w, k, k + 1);
      NoneClaimed(queue[1..], k + 1, t.rows, t.load, w, tag, j - 1);
    }
  }

  lemma TurnHeld(id: string, k: nat, rows: Rows, load: Load, w: World)
    requires Turn(id, k, rows, load, w).outcome.Waits?
    ensures var t := Turn(id, k, rows, load, w);
            t.load == load && Held(t.outcome.tag, load, w.online(k))
  {
    TurnFacts(id, k, rows, load, w);
    WaitsMeans(Turn(id, k, rows, load, w).outcome.tag, load, w.online(k), w.builtinUrl);
  }

  lemma FirstNotOvertaken(queue: seq<string>, k: nat, rows: Rows, load: Load, w: World, j: nat)
    requires NobodyJoins(w) && 0 < j < |queue|
    ensures var o := Drain(queue, k, rows, load, w).outcomes;
            o[0].Waits? && o[j].Claimed? ==> !SamePool(o[0].tag, o[j].tag)
  {
    var t := Turn(queue[0], k, rows, load, w);
    DrainCons(queue, k, rows, load, w);
    if t.outcome.Waits? {
      TurnHeld(queue[0], k, rows, load, w);
      HeldPersists(t.outcome.tag, load, load, w, k, k + 1);
      NoneClaimed(queue[1..], k + 1, t.rows, t.load, w, t.outcome.tag, j - 1);
    }
  }

  /** Fairness: whatever others do to the table meanwhile, while no runner comes online, a pass
      never claims a run once it has left an older run of the same pool queued. */
  lemma {:induction false} OldestFirst(queue: seq<string>, k: nat, rows: Rows, load: Load, w: World, i: nat, j: nat)
    requires NobodyJoins(w) && i < j < |queue|
    ensures var o := Drain(queue, k, rows, load, w).outcomes;
            o[i].Waits? && o[j].Claimed? ==> !SamePool(o[i].tag, o[j].tag)
  {
    if i == 0 {
      FirstNotOvertaken(queue, k, rows, load, w, j);
    } else {
      var t := Turn(queue[0], k, rows, load, w);
      DrainCons(queue, k, rows, load, w);
      OldestFirst(queue[1..], k + 1, t.rows, t.load, w, i - 1, j - 1);
    }
  }

  /** If the pass left its i-th run queued, the whole pool of that run is saturated when it ends. */
  ghost predicate LeftOnlyIfHeld(p: Passed, i: nat, online: seq<Runner>) {
    i < |p.outcomes| && (p.outcomes[i].Waits? ==> Held(p.outcomes[i].tag, p.load, online))
  }

  lemma LeftCons(p: Passed, q: Passed, o: Outcome, i: nat, online: seq<Runner>)
    requires p.outcomes == [o] + q.outcomes && p.load == q.load && LeftOnlyIfHeld(q, i, online)
    ensures LeftOnlyIfHeld(p, i + 1, online)
  {
    assert p.outcomes[i + 1] == q.outcomes[i];
  }

  lemma {:induction false} FirstLeft(queue: seq<string>, k: nat, rows: Rows, load: Load, w: World, n: nat)
    requires NobodyJoins(w) && queue != [] && k <= n
    ensures LeftOnlyIfHeld(Drain(queue, k, rows, load, w), 0, w.online(n))
  {
    var o, p := Turn(queue[0], k, rows, load, w).outcome, Drain(queue, k, rows, load, w);
    DrainCons(queue, k, rows, load, w);
    if o.Waits? {
      TurnHeld(queue[0], k, rows, load, w);
      LoadNeverShrinks(queue, k, rows, load, w);
      HeldPersists(o.tag, load, p.load, w, k, n);
    }
  }

  /** Work conservation: a run is left queued only when every online runner of its pool is
      saturated, and from its turn on still is with the load the pass ends with; the pool may be
      empty. */
  lemma {:induction false} WaitsOnlyWhenSaturated(queue: seq<string>, k: nat, rows: Rows, load: Load, w: World,
                                                  i: nat, n: nat)
    requires NobodyJoins(w) && i < |queue| && k + i <= n
    ensures LeftOnlyIfHeld(Drain(queue, k, rows, load, w), i, w.online(n))
  {
    if i == 0 {
      FirstLeft(queue, k, rows, load, w, n);
    } else {
      var t := Turn(queue[0], k, rows, load, w);
      WaitsOnlyWhenSaturated(queue[1..], k + 1, t.rows, t.load, w, i - 1, n);
      DrainCons(queue, k, rows, load, w);
      LeftCons(Drain(queue, k, rows, load, w), Drain(queue[1..], k + 1, t.rows, t.load, w), t.outcome, i - 1,
               w.online(n));
    }
  }

  /** Whoever is chosen is online, unless it is the built-in runner, which has no id. */
  lemma ChosenIsOnline(tag: string, load: Load, online: seq<Runner>, builtinUrl: string)
    ensures var c := Pick(tag, load, online, builtinUrl);
            c.Chosen? ==> c == Chosen(builtinUrl, "") || exists r :: r in online && c == Chosen(r.url, r.id)
  {
    LeastLoadedIs(Pool(online, tag), load);
    assert Pool(online, "default") != [] ==> Pool(online, "default")[0] in online;
  }

  /** No other online runner has the id of `r`. */
  ghost predicate OnlyOne(r: Runner, online: seq<Runner>) {
    r.id != "" && forall x :: x in online && x.id == r.id ==> x == r
  }

  /** A runner with a cap that untagged runs can never reach, in whatever order runners are seen. */
  predicate Capped(r: Runner) { r.cap > 0 && "default" !in r.tags }

  lemma PickRespectsCap(tag: string, load: Load, online: seq<Runner>, builtinUrl: string, r: Runner, url: string)
    requires Capped(r) && OnlyOne(r, online) && Pick(tag, load, online, builtinUrl) == Chosen(url, r.id)
    ensures LoadOf(load, r.id) < r.cap
  {
    LeastLoadedIs(Pool(online, tag), load);
    assert Pool(online, "default") != [] ==> Pool(online, "default")[0] in online;
  }

  /** Capacity within a pass: a capped runner that does not advertise "default" is never loaded
      past its cap, whoever comes, goes or moves in the list of online runners meanwhile. */
  lemma {:induction false} PassRespectsCap(queue: seq<string>, k: nat, rows: Rows, load: Load, w: World, r: Runner)
    requires Capped(r) && (forall n :: OnlyOne(r, w.online(n))) && LoadOf(load, r.id) <= r.cap
    ensures LoadOf(Drain(queue, k, rows, load, w).load, r.id) <= r.cap
  {
    if queue != [] {
      var t := Turn(queue[0], k, rows, load, w);
      TurnFacts(queue[0], k, rows, load, w);
      DrainCons(queue, k, rows, load, w);
      assert OnlyOne(r, w.online(k));
      if t.outcome.Claimed? && t.outcome.runner == r.id {
        PickRespectsCap(t.outcome.tag, load, w.online(k), w.builtinUrl, r, t.outcome.url);
      }
      PassRespectsCap(queue[1..], k + 1, t.rows, t.load, w, r);
    }
  }

  /** A runner that comes online between two turns is enough for a younger run to overtake. */
  lemma LateRunnerOvertakes(w: World, r: Runner, tag: string, load: Load)
    requires Quiet(w) && w.online(0) == [] && w.online(1) == [r]
    requires tag in r.tags && !DefaultPool(tag) && !Saturated(r, load) && w.syncOk("new")
    ensures var rows := map["old" := Row(Queued, "", Some(Envelope(tag, true))),
                            "new" := Row(Queued, "", Some(Envelope(tag, true)))];
            Drain(["old", "new"], 0, rows, load, w).outcomes == [Waits(tag), Claimed(tag, r.id, r.url, true)]
  {
    var queue := ["old", "new"];
    var row := Row(Queued, "", Some(Envelope(tag, true)));
    var rows := map["old" := row, "new" := row];
    assert queue[1..] == ["new"] && ["new"][1..] == [];
    assert w.others(0)(rows) == rows && w.others(2)(rows) == rows && w.others(3)(rows) == rows;
    assert [r][1..] == [] && Pool([r], tag) == [r] && LeastLoaded([r][1..], load) == None;
    assert Turn("old", 0, rows, load, w) == Turned(Waits(tag), rows, load);
    assert Turn("new", 1, rows, load, w).outcome == Claimed(tag, r.id, r.url, true);
    DrainCons(queue, 0, rows, load, w);
    DrainCons(["new"], 1, rows, load, w);
  }

  // ---- a pass that nobody interferes with ------------------------------------------------------------

  /** What a run's row is after its turn, by outcome. */
  function RowAfter(row: Row, o: Outcome): Row {
    match o
    case Lost => Row(Failed, row.runner, None)
    case Claimed(_, runner, _, started) => Row(if started then Pending else Failed, runner, None)
    case _ => row
  }

  ghost predicate Quiet(w: World) { forall n, rows :: w.others(n)(rows) == rows }

  /** A run without an envelope is given up; one with an envelope waits, or is claimed for its tag and
      started unless its workspace has to be synced to a remote runner and that fails. */
  ghost predicate FitsEnvelope(id: string, row: Row, o: Outcome, w: World) {
    match row.envelope
    case None => o.Lost?
    case Some(env) =>
      && (o.Waits? || o.Claimed?) && o.tag == env.tag
      && (o.Claimed? ==> (o.started <==> !env.gitBacked || o.url == w.builtinUrl || w.syncOk(id)))
  }

  /** A turn among others: a run is given up when it has no envelope, left alone when it waits or is
      no longer queued at the claim, and otherwise settled as `RowAfter` says; no other row changes. */
  lemma TurnSettles(id: string, k: nat, rows: Rows, load: Load, w: World)
    ensures var t, found := Turn(id, k, rows, load, w), w.others(2 * k)(rows);
            var late := w.others(2 * k + 1)(found);
            match t.outcome
            case Lost =>
              && (id in found ==> found[id].envelope == None)
              && t.rows == (if id in found then found[id := RowAfter(found[id], t.outcome)] else found)
            case Waits(_) =>
              t.rows == found && id in found && FitsEnvelope(id, found[id], t.outcome, w)
            case ClaimLost =>
              t.rows == late && t.load == load && (id in late ==> late[id].status != Queued)
            case Claimed(_, _, _, _) =>
              && id in late && late[id].status == Queued
              && t.rows == late[id := RowAfter(late[id], t.outcome)]
              && id in found && FitsEnvelope(id, found[id], t.outcome, w)
  {
  }

  lemma QuietTurn(id: string, k: nat, rows: Rows, load: Load, w: World)
    requires Quiet(w) && Claimable(rows, id)
    ensures var t := Turn(id, k, rows, load, w);
            t.rows == rows[id := RowAfter(rows[id], t.outcome)] && FitsEnvelope(id, rows[id], t.outcome, w)
  {
    assert rows[id := rows[id]] == rows;
  }

  ghost predicate Settled(queue: seq<string>, rows: Rows, p: Passed, w: World) {
    && (forall id :: id in queue ==> id in rows)
    && p.rows.Keys == rows.Keys && |p.outcomes| == |queue|
    && (forall i :: 0 <= i < |queue| ==>
          && p.rows[queue[i]] == RowAfter(rows[queue[i]], p.outcomes[i])
          && FitsEnvelope(queue[i], rows[queue[i]], p.outcomes[i], w))
    && (forall id :: id in rows && id !in queue ==> p.rows[id] == rows[id])
  }

  /** Left alone, a pass settles each listed run by itself: started runs are pending on their
      runner, those that could not be dispatched or had no envelope are failed, both without an
      envelope; waiting runs and all runs not listed are as they were. */
  lemma {:induction false} QuietPass(queue: seq<string>, k: nat, rows: Rows, load: Load, w: World)
    requires Quiet(w) && forall i :: 0 <= i < |queue| ==> Claimable(rows, queue[i])
    requires forall i, j :: 0 <= i < j < |queue| ==> queue[i] != queue[j]
    ensures Settled(queue, rows, Drain(queue, k, rows, load, w), w)
  {
    if queue != [] {
      var t := Turn(queue[0], k, rows, load, w);
      QuietTurn(queue[0], k, rows, load, w);
      QuietPass(queue[1..], k + 1, t.rows, t.load, w);
      DrainCons(queue, k, rows, load, w);
      SettleFirst(queue, rows, t, Drain(queue, k, rows, load, w), Drain(queue[1..], k + 1, t.rows, t.load, w), w);
    }
  }

  lemma SettledLater(queue: seq<string>, rows: Rows, t: Turned, q: Passed, i: nat, w: World)
    requires 0 < i < |queue| && queue[0] !in queue[1..] && queue[0] in rows
    requires t.rows == rows[queue[0] := RowAfter(rows[queue[0]], t.outcome)] && Settled(queue[1..], t.rows, q, w)
    ensures queue[i] in rows && queue[i] in q.rows
    ensures q.rows[queue[i]] == RowAfter(rows[queue[i]], q.outcomes[i - 1])
         && FitsEnvelope(queue[i], rows[queue[i]], q.outcomes[i - 1], w)
  {
    assert queue[1..][i - 1] == queue[i] && queue[i] in queue[1..];
  }

  lemma SettledFirst(queue: seq<string>, rows: Rows, t: Turned, q: Passed, w: World)
    requires queue != [] && queue[0] !in queue[1..] && queue[0] in rows
    requires t.rows == rows[queue[0] := RowAfter(rows[queue[0]], t.outcome)] && Settled(queue[1..], t.rows, q, w)
    ensures q.rows.Keys == rows.Keys && q.rows[queue[0]] == RowAfter(rows[queue[0]], t.outcome)
    ensures forall id :: id in rows && id !in queue ==> q.rows[id] == rows[id]
  {
    assert queue == [queue[0]] + queue[1..];
  }

  lemma SettleFirst(queue: seq<string>, rows: Rows, t: Turned, p: Passed, q: Passed, w: World)
    requires queue != [] && queue[0] !in queue[1..] && (forall id :: id in queue ==> id in rows)
    requires t.rows == rows[queue[0] := RowAfter(rows[queue[0]], t.outcome)]
    requires FitsEnvelope(queue[0], rows[queue[0]], t.outcome, w)
    requires p.outcomes == [t.outcome] + q.outcomes && p.rows == q.rows && Settled(queue[1..], t.rows, q, w)
    ensures Settled(queue, rows, p, w)
  {
    SettledFirst(queue, rows, t, q, w);
    forall i | 0 <= i < |queue|
      ensures p.rows[queue[i]] == RowAfter(rows[queue[i]], p.outcomes[i])
      ensures FitsEnvelope(queue[i], rows[queue[i]], p.outcomes[i], w)
    {
      if i > 0 { SettledLater(queue, rows, t, q, i, w); }
    }
  }
}
