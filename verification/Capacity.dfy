/** Runner capacity under interleaving.

    The whole runs table, one drainer, and everybody else: creators, approvers and rejecters,
    cancelers, executors, and the runners whose heartbeats reorder the list of online runners.
    Each store call is one atomic step and all steps interleave freely with the drainer's pass.
    Which runners are registered, with their tags and caps, is fixed.

    The registry also says whether approval and rejection are check-and-set (one conditional
    update) or, as the handlers are written, a read followed by an unconditional write. */
module Capacity {
  import opened Dispatch
  import opened Runs
  import opened Wrappers

  datatype Registry = Registry(runners: seq<Runner>, builtinUrl: string, checkAndSet: bool)

  /** Where the drainer is in its pass. */
  datatype PassAt =
    | Resting
    | Listed(todo: seq<string>)                                                  // load not yet counted
    | Turn(todo: seq<string>, load: Load)
    | Held(id: string, env: Envelope, todo: seq<string>, load: Load)             // envelope read
    | Picked(id: string, runner: string, todo: seq<string>, load: Load)          // runner chosen
    | Won(id: string, runner: string, todo: seq<string>, load: Load)             // claimed
    | RunnerSet(id: string, runner: string, todo: seq<string>, load: Load)
    | Cleared(id: string, runner: string, todo: seq<string>, load: Load)         // envelope dropped
    | GivingUp(id: string, owes: string, todo: seq<string>, load: Load)          // slot of `owes` given back
    | GivenUp(id: string, owes: string, todo: seq<string>, load: Load)

  datatype Decision = Approving(id: string) | Rejecting(id: string)

  datatype State = State(
    rows: Rows,
    executing: set<string>,
    pass: PassAt,
    online: seq<Runner>,              // most recently seen first
    deciders: map<nat, Decision>,     // those that read `awaiting` and have not yet written
    created: map<string, nat>)        // when each run was created

  function CreatedAt(s: State, id: string): nat { if id in s.created then s.created[id] else 0 }

  /** A run for a tagged pool needs a project backed by git; others are refused at launch. */
  predicate Launchable(e: Envelope) { DefaultPool(e.tag) || e.gitBacked }

  function ActiveOn(rows: Rows, runner: string): set<string> {
    set id | id in rows && Active(rows[id].status) && rows[id].runner == runner
  }

  /** The load query: active runs grouped by runner. */
  function CountActive(rows: Rows): Load {
    map r | r in (set id | id in rows && Active(rows[id].status) :: rows[id].runner) :: |ActiveOn(rows, r)|
  }

  datatype Step =
    | Heartbeat(r: Runner) | Silence(r: Runner)
    | Create(id: string, held: bool)
    | WriteEnvelope(id: string, e: Option<Envelope>)     // stored by the creator, dropped by a canceler or rejecter
    | Approve(id: string) | Reject(id: string)           // check-and-set
    | ReadAwaiting(k: nat, d: Decision) | WriteDecision(k: nat)
    | Cancel(id: string)
    | MarkRunning(id: string) | Finish(id: string, outcome: Status)
    | ListQueue(queue: seq<string>) | Count | EndPass
    | LoadEnvelope | Choose | Claim | SetRunner | DropEnvelope | Start | SyncFails
    | GiveUpDrop | GiveUpFinish

  predicate InStatus(s: State, id: string, st: Status) { id in s.rows && s.rows[id].status == st }

  predicate Distinct(q: seq<string>) { forall i, j :: 0 <= i < j < |q| ==> q[i] != q[j] }

  /** The listing holds every queued run once, oldest first. */
  ghost predicate ListsQueue(s: State, q: seq<string>) {
    && (forall id :: id in q <==> InStatus(s, id, Queued))
    && (forall i, j :: 0 <= i < j < |q| ==> CreatedAt(s, q[i]) < CreatedAt(s, q[j]))
  }

  ghost predicate Enabled(g: Registry, s: State, a: Step) {
    match a
    case Heartbeat(r) => r in g.runners
    case Silence(r) => r in s.online
    case Create(id, _) => id !in s.rows
    case WriteEnvelope(id, e) => id in s.rows && (e.Some? ==> Launchable(e.value))
    case Approve(id) => g.checkAndSet && InStatus(s, id, Awaiting)
    case Reject(id) => g.checkAndSet && InStatus(s, id, Awaiting)
    case ReadAwaiting(k, d) => !g.checkAndSet && k !in s.deciders && InStatus(s, d.id, Awaiting)
    case WriteDecision(k) => k in s.deciders && s.deciders[k].id in s.rows
    case Cancel(id) => InStatus(s, id, Queued)
    case MarkRunning(id) => id in s.executing && id in s.rows
    case Finish(id, o) => id in s.executing && id in s.rows && !Active(o) && o != Awaiting && o != Queued
    case ListQueue(q) => s.pass.Resting? && ListsQueue(s, q)
    case Count => s.pass.Listed?
    case EndPass => s.pass.Turn? && s.pass.todo == []
    case LoadEnvelope => s.pass.Turn? && s.pass.todo != [] && s.pass.todo[0] in s.rows
    case Choose => s.pass.Held?
    case Claim => s.pass.Picked?
    case SetRunner => s.pass.Won? && s.pass.id in s.rows
    case DropEnvelope => s.pass.RunnerSet? && s.pass.id in s.rows
    case Start => s.pass.Cleared?
    case SyncFails => s.pass.Cleared? && s.pass.runner != "" && LoadOf(s.pass.load, s.pass.runner) > 0
    case GiveUpDrop => s.pass.GivingUp? && s.pass.id in s.rows
    case GiveUpFinish => s.pass.GivenUp? && s.pass.id in s.rows
  }

  function Put(s: State, id: string, st: Status): State
    requires id in s.rows
  {
    s.(rows := s.rows[id := s.rows[id].(status := st)])
  }

  function Without(online: seq<Runner>, r: Runner): (rest: seq<Runner>)
    ensures forall x :: x in rest <==> x in online && x != r
  {
    if online == [] then []
    else (if online[0] == r then [] else [online[0]]) + Without(online[1..], r)
  }

  ghost function Next(g: Registry, s: State, a: Step): State
    requires Enabled(g, s, a)
  {
    match a
    case Heartbeat(r) => s.(online := [r] + Without(s.online, r))
    case Silence(r) => s.(online := Without(s.online, r))
    case Create(id, held) =>
      s.(rows := s.rows[id := Row(if held then Awaiting else Queued, "", None)],
         created := s.created[id := |s.created|])
    case WriteEnvelope(id, e) => s.(rows := s.rows[id := s.rows[id].(envelope := e)])
    case Approve(id) => Put(s, id, Queued)
    case Reject(id) => Put(s, id, Canceled)
    case ReadAwaiting(k, d) => s.(deciders := s.deciders[k := d])
    case WriteDecision(k) =>
      Put(s, s.deciders[k].id, if s.deciders[k].Approving? then Queued else Canceled).(deciders := s.deciders - {k})
    case Cancel(id) => Put(s, id, Canceled)
    case MarkRunning(id) => Put(s, id, Running)
    case Finish(id, o) => Put(s, id, o).(executing := s.executing - {id})
    case _ => PassNext(g, s, a)
  }

  /** The drainer's own steps. */
  ghost function PassNext(g: Registry, s: State, a: Step): State
    requires Enabled(g, s, a)
  {
    var p := s.pass;
    match a
    case ListQueue(q) => s.(pass := Listed(q))
    case Count => s.(pass := Turn(p.todo, CountActive(s.rows)))
    case EndPass => s.(pass := Resting)
    case LoadEnvelope =>
      var id := p.todo[0];
      (match s.rows[id].envelope
       case None => s.(pass := GivingUp(id, "", p.todo[1..], p.load))
       case Some(env) => s.(pass := Held(id, env, p.todo[1..], p.load)))
    case Choose =>
      (match Pick(p.env.tag, p.load, s.online, g.builtinUrl)
       case Chosen(_, runner) => s.(pass := Picked(p.id, runner, p.todo, p.load))
       case _ => s.(pass := Turn(p.todo, p.load)))
    case Claim =>
      if Claimable(s.rows, p.id) then
        s.(rows := s.rows[p.id := s.rows[p.id].(status := Pending, runner := p.runner)],
           pass := Won(p.id, p.runner, p.todo, if p.runner != "" then Bump(p.load, p.runner) else p.load))
      else s.(pass := Turn(p.todo, p.load))
    case SetRunner =>
      s.(rows := s.rows[p.id := s.rows[p.id].(runner := p.runner)], pass := RunnerSet(p.id, p.runner, p.todo, p.load))
    case DropEnvelope =>
      s.(rows := s.rows[p.id := s.rows[p.id].(envelope := None)], pass := Cleared(p.id, p.runner, p.todo, p.load))
    case Start => s.(executing := s.executing + {p.id}, pass := Turn(p.todo, p.load))
    case SyncFails => s.(pass := GivingUp(p.id, p.runner, p.todo, p.load[p.runner := LoadOf(p.load, p.runner) - 1]))
    case GiveUpDrop =>
      s.(rows := s.rows[p.id := s.rows[p.id].(envelope := None)], pass := GivenUp(p.id, p.owes, p.todo, p.load))
    case GiveUpFinish => Put(s, p.id, Failed).(pass := Turn(p.todo, p.load))
    case _ => s
  }

  // ---- the invariant -------------------------------------------------------------------------------

  /** The in-pass load covers what the table holds; `owed` is a slot given back too early. */
  ghost predicate Covers(rows: Rows, load: Load, owed: string) {
    forall r :: r != "" ==> |ActiveOn(rows, r)| <= LoadOf(load, r) + if r == owed then 1 else 0
  }

  /** Runners with a cap that untagged runs cannot reach, registered under an id of their own. */
  ghost predicate Guarded(g: Registry, r: Runner) { r in g.runners && Capped(r) && OnlyOne(r, g.runners) }

  ghost predicate WithinCaps(g: Registry, rows: Rows) {
    forall r :: Guarded(g, r) ==> |ActiveOn(rows, r.id)| <= r.cap
  }

  /** The chosen runner has a free slot. */
  ghost predicate HasSlot(g: Registry, runner: string, load: Load) {
    forall r :: Guarded(g, r) && r.id == runner ==> LoadOf(load, runner) < r.cap
  }

  /** Claimed by this pass and not yet handed to an executor. */
  ghost predicate InHand(s: State, id: string, runner: string) {
    InStatus(s, id, Pending) && s.rows[id].runner == runner && id !in s.executing
  }

  ghost predicate Fresh(s: State, todo: seq<string>) {
    Distinct(todo) && forall id :: id in todo ==> id !in s.executing
  }

  ghost predicate PassOk(g: Registry, s: State) {
    match s.pass
    case Resting => true
    case Listed(todo) => Fresh(s, todo)
    case Turn(todo, load) => Fresh(s, todo) && Covers(s.rows, load, "")
    case Held(id, _, todo, load) => Fresh(s, [id] + todo) && Covers(s.rows, load, "")
    case Picked(id, runner, todo, load) => Fresh(s, [id] + todo) && Covers(s.rows, load, "") && HasSlot(g, runner, load)
    case Won(id, runner, todo, load) => Fresh(s, [id] + todo) && InHand(s, id, runner) && Covers(s.rows, load, "")
    case RunnerSet(id, runner, todo, load) => Fresh(s, [id] + todo) && InHand(s, id, runner) && Covers(s.rows, load, "")
    case Cleared(id, runner, todo, load) => Fresh(s, [id] + todo) && InHand(s, id, runner) && Covers(s.rows, load, "")
    case GivingUp(id, owes, todo, load) =>
      Fresh(s, [id] + todo) && (owes != "" ==> InHand(s, id, owes)) && Covers(s.rows, load, owes)
    case GivenUp(id, owes, todo, load) =>
      Fresh(s, [id] + todo) && (owes != "" ==> InHand(s, id, owes)) && Covers(s.rows, load, owes)
  }

  /** The runs the pass has still to settle. */
  function Todo(p: PassAt): seq<string> {
    match p
    case Resting => []
    case Listed(todo) => todo
    case Turn(todo, _) => todo
    case _ => [p.id] + p.todo
  }

  /** Past its decision for good: a row never becomes awaiting again. */
  ghost predicate Decided(s: State, id: string) { id in s.rows && s.rows[id].status != Awaiting }

  /** A run under decision awaits it; the runs of a pass are decided. */
  ghost predicate Decisions(g: Registry, s: State) {
    && (forall k :: k in s.deciders ==> InStatus(s, s.deciders[k].id, Awaiting))
    && (g.checkAndSet ==> s.deciders == map[])
    && (forall id :: id in Todo(s.pass) ==> Decided(s, id))
  }

  ghost predicate Slots(g: Registry, s: State) {
    && (forall id :: id in s.executing ==> id in s.rows && Active(s.rows[id].status))
    && (forall r :: r in s.online ==> r in g.runners)
    && WithinCaps(g, s.rows)
    && PassOk(g, s)
  }

  ghost predicate Inv(g: Registry, s: State) { Decisions(g, s) && Slots(g, s) }

  /** No run has two decisions under way. */
  ghost predicate OneDecision(s: State) {
    forall j, k :: j in s.deciders && k in s.deciders && s.deciders[j].id == s.deciders[k].id ==> j == k
  }

  // ---- what a row update does to the active sets ----------------------------------------------------

  /** No runner gains an active run. */
  ghost predicate NoGain(a: Rows, b: Rows) { forall r :: ActiveOn(b, r) <= ActiveOn(a, r) }

  lemma SubsetSize(a: set<string>, b: set<string>)
    requires a <= b
    ensures |a| <= |b|
  {
    assert b == a + (b - a);
  }

  lemma NoGainKeeps(g: Registry, a: Rows, b: Rows)
    requires NoGain(a, b)
    ensures WithinCaps(g, a) ==> WithinCaps(g, b)
    ensures forall load, owed :: Covers(a, load, owed) ==> Covers(b, load, owed)
  {
    forall r ensures |ActiveOn(b, r)| <= |ActiveOn(a, r)| { SubsetSize(ActiveOn(b, r), ActiveOn(a, r)); }
  }

  lemma CountCovers(rows: Rows)
    ensures Covers(rows, CountActive(rows), "")
  {
    forall r | r != "" ensures |ActiveOn(rows, r)| <= LoadOf(CountActive(rows), r) {
      if id :| id in ActiveOn(rows, r) {
        assert r in CountActive(rows);
      } else {
        assert ActiveOn(rows, r) == {};
      }
    }
  }

  /** A claim adds exactly one active run, on the runner it names. */
  lemma ClaimAddsOne(rows: Rows, id: string, runner: string)
    requires Claimable(rows, id)
    ensures var b := rows[id := rows[id].(status := Pending, runner := runner)];
            forall r :: |ActiveOn(b, r)| == |ActiveOn(rows, r)| + if r == runner then 1 else 0
  {
    var b := rows[id := rows[id].(status := Pending, runner := runner)];
    forall r ensures |ActiveOn(b, r)| == |ActiveOn(rows, r)| + if r == runner then 1 else 0 {
      assert id !in ActiveOn(rows, r);
      assert ActiveOn(b, r) == ActiveOn(rows, r) + if r == runner then {id} else {};
    }
  }

  lemma CoversBumped(a: Rows, b: Rows, load: Load, runner: string)
    requires Covers(a, load, "")
    requires forall r :: |ActiveOn(b, r)| == |ActiveOn(a, r)| + if r == runner then 1 else 0
    ensures Covers(b, if runner != "" then Bump(load, runner) else load, "")
  {
  }

  lemma CapsAfterClaim(g: Registry, a: Rows, b: Rows, load: Load, runner: string)
    requires WithinCaps(g, a) && Covers(a, load, "") && HasSlot(g, runner, load)
    requires forall r :: |ActiveOn(b, r)| == |ActiveOn(a, r)| + if r == runner then 1 else 0
    ensures WithinCaps(g, b)
  {
    forall r | Guarded(g, r) ensures |ActiveOn(b, r.id)| <= r.cap {
      if r.id == runner { assert LoadOf(load, runner) < r.cap; }
    }
  }

  lemma ChoiceHasSlot(g: Registry, tag: string, load: Load, online: seq<Runner>)
    requires forall r :: r in online ==> r in g.runners
    requires Pick(tag, load, online, g.builtinUrl).Chosen?
    ensures HasSlot(g, Pick(tag, load, online, g.builtinUrl).id, load)
  {
    var c := Pick(tag, load, online, g.builtinUrl);
    forall r | Guarded(g, r) && r.id == c.id ensures LoadOf(load, c.id) < r.cap {
      PickRespectsCap(tag, load, online, g.builtinUrl, r, c.url);
    }
  }

  lemma ClaimKeeps(g: Registry, s: State)
    requires Slots(g, s) && Enabled(g, s, Claim)
    ensures Slots(g, Next(g, s, Claim))
  {
    var p := s.pass;
    FreshTail(s, p.id, p.todo);
    if Claimable(s.rows, p.id) {
      var rows' := s.rows[p.id := s.rows[p.id].(status := Pending, runner := p.runner)];
      ClaimAddsOne(s.rows, p.id, p.runner);
      CoversBumped(s.rows, rows', p.load, p.runner);
      CapsAfterClaim(g, s.rows, rows', p.load, p.runner);
    }
  }

  lemma FreshTail(s: State, id: string, todo: seq<string>)
    requires Fresh(s, [id] + todo)
    ensures Fresh(s, todo) && id !in todo && id !in s.executing
  {
    var q := [id] + todo;
    assert q[0] == id;
    assert forall i :: 0 <= i < |todo| ==> q[i + 1] == todo[i];
  }

  lemma FreshSplit(s: State, todo: seq<string>)
    requires Fresh(s, todo) && todo != []
    ensures Fresh(s, [todo[0]] + todo[1..])
  {
    assert [todo[0]] + todo[1..] == todo;
  }

  // ---- the steps keep the invariant -------------------------------------------------------------------

  lemma PassCarries(g: Registry, s: State, s': State)
    requires PassOk(g, s) && s'.pass == s.pass && s'.executing <= s.executing && NoGain(s.rows, s'.rows)
    requires forall id, r :: InHand(s, id, r) ==> InHand(s', id, r)
    ensures PassOk(g, s')
  {
    NoGainKeeps(g, s.rows, s'.rows);
  }

  /** Everybody but the drainer. */
  predicate Outside(a: Step) {
    || a.Heartbeat? || a.Silence? || a.Create? || a.WriteEnvelope?
    || a.Approve? || a.Reject? || a.ReadAwaiting? || a.WriteDecision?
    || a.Cancel? || a.MarkRunning? || a.Finish?
  }

  lemma DecidedOutside(g: Registry, s: State, a: Step, id: string)
    requires Enabled(g, s, a) && Outside(a) && Decided(s, id)
    ensures Decided(Next(g, s, a), id)
  {
  }

  lemma DecidedInPass(g: Registry, s: State, a: Step, id: string)
    requires Enabled(g, s, a) && !Outside(a) && Decided(s, id)
    ensures Decided(PassNext(g, s, a), id)
  {
  }

  lemma DecidedStays(g: Registry, s: State, a: Step, id: string)
    requires Enabled(g, s, a) && Decided(s, id)
    ensures Decided(Next(g, s, a), id)
  {
    if Outside(a) { DecidedOutside(g, s, a, id); } else { DecidedInPass(g, s, a, id); }
  }

  /** A pass takes on runs only when it lists the queue. */
  lemma TodoShrinks(g: Registry, s: State, a: Step, id: string)
    requires Enabled(g, s, a) && id in Todo(Next(g, s, a).pass)
    ensures id in Todo(s.pass) || (a.ListQueue? && InStatus(s, id, Queued))
  {
  }

  /** Rows under decision stay awaiting until that decision is written. */
  lemma UndecidedStays(g: Registry, s: State, a: Step, k: nat)
    requires Enabled(g, s, a) && k in Next(g, s, a).deciders
    requires forall id :: id in s.executing ==> id in s.rows && Active(s.rows[id].status)
    requires k in s.deciders ==> InStatus(s, s.deciders[k].id, Awaiting)
    requires g.checkAndSet ==> k !in s.deciders
    requires forall id :: id in Todo(s.pass) ==> Decided(s, id)
    requires forall j :: j in s.deciders && k in s.deciders && s.deciders[j].id == s.deciders[k].id ==> j == k
    ensures InStatus(Next(g, s, a), Next(g, s, a).deciders[k].id, Awaiting)
  {
    if a.GiveUpFinish? { assert s.pass.id in Todo(s.pass); }
  }

  lemma DecisionsKept(g: Registry, s: State, a: Step)
    requires Inv(g, s) && Enabled(g, s, a) && OneDecision(s)
    ensures Decisions(g, Next(g, s, a))
  {
    var s' := Next(g, s, a);
    forall k | k in s'.deciders ensures InStatus(s', s'.deciders[k].id, Awaiting) { UndecidedStays(g, s, a, k); }
    forall id | id in Todo(s'.pass) ensures Decided(s', id) {
      TodoShrinks(g, s, a, id);
      DecidedStays(g, s, a, id);
    }
    assert g.checkAndSet ==> s'.deciders == map[];
  }

  /** Nobody but the drainer makes a run active that was not, or touches one the drainer has in hand. */
  lemma OutsideRow(g: Registry, s: State, a: Step, id: string)
    requires Enabled(g, s, a) && Outside(a)
    requires forall x :: x in s.executing ==> x in s.rows && Active(s.rows[x].status)
    requires a.WriteDecision? ==> InStatus(s, s.deciders[a.k].id, Awaiting)
    ensures var s' := Next(g, s, a);
            && (id in s'.rows && Active(s'.rows[id].status) ==>
                  id in s.rows && Active(s.rows[id].status) && s.rows[id].runner == s'.rows[id].runner)
            && (InStatus(s, id, Pending) && id !in s.executing ==>
                  InStatus(s', id, Pending) && id !in s'.executing && s'.rows[id].runner == s.rows[id].runner)
  {
  }

  lemma OutsideGainsNothing(g: Registry, s: State, a: Step)
    requires Enabled(g, s, a) && Outside(a)
    requires forall id :: id in s.executing ==> id in s.rows && Active(s.rows[id].status)
    requires a.WriteDecision? ==> InStatus(s, s.deciders[a.k].id, Awaiting)
    ensures NoGain(s.rows, Next(g, s, a).rows)
    ensures forall id, r :: InHand(s, id, r) ==> InHand(Next(g, s, a), id, r)
  {
    var s' := Next(g, s, a);
    forall r, id | id in ActiveOn(s'.rows, r) ensures id in ActiveOn(s.rows, r) { OutsideRow(g, s, a, id); }
    forall id, r | InHand(s, id, r) ensures InHand(s', id, r) { OutsideRow(g, s, a, id); }
  }

  lemma ExecutingStay(g: Registry, s: State, a: Step)
    requires Enabled(g, s, a) && Outside(a)
    requires forall id :: id in s.executing ==> id in s.rows && Active(s.rows[id].status)
    requires a.WriteDecision? ==> InStatus(s, s.deciders[a.k].id, Awaiting)
    ensures var s' := Next(g, s, a);
            && s'.executing <= s.executing
            && (forall id :: id in s'.executing ==> id in s'.rows && Active(s'.rows[id].status))
  {
  }

  lemma OthersKeep(g: Registry, s: State, a: Step)
    requires Slots(g, s) && Enabled(g, s, a) && Outside(a)
    requires a.WriteDecision? ==> InStatus(s, s.deciders[a.k].id, Awaiting)
    ensures Slots(g, Next(g, s, a))
  {
    var s' := Next(g, s, a);
    ExecutingStay(g, s, a);
    OutsideGainsNothing(g, s, a);
    NoGainKeeps(g, s.rows, s'.rows);
    PassCarries(g, s, s');
  }

  lemma DrainerKeeps(g: Registry, s: State, a: Step)
    requires Slots(g, s) && Enabled(g, s, a)
    requires a.ListQueue? || a.Count? || a.EndPass? || a.LoadEnvelope?
    ensures Slots(g, Next(g, s, a))
  {
    match a
    case ListQueue(q) =>
    case Count => CountCovers(s.rows);
    case EndPass =>
    case LoadEnvelope => FreshSplit(s, s.pass.todo);
  }

  lemma ChooseKeeps(g: Registry, s: State)
    requires Slots(g, s) && Enabled(g, s, Choose)
    ensures Slots(g, Next(g, s, Choose))
  {
    var p := s.pass;
    FreshTail(s, p.id, p.todo);
    if Pick(p.env.tag, p.load, s.online, g.builtinUrl).Chosen? {
      ChoiceHasSlot(g, p.env.tag, p.load, s.online);
    }
  }

  lemma DispatchKeeps(g: Registry, s: State, a: Step)
    requires Slots(g, s) && Enabled(g, s, a)
    requires a.SetRunner? || a.DropEnvelope? || a.Start? || a.GiveUpDrop?
    ensures Slots(g, Next(g, s, a))
  {
    var s' := Next(g, s, a);
    FreshTail(s, s.pass.id, s.pass.todo);
    assert NoGain(s.rows, s'.rows);
    NoGainKeeps(g, s.rows, s'.rows);
  }

  /** The slot of a failed dispatch is given back before its row is failed: for one step the load
      is one short, by the run in hand. */
  lemma SyncFailsKeeps(g: Registry, s: State)
    requires Slots(g, s) && Enabled(g, s, SyncFails)
    ensures Slots(g, Next(g, s, SyncFails))
  {
  }

  lemma GiveUpKeeps(g: Registry, s: State)
    requires Slots(g, s) && Enabled(g, s, GiveUpFinish)
    ensures Slots(g, Next(g, s, GiveUpFinish))
  {
    var p, s' := s.pass, Next(g, s, GiveUpFinish);
    FreshTail(s, p.id, p.todo);
    assert NoGain(s.rows, s'.rows);
    NoGainKeeps(g, s.rows, s'.rows);
    forall r | r != "" ensures |ActiveOn(s'.rows, r)| <= LoadOf(p.load, r) {
      if r == p.owes {
        assert p.id in ActiveOn(s.rows, r);
        assert ActiveOn(s'.rows, r) == ActiveOn(s.rows, r) - {p.id};
      } else {
        assert |ActiveOn(s'.rows, r)| <= LoadOf(p.load, r) + 0;
      }
    }
  }

  lemma PassStepKeeps(g: Registry, s: State, a: Step)
    requires Slots(g, s) && Enabled(g, s, a) && !Outside(a)
    ensures Slots(g, Next(g, s, a))
  {
    match a
    case Choose => ChooseKeeps(g, s);
    case Claim => ClaimKeeps(g, s);
    case SyncFails => SyncFailsKeeps(g, s);
    case GiveUpFinish => GiveUpKeeps(g, s);
    case SetRunner | DropEnvelope | Start | GiveUpDrop => DispatchKeeps(g, s, a);
    case ListQueue(_) | Count | EndPass | LoadEnvelope => DrainerKeeps(g, s, a);
  }

  lemma StepKeeps(g: Registry, s: State, a: Step)
    requires Inv(g, s) && Enabled(g, s, a) && OneDecision(s)
    ensures Inv(g, Next(g, s, a))
  {
    DecisionsKept(g, s, a);
    if Outside(a) {
      OthersKeep(g, s, a);
    } else {
      PassStepKeeps(g, s, a);
    }
  }
}
