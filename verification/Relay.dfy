/** The relay of a live run: one owner appends output, viewers subscribe and leave, and the end of
    the run closes every channel.

    Sending on a closed channel and closing a channel twice are crashes of the host language.
    Here both are preconditions, so a verified caller never does either.  Each method is one
    critical section of the run's lock; `Interleave` runs any list of them in any order. */
module Relay {

  /** Output bytes, one character per byte. */
  type Bytes = string

  const CHANNEL_CAPACITY := 2048

  function Newlines(b: Bytes): nat {
    if b == "" then 0 else (if b[0] == '\n' then 1 else 0) + Newlines(b[1..])
  }

  lemma {:induction false} NewlinesJoin(a: Bytes, b: Bytes)
    ensures Newlines(a + b) == Newlines(a) + Newlines(b)
  {
    if a == "" {
      assert a + b == b;
    } else {
      assert (a + b)[1..] == a[1..] + b;
      NewlinesJoin(a[1..], b);
    }
  }

  /** One per newline byte. */
  lemma {:induction false} NewlinesCount(b: Bytes)
    ensures Newlines(b) == multiset(b)['\n']
  {
    if b != "" {
      NewlinesCount(b[1..]);
      assert b == [b[0]] + b[1..];
    }
  }

  class Channel {
    var queue: seq<Bytes>
    var closes: nat

    constructor ()
      ensures queue == [] && closes == 0
    {
      queue, closes := [], 0;
    }

    /** Send without waiting: dropped when the channel is full. */
    method TrySend(b: Bytes)
      requires closes == 0
      modifies this`queue
      ensures queue == Offered(old(queue), b)
      ensures if |old(queue)| < 2048 then queue == old(queue) + [b] else queue == old(queue)
    {
      if |queue| < CHANNEL_CAPACITY { queue := queue + [b]; }
    }

    method Close()
      requires closes == 0
      modifies this`closes
      ensures closes == 1
    {
      closes := closes + 1;
    }

    /** Take the oldest chunk, if any. */
    method Receive() returns (b: seq<Bytes>)
      modifies this`queue
      ensures b + queue == old(queue) && |b| == if old(queue) == [] then 0 else 1
    {
      if |queue| == 0 { return []; }
      b := [queue[0]];
      queue := queue[1..];
    }
  }

  function Offered(queue: seq<Bytes>, b: Bytes): seq<Bytes> {
    if |queue| < CHANNEL_CAPACITY then queue + [b] else queue
  }

  class ActiveRun {
    var buf: Bytes
    var lineTimes: seq<int>
    var subs: set<Channel>
    var canceled: bool
    var finished: bool
    /** Every channel handed out so far, in order, and as a set. */
    var issued: seq<Channel>
    ghost var chans: set<Channel>

    ghost predicate Valid()
      reads this, chans
    {
      && |lineTimes| == Newlines(buf)
      && subs <= chans
      && (forall i :: 0 <= i < |issued| ==> issued[i] in chans)
      && (forall c :: c in chans ==> c.closes == if c in subs then 0 else 1)
      && (finished ==> subs == {})
    }

    constructor ()
      ensures Valid() && buf == "" && chans == {} && !canceled && !finished
    {
      buf, lineTimes, subs, canceled, finished, issued, chans := "", [], {}, false, false, [], {};
    }

    method StampLines(n: nat, now: int)
      modifies this`lineTimes
      ensures lineTimes == old(lineTimes) + seq(n, _ => now)
    {
      for i := 0 to n
        invariant lineTimes == old(lineTimes) + seq(i, _ => now)
      {
        lineTimes := lineTimes + [now];
      }
    }

    /** Offer `b` to every subscriber. */
    method Broadcast(b: Bytes)
      requires forall c :: c in subs ==> c in chans && c.closes == 0
      modifies chans
      ensures forall c :: c in chans ==> c.closes == old(c.closes)
      ensures forall c :: c in chans ==> c.queue == if c in subs then Offered(old(c.queue), b) else old(c.queue)
    {
      var todo := subs;
      while todo != {}
        invariant todo <= subs
        invariant forall c :: c in chans ==> c.closes == old(c.closes)
        invariant forall c :: c in chans ==>
                    c.queue == if c in subs && c !in todo then Offered(old(c.queue), b) else old(c.queue)
        decreases todo
      {
        var c :| c in todo;
        c.TrySend(b);
        todo := todo - {c};
      }
    }

    /** The owner appends `b`, stamps the lines it completes and offers it to every subscriber. */
    method Append(b: Bytes, now: int)
      requires Valid()
      modifies this`buf, this`lineTimes, chans
      ensures Valid() && buf == old(buf) + b
      ensures lineTimes == old(lineTimes) + seq(Newlines(b), _ => now)
      ensures forall c :: c in chans ==> c.queue == if c in subs then Offered(old(c.queue), b) else old(c.queue)
    {
      NewlinesJoin(buf, b);
      buf := buf + b;
      var n := Newlines(b);
      if n > 0 {
        StampLines(n, now);
      }
      Broadcast(b);
    }

    /** The end of the run: the final output and times, and every subscriber's channel closed. */
    method Finish() returns (output: Bytes, times: seq<int>, wasCanceled: bool)
      requires Valid()
      modifies this`finished, this`subs, chans
      ensures Valid() && finished && subs == {}
      ensures forall c :: c in chans ==> c.closes == 1 && c.queue == old(c.queue)
      ensures output == buf && times == lineTimes && |times| == Newlines(output) && wasCanceled == canceled
    {
      output, times, wasCanceled := buf, lineTimes, canceled;
      finished := true;
      while subs != {}
        modifies this`subs, chans
        invariant subs <= old(subs)
        invariant forall c :: c in chans ==> c.closes == (if c in subs then 0 else 1) && c.queue == old(c.queue)
        decreases subs
      {
        var c :| c in subs;
        subs := subs - {c};
        c.Close();
      }
    }

    /** Attach a viewer: the output so far and a channel for the rest; refused once finished. */
    method Subscribe() returns (snapshot: Bytes, ch: Channel?)
      requires Valid()
      modifies this`subs, this`issued, this`chans
      ensures Valid()
      ensures ch == null <==> old(finished)
      ensures ch == null ==> subs == old(subs) && issued == old(issued) && chans == old(chans)
      ensures ch != null ==> fresh(ch) && ch.queue == [] && snapshot == buf
      ensures ch != null ==> subs == old(subs) + {ch} && issued == old(issued) + [ch] && chans == old(chans) + {ch}
    {
      if finished {
        return "", null;
      }
      snapshot := buf;
      ch := new Channel();
      subs := subs + {ch};
      issued, chans := issued + [ch], chans + {ch};
    }

    /** The closure a viewer calls when it leaves, any number of times and at any moment. */
    method Unsubscribe(c: Channel)
      requires Valid() && c in chans
      modifies this`subs, c`closes
      ensures Valid() && subs == old(subs) - {c} && c.closes == 1
    {
      if c in subs {
        subs := subs - {c};
        c.Close();
      }
    }

    method Cancel()
      modifies this`canceled
      ensures canceled
    {
      canceled := true;
    }

    /** What viewers and the canceler do between the owner's own steps. */
    method Perform(op: Op)
      requires Valid()
      modifies this, chans
      ensures Valid() && buf == old(buf) && lineTimes == old(lineTimes) && finished == old(finished)
      ensures old(chans) <= chans && fresh(chans - old(chans))
      ensures canceled == (old(canceled) || op.RequestCancel?)
    {
      match op
      case Attach =>
        var snapshot, ch := Subscribe();
      case Leave(i) =>
        if i < |issued| { Unsubscribe(issued[i]); }
      case Read(i) =>
        if i < |issued| { var b := issued[i].Receive(); }
      case RequestCancel =>
        Cancel();
    }

    method Interleave(ops: seq<Op>)
      requires Valid()
      modifies this, chans
      ensures Valid() && buf == old(buf) && lineTimes == old(lineTimes) && finished == old(finished)
      ensures old(chans) <= chans && fresh(chans - old(chans))
      ensures canceled == (old(canceled) || RequestCancel in ops)
    {
      for i := 0 to |ops|
        invariant Valid() && buf == old(buf) && lineTimes == old(lineTimes) && finished == old(finished)
        invariant old(chans) <= chans && fresh(chans - old(chans))
        invariant canceled == (old(canceled) || RequestCancel in ops[..i])
      {
        Perform(ops[i]);
        assert ops[..i + 1] == ops[..i] + [ops[i]];
      }
      assert ops[..|ops|] == ops;
    }
  }

  datatype Op = Attach | Leave(i: nat) | Read(i: nat) | RequestCancel
}
