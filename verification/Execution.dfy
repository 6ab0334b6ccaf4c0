/** The executor: the frame loop that feeds a live run, flushes prefixes of its output to the
    runs table and finally stores the outcome. */
module Execution {
  import opened Runs
  import opened Wrappers
  import opened Relay

  datatype Frame =
    | Stdout(data: Option<Bytes>)       // None: not valid base64
    | RunnerError(text: Bytes)
    | Artifact
    | Exit(code: int)
    | Other

  function DialFailed(e: Bytes): Bytes {
    "\U{1B}[31m\U{E2}\U{9C}\U{97} failed to reach runner service: " + e + "\U{1B}[0m\r\n"
  }

  function RunnerNotice(text: Bytes): Bytes { "\r\n\U{1B}[31m[runner] " + text + "\U{1B}[0m\r\n" }

  function StreamEnded(): Bytes { "\r\n\U{1B}[33m" + "[runner] stream ended unexpectedly" + "\U{1B}[0m\r\n" }

  function FrameText(f: Frame): Bytes {
    match f
    case Stdout(Some(d)) => d
    case RunnerError(t) => RunnerNotice(t)
    case _ => ""
  }

  /** The output of the frames up to the exit frame, or of all of them. */
  function StreamText(frames: seq<Frame>): Bytes {
    if frames == [] || frames[0].Exit? then "" else FrameText(frames[0]) + StreamText(frames[1..])
  }

  /** The code of the first exit frame; -1 when the stream ends without one. */
  function ExitCode(frames: seq<Frame>): int {
    if frames == [] then -1 else if frames[0].Exit? then frames[0].code else ExitCode(frames[1..])
  }

  predicate Exits(frames: seq<Frame>) { frames != [] && (frames[0].Exit? || Exits(frames[1..])) }

  function Ending(frames: seq<Frame>): Bytes { if Exits(frames) then "" else StreamEnded() }

  /** The whole output of a run: what every viewer should end up with. */
  function Transcript(preamble: Bytes, dialError: Option<Bytes>, frames: seq<Frame>): Bytes {
    match dialError
    case Some(e) => preamble + DialFailed(e)
    case None => preamble + StreamText(frames) + Ending(frames)
  }

  ghost predicate NoExit(frames: seq<Frame>) { forall i :: 0 <= i < |frames| ==> !frames[i].Exit? }

  lemma {:induction false} StreamSplits(frames: seq<Frame>, k: nat)
    requires k < |frames| && NoExit(frames[..k + 1])
    ensures StreamText(frames)
         == StreamText(frames[..k]) + (FrameText(frames[k]) + StreamText(frames[k + 1..]))
  {
    assert frames[..k + 1][0] == frames[0];
    if k == 0 {
      assert frames[..0] == [];
      NothingMore(FrameText(frames[0]) + StreamText(frames[1..]));
    } else {
      assert frames[1..][..k] == frames[..k + 1][1..];
      StreamSplits(frames[1..], k - 1);
      assert frames[1..][..k - 1] == frames[..k][1..] && frames[1..][k..] == frames[k + 1..];
      JoinAssoc(FrameText(frames[0]), StreamText(frames[..k][1..]), FrameText(frames[k]) + StreamText(frames[k + 1..]));
    }
  }

  /** Every frame before the exit frame shows in its place: output as it is, an error of the runner on
      a red line of its own, anything else not at all. */
  lemma FrameShows(frames: seq<Frame>, k: nat)
    requires k < |frames| && NoExit(frames[..k + 1])
    ensures var before, after := StreamText(frames[..k]), StreamText(frames[k + 1..]);
            match frames[k]
            case Stdout(Some(data)) => StreamText(frames) == before + (data + after)
            case RunnerError(text) =>
              StreamText(frames) == before + ("\r\n\U{1B}[31m[runner] " + text + "\U{1B}[0m\r\n" + after)
            case _ => StreamText(frames) == before + after
  {
    StreamSplits(frames, k);
    NothingMore(StreamText(frames[k + 1..]));
  }

  /** When the runner cannot be reached the output is the preamble and a notice; a stream without an
      exit frame ends with one. */
  lemma NoticeShows(preamble: Bytes, e: Bytes, frames: seq<Frame>)
    ensures Transcript(preamble, Some(e), frames)
         == preamble + ("\U{1B}[31m\U{E2}\U{9C}\U{97} failed to reach runner service: " + e + "\U{1B}[0m\r\n")
    ensures NoExit(frames) ==>
              Transcript(preamble, None, frames)
              == preamble + StreamText(frames)
                 + ("\r\n\U{1B}[33m" + "[runner] stream ended unexpectedly" + "\U{1B}[0m\r\n")
  {
    NeverExits(frames);
  }

  lemma {:induction false} NeverExits(frames: seq<Frame>)
    ensures Exits(frames) <==> !NoExit(frames)
  {
    if frames != [] { NeverExits(frames[1..]); }
  }

  /** A cancel decides over any exit code, then a code other than zero makes the run failed. */
  ghost predicate EndedAs(status: Status, canceled: bool, exitCode: int) {
    && (status == Canceled <==> canceled)
    && (status == Failed <==> !canceled && exitCode != 0)
    && (status == Success <==> !canceled && exitCode == 0)
  }

  /** How many frames from the k-th on are followed by a flush: those before the exit frame for which
      one is due. */
  function Flushes(frames: seq<Frame>, k: nat, env: Env): nat
    decreases |frames| - k
  {
    if k >= |frames| || frames[k].Exit? then 0
    else (if env.flushDue(k) then 1 else 0) + Flushes(frames, k + 1, env)
  }

  datatype Stored = Stored(output: Bytes, times: seq<int>)

  /** A run's row, as far as the executor writes it, and the outputs it held over time. */
  class LogRow {
    var status: Status
    var output: Bytes
    var times: seq<int>
    var exitCode: int
    ghost var history: seq<Stored>

    /** Every stored pair has one timestamp per line, and each output extends the one before. */
    ghost predicate Valid()
      reads this
    {
      && (forall s :: s in history ==> |s.times| == Newlines(s.output))
      && (forall i, j :: 0 <= i < j < |history| ==> history[i].output <= history[j].output)
      && (history != [] ==> Last() == Stored(output, times))
    }

    ghost function Last(): Stored
      reads this
      requires history != []
    {
      history[|history| - 1]
    }

    constructor ()
      ensures Valid() && status == Pending && history == []
    {
      status, output, times, exitCode, history := Pending, "", [], 0, [];
    }

    method MarkRunning()
      modifies this`status
      ensures status == Running
    {
      status := Running;
    }

    /** The in-progress output; the status is left alone. */
    method UpdateRunLog(output: Bytes, times: seq<int>)
      requires Valid() && |times| == Newlines(output)
      requires history != [] ==> this.output <= output
      modifies this`output, this`times, this`history
      ensures Valid() && this.output == output && history == old(history) + [Stored(output, times)]
    {
      history := history + [Stored(output, times)];
      this.output, this.times := output, times;
    }

    /** The terminal status and the full output in one update. */
    method FinishRun(status: Status, exitCode: int, output: Bytes, times: seq<int>)
      requires Valid() && |times| == Newlines(output)
      requires history != [] ==> this.output <= output
      modifies this
      ensures Valid() && this.status == status && this.exitCode == exitCode
      ensures this.output == output && this.times == times && history == old(history) + [Stored(output, times)]
    {
      history := history + [Stored(output, times)];
      this.output, this.times, this.status, this.exitCode := output, times, status, exitCode;
    }
  }

  /** What the environment decides: the clock, when a flush is due, and what viewers and the
      canceler do before the k-th step. */
  datatype Env = Env(clock: nat -> int, flushDue: nat -> bool, others: nat -> seq<Op>)

  method Finish(ar: ActiveRun, row: LogRow, exitCode: int)
    requires ar.Valid() && row.Valid() && (row.history != [] ==> row.output <= ar.buf)
    modifies ar, ar.chans, row
    ensures ar.Valid() && ar.finished && (forall c :: c in ar.chans ==> c.closes == 1)
    ensures ar.buf == old(ar.buf) && ar.chans == old(ar.chans) && ar.canceled == old(ar.canceled)
    ensures row.Valid() && row.output == ar.buf && |row.times| == Newlines(row.output)
    ensures row.exitCode == exitCode && EndedAs(row.status, ar.canceled, exitCode)
    ensures row.history == old(row.history) + [Stored(row.output, row.times)]
  {
    var output, times, canceled := ar.Finish();
    var status := Success;
    if canceled {
      status := Canceled;
    } else if exitCode != 0 {
      status := Failed;
    }
    row.FinishRun(status, exitCode, output, times);
  }

  /** Run to completion: whatever viewers do meanwhile, the row ends with the transcript, its
      terminal status and one timestamp per line, and every channel handed out is closed once. */
  method Execute(ar: ActiveRun, row: LogRow, preamble: Bytes, dialError: Option<Bytes>, frames: seq<Frame>, env: Env)
    requires ar.Valid() && ar.buf == "" && !ar.finished && row.Valid() && row.history == []
    modifies ar, ar.chans, row
    ensures ar.Valid() && ar.finished && (forall c :: c in ar.chans ==> c.closes == 1)
    ensures row.Valid() && row.output == Transcript(preamble, dialError, frames)
    ensures |row.times| == Newlines(row.output)
    ensures row.exitCode == if dialError.Some? then -1 else ExitCode(frames)
    ensures EndedAs(row.status, ar.canceled, row.exitCode) && Terminal(row.status)
    ensures |row.history| == 1 + if dialError.Some? then 0 else Flushes(frames, 0, env)
  {
    ar.Interleave(env.others(0));
    NothingMore(preamble);
    ar.Append(preamble, env.clock(0));
    var exitCode := -1;
    if dialError.Some? {
      ar.Interleave(env.others(1));
      ar.Append(DialFailed(dialError.value), env.clock(1));
    } else {
      row.MarkRunning();
      exitCode := Stream(ar, row, frames, env);
      JoinAssoc(preamble, StreamText(frames), Ending(frames));
    }
    ar.Interleave(env.others(|frames| + 2));
    Finish(ar, row, exitCode);
  }

  /** The frame loop, and the notice when the stream ends without an exit frame. */
  method Stream(ar: ActiveRun, row: LogRow, frames: seq<Frame>, env: Env) returns (exitCode: int)
    requires Fed(ar, row)
    modifies ar, ar.chans, row
    ensures Fed(ar, row)
    ensures old(ar.chans) <= ar.chans && fresh(ar.chans - old(ar.chans))
    ensures ar.buf == old(ar.buf) + StreamText(frames) + Ending(frames)
    ensures exitCode == ExitCode(frames) && |row.history| == |old(row.history)| + Flushes(frames, 0, env)
  {
    var gotExit;
    gotExit, exitCode := FrameLoop(ar, row, frames, env);
    NothingMore(ar.buf);
    if !gotExit {
      ar.Interleave(env.others(|frames| + 1));
      ar.Append(StreamEnded(), env.clock(|frames| + 1));
    }
  }

  lemma NothingMore(b: Bytes)
    ensures b + "" == b && "" + b == b
  {
  }

  /** A run being fed, with at most a prefix of its output in its row. */
  ghost predicate Fed(ar: ActiveRun, row: LogRow)
    reads ar, ar.chans, row
  {
    ar.Valid() && !ar.finished && row.Valid() && row.status == Running && (row.history != [] ==> row.output <= ar.buf)
  }

  /** The loop at frame `k`: what is relayed so far and the frames to come make up the goal. */
  ghost predicate Ahead(frames: seq<Frame>, k: nat, buf: Bytes, goal: Bytes) {
    && k <= |frames|
    && buf + StreamText(frames[k..]) == goal
    && Exits(frames[k..]) == Exits(frames) && ExitCode(frames[k..]) == ExitCode(frames)
  }

  lemma AheadStart(frames: seq<Frame>, buf: Bytes)
    ensures Ahead(frames, 0, buf, buf + StreamText(frames))
  {
    assert frames[0..] == frames;
  }

  lemma AheadStep(frames: seq<Frame>, k: nat, buf: Bytes, goal: Bytes)
    requires k < |frames| && Ahead(frames, k, buf, goal)
    ensures if frames[k].Exit?
            then buf + FrameText(frames[k]) == goal && Exits(frames) && ExitCode(frames) == frames[k].code
            else Ahead(frames, k + 1, buf + FrameText(frames[k]), goal)
  {
    assert frames[k..][0] == frames[k] && frames[k..][1..] == frames[k + 1..];
    NothingMore(buf);
    JoinAssoc(buf, FrameText(frames[k]), StreamText(frames[k + 1..]));
  }

  lemma AheadEnd(frames: seq<Frame>, buf: Bytes, goal: Bytes)
    requires Ahead(frames, |frames|, buf, goal)
    ensures buf == goal && !Exits(frames) && ExitCode(frames) == -1
  {
    assert frames[|frames|..] == [];
    NothingMore(buf);
  }

  lemma JoinAssoc(a: Bytes, b: Bytes, c: Bytes)
    ensures a + b + c == a + (b + c)
  {
  }

  /** One frame: viewers act, the frame is relayed, and a prefix may be flushed. */
  method HandleFrame(ar: ActiveRun, row: LogRow, f: Frame, k: nat, env: Env) returns (exit: Option<int>)
    requires Fed(ar, row)
    modifies ar, ar.chans, row
    ensures Fed(ar, row)
    ensures old(ar.chans) <= ar.chans && fresh(ar.chans - old(ar.chans))
    ensures ar.buf == old(ar.buf) + FrameText(f)
    ensures exit == if f.Exit? then Some(f.code) else None
    ensures |row.history| == |old(row.history)| + if !f.Exit? && env.flushDue(k) then 1 else 0
    ensures !f.Exit? && env.flushDue(k) ==> row.output == ar.buf
  {
    ar.Interleave(env.others(k + 1));
    var text := FrameText(f);
    NothingMore(ar.buf);
    exit := None;
    match f {
      case Stdout(Some(data)) => ar.Append(data, env.clock(k + 1));
      case RunnerError(_) => ar.Append(text, env.clock(k + 1));
      case Exit(code) => exit := Some(code);
      case _ =>
    }
    if exit.None? && env.flushDue(k) {
      row.UpdateRunLog(ar.buf, ar.lineTimes);
    }
  }

  method FrameLoop(ar: ActiveRun, row: LogRow, frames: seq<Frame>, env: Env) returns (gotExit: bool, exitCode: int)
    requires Fed(ar, row)
    modifies ar, ar.chans, row
    ensures Fed(ar, row)
    ensures old(ar.chans) <= ar.chans && fresh(ar.chans - old(ar.chans))
    ensures ar.buf == old(ar.buf) + StreamText(frames)
    ensures gotExit == Exits(frames) && exitCode == ExitCode(frames)
    ensures |row.history| == |old(row.history)| + Flushes(frames, 0, env)
  {
    gotExit, exitCode := false, -1;
    ghost var goal := ar.buf + StreamText(frames);
    AheadStart(frames, ar.buf);
    var k := 0;
    while k < |frames|
      invariant k <= |frames| && Fed(ar, row)
      invariant old(ar.chans) <= ar.chans && fresh(ar.chans - old(ar.chans))
      invariant Ahead(frames, k, ar.buf, goal)
      invariant |row.history| + Flushes(frames, k, env) == |old(row.history)| + Flushes(frames, 0, env)
    {
      AheadStep(frames, k, ar.buf, goal);
      var exit := HandleFrame(ar, row, frames[k], k, env);
      if exit.Some? {
        return true, exit.value;
      }
      k := k + 1;
    }
    AheadEnd(frames, ar.buf, goal);
  }
}
