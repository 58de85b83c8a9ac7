/**
 * The playback state machine of the output callback, as pure functions.
 *
 * One callback takes at most one command (`Intake`), then renders one
 * buffer from the resulting state (`Advance`); `Step` is the two together
 * and `Run` is a sequence of callbacks. Time is an integer number of
 * milliseconds supplied by the caller; a buffer is an interleaved sequence
 * of amplitudes, `c` per frame.
 */
module Protocol {
  import opened Arith
  import opened Resample

  datatype Option<T> = None | Some(value: T)

  /** A command from the front end (`ToPlayMsg`); `millis` is how long the note sounds. */
  datatype Cmd = Play(id: nat, millis: nat) | PlayNext(id: nat, millis: nat) | Stop

  /** A notification to the front end (`ToFrontMsg`). */
  datatype FrontMsg = Finish

  /** `PlayState`: `start` is when the segment began, `pos` the next frame to read. */
  datatype State = Idle | Playing(id: nat, start: int, millis: nat, pos: nat)

  /** A queued note: its id and how long it sounds. */
  type Entry = (nat, nat)

  /** What one callback leaves behind: the new state and queue, the buffer, the notifications sent. */
  datatype Outcome = Outcome(state: State, queue: seq<Entry>, buf: seq<real>, sent: seq<FrontMsg>)

  /** A note can be rendered: its table is non-empty and each frame has at least `c` channels. */
  predicate Playable(table: Table, c: nat)
  {
    |table| > 0 && c > 0 && forall f :: 0 <= f < |table| ==> c <= |table[f]|
  }

  /** The loaded library: one table and one channel count per note id. */
  predicate Library(samples: seq<Table>, channels: seq<nat>)
  {
    |samples| == |channels| &&
    forall id :: 0 <= id < |samples| ==> Playable(samples[id], channels[id])
  }

  predicate CmdOk(notes: nat, cmd: Option<Cmd>)
  {
    match cmd
    case Some(Play(id, _)) => id < notes
    case Some(PlayNext(id, _)) => id < notes
    case _ => true
  }

  predicate StateOk(notes: nat, st: State)
  {
    st.Playing? ==> st.id < notes
  }

  predicate QueueOk(notes: nat, q: seq<Entry>)
  {
    forall k :: 0 <= k < |q| ==> q[k].0 < notes
  }

  /** The segment that started at `start` and lasts `millis` has run out at time `now` (strictly). */
  predicate Expired(start: int, millis: nat, now: int)
    ensures Expired(start, millis, now) ==> now > start
  {
    now - start > millis
  }

  /** The number of segments still owed a `Finish`: the sounding one and the queued ones. */
  function Pending(st: State, q: seq<Entry>): (n: nat)
    ensures n >= |q|
  {
    (if st.Playing? then 1 else 0) + |q|
  }

  /**
   * Command intake: at most one command changes the state and the queue.
   * `Play` leaves one segment owed, `PlayNext` one more than before, `Stop`
   * none; only `Play` and `Stop` touch the state, and the queue keeps its
   * order, growing by at most one entry at the back.
   */
  function Intake(st: State, q: seq<Entry>, cmd: Option<Cmd>, now: int): (r: (State, seq<Entry>))
    ensures Pending(r.0, r.1) == match cmd
      case None => Pending(st, q)
      case Some(Play(_, _)) => 1
      case Some(PlayNext(_, _)) => Pending(st, q) + 1
      case Some(Stop) => 0
    ensures r.0 != st ==> cmd.Some? && !cmd.value.PlayNext?
    ensures r.1 == [] || (|q| <= |r.1| <= |q| + 1 && r.1[..|q|] == q)
  {
    match cmd
    case None => (st, q)
    case Some(Play(id, millis)) => (Playing(id, now, millis, 0), [])
    case Some(PlayNext(id, millis)) => (st, q + [(id, millis)])
    case Some(Stop) => (Idle, [])
  }

  /** Frame `i` of a table, or its last frame past the end. */
  function FrameAt(table: Table, i: nat): (f: Frame)
    requires |table| > 0
    ensures f == table[Min(i, |table| - 1)]
  {
    if i < |table| then table[i] else table[|table| - 1]
  }

  /**
   * The buffer after writing `|buf| / c` whole frames of `table` from frame
   * `pos` on; the slots after the last whole frame keep their old values.
   */
  function Render(table: Table, c: nat, pos: nat, buf: seq<real>): (r: seq<real>)
    requires Playable(table, c)
    ensures |r| == |buf|
  {
    seq(|buf|, k requires 0 <= k < |buf| =>
      if k < (|buf| / c) * c then FrameAt(table, pos + k / c)[k % c] else buf[k])
  }

  /** The render phase of one callback, from the state after command intake. */
  function Advance(samples: seq<Table>, channels: seq<nat>, st: State, q: seq<Entry>, now: int, buf: seq<real>): (o: Outcome)
    requires Library(samples, channels) && StateOk(|samples|, st) && QueueOk(|samples|, q)
    ensures StateOk(|samples|, o.state) && QueueOk(|samples|, o.queue)
    ensures |o.buf| == |buf| && |o.sent| <= 1
  {
    match st
    case Idle => Outcome(Idle, q, Equilibrium(|buf|), [])
    case Playing(id, start, millis, pos) =>
      var table, c := samples[id], channels[id];
      if !Expired(start, millis, now) then
        Outcome(Playing(id, start, millis, pos + |buf| / c), q, Render(table, c, pos, buf), [])
      else if |q| > 0 then
        // the handoff buffer still comes from the finishing note's table and channel count
        Outcome(Playing(q[0].0, now, q[0].1, |buf| / c), q[1..], Render(table, c, 0, buf), [Finish])
      else
        Outcome(Idle, q, Equilibrium(|buf|), [Finish])
  }

  /** One output callback: command intake, then render. */
  function Step(samples: seq<Table>, channels: seq<nat>, st: State, q: seq<Entry>, cmd: Option<Cmd>, now: int, buf: seq<real>): (o: Outcome)
    requires Library(samples, channels) && StateOk(|samples|, st) && QueueOk(|samples|, q)
    requires CmdOk(|samples|, cmd)
    ensures StateOk(|samples|, o.state) && QueueOk(|samples|, o.queue)
    ensures |o.buf| == |buf| && |o.sent| <= 1
  {
    var (st1, q1) := Intake(st, q, cmd, now);
    Advance(samples, channels, st1, q1, now, buf)
  }

  /** One callback's inputs: the command it finds (if any), the time, and the buffer it is handed. */
  datatype Call = Call(cmd: Option<Cmd>, now: int, buf: seq<real>)

  /** What a sequence of callbacks leaves behind: final state and queue, every buffer, every notification. */
  datatype Trace = Trace(state: State, queue: seq<Entry>, bufs: seq<seq<real>>, sent: seq<FrontMsg>)

  predicate CallsOk(notes: nat, calls: seq<Call>)
  {
    forall k :: 0 <= k < |calls| ==> CmdOk(notes, calls[k].cmd)
  }

  /** No command arrives during these callbacks. */
  predicate Quiet(calls: seq<Call>)
  {
    forall k :: 0 <= k < |calls| ==> calls[k].cmd.None?
  }

  /** The callbacks `calls`, in order, from state `st` and queue `q`. */
  function Run(samples: seq<Table>, channels: seq<nat>, st: State, q: seq<Entry>, calls: seq<Call>): (t: Trace)
    requires Library(samples, channels) && StateOk(|samples|, st) && QueueOk(|samples|, q)
    requires CallsOk(|samples|, calls)
    ensures StateOk(|samples|, t.state) && QueueOk(|samples|, t.queue)
    ensures |t.bufs| == |calls| && |t.sent| <= |calls|
    ensures forall k :: 0 <= k < |calls| ==> |t.bufs[k]| == |calls[k].buf|
    decreases |calls|
  {
    if calls == [] then Trace(st, q, [], [])
    else
      var o := Step(samples, channels, st, q, calls[0].cmd, calls[0].now, calls[0].buf);
      var t := Run(samples, channels, o.state, o.queue, calls[1..]);
      Trace(t.state, t.queue, [o.buf] + t.bufs, o.sent + t.sent)
  }

  // ---------------------------------------------------------------------
  // Command intake
  // ---------------------------------------------------------------------

  /**
   * `Play` replaces whatever sounds and drops the queue; `PlayNext` appends
   * to the back of the queue and leaves the state alone; `Stop` goes idle and
   * drops the queue; no command changes nothing.
   */
  lemma IntakeCommands(st: State, q: seq<Entry>, now: int, id: nat, millis: nat)
    ensures Intake(st, q, None, now) == (st, q)
    ensures Intake(st, q, Some(Play(id, millis)), now) == (Playing(id, now, millis, 0), [])
    ensures Intake(st, q, Some(PlayNext(id, millis)), now) == (st, q + [(id, millis)])
    ensures Intake(st, q, Some(Stop), now) == (Idle, [])
  {
  }

  // ---------------------------------------------------------------------
  // Rendering
  // ---------------------------------------------------------------------

  /** Channel `j` of written frame `i` is channel `j` of frame `pos + i`, clamped to the last frame. */
  lemma RenderAt(table: Table, c: nat, pos: nat, buf: seq<real>, i: nat, j: nat)
    requires Playable(table, c) && i < |buf| / c && j < c
    ensures i * c + j < |buf|
    ensures Render(table, c, pos, buf)[i * c + j] == table[Min(pos + i, |table| - 1)][j]
  {
    FrameSlot(|buf|, c, i, j);
  }

  /** Only the first `(|buf| / c) * c` slots are written. */
  lemma RenderKeepsTail(table: Table, c: nat, pos: nat, buf: seq<real>)
    requires Playable(table, c)
    ensures (|buf| / c) * c <= |buf|
    ensures forall k :: (|buf| / c) * c <= k < |buf| ==> Render(table, c, pos, buf)[k] == buf[k]
  {
  }

  /** While idle, the buffer is silenced, nothing is sent, and state and queue stay. */
  lemma IdleRender(samples: seq<Table>, channels: seq<nat>, q: seq<Entry>, now: int, buf: seq<real>)
    requires Library(samples, channels) && QueueOk(|samples|, q)
    ensures var o := Advance(samples, channels, Idle, q, now, buf);
            o.state == Idle && o.queue == q && o.sent == [] &&
            forall k :: 0 <= k < |buf| ==> o.buf[k] == 0.0
  {
  }

  /**
   * A segment that has not run out sends nothing, keeps its id, start and
   * length, advances by the whole frames written, and leaves the queue and
   * the slots after the last whole frame as they were.
   */
  lemma PlayingStep(samples: seq<Table>, channels: seq<nat>, id: nat, start: int, millis: nat, pos: nat,
                    q: seq<Entry>, now: int, buf: seq<real>)
    requires Library(samples, channels) && id < |samples| && QueueOk(|samples|, q)
    requires !Expired(start, millis, now)
    ensures var c := channels[id];
            var o := Advance(samples, channels, Playing(id, start, millis, pos), q, now, buf);
            o.sent == [] && o.queue == q &&
            o.state == Playing(id, start, millis, pos + |buf| / c) &&
            forall k :: (|buf| / c) * c <= k < |buf| ==> o.buf[k] == buf[k]
  {
  }

  /** ... and writes frame `pos + i` of its own table, or its last frame once past the end. */
  lemma PlayingFrame(samples: seq<Table>, channels: seq<nat>, id: nat, start: int, millis: nat, pos: nat,
                     q: seq<Entry>, now: int, buf: seq<real>, i: nat, j: nat)
    requires Library(samples, channels) && id < |samples| && QueueOk(|samples|, q)
    requires !Expired(start, millis, now)
    requires i < |buf| / channels[id] && j < channels[id]
    ensures var c, table := channels[id], samples[id];
            var o := Advance(samples, channels, Playing(id, start, millis, pos), q, now, buf);
            i * c + j < |buf| && o.buf[i * c + j] == table[Min(pos + i, |table| - 1)][j]
  {
    RenderAt(samples[id], channels[id], pos, buf, i, j);
  }

  /** A segment that has run out with nothing queued sends one `Finish` and goes silent. */
  lemma ExpiredIdle(samples: seq<Table>, channels: seq<nat>, id: nat, start: int, millis: nat, pos: nat,
                    now: int, buf: seq<real>)
    requires Library(samples, channels) && id < |samples|
    requires Expired(start, millis, now)
    ensures var o := Advance(samples, channels, Playing(id, start, millis, pos), [], now, buf);
            o.state == Idle && o.queue == [] && o.sent == [Finish] &&
            forall k :: 0 <= k < |buf| ==> o.buf[k] == 0.0
  {
  }

  /**
   * A segment that has run out with a note queued sends one `Finish`, pops
   * the front of the queue, and starts that note at `now`, positioned after
   * the whole frames written in this buffer.
   */
  lemma ExpiredHandoff(samples: seq<Table>, channels: seq<nat>, id: nat, start: int, millis: nat, pos: nat,
                       next: Entry, rest: seq<Entry>, now: int, buf: seq<real>)
    requires Library(samples, channels) && id < |samples| && QueueOk(|samples|, [next] + rest)
    requires Expired(start, millis, now)
    ensures var c := channels[id];
            var o := Advance(samples, channels, Playing(id, start, millis, pos), [next] + rest, now, buf);
            o.sent == [Finish] && o.queue == rest &&
            o.state == Playing(next.0, now, next.1, |buf| / c) &&
            forall k :: (|buf| / c) * c <= k < |buf| ==> o.buf[k] == buf[k]
  {
    assert ([next] + rest)[1..] == rest;
  }

  /**
   * The handoff buffer is rendered from the FINISHING note's table and
   * channel count, from its frame 0 (they were bound before the id changed).
   */
  lemma HandoffFrame(samples: seq<Table>, channels: seq<nat>, id: nat, start: int, millis: nat, pos: nat,
                     next: Entry, rest: seq<Entry>, now: int, buf: seq<real>, i: nat, j: nat)
    requires Library(samples, channels) && id < |samples| && QueueOk(|samples|, [next] + rest)
    requires Expired(start, millis, now)
    requires i < |buf| / channels[id] && j < channels[id]
    ensures var c, table := channels[id], samples[id];
            var o := Advance(samples, channels, Playing(id, start, millis, pos), [next] + rest, now, buf);
            i * c + j < |buf| && o.buf[i * c + j] == table[Min(i, |table| - 1)][j]
  {
    RenderAt(samples[id], channels[id], 0, buf, i, j);
  }

  /** A callback sends `Finish` exactly when, after intake, a segment is playing and has run out. */
  lemma FinishIff(samples: seq<Table>, channels: seq<nat>, st: State, q: seq<Entry>, cmd: Option<Cmd>, now: int, buf: seq<real>)
    requires Library(samples, channels) && StateOk(|samples|, st) && QueueOk(|samples|, q)
    requires CmdOk(|samples|, cmd)
    ensures var st1 := Intake(st, q, cmd, now).0;
            var o := Step(samples, channels, st, q, cmd, now, buf);
            (o.sent == [Finish] <==> st1.Playing? && Expired(st1.start, st1.millis, now)) &&
            (o.sent == [] <==> !(st1.Playing? && Expired(st1.start, st1.millis, now)))
  {
  }

  /** A callback finishes a segment or keeps it owed: Finishes sent plus segments pending never change in render. */
  lemma AdvanceConserves(samples: seq<Table>, channels: seq<nat>, st: State, q: seq<Entry>, now: int, buf: seq<real>)
    requires Library(samples, channels) && StateOk(|samples|, st) && QueueOk(|samples|, q)
    ensures var o := Advance(samples, channels, st, q, now, buf);
            |o.sent| + Pending(o.state, o.queue) == Pending(st, q)
  {
  }

  // ---------------------------------------------------------------------
  // Whole-callback effects of the commands
  // ---------------------------------------------------------------------

  /** `Play` sounds in the same callback: from frame 0 of the note, with the queue dropped and nothing sent. */
  lemma PlayStartsAtOnce(samples: seq<Table>, channels: seq<nat>, st: State, q: seq<Entry>, id: nat, millis: nat,
                         now: int, buf: seq<real>)
    requires Library(samples, channels) && StateOk(|samples|, st) && QueueOk(|samples|, q) && id < |samples|
    ensures var o := Step(samples, channels, st, q, Some(Play(id, millis)), now, buf);
            o.state == Playing(id, now, millis, |buf| / channels[id]) && o.queue == [] && o.sent == [] &&
            o.buf == Render(samples[id], channels[id], 0, buf)
  {
  }

  /** `Stop` silences at once, drops the queue, and never sends `Finish`. */
  lemma StopSilences(samples: seq<Table>, channels: seq<nat>, st: State, q: seq<Entry>, now: int, buf: seq<real>)
    requires Library(samples, channels) && StateOk(|samples|, st) && QueueOk(|samples|, q)
    ensures Step(samples, channels, st, q, Some(Stop), now, buf) == Outcome(Idle, [], Equilibrium(|buf|), [])
  {
  }

  /** `PlayNext` while idle only queues the note: nothing starts and the buffer is silent. */
  lemma PlayNextWhileIdleWaits(samples: seq<Table>, channels: seq<nat>, q: seq<Entry>, id: nat, millis: nat,
                               now: int, buf: seq<real>)
    requires Library(samples, channels) && QueueOk(|samples|, q) && id < |samples|
    ensures Step(samples, channels, Idle, q, Some(PlayNext(id, millis)), now, buf)
         == Outcome(Idle, q + [(id, millis)], Equilibrium(|buf|), [])
  {
  }

  // ---------------------------------------------------------------------
  // Sequences of callbacks
  // ---------------------------------------------------------------------

  /** Without commands, each `Finish` sent retires exactly one pending segment. */
  lemma {:induction false} QuietRunConserves(samples: seq<Table>, channels: seq<nat>, st: State, q: seq<Entry>, calls: seq<Call>)
    requires Library(samples, channels) && StateOk(|samples|, st) && QueueOk(|samples|, q)
    requires Quiet(calls)
    ensures CallsOk(|samples|, calls)
    ensures var t := Run(samples, channels, st, q, calls);
            |t.sent| + Pending(t.state, t.queue) == Pending(st, q)
    decreases |calls|
  {
    if calls != [] {
      var o := Step(samples, channels, st, q, None, calls[0].now, calls[0].buf);
      AdvanceConserves(samples, channels, st, q, calls[0].now, calls[0].buf);
      QuietRunConserves(samples, channels, o.state, o.queue, calls[1..]);
    }
  }

  /** Idle stays idle without commands: every buffer silent, nothing sent, the queue untouched. */
  lemma {:induction false} IdleRunIsSilent(samples: seq<Table>, channels: seq<nat>, q: seq<Entry>, calls: seq<Call>)
    requires Library(samples, channels) && QueueOk(|samples|, q)
    requires Quiet(calls)
    ensures CallsOk(|samples|, calls)
    ensures var t := Run(samples, channels, Idle, q, calls);
            t.state == Idle && t.queue == q && t.sent == [] &&
            forall k :: 0 <= k < |calls| ==> t.bufs[k] == Equilibrium(|calls[k].buf|)
    decreases |calls|
  {
    if calls != [] {
      IdleRunIsSilent(samples, channels, q, calls[1..]);
      var t := Run(samples, channels, Idle, q, calls);
      var t' := Run(samples, channels, Idle, q, calls[1..]);
      assert t.bufs == [Equilibrium(|calls[0].buf|)] + t'.bufs;
      forall k | 1 <= k < |calls|
        ensures t.bufs[k] == Equilibrium(|calls[k].buf|)
      {
        assert t.bufs[k] == t'.bufs[k - 1] && calls[k] == calls[1..][k - 1];
      }
    }
  }

  /** Some callback of `calls` finds the segment that began at `start` run out. */
  ghost predicate EndsWithin(start: int, millis: nat, calls: seq<Call>)
  {
    exists k :: 0 <= k < |calls| && Expired(start, millis, calls[k].now)
  }

  lemma EndsWithinSplit(start: int, millis: nat, calls: seq<Call>)
    requires calls != []
    ensures EndsWithin(start, millis, calls) <==>
            Expired(start, millis, calls[0].now) || EndsWithin(start, millis, calls[1..])
  {
    if EndsWithin(start, millis, calls[1..]) {
      var k :| 0 <= k < |calls[1..]| && Expired(start, millis, calls[1..][k].now);
      assert calls[k + 1] == calls[1..][k];
    }
    if EndsWithin(start, millis, calls) && !Expired(start, millis, calls[0].now) {
      var k :| 0 <= k < |calls| && Expired(start, millis, calls[k].now);
      assert calls[1..][k - 1] == calls[k];
    }
  }

  /** A segment some callback finds run out finishes exactly once; one no callback finds run out never does. */
  lemma {:induction false} FinishOnce(samples: seq<Table>, channels: seq<nat>, id: nat, start: int, millis: nat, pos: nat,
                                      calls: seq<Call>)
    requires Library(samples, channels) && id < |samples|
    requires Quiet(calls)
    ensures CallsOk(|samples|, calls)
    ensures var t := Run(samples, channels, Playing(id, start, millis, pos), [], calls);
            t.sent == (if EndsWithin(start, millis, calls) then [Finish] else []) &&
            (t.state == Idle <==> EndsWithin(start, millis, calls))
    decreases |calls|
  {
    if calls != [] {
      var c0, rest := calls[0], calls[1..];
      assert Quiet(rest);
      EndsWithinSplit(start, millis, calls);
      var o := Step(samples, channels, Playing(id, start, millis, pos), [], None, c0.now, c0.buf);
      var t' := Run(samples, channels, o.state, o.queue, rest);
      var t := Run(samples, channels, Playing(id, start, millis, pos), [], calls);
      assert t.sent == o.sent + t'.sent && t.state == t'.state;
      if Expired(start, millis, c0.now) {
        assert o.state == Idle && o.queue == [] && o.sent == [Finish];
        IdleRunIsSilent(samples, channels, [], rest);
      } else {
        assert o.state == Playing(id, start, millis, pos + |c0.buf| / channels[id]) && o.queue == [] && o.sent == [];
        FinishOnce(samples, channels, id, start, millis, pos + |c0.buf| / channels[id], rest);
      }
    }
  }

  /** `Stop` followed by any number of quiet callbacks: silence, and never a `Finish`. */
  lemma StopThenSilence(samples: seq<Table>, channels: seq<nat>, st: State, q: seq<Entry>, now: int, buf: seq<real>,
                        calls: seq<Call>)
    requires Library(samples, channels) && StateOk(|samples|, st) && QueueOk(|samples|, q)
    requires Quiet(calls)
    ensures CallsOk(|samples|, [Call(Some(Stop), now, buf)] + calls)
    ensures var all := [Call(Some(Stop), now, buf)] + calls;
            var t := Run(samples, channels, st, q, all);
            t.state == Idle && t.queue == [] && t.sent == [] &&
            forall k :: 0 <= k < |all| ==> t.bufs[k] == Equilibrium(|all[k].buf|)
  {
    var all := [Call(Some(Stop), now, buf)] + calls;
    assert all[1..] == calls;
    IdleRunIsSilent(samples, channels, [], calls);
    var t := Run(samples, channels, st, q, all);
    var t' := Run(samples, channels, Idle, [], calls);
    forall k | 1 <= k < |all|
      ensures t.bufs[k] == Equilibrium(|all[k].buf|)
    {
      assert t.bufs[k] == t'.bufs[k - 1] && all[k] == calls[k - 1];
    }
  }

  /**
   * `Play(a)` then `PlayNext(b)`, then quiet callbacks: two segments are
   * owed, so at most two `Finish` are ever sent, and exactly two once the
   * engine is idle with an empty queue.
   */
  lemma PlayThenQueue(samples: seq<Table>, channels: seq<nat>, st: State, q: seq<Entry>, a: nat, ma: nat, b: nat, mb: nat,
                      t0: int, b0: seq<real>, t1: int, b1: seq<real>, calls: seq<Call>)
    requires Library(samples, channels) && StateOk(|samples|, st) && QueueOk(|samples|, q)
    requires a < |samples| && b < |samples| && Quiet(calls)
    ensures CallsOk(|samples|, [Call(Some(Play(a, ma)), t0, b0), Call(Some(PlayNext(b, mb)), t1, b1)] + calls)
    ensures var t := Run(samples, channels, st, q, [Call(Some(Play(a, ma)), t0, b0), Call(Some(PlayNext(b, mb)), t1, b1)] + calls);
            |t.sent| + Pending(t.state, t.queue) == 2
  {
    var all := [Call(Some(Play(a, ma)), t0, b0), Call(Some(PlayNext(b, mb)), t1, b1)] + calls;
    assert all[1..] == [Call(Some(PlayNext(b, mb)), t1, b1)] + calls;
    assert all[1..][1..] == calls;
    var o0 := Step(samples, channels, st, q, Some(Play(a, ma)), t0, b0);
    assert Pending(o0.state, o0.queue) == 1 && o0.sent == [];
    var o1 := Step(samples, channels, o0.state, o0.queue, Some(PlayNext(b, mb)), t1, b1);
    AdvanceConserves(samples, channels, o0.state, o0.queue + [(b, mb)], t1, b1);
    QuietRunConserves(samples, channels, o1.state, o1.queue, calls);
  }
}
