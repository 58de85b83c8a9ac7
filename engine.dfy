/**
 * The audio thread's side of the player: `PlayData` owned by the output
 * callback. `Callback` is the body of the closure handed to the output
 * stream: it takes at most one pending command, updates the state and the
 * queue, overwrites the interleaved output buffer in place and reports the
 * notifications it sends. Each call is proved to do exactly what
 * `Protocol.Step` describes.
 */
module Engine {
  import opened Arith
  import opened Resample
  import opened Protocol

  class PlayData {
    const samples: seq<Table>
    const channels: seq<nat>
    var state: State
    var queue: seq<Entry>

    ghost predicate Valid()
      reads this
    {
      Library(samples, channels) && StateOk(|samples|, state) && QueueOk(|samples|, queue)
    }

    /** A loaded library, idle, with an empty queue. */
    constructor (samples: seq<Table>, channels: seq<nat>)
      requires Library(samples, channels)
      ensures Valid()
      ensures this.samples == samples && this.channels == channels
      ensures state == Idle && queue == []
    {
      this.samples := samples;
      this.channels := channels;
      state := Idle;
      queue := [];
    }

    /** One invocation of the output callback at time `now` on buffer `data`. */
    method Callback(cmd: Option<Cmd>, now: int, data: array<real>) returns (sent: seq<FrontMsg>)
      requires Valid() && CmdOk(|samples|, cmd)
      modifies this, data
      ensures Valid()
      ensures Outcome(state, queue, data[..], sent)
           == Step(samples, channels, old(state), old(queue), cmd, now, old(data[..]))
    {
      if cmd.Some? {
        match cmd.value
        case Play(id, millis) =>
          state := Playing(id, now, millis, 0);
          queue := [];
        case PlayNext(id, millis) =>
          queue := queue + [(id, millis)];
        case Stop =>
          state := Idle;
          queue := [];
      }
      sent := [];
      match state
      case Idle =>
        FillEquilibrium(data);
      case Playing(id0, start0, millis0, pos0) =>
        var id, start, millis, pos := id0, start0, millis0, pos0;
        var table, c := samples[id], channels[id];
        var shouldPlay := true;
        if Expired(start, millis, now) {
          sent := [Finish];
          if |queue| > 0 {
            var next := queue[0];
            queue := queue[1..];
            id, start, millis, pos := next.0, now, next.1, 0;
          } else {
            shouldPlay := false;
          }
        }
        if shouldPlay {
          WriteFrames(table, c, pos, data);
          state := Playing(id, start, millis, pos + data.Length / c);
        } else {
          state := Idle;
          FillEquilibrium(data);
        }
    }
  }

  /** Sets every slot of the buffer to equilibrium. */
  method FillEquilibrium(data: array<real>)
    modifies data
    ensures data[..] == Equilibrium(data.Length)
  {
    for k := 0 to data.Length
      invariant forall m :: 0 <= m < k ==> data[m] == 0.0
    {
      data[k] := 0.0;
    }
  }

  /** Writes `data.Length / c` whole frames of `table` from frame `pos` on, channel by channel. */
  method WriteFrames(table: Table, c: nat, pos: nat, data: array<real>)
    requires Playable(table, c)
    modifies data
    ensures data[..] == Render(table, c, pos, old(data[..]))
  {
    ghost var before := data[..];
    ghost var want := Render(table, c, pos, before);
    RenderKeepsTail(table, c, pos, before);
    var n := data.Length;
    ghost var base := 0;
    for i := 0 to n / c
      invariant base == i * c
      invariant forall k :: 0 <= k < base ==> data[k] == want[k]
      invariant forall k :: base <= k < n ==> data[k] == before[k]
    {
      var frame := if pos + i < |table| then table[pos + i] else table[|table| - 1];
      FrameSlot(n, c, i, c - 1);
      for j := 0 to c
        invariant forall k :: 0 <= k < base + j ==> data[k] == want[k]
        invariant forall k :: base + j <= k < n ==> data[k] == before[k]
      {
        RenderAt(table, c, pos, before, i, j);
        data[i * c + j] := frame[j];
      }
      base := base + c;
      assert base == (i + 1) * c;
    }
    assert data[..] == want;
  }
}
