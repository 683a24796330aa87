/**
 The agent loop's event stream (apps/agent-service/src/workflows/agent-loop.ts) and its translation
 to UI message chunks (apps/agent-service/src/lib/loop-event-to-ui-chunk.ts).
 */
module LoopEvents {
  import opened Decimals
  import opened Wrappers

  datatype Event =
    | TextDelta(iteration: nat, delta: string)
    | ModelFinish(iteration: nat)
    | ToolCall(iteration: nat, callId: string, toolName: string, input: string)
    | ToolResult(iteration: nat, callId: string, output: string)
    | LoopFinish(iteration: nat)

  // ----- the loop that writes the events -----

  datatype Call = Call(id: string, name: string, input: string, output: string)

  /** What one model step streams and returns. */
  datatype Turn = Turn(deltas: seq<string>, calls: seq<Call>)

  /** Empty deltas are not written. */
  function DeltaEvents(n: nat, deltas: seq<string>): seq<Event> {
    if deltas == [] then []
    else (if deltas[0] == "" then [] else [TextDelta(n, deltas[0])]) + DeltaEvents(n, deltas[1..])
  }

  function CallEvents(n: nat, calls: seq<Call>): seq<Event> {
    if calls == [] then []
    else
      var c := calls[0];
      [ToolCall(n, c.id, c.name, c.input), ToolResult(n, c.id, c.output)] + CallEvents(n, calls[1..])
  }

  function TurnEvents(n: nat, turn: Turn): seq<Event> {
    DeltaEvents(n, turn.deltas) + [ModelFinish(n)] + CallEvents(n, turn.calls)
  }

  /** The iterations from `n` on; a turn without tool calls is the last one. */
  function IterationEvents(max: nat, turns: nat -> Turn, n: nat): seq<Event>
    decreases max - n
  {
    if n >= max then []
    else TurnEvents(n, turns(n)) + (if turns(n).calls == [] then [] else IterationEvents(max, turns, n + 1))
  }

  /** The iteration counter when the loop ends. */
  function LastIteration(max: nat, turns: nat -> Turn, n: nat): nat
    decreases max - n
  {
    if n >= max || turns(n).calls == [] then n else LastIteration(max, turns, n + 1)
  }

  function LoopRun(max: nat, turns: nat -> Turn): seq<Event> {
    IterationEvents(max, turns, 0) + [LoopFinish(LastIteration(max, turns, 0))]
  }

  method RunModelStep(n: nat, turn: Turn) returns (events: seq<Event>)
    ensures events == DeltaEvents(n, turn.deltas) + [ModelFinish(n)]
  {
    events := [];
    var i := 0;
    while i < |turn.deltas|
      invariant i <= |turn.deltas|
      invariant events + DeltaEvents(n, turn.deltas[i..]) == DeltaEvents(n, turn.deltas)
    {
      assert turn.deltas[i..][1..] == turn.deltas[i + 1..];
      if turn.deltas[i] != "" {
        events := events + [TextDelta(n, turn.deltas[i])];
      }
      i := i + 1;
    }
    events := events + [ModelFinish(n)];
  }

  method RunToolSteps(n: nat, calls: seq<Call>) returns (events: seq<Event>)
    ensures events == CallEvents(n, calls)
  {
    events := [];
    var k := 0;
    while k < |calls|
      invariant k <= |calls|
      invariant events + CallEvents(n, calls[k..]) == CallEvents(n, calls)
    {
      var c := calls[k];
      assert calls[k..][1..] == calls[k + 1..];
      var step := [ToolCall(n, c.id, c.name, c.input), ToolResult(n, c.id, c.output)];
      assert events + CallEvents(n, calls[k..]) == events + step + CallEvents(n, calls[k + 1..]);
      events := events + step;
      k := k + 1;
    }
  }

  /** The workflow's loop: model step, then its tool calls one by one, until a turn calls no tool. */
  method AgentLoop(max: nat, turns: nat -> Turn) returns (events: seq<Event>, toolStepInvocations: nat)
    ensures events == LoopRun(max, turns)
  {
    events, toolStepInvocations := [], 0;
    var iterations := 0;
    var more := true;
    while more && iterations < max
      invariant iterations <= max
      invariant more ==> events + IterationEvents(max, turns, iterations) == IterationEvents(max, turns, 0)
      invariant more ==> LastIteration(max, turns, iterations) == LastIteration(max, turns, 0)
      invariant !more ==> events == IterationEvents(max, turns, 0) && iterations == LastIteration(max, turns, 0)
      decreases more, max - iterations
    {
      var turn := turns(iterations);
      var step := RunModelStep(iterations, turn);
      var tools := RunToolSteps(iterations, turn.calls);
      Iterate(max, turns, iterations, events, step, tools);
      events := events + step + tools;
      toolStepInvocations := toolStepInvocations + |turn.calls|;
      if |turn.calls| == 0 {
        more := false;
      } else {
        iterations := iterations + 1;
      }
    }
    assert iterations >= max ==> IterationEvents(max, turns, iterations) == [];
    events := events + [LoopFinish(iterations)];
  }

  lemma Iterate(max: nat, turns: nat -> Turn, n: nat, events: seq<Event>, step: seq<Event>, tools: seq<Event>)
    requires n < max && step + tools == TurnEvents(n, turns(n))
    ensures events + IterationEvents(max, turns, n)
            == events + step + tools + (if turns(n).calls == [] then [] else IterationEvents(max, turns, n + 1))
  {
  }

  // ----- the translator -----

  datatype Chunk =
    | Start
    | StartStep
    | FinishStep
    | TextStart(id: string)
    | TextDeltaChunk(id: string, delta: string)
    | TextEnd(id: string)
    | ToolInputStart(callId: string, toolName: string)
    | ToolInputAvailable(callId: string, toolName: string, input: string)
    | ToolOutputAvailable(callId: string, output: string)
    | Finish

  datatype State = State(started: bool, iteration: Option<nat>, textId: Option<string>)

  const INITIAL := State(false, None, None)

  function TextId(n: nat): string { "t" + Digits(n) }

  function CloseText(s: State): seq<Chunk> {
    if s.textId.Some? then [TextEnd(s.textId.value)] else []
  }

  /** Entering iteration `n`: closes the previous step and opens the next, unless already there. */
  function Entered(s: State, n: nat): (State, seq<Chunk>) {
    if s.iteration == Some(n) then (s, [])
    else
      (State(true, Some(n), None),
       (if s.iteration.Some? then CloseText(s) + [FinishStep] else []) + (if s.started then [] else [Start]) + [StartStep])
  }

  function Translated(s: State, e: Event): (State, seq<Chunk>) {
    match e
    case TextDelta(n, delta) =>
      var (t, out) := Entered(s, n);
      if t.textId.Some? then (t, out + [TextDeltaChunk(t.textId.value, delta)])
      else (t.(textId := Some(TextId(n))), out + [TextStart(TextId(n)), TextDeltaChunk(TextId(n), delta)])
    case ModelFinish(n) =>
      var (t, out) := Entered(s, n);
      (t.(textId := None), out + CloseText(t))
    case ToolCall(n, id, name, input) =>
      var (t, out) := Entered(s, n);
      (t, out + [ToolInputStart(id, name), ToolInputAvailable(id, name, input)])
    case ToolResult(_, id, output) => (s, [ToolOutputAvailable(id, output)])
    case LoopFinish(_) =>
      (State(s.started, None, None), CloseText(s) + (if s.iteration.Some? then [FinishStep] else []) + [Finish])
  }

  class Translator {
    const skipFirstN: nat
    var started: bool
    var currentIteration: Option<nat>
    var currentTextId: Option<string>
    var position: nat

    ghost function Now(): State
      reads this
    {
      State(started, currentIteration, currentTextId)
    }

    constructor (skipFirstN: nat)
      ensures Now() == INITIAL && position == 0 && this.skipFirstN == skipFirstN
    {
      this.skipFirstN := skipFirstN;
      started, currentIteration, currentTextId, position := false, None, None, 0;
    }

    method TransitionToIteration(iteration: nat) returns (out: seq<Chunk>)
      modifies this
      ensures (Now(), out) == Entered(old(Now()), iteration) && position == old(position)
    {
      out := [];
      if currentIteration == Some(iteration) {
        return;
      }
      ghost var before := Now();
      if currentIteration.Some? {
        if currentTextId.Some? {
          out := out + [TextEnd(currentTextId.value)];
          currentTextId := None;
        }
        out := out + [FinishStep];
      }
      ghost var closed := out;
      assert closed == if before.iteration.Some? then CloseText(before) + [FinishStep] else [];
      if !started {
        out := out + [Start];
        started := true;
      }
      out := out + [StartStep];
      assert out == closed + (if before.started then [] else [Start]) + [StartStep];
      currentIteration, currentTextId := Some(iteration), None;
    }

    /** The state machine sees every event; only events past the cursor produce output. */
    method Transform(event: Event) returns (forwarded: seq<Chunk>)
      modifies this
      ensures Now() == Translated(old(Now()), event).0 && position == old(position) + 1
      ensures forwarded == if old(position) < skipFirstN then [] else Translated(old(Now()), event).1
    {
      var suppressed := position < skipFirstN;
      position := position + 1;
      var out: seq<Chunk>;
      match event {
        case TextDelta(n, delta) =>
          out := TransitionToIteration(n);
          if currentTextId.None? {
            currentTextId := Some(TextId(n));
            out := out + [TextStart(currentTextId.value)];
          }
          out := out + [TextDeltaChunk(currentTextId.value, delta)];
        case ModelFinish(n) =>
          out := TransitionToIteration(n);
          if currentTextId.Some? {
            out := out + [TextEnd(currentTextId.value)];
            currentTextId := None;
          }
        case ToolCall(n, id, name, input) =>
          out := TransitionToIteration(n);
          out := out + [ToolInputStart(id, name), ToolInputAvailable(id, name, input)];
        case ToolResult(_, id, output) =>
          out := [ToolOutputAvailable(id, output)];
        case LoopFinish(_) =>
          out := [];
          if currentTextId.Some? {
            out := out + [TextEnd(currentTextId.value)];
            currentTextId := None;
          }
          if currentIteration.Some? {
            out := out + [FinishStep];
            currentIteration := None;
          }
          out := out + [Finish];
      }
      forwarded := if suppressed then [] else out;
    }
  }

  // ----- reattaching -----

  function StateAfter(s: State, events: seq<Event>): State
    decreases |events|
  {
    if events == [] then s else StateAfter(Translated(s, events[0]).0, events[1..])
  }

  /** Everything a translator forwards that has already seen `position` events. */
  function Forwarded(s: State, events: seq<Event>, position: nat, skip: nat): seq<Chunk>
    decreases |events|
  {
    if events == [] then []
    else
      var (t, out) := Translated(s, events[0]);
      (if position < skip then [] else out) + Forwarded(t, events[1..], position + 1, skip)
  }

  lemma ForwardedStep(s: State, events: seq<Event>, i: nat, skip: nat, out: seq<Chunk>)
    requires i < |events|
    ensures var (t, chunks) := Translated(s, events[i]);
            out + Forwarded(s, events[i..], i, skip)
            == out + (if i < skip then [] else chunks) + Forwarded(t, events[i + 1..], i + 1, skip)
  {
  }

  method Translate(events: seq<Event>, skipFirstN: nat) returns (out: seq<Chunk>)
    ensures out == Forwarded(INITIAL, events, 0, skipFirstN)
  {
    var t := new Translator(skipFirstN);
    out := [];
    var i := 0;
    while i < |events|
      invariant i <= |events| && t.position == i && t.skipFirstN == skipFirstN
      invariant out + Forwarded(t.Now(), events[i..], i, skipFirstN) == Forwarded(INITIAL, events, 0, skipFirstN)
    {
      ghost var before := t.Now();
      var chunks := t.Transform(events[i]);
      ForwardedStep(before, events, i, skipFirstN, out);
      out := out + chunks;
      i := i + 1;
    }
  }

  lemma {:induction false} ForwardedSplits(s: State, events: seq<Event>, position: nat, skip: nat, n: nat)
    requires n <= |events| && position + n == skip
    ensures Forwarded(s, events[..n], position, 0) + Forwarded(s, events, position, skip) == Forwarded(s, events, position, 0)
    decreases |events|
  {
    if n > 0 {
      var t := Translated(s, events[0]).0;
      assert events[..n][1..] == events[1..][..n - 1];
      ForwardedSplits(t, events[1..], position + 1, skip, n - 1);
    } else {
      assert events[..0] == [];
      NoSkip(s, events, position, skip);
    }
  }

  lemma {:induction false} NoSkip(s: State, events: seq<Event>, position: nat, skip: nat)
    requires skip <= position
    ensures Forwarded(s, events, position, skip) == Forwarded(s, events, position, 0)
    decreases |events|
  {
    if events != [] {
      NoSkip(Translated(s, events[0]).0, events[1..], position + 1, skip);
    }
  }

  lemma {:induction false} AllSkipped(s: State, events: seq<Event>, position: nat, skip: nat)
    requires position + |events| <= skip
    ensures Forwarded(s, events, position, skip) == []
    decreases |events|
  {
    if events != [] {
      AllSkipped(Translated(s, events[0]).0, events[1..], position + 1, skip);
    }
  }

  /**
   For every event stream and every cursor, what was sent for the first `n` events followed by what a
   reattached stream sends is the uninterrupted output.
   */
  lemma Reattach(events: seq<Event>, n: nat)
    ensures n <= |events| ==>
              Forwarded(INITIAL, events[..n], 0, 0) + Forwarded(INITIAL, events, 0, n) == Forwarded(INITIAL, events, 0, 0)
    ensures n > |events| ==> Forwarded(INITIAL, events, 0, n) == []
  {
    if n <= |events| {
      ForwardedSplits(INITIAL, events, 0, n, n);
    } else {
      AllSkipped(INITIAL, events, 0, n);
    }
  }
}
