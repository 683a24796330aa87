/**
 What a chunk stream has to look like for a client, and the proof that every run of the agent loop
 with at least one iteration translates to such a stream.
 */
module ChunkGrammar {
  import opened Decimals
  import opened LoopEvents
  import opened Wrappers

  /** What a client has seen so far. */
  datatype Client = Client(
    started: bool, inStep: bool, text: Option<string>, texts: set<string>,
    begun: set<string>, available: set<string>, answered: set<string>, finished: bool)

  const NOTHING := Client(false, false, None, {}, {}, {}, {}, false)

  /**
   One `start`; steps that do not nest; each text part opened once, one at a time, and closed inside
   its step; each tool input announced once and then made available; each output once, after its
   input, inside a step; one `finish` after everything else.
   */
  predicate Allowed(c: Client, k: Chunk) {
    !c.finished &&
    match k
    case Start => !c.started
    case StartStep => c.started && !c.inStep
    case FinishStep => c.inStep && c.text == None
    case TextStart(id) => c.inStep && c.text == None && id !in c.texts
    case TextDeltaChunk(id, _) => c.inStep && c.text == Some(id)
    case TextEnd(id) => c.inStep && c.text == Some(id)
    case ToolInputStart(id, _) => c.inStep && id !in c.begun
    case ToolInputAvailable(id, _, _) => c.inStep && id in c.begun && id !in c.available
    case ToolOutputAvailable(id, _) => c.inStep && id in c.available && id !in c.answered
    case Finish => c.started && !c.inStep
  }

  function After(c: Client, k: Chunk): Client {
    match k
    case Start => c.(started := true)
    case StartStep => c.(inStep := true)
    case FinishStep => c.(inStep := false)
    case TextStart(id) => c.(text := Some(id), texts := c.texts + {id})
    case TextDeltaChunk(_, _) => c
    case TextEnd(_) => c.(text := None)
    case ToolInputStart(id, _) => c.(begun := c.begun + {id})
    case ToolInputAvailable(id, _, _) => c.(available := c.available + {id})
    case ToolOutputAvailable(id, _) => c.(answered := c.answered + {id})
    case Finish => c.(finished := true)
  }

  /** Reads a stream; None as soon as a chunk is out of place. */
  function Read(c: Client, chunks: seq<Chunk>): Option<Client>
    decreases |chunks|
  {
    if chunks == [] then Some(c)
    else if !Allowed(c, chunks[0]) then None
    else Read(After(c, chunks[0]), chunks[1..])
  }

  /** A complete stream: finished, and every tool input has its output. */
  predicate Complete(chunks: seq<Chunk>) {
    var r := Read(NOTHING, chunks);
    r.Some? && r.value.finished && r.value.answered == r.value.available == r.value.begun
  }

  /** Translates events and reads the chunks as they come. */
  function Play(s: State, c: Client, events: seq<Event>): Option<(State, Client)>
    decreases |events|
  {
    if events == [] then Some((s, c))
    else
      var (t, chunks) := Translated(s, events[0]);
      match Read(c, chunks)
      case None => None
      case Some(d) => Play(t, d, events[1..])
  }

  lemma {:induction false} ReadConcat(c: Client, a: seq<Chunk>, b: seq<Chunk>)
    ensures Read(c, a + b) == match Read(c, a) { case None => None case Some(d) => Read(d, b) }
    decreases |a|
  {
    if a == [] {
      assert a + b == b;
    } else {
      assert (a + b)[0] == a[0] && (a + b)[1..] == a[1..] + b;
      if Allowed(c, a[0]) {
        ReadConcat(After(c, a[0]), a[1..], b);
      }
    }
  }

  lemma {:induction false} PlayReads(s: State, c: Client, events: seq<Event>, position: nat)
    ensures Play(s, c, events).Some? <==> Read(c, Forwarded(s, events, position, 0)).Some?
    ensures Play(s, c, events).Some? ==> Read(c, Forwarded(s, events, position, 0)) == Some(Play(s, c, events).value.1)
    decreases |events|
  {
    if events != [] {
      var (t, chunks) := Translated(s, events[0]);
      ReadConcat(c, chunks, Forwarded(t, events[1..], position + 1, 0));
      if Read(c, chunks).Some? {
        PlayReads(t, Read(c, chunks).value, events[1..], position + 1);
      }
    }
  }

  lemma {:induction false} PlayConcat(s: State, c: Client, a: seq<Event>, b: seq<Event>)
    ensures Play(s, c, a + b) == match Play(s, c, a) { case None => None case Some(r) => Play(r.0, r.1, b) }
    decreases |a|
  {
    if a == [] {
      assert a + b == b;
    } else {
      assert (a + b)[0] == a[0] && (a + b)[1..] == a[1..] + b;
      var (t, chunks) := Translated(s, a[0]);
      if Read(c, chunks).Some? {
        PlayConcat(t, Read(c, chunks).value, a[1..], b);
      }
    }
  }

  lemma ReadOne(c: Client, k: Chunk)
    ensures Read(c, [k]) == if Allowed(c, k) then Some(After(c, k)) else None
  {
  }

  lemma ReadTwo(c: Client, k: Chunk, l: Chunk)
    requires Allowed(c, k) && Allowed(After(c, k), l)
    ensures Read(c, [k, l]) == Some(After(After(c, k), l))
  {
    assert [k, l][1..] == [l];
    ReadOne(After(c, k), l);
  }

  // ----- inside an iteration -----

  /** Text ids of iterations before `n`. */
  ghost predicate TextsBelow(texts: set<string>, n: nat) {
    forall id :: id in texts ==> exists m: nat :: m < n && id == TextId(m)
  }

  lemma TextIdNew(texts: set<string>, n: nat)
    requires TextsBelow(texts, n)
    ensures TextId(n) !in texts
  {
    if TextId(n) in texts {
      var m: nat :| m < n && TextId(n) == TextId(m);
      assert Digits(n) == TextId(n)[1..] && Digits(m) == TextId(m)[1..];
      DigitsInjective(n, m);
    }
  }

  /** Between iterations: the last step is still open, its text closed, every tool answered. */
  ghost predicate Between(s: State, c: Client, n: nat) {
    && s == State(n > 0, if n > 0 then Some(n - 1) else None, None)
    && !c.finished && c.text == None && c.started == c.inStep == (n > 0)
    && c.begun == c.available == c.answered && TextsBelow(c.texts, n)
  }

  /** In iteration `n`, with the text part open or not yet opened. */
  ghost predicate Streaming(s: State, c: Client, n: nat) {
    && s.started && s.iteration == Some(n) && s.textId == c.text
    && !c.finished && c.started && c.inStep
    && c.begun == c.available == c.answered
    && ((c.text == None && TextsBelow(c.texts, n)) || (c.text == Some(TextId(n)) && TextsBelow(c.texts, n + 1)))
  }

  /** In iteration `n`, after the model step. */
  ghost predicate Calling(s: State, c: Client, n: nat) {
    && s == State(true, Some(n), None) && !c.finished && c.started && c.inStep && c.text == None
    && c.begun == c.available == c.answered && TextsBelow(c.texts, n + 1)
  }

  lemma Enter(s: State, c: Client, n: nat) returns (t: State, d: Client)
    requires Between(s, c, n)
    ensures t == Entered(s, n).0 && Read(c, Entered(s, n).1) == Some(d) && Streaming(t, d, n) && t.textId == None
    ensures d.begun == c.begun
  {
    t := Entered(s, n).0;
    if n > 0 {
      assert Entered(s, n).1 == [FinishStep, StartStep];
      ReadTwo(c, FinishStep, StartStep);
      d := After(After(c, FinishStep), StartStep);
    } else {
      assert Entered(s, n).1 == [Start, StartStep];
      ReadTwo(c, Start, StartStep);
      d := After(After(c, Start), StartStep);
    }
  }

  /** Being between iterations and having just entered look the same to the next model event. */
  ghost predicate Ready(s: State, c: Client, n: nat) {
    Between(s, c, n) || Streaming(s, c, n)
  }

  lemma PlayOne(s: State, c: Client, e: Event, d: Client)
    requires Read(c, Translated(s, e).1) == Some(d)
    ensures Play(s, c, [e]) == Some((Translated(s, e).0, d))
  {
  }

  lemma EnterOrStay(s: State, c: Client, n: nat) returns (t: State, d: Client)
    requires Ready(s, c, n)
    ensures t == Entered(s, n).0 && Read(c, Entered(s, n).1) == Some(d) && Streaming(t, d, n) && d.begun == c.begun
  {
    if Between(s, c, n) && s.iteration != Some(n) {
      t, d := Enter(s, c, n);
    } else {
      t, d := s, c;
    }
  }

  lemma DeltaStep(s: State, c: Client, n: nat, delta: string) returns (t: State, d: Client)
    requires Ready(s, c, n)
    ensures Play(s, c, [TextDelta(n, delta)]) == Some((t, d)) && Streaming(t, d, n) && d.begun == c.begun
  {
    var u, e := EnterOrStay(s, c, n);
    var out := Entered(s, n).1;
    t := Translated(s, TextDelta(n, delta)).0;
    if u.textId.Some? {
      d := e;
      ReadOne(e, TextDeltaChunk(u.textId.value, delta));
      ReadConcat(c, out, [TextDeltaChunk(u.textId.value, delta)]);
    } else {
      TextIdNew(e.texts, n);
      d := After(e, TextStart(TextId(n)));
      ReadTwo(e, TextStart(TextId(n)), TextDeltaChunk(TextId(n), delta));
      ReadConcat(c, out, [TextStart(TextId(n)), TextDeltaChunk(TextId(n), delta)]);
    }
    PlayOne(s, c, TextDelta(n, delta), d);
  }

  lemma {:induction false} DeltasStep(s: State, c: Client, n: nat, deltas: seq<string>) returns (t: State, d: Client)
    requires Ready(s, c, n)
    ensures Play(s, c, DeltaEvents(n, deltas)) == Some((t, d)) && Ready(t, d, n) && d.begun == c.begun
    decreases |deltas|
  {
    t, d := s, c;
    if deltas != [] {
      var first := if deltas[0] == "" then [] else [TextDelta(n, deltas[0])];
      if deltas[0] != "" {
        t, d := DeltaStep(s, c, n, deltas[0]);
      }
      PlayConcat(s, c, first, DeltaEvents(n, deltas[1..]));
      t, d := DeltasStep(t, d, n, deltas[1..]);
    }
  }

  lemma FinishModel(s: State, c: Client, n: nat) returns (t: State, d: Client)
    requires Ready(s, c, n)
    ensures Play(s, c, [ModelFinish(n)]) == Some((t, d)) && Calling(t, d, n) && d.begun == c.begun
  {
    var u, e := EnterOrStay(s, c, n);
    var out := Entered(s, n).1;
    t := u.(textId := None);
    d := e.(text := None);
    if u.textId.Some? {
      ReadOne(e, TextEnd(u.textId.value));
    }
    ReadConcat(c, out, CloseText(u));
    PlayOne(s, c, ModelFinish(n), d);
  }

  // ----- tool calls -----

  function CallIds(calls: seq<Call>): set<string> {
    set i | 0 <= i < |calls| :: calls[i].id
  }

  lemma {:induction false} CallsStep(s: State, c: Client, n: nat, calls: seq<Call>) returns (d: Client)
    requires Calling(s, c, n) && forall i :: 0 <= i < |calls| ==> calls[i].id !in c.begun
    requires forall i, j :: 0 <= i < j < |calls| ==> calls[i].id != calls[j].id
    ensures Play(s, c, CallEvents(n, calls)) == Some((s, d)) && Calling(s, d, n) && d.begun == c.begun + CallIds(calls)
    decreases |calls|
  {
    d := c;
    if calls == [] {
      assert CallIds(calls) == {};
    } else {
      var k, rest := calls[0], calls[1..];
      var e := CallStep(s, c, n, k);
      var events := [ToolCall(n, k.id, k.name, k.input), ToolResult(n, k.id, k.output)];
      PlayConcat(s, c, events, CallEvents(n, rest));
      d := CallsStep(s, e, n, rest);
      CallIdsCons(calls);
    }
  }

  lemma CallIdsCons(calls: seq<Call>)
    requires calls != []
    ensures CallIds(calls) == {calls[0].id} + CallIds(calls[1..])
  {
  }

  lemma CallStep(s: State, c: Client, n: nat, k: Call) returns (d: Client)
    requires Calling(s, c, n) && k.id !in c.begun
    ensures Play(s, c, [ToolCall(n, k.id, k.name, k.input), ToolResult(n, k.id, k.output)]) == Some((s, d))
    ensures Calling(s, d, n) && d.begun == c.begun + {k.id}
  {
    var call, result := ToolCall(n, k.id, k.name, k.input), ToolResult(n, k.id, k.output);
    var start, available, output := ToolInputStart(k.id, k.name), ToolInputAvailable(k.id, k.name, k.input), ToolOutputAvailable(k.id, k.output);
    var e := After(After(c, start), available);
    assert [] + [start, available] == [start, available];
    ReadTwo(c, start, available);
    PlayOne(s, c, call, e);
    d := After(e, output);
    ReadOne(e, output);
    PlayOne(s, e, result, d);
    PlayConcat(s, c, [call], [result]);
    assert [call] + [result] == [call, result];
  }

  // ----- whole runs -----

  /** Tool call ids are unique in a run, as the model provider makes them. */
  ghost predicate UniqueCalls(max: nat, turns: nat -> Turn) {
    && (forall n: nat, i, j :: n < max && 0 <= i < j < |turns(n).calls| ==> turns(n).calls[i].id != turns(n).calls[j].id)
    && (forall m: nat, n: nat, i, j :: m < n < max && 0 <= i < |turns(m).calls| && 0 <= j < |turns(n).calls| ==>
          turns(m).calls[i].id != turns(n).calls[j].id)
  }

  /** The calls begun so far belong to earlier turns. */
  ghost predicate BegunBefore(turns: nat -> Turn, begun: set<string>, n: nat) {
    forall id :: id in begun ==> exists m: nat, i :: m < n && 0 <= i < |turns(m).calls| && turns(m).calls[i].id == id
  }

  lemma TurnStep(max: nat, turns: nat -> Turn, s: State, c: Client, n: nat) returns (t: State, d: Client)
    requires n < max && UniqueCalls(max, turns) && Between(s, c, n) && BegunBefore(turns, c.begun, n)
    ensures Play(s, c, TurnEvents(n, turns(n))) == Some((t, d)) && Between(t, d, n + 1) && BegunBefore(turns, d.begun, n + 1)
  {
    var turn := turns(n);
    var s1, c1 := DeltasStep(s, c, n, turn.deltas);
    var s2, c2 := FinishModel(s1, c1, n);
    FreshCalls(max, turns, c2.begun, n);
    var c3 := CallsStep(s2, c2, n, turn.calls);
    var deltas := DeltaEvents(n, turn.deltas);
    PlayConcat(s, c, deltas, [ModelFinish(n)]);
    PlayConcat(s, c, deltas + [ModelFinish(n)], CallEvents(n, turn.calls));
    t, d := s2, c3;
    BegunMore(turns, c2.begun, n);
  }

  lemma FreshCalls(max: nat, turns: nat -> Turn, begun: set<string>, n: nat)
    requires n < max && UniqueCalls(max, turns) && BegunBefore(turns, begun, n)
    ensures forall i :: 0 <= i < |turns(n).calls| ==> turns(n).calls[i].id !in begun
  {
  }

  lemma BegunMore(turns: nat -> Turn, begun: set<string>, n: nat)
    requires BegunBefore(turns, begun, n)
    ensures BegunBefore(turns, begun + CallIds(turns(n).calls), n + 1)
  {
  }

  /** A turn followed by the events of the rest of the run. */
  lemma TurnThen(max: nat, turns: nat -> Turn, s: State, c: Client, n: nat, t: State, d: Client)
    requires n < max && Play(s, c, TurnEvents(n, turns(n))) == Some((t, d))
    ensures turns(n).calls == [] ==> Play(s, c, IterationEvents(max, turns, n)) == Some((t, d))
    ensures turns(n).calls != [] ==> Play(s, c, IterationEvents(max, turns, n)) == Play(t, d, IterationEvents(max, turns, n + 1))
  {
    PlayConcat(s, c, TurnEvents(n, turns(n)), if turns(n).calls == [] then [] else IterationEvents(max, turns, n + 1));
  }

  lemma {:induction false} IterationsStep(max: nat, turns: nat -> Turn, s: State, c: Client, n: nat)
    returns (t: State, d: Client, m: nat)
    requires n <= max && UniqueCalls(max, turns) && Between(s, c, n) && BegunBefore(turns, c.begun, n)
    ensures Play(s, c, IterationEvents(max, turns, n)) == Some((t, d))
    ensures Between(t, d, m) && n <= m <= max && (n < max ==> n < m)
    decreases max - n
  {
    t, d, m := s, c, n;
    if n < max {
      t, d := TurnStep(max, turns, s, c, n);
      TurnThen(max, turns, s, c, n, t, d);
      m := n + 1;
      if turns(n).calls != [] {
        t, d, m := IterationsStep(max, turns, t, d, n + 1);
      }
    }
  }

  lemma FinishLoop(s: State, c: Client, m: nat, n: nat)
    requires Between(s, c, m)
    ensures Play(s, c, [LoopFinish(n)]).Some? <==> m > 0
    ensures m > 0 ==> var d := Play(s, c, [LoopFinish(n)]).value.1; d.finished && d.answered == d.available == d.begun
  {
    var chunks := Translated(s, LoopFinish(n)).1;
    if m > 0 {
      assert chunks == [FinishStep, Finish];
      ReadTwo(c, FinishStep, Finish);
      PlayOne(s, c, LoopFinish(n), After(After(c, FinishStep), Finish));
    } else {
      assert chunks == [Finish];
      ReadOne(c, Finish);
    }
  }

  /**
   The chunks of a run of the agent loop form one complete, well-bracketed stream exactly when the
   loop may take a step at all; with `maxLoopSteps` 0 a lone `finish` is sent without a `start`.
   */
  lemma RunsTranslateWell(max: nat, turns: nat -> Turn)
    requires UniqueCalls(max, turns)
    ensures Complete(Forwarded(INITIAL, LoopRun(max, turns), 0, 0)) <==> max > 0
  {
    var events := IterationEvents(max, turns, 0);
    var last := LastIteration(max, turns, 0);
    assert Between(INITIAL, NOTHING, 0);
    var t, d, m := IterationsStep(max, turns, INITIAL, NOTHING, 0);
    FinishLoop(t, d, m, last);
    PlayConcat(INITIAL, NOTHING, events, [LoopFinish(last)]);
    PlayReads(INITIAL, NOTHING, LoopRun(max, turns), 0);
  }

  // ----- content -----

  /** What a stream says, apart from its brackets. */
  datatype Item =
    | Said(textId: string, delta: string)
    | Announced(callId: string, toolName: string)
    | Asked(callId: string, toolName: string, input: string)
    | Answered(callId: string, output: string)

  function ChunkItem(k: Chunk): seq<Item> {
    match k
    case TextDeltaChunk(id, delta) => [Said(id, delta)]
    case ToolInputStart(id, name) => [Announced(id, name)]
    case ToolInputAvailable(id, name, input) => [Asked(id, name, input)]
    case ToolOutputAvailable(id, output) => [Answered(id, output)]
    case _ => []
  }

  function ChunkItems(chunks: seq<Chunk>): seq<Item>
    decreases |chunks|
  {
    if chunks == [] then [] else ChunkItem(chunks[0]) + ChunkItems(chunks[1..])
  }

  function EventItem(e: Event): seq<Item> {
    match e
    case TextDelta(n, delta) => [Said(TextId(n), delta)]
    case ToolCall(_, id, name, input) => [Announced(id, name), Asked(id, name, input)]
    case ToolResult(_, id, output) => [Answered(id, output)]
    case _ => []
  }

  function EventItems(events: seq<Event>): seq<Item>
    decreases |events|
  {
    if events == [] then [] else EventItem(events[0]) + EventItems(events[1..])
  }

  lemma {:induction false} ChunkItemsConcat(a: seq<Chunk>, b: seq<Chunk>)
    ensures ChunkItems(a + b) == ChunkItems(a) + ChunkItems(b)
    decreases |a|
  {
    if a == [] {
      assert a + b == b;
    } else {
      assert (a + b)[0] == a[0] && (a + b)[1..] == a[1..] + b;
      ChunkItemsConcat(a[1..], b);
    }
  }

  /** An open text part belongs to the current iteration. */
  predicate TextCurrent(s: State) {
    s.textId.Some? ==> s.iteration.Some? && s.textId.value == TextId(s.iteration.value)
  }

  predicate Silent(k: Chunk) {
    k.Start? || k.StartStep? || k.FinishStep? || k.TextStart? || k.TextEnd? || k.Finish?
  }

  lemma {:induction false} SilentItems(chunks: seq<Chunk>)
    requires forall i :: 0 <= i < |chunks| ==> Silent(chunks[i])
    ensures ChunkItems(chunks) == []
    decreases |chunks|
  {
    if chunks != [] {
      SilentItems(chunks[1..]);
    }
  }

  lemma ItemsOfOne(k: Chunk)
    ensures ChunkItems([k]) == ChunkItem(k)
  {
  }

  lemma ItemsOfTwo(k: Chunk, l: Chunk)
    ensures ChunkItems([k, l]) == ChunkItem(k) + ChunkItem(l)
  {
    assert [k, l] == [k] + [l];
    ChunkItemsConcat([k], [l]);
    ItemsOfOne(k);
    ItemsOfOne(l);
  }

  lemma EnteredSilently(s: State, n: nat, more: seq<Chunk>)
    requires TextCurrent(s)
    ensures TextCurrent(Entered(s, n).0) && Entered(s, n).0.iteration == Some(n)
    ensures ChunkItems(Entered(s, n).1 + more) == ChunkItems(more)
  {
    SilentItems(Entered(s, n).1);
    ChunkItemsConcat(Entered(s, n).1, more);
  }

  lemma EventContent(s: State, e: Event)
    requires TextCurrent(s)
    ensures TextCurrent(Translated(s, e).0) && ChunkItems(Translated(s, e).1) == EventItem(e)
  {
    match e
    case TextDelta(n, delta) =>
      var said := TextDeltaChunk(TextId(n), delta);
      ItemsOfOne(said);
      ItemsOfTwo(TextStart(TextId(n)), said);
      EnteredSilently(s, n, if Entered(s, n).0.textId.Some? then [said] else [TextStart(TextId(n)), said]);
    case ModelFinish(n) =>
      SilentItems(CloseText(Entered(s, n).0));
      EnteredSilently(s, n, CloseText(Entered(s, n).0));
    case ToolCall(n, id, name, input) =>
      ItemsOfTwo(ToolInputStart(id, name), ToolInputAvailable(id, name, input));
      EnteredSilently(s, n, [ToolInputStart(id, name), ToolInputAvailable(id, name, input)]);
    case ToolResult(_, id, output) => ItemsOfOne(ToolOutputAvailable(id, output));
    case LoopFinish(_) => SilentItems(Translated(s, e).1);
  }

  /** Every event stream keeps its content and order: all deltas, tool inputs and outputs, none twice. */
  lemma {:induction false} ContentKept(s: State, events: seq<Event>, position: nat)
    requires TextCurrent(s)
    ensures ChunkItems(Forwarded(s, events, position, 0)) == EventItems(events)
    decreases |events|
  {
    if events != [] {
      var (t, out) := Translated(s, events[0]);
      EventContent(s, events[0]);
      ContentKept(t, events[1..], position + 1);
      ChunkItemsConcat(out, Forwarded(t, events[1..], position + 1, 0));
    }
  }
}
