/** One step per turn: what stands between the brackets of each step of a run's chunk stream. */
module TurnSteps {
  import opened ChunkGrammar
  import opened LoopEvents
  import opened Wrappers

  /**
   The steps opened so far with what each of them says, whether the last one is still open, what was said
   outside of steps, and whether a step was opened inside another or closed without being open.
   */
  datatype Reading = Reading(steps: seq<seq<Item>>, open: bool, stray: seq<Item>, broken: bool)

  const UNREAD := Reading([], false, [], false)

  function Say(r: Reading, items: seq<Item>): Reading {
    if items == [] then r
    else if r.open && r.steps != [] then
      var last := |r.steps| - 1;
      r.(steps := r.steps[..last] + [r.steps[last] + items])
    else r.(stray := r.stray + items)
  }

  function Take(r: Reading, k: Chunk): Reading {
    match k
    case StartStep => r.(steps := r.steps + [[]], open := true, broken := r.broken || r.open)
    case FinishStep => r.(open := false, broken := r.broken || !r.open)
    case _ => Say(r, ChunkItem(k))
  }

  function TakeAll(r: Reading, chunks: seq<Chunk>): Reading
    decreases |chunks|
  {
    if chunks == [] then r else TakeAll(Take(r, chunks[0]), chunks[1..])
  }

  // ----- what a run is meant to say -----

  function DeltaItems(n: nat, deltas: seq<string>): seq<Item> {
    if deltas == [] then []
    else (if deltas[0] == "" then [] else [Said(TextId(n), deltas[0])]) + DeltaItems(n, deltas[1..])
  }

  function CallSays(c: Call): seq<Item> {
    [Announced(c.id, c.name), Asked(c.id, c.name, c.input), Answered(c.id, c.output)]
  }

  function CallItems(calls: seq<Call>): seq<Item> {
    if calls == [] then []
    else CallSays(calls[0]) + CallItems(calls[1..])
  }

  /** A turn's text in its order, then each of its tool calls with its input and output. */
  function TurnItems(n: nat, turn: Turn): seq<Item> {
    DeltaItems(n, turn.deltas) + CallItems(turn.calls)
  }

  /** The turns a run takes from turn `n` on: up to the limit, or to the first one without a tool call. */
  function RunItems(max: nat, turns: nat -> Turn, n: nat): seq<seq<Item>>
    decreases max - n
  {
    if n >= max then []
    else [TurnItems(n, turns(n))] + (if turns(n).calls == [] then [] else RunItems(max, turns, n + 1))
  }

  // ----- reading while translating -----

  function Follow(s: State, r: Reading, events: seq<Event>): (State, Reading)
    decreases |events|
  {
    if events == [] then (s, r)
    else
      var (t, chunks) := Translated(s, events[0]);
      Follow(t, TakeAll(r, chunks), events[1..])
  }

  lemma {:induction false} TakeConcat(r: Reading, a: seq<Chunk>, b: seq<Chunk>)
    ensures TakeAll(r, a + b) == TakeAll(TakeAll(r, a), b)
    decreases |a|
  {
    if a == [] {
      assert a + b == b;
    } else {
      assert (a + b)[0] == a[0] && (a + b)[1..] == a[1..] + b;
      TakeConcat(Take(r, a[0]), a[1..], b);
    }
  }

  lemma {:induction false} FollowTakes(s: State, r: Reading, events: seq<Event>, position: nat)
    ensures Follow(s, r, events).1 == TakeAll(r, Forwarded(s, events, position, 0))
    decreases |events|
  {
    if events != [] {
      var (t, chunks) := Translated(s, events[0]);
      TakeConcat(r, chunks, Forwarded(t, events[1..], position + 1, 0));
      FollowTakes(t, TakeAll(r, chunks), events[1..], position + 1);
    }
  }

  lemma {:induction false} FollowConcat(s: State, r: Reading, a: seq<Event>, b: seq<Event>)
    ensures Follow(s, r, a + b) == Follow(Follow(s, r, a).0, Follow(s, r, a).1, b)
    decreases |a|
  {
    if a == [] {
      assert a + b == b;
    } else {
      assert (a + b)[0] == a[0] && (a + b)[1..] == a[1..] + b;
      var (t, chunks) := Translated(s, a[0]);
      FollowConcat(t, TakeAll(r, chunks), a[1..], b);
    }
  }

  lemma FollowOne(s: State, r: Reading, e: Event)
    ensures Follow(s, r, [e]) == (Translated(s, e).0, TakeAll(r, Translated(s, e).1))
  {
    assert [e][1..] == [];
  }

  lemma TakeTwo(r: Reading, k: Chunk, l: Chunk)
    ensures TakeAll(r, [k, l]) == Take(Take(r, k), l)
  {
    assert [k, l][1..] == [l];
    TakeOne(Take(r, k), l);
  }

  lemma TakeOne(r: Reading, k: Chunk)
    ensures TakeAll(r, [k]) == Take(r, k)
  {
    assert [k][1..] == [];
  }

  // ----- inside a turn -----

  /** `items` were said in the step behind `before`, which is still open. */
  function Opened(before: seq<seq<Item>>, items: seq<Item>): Reading {
    Reading(before + [items], true, [], false)
  }

  /** Between turns: the step of the last one is still open. */
  predicate Waiting(s: State, r: Reading, n: nat) {
    && s == State(n > 0, if n > 0 then Some(n - 1) else None, None)
    && r == Reading(r.steps, n > 0, [], false) && |r.steps| == n
  }

  /** In turn `n`, with `items` said; nothing is opened before the first event. */
  predicate During(s: State, r: Reading, n: nat, before: seq<seq<Item>>, items: seq<Item>) {
    || (Waiting(s, r, n) && r.steps == before && items == [])
    || (s.started && s.iteration == Some(n) && TextCurrent(s) && r == Opened(before, items))
  }

  lemma SayMore(before: seq<seq<Item>>, items: seq<Item>, more: seq<Item>)
    ensures Say(Opened(before, items), more) == Opened(before, items + more)
  {
    var r := Opened(before, items);
    assert r.steps[..|before|] == before;
    assert more == [] ==> items + more == items;
  }

  lemma Entering(s: State, r: Reading, n: nat, before: seq<seq<Item>>, items: seq<Item>)
    requires During(s, r, n, before, items)
    ensures TakeAll(r, Entered(s, n).1) == Opened(before, items)
    ensures var t := Entered(s, n).0; t.started && t.iteration == Some(n) && TextCurrent(t)
  {
    if s.iteration != Some(n) {
      var first := if n > 0 then FinishStep else Start;
      assert Entered(s, n).1 == [first, StartStep];
      TakeTwo(r, first, StartStep);
    }
  }

  lemma DeltaSaid(s: State, r: Reading, n: nat, before: seq<seq<Item>>, items: seq<Item>, delta: string)
    requires During(s, r, n, before, items)
    ensures var (t, q) := Follow(s, r, [TextDelta(n, delta)]);
            During(t, q, n, before, items + [Said(TextId(n), delta)])
  {
    Entering(s, r, n, before, items);
    FollowOne(s, r, TextDelta(n, delta));
    var (u, out) := Entered(s, n);
    var here, said := Opened(before, items), TextDeltaChunk(TextId(n), delta);
    SayMore(before, items, [Said(TextId(n), delta)]);
    if u.textId.Some? {
      TakeConcat(r, out, [said]);
      TakeOne(here, said);
    } else {
      TakeConcat(r, out, [TextStart(TextId(n)), said]);
      TakeTwo(here, TextStart(TextId(n)), said);
    }
  }

  lemma Regroup<T>(a: seq<T>, b: seq<T>, c: seq<T>)
    ensures a + (b + c) == (a + b) + c
  {
  }

  lemma NoMore<T>(a: seq<T>)
    ensures a + [] == a
  {
  }

  lemma FirstDelta(n: nat, deltas: seq<string>)
    requires deltas != []
    ensures deltas[0] == "" ==>
              DeltaEvents(n, deltas) == DeltaEvents(n, deltas[1..]) && DeltaItems(n, deltas) == DeltaItems(n, deltas[1..])
    ensures deltas[0] != "" ==>
              && DeltaEvents(n, deltas) == [TextDelta(n, deltas[0])] + DeltaEvents(n, deltas[1..])
              && DeltaItems(n, deltas) == [Said(TextId(n), deltas[0])] + DeltaItems(n, deltas[1..])
  {
  }

  lemma {:induction false} DeltasSaid(s: State, r: Reading, n: nat, before: seq<seq<Item>>, items: seq<Item>, deltas: seq<string>)
    requires During(s, r, n, before, items)
    ensures var (t, q) := Follow(s, r, DeltaEvents(n, deltas)); During(t, q, n, before, items + DeltaItems(n, deltas))
    decreases |deltas|
  {
    if deltas == [] {
      NoMore(items);
    } else {
      FirstDelta(n, deltas);
      if deltas[0] == "" {
        DeltasSaid(s, r, n, before, items, deltas[1..]);
      } else {
        var first, said := [TextDelta(n, deltas[0])], [Said(TextId(n), deltas[0])];
        DeltaSaid(s, r, n, before, items, deltas[0]);
        FollowConcat(s, r, first, DeltaEvents(n, deltas[1..]));
        Regroup(items, said, DeltaItems(n, deltas[1..]));
        DeltasSaid(Follow(s, r, first).0, Follow(s, r, first).1, n, before, items + said, deltas[1..]);
      }
    }
  }

  /** The model step ends: the turn's step is open now, whatever came before. */
  lemma ModelEnds(s: State, r: Reading, n: nat, before: seq<seq<Item>>, items: seq<Item>)
    requires During(s, r, n, before, items)
    ensures Follow(s, r, [ModelFinish(n)]) == (State(true, Some(n), None), Opened(before, items))
  {
    Entering(s, r, n, before, items);
    FollowOne(s, r, ModelFinish(n));
    var (u, out) := Entered(s, n);
    TakeConcat(r, out, CloseText(u));
    if u.textId.Some? {
      TakeOne(Opened(before, items), TextEnd(u.textId.value));
    }
  }

  lemma CallSaid(n: nat, before: seq<seq<Item>>, items: seq<Item>, c: Call)
    ensures var s := State(true, Some(n), None);
            Follow(s, Opened(before, items), [ToolCall(n, c.id, c.name, c.input), ToolResult(n, c.id, c.output)])
            == (s, Opened(before, items + CallSays(c)))
  {
    var s, r := State(true, Some(n), None), Opened(before, items);
    var asked := items + [Announced(c.id, c.name), Asked(c.id, c.name, c.input)];
    InputSaid(n, before, items, c);
    FollowOne(s, Opened(before, asked), ToolResult(n, c.id, c.output));
    TakeOne(Opened(before, asked), ToolOutputAvailable(c.id, c.output));
    SayMore(before, asked, [Answered(c.id, c.output)]);
    FollowConcat(s, r, [ToolCall(n, c.id, c.name, c.input)], [ToolResult(n, c.id, c.output)]);
    assert asked + [Answered(c.id, c.output)] == items + CallSays(c);
  }

  lemma InputSaid(n: nat, before: seq<seq<Item>>, items: seq<Item>, c: Call)
    ensures var s := State(true, Some(n), None);
            Follow(s, Opened(before, items), [ToolCall(n, c.id, c.name, c.input)])
            == (s, Opened(before, items + [Announced(c.id, c.name), Asked(c.id, c.name, c.input)]))
  {
    var s, r := State(true, Some(n), None), Opened(before, items);
    var start, input := ToolInputStart(c.id, c.name), ToolInputAvailable(c.id, c.name, c.input);
    FollowOne(s, r, ToolCall(n, c.id, c.name, c.input));
    assert [] + [start, input] == [start, input];
    TakeTwo(r, start, input);
    SayMore(before, items, [Announced(c.id, c.name)]);
    SayMore(before, items + [Announced(c.id, c.name)], [Asked(c.id, c.name, c.input)]);
    assert items + [Announced(c.id, c.name)] + [Asked(c.id, c.name, c.input)]
        == items + [Announced(c.id, c.name), Asked(c.id, c.name, c.input)];
  }

  lemma {:induction false} CallsSaid(n: nat, before: seq<seq<Item>>, items: seq<Item>, calls: seq<Call>)
    ensures var s := State(true, Some(n), None);
            Follow(s, Opened(before, items), CallEvents(n, calls)) == (s, Opened(before, items + CallItems(calls)))
    decreases |calls|
  {
    if calls == [] {
      NoMore(items);
    } else {
      var s, c := State(true, Some(n), None), calls[0];
      var said := CallSays(c);
      CallSaid(n, before, items, c);
      FollowConcat(s, Opened(before, items), [ToolCall(n, c.id, c.name, c.input), ToolResult(n, c.id, c.output)], CallEvents(n, calls[1..]));
      CallsSaid(n, before, items + said, calls[1..]);
      Regroup(items, said, CallItems(calls[1..]));
    }
  }

  // ----- whole runs -----

  lemma TurnSaid(s: State, r: Reading, n: nat, turn: Turn)
    requires Waiting(s, r, n)
    ensures Follow(s, r, TurnEvents(n, turn)) == (State(true, Some(n), None), Opened(r.steps, TurnItems(n, turn)))
  {
    var deltas, calls := DeltaEvents(n, turn.deltas), CallEvents(n, turn.calls);
    DeltasSaid(s, r, n, r.steps, [], turn.deltas);
    assert [] + DeltaItems(n, turn.deltas) == DeltaItems(n, turn.deltas);
    var (t, q) := Follow(s, r, deltas);
    ModelEnds(t, q, n, r.steps, DeltaItems(n, turn.deltas));
    CallsSaid(n, r.steps, DeltaItems(n, turn.deltas), turn.calls);
    FollowConcat(s, r, deltas, [ModelFinish(n)]);
    FollowConcat(s, r, deltas + [ModelFinish(n)], calls);
  }

  lemma {:induction false} TurnsSaid(max: nat, turns: nat -> Turn, s: State, r: Reading, n: nat)
    returns (t: State, q: Reading)
    requires n <= max && Waiting(s, r, n)
    ensures Follow(s, r, IterationEvents(max, turns, n)) == (t, q)
    ensures Waiting(t, q, |q.steps|) && q.steps == r.steps + RunItems(max, turns, n)
    decreases max - n
  {
    if n == max {
      NoMore(r.steps);
      t, q := s, r;
    } else {
      var items := TurnItems(n, turns(n));
      TurnThenRest(max, turns, s, r, n);
      if turns(n).calls == [] {
        t, q := State(true, Some(n), None), Opened(r.steps, items);
        assert RunItems(max, turns, n) == [items];
      } else {
        t, q := TurnsSaid(max, turns, State(true, Some(n), None), Opened(r.steps, items), n + 1);
        Regroup(r.steps, [items], RunItems(max, turns, n + 1));
      }
    }
  }

  /** One turn, and what is left of the run behind it. */
  lemma TurnThenRest(max: nat, turns: nat -> Turn, s: State, r: Reading, n: nat)
    requires n < max && Waiting(s, r, n)
    ensures var t, q := State(true, Some(n), None), Opened(r.steps, TurnItems(n, turns(n)));
            && Waiting(t, q, n + 1)
            && Follow(s, r, IterationEvents(max, turns, n))
               == if turns(n).calls == [] then (t, q) else Follow(t, q, IterationEvents(max, turns, n + 1))
  {
    TurnSaid(s, r, n, turns(n));
    FollowConcat(s, r, TurnEvents(n, turns(n)), if turns(n).calls == [] then [] else IterationEvents(max, turns, n + 1));
  }

  lemma LoopEnds(s: State, r: Reading, n: nat, last: nat)
    requires n > 0 && Waiting(s, r, n)
    ensures Follow(s, r, [LoopFinish(last)]).1 == r.(open := false)
  {
    FollowOne(s, r, LoopFinish(last));
    assert [] + [FinishStep] + [Finish] == [FinishStep, Finish];
    TakeTwo(r, FinishStep, Finish);
  }

  /**
   Each turn has its own step: the chunks of a run have one step per turn taken, opened and closed around
   exactly that turn's text, tool inputs and tool outputs, and nothing is said outside of a step.
   */
  lemma StepPerTurn(max: nat, turns: nat -> Turn)
    requires max > 0
    ensures TakeAll(UNREAD, Forwarded(INITIAL, LoopRun(max, turns), 0, 0)) == Reading(RunItems(max, turns, 0), false, [], false)
  {
    var events, last := IterationEvents(max, turns, 0), LastIteration(max, turns, 0);
    var t, q := TurnsSaid(max, turns, INITIAL, UNREAD, 0);
    assert [] + RunItems(max, turns, 0) == RunItems(max, turns, 0);
    LoopEnds(t, q, |RunItems(max, turns, 0)|, last);
    FollowConcat(INITIAL, UNREAD, events, [LoopFinish(last)]);
    FollowTakes(INITIAL, UNREAD, LoopRun(max, turns), 0);
  }

  function StepStarts(chunks: seq<Chunk>): nat
    decreases |chunks|
  {
    if chunks == [] then 0 else (if chunks[0].StartStep? then 1 else 0) + StepStarts(chunks[1..])
  }

  /** The steps read are the `start-step` chunks. */
  lemma {:induction false} StepsAreStarts(r: Reading, chunks: seq<Chunk>)
    ensures |TakeAll(r, chunks).steps| == |r.steps| + StepStarts(chunks)
    decreases |chunks|
  {
    if chunks != [] {
      StepsAreStarts(Take(r, chunks[0]), chunks[1..]);
    }
  }

  /** As many `start-step` chunks as turns taken: the loop's last iteration and all before it. */
  lemma OneStartPerTurn(max: nat, turns: nat -> Turn)
    requires max > 0
    ensures var last := LastIteration(max, turns, 0);
            StepStarts(Forwarded(INITIAL, LoopRun(max, turns), 0, 0)) == if last < max then last + 1 else max
  {
    StepPerTurn(max, turns);
    StepsAreStarts(UNREAD, Forwarded(INITIAL, LoopRun(max, turns), 0, 0));
    TurnsTaken(max, turns, 0);
  }

  lemma {:induction false} TurnsTaken(max: nat, turns: nat -> Turn, n: nat)
    requires n <= max
    ensures var last := LastIteration(max, turns, n);
            last <= max && n + |RunItems(max, turns, n)| == if last < max then last + 1 else max
    decreases max - n
  {
    if n < max && turns(n).calls != [] {
      TurnsTaken(max, turns, n + 1);
    }
  }
}
