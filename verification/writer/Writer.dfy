/**
 The writer process itself (apps/logger-writer/src/writer.rs): the state that `run` and `flush`
 update, event by event. Every method is a path of the transition system of ExactlyOnce.
 */
module LoggerWriter {
  import opened HighWaterMarks
  import opened WriteBatch
  import opened ExactlyOnce

  /** What one turn of the select loop sees. */
  datatype Event = Arrived(partition: Partition, offset: Offset) | ReceiveError | Timeout

  class Writer {
    const flushRows: nat
    var table: seq<Snapshot>
    var committed: map<Partition, int>
    /** Commits of earlier processes still on their way, and the snapshots this process knows of. */
    var flying: seq<Flight>
    var base: nat
    var running: bool
    var position: map<Partition, int>
    var buffer: seq<Message>
    var pending: Marks

    ghost function Now(log: Log): State
      reads this
    {
      State(log, table, committed, if running then Up(position, buffer, pending, base) else Down, flying)
    }

    constructor (flushRows: nat)
      ensures Now(map[]) == INITIAL
      ensures this.flushRows == flushRows
    {
      this.flushRows := flushRows;
      table, committed, flying, base := [], map[], [], 0;
      running, position, buffer, pending := false, map[], [], map[];
    }

    /** Startup: resolve the marks from the table and take up each partition just behind its mark. */
    method Start(log: Log, subscribed: set<Partition>) returns (ghost marks: Marks)
      requires !running
      modifies this
      ensures marks == map[] ==> position.Keys == subscribed
      ensures marks != map[] ==> position.Keys == marks.Keys
      ensures running && Steps(old(Now(log)), Restart(position.Keys, marks), Now(log))
    {
      ghost var before := Now(log);
      var resolved := ResolveFromSnapshots(Summaries(table));
      marks := resolved;
      position := StartAt(resolved, committed, subscribed);
      running, buffer, pending, base := true, [], map[], |table|;
      RestartIs(before, marks, position);
      assert Now(log) == before.(session := Up(position, [], map[], |table|));
    }

    /** Writes the buffer and its marks as one snapshot, for each way the commit can end. */
    method WriteBuffer(outcome: Outcome) returns (ok: bool, ghost snapshot: Snapshot)
      requires running && buffer != [] && (Commits(outcome) ==> base == |table|)
      modifies this`table, this`flying
      ensures ok == outcome.Committed? && Writes(snapshot, buffer, pending)
      ensures table == if Commits(outcome) then old(table) + [snapshot] else old(table)
      ensures flying == if outcome.Unresolved? then old(flying) + [Flight(snapshot, base)] else old(flying)
    {
      var files := WritePartitioned(buffer);
      var summary := ToSnapshotProperties(pending);
      snapshot := Snapshot(files, summary);
      if Commits(outcome) {
        table := table + [Snapshot(files, summary)];
      } else if outcome.Unresolved? {
        flying := flying + [Flight(Snapshot(files, summary), base)];
      }
      ok := outcome.Committed?;
    }

    /** Everything a flush does, for each way the commit can end. */
    method Flush(log: Log, outcome: Outcome) returns (ok: bool, ghost snapshot: Snapshot)
      requires running && (Commits(outcome) ==> buffer == [] || base == |table|)
      modifies this
      ensures Steps(old(Now(log)), Step.Flush(snapshot, outcome), Now(log))
      ensures ok == running == (old(buffer) == [] || outcome.Committed?)
      ensures ok ==> buffer == []
    {
      ghost var before := Now(log);
      snapshot := Snapshot([], map[]);
      if |buffer| == 0 {
        FlushIs(before, snapshot, outcome);
        return true, snapshot;
      }
      var written;
      written, snapshot := WriteBuffer(outcome);
      FlushIs(before, snapshot, outcome);
      if !written {
        running := false;
        assert Now(log) == Flushed(before, snapshot, outcome);
        return false, snapshot;
      }
      base := |table|;
      if outcome.kafkaToo {
        committed := committed + position;
      }
      buffer, pending := [], map[];
      ok := true;
      assert Now(log) == Flushed(before, snapshot, outcome);
    }

    /** A commit of an earlier process arrives at the catalog. */
    method LateCommit(log: Log, i: nat)
      requires i < |flying|
      modifies this`table, this`flying
      ensures Steps(old(Now(log)), Land(i), Now(log))
    {
      var f := flying[i];
      if f.base == |table| {
        table := table + [f.snapshot];
      }
      flying := flying[..i] + flying[i + 1..];
    }

    /** One record arrives: buffer it and raise its partition's mark, or skip what does not decode. */
    method OnMessage(log: Log, p: Partition, o: Offset)
      requires running && p in position && IsNext(log, p, position[p], o)
      modifies this
      ensures running && Steps(old(Now(log)), Receive(p, o), Now(log))
    {
      var record := log[(p, o)];
      position := position[p := o + 1];
      match record.envelope {
        case Some(envelope) =>
          buffer := buffer + [Message(p, o, envelope, record.instant)];
          if p in pending {
            if o > pending[p] {
              pending := pending[p := o];
            }
          } else {
            pending := pending[p := o];
          }
        case None =>
      }
    }

    /** Every decodable message the process has passed is in the table, once. */
    ghost predicate Delivered(log: Log)
      reads this
    {
      forall m: Message :: Logged(log, m) && m.partition in position && m.offset < position[m.partition] ==> Rows(table)[m] == 1
    }

    /**
     One turn of the loop: a batch that reached `flushRows` is flushed at once, any batch when the interval
     has passed, and a receive error changes nothing. A timeout the process survives leaves nothing behind.
     */
    method Turn(log: Log, event: Event, outcome: Outcome) returns (ghost steps: seq<Step>)
      requires running && (Commits(outcome) ==> base == |table|)
      requires event.Arrived? ==> event.partition in position && IsNext(log, event.partition, position[event.partition], event.offset)
      modifies this
      ensures Path(old(Now(log)), steps, Now(log)) && TakenFor(event, outcome, old(|buffer|), log, flushRows, steps)
      ensures running && event.Arrived? && log[(event.partition, event.offset)].envelope.Some? ==>
                |buffer| < flushRows || |buffer| == 0
      ensures event.ReceiveError? ==> Now(log) == old(Now(log))
      ensures event.Timeout? && running ==> buffer == []
      ensures event.Timeout? && running ==> forall runs :: Run(runs, old(Now(log))) ==> Delivered(log)
    {
      ghost var start := Now(log);
      steps := [];
      match event {
        case Arrived(p, o) =>
          OnMessage(log, p, o);
          steps := [Receive(p, o)];
          ghost var middle := Now(log);
          OneStep(start, Receive(p, o), middle);
          if log[(p, o)].envelope.Some? && |buffer| >= flushRows {
            var ok, snapshot := Flush(log, outcome);
            PathExtends(start, steps, middle, Step.Flush(snapshot, outcome), Now(log));
            steps := steps + [Step.Flush(snapshot, outcome)];
          }
        case ReceiveError =>
        case Timeout =>
          var ok, snapshot := Flush(log, outcome);
          OneStep(start, Step.Flush(snapshot, outcome), Now(log));
          steps := [Step.Flush(snapshot, outcome)];
          ghost var after := Now(log);
          if running {
            forall runs, m | Run(runs, start) && Logged(log, m) && m.partition in position && m.offset < position[m.partition]
              ensures Rows(table)[m] == 1
            {
              PathExtends(INITIAL, runs, start, steps[0], after);
              CaughtUp(runs + [steps[0]], after, m);
            }
          }
      }
    }
  }

  /** The steps of a turn: one receive with a flush when the batch is full, or one flush, or none. */
  ghost predicate TakenFor(event: Event, outcome: Outcome, buffered: nat, log: Log, flushRows: nat, steps: seq<Step>) {
    match event
    case Arrived(p, o) =>
      var full := (p, o) in log && log[(p, o)].envelope.Some? && buffered + 1 >= flushRows;
      && |steps| == (if full then 2 else 1) && steps[0] == Receive(p, o)
      && (full ==> steps[1].Flush? && steps[1].outcome == outcome)
    case ReceiveError => steps == []
    case Timeout => |steps| == 1 && steps[0].Flush? && steps[0].outcome == outcome
  }

  /** The offsets a restarted consumer is assigned: one past every mark. */
  method SeekToHwm(hwm: Marks) returns (tpl: map<Partition, int>)
    ensures tpl == map p | p in hwm :: Resume(hwm[p])
  {
    tpl := map[];
    var todo := hwm.Keys;
    while todo != {}
      invariant todo <= hwm.Keys
      invariant tpl == map p | p in hwm && p !in todo :: Resume(hwm[p])
      decreases |todo|
    {
      var p :| p in todo;
      tpl := tpl[p := Resume(hwm[p])];
      todo := todo - {p};
    }
  }

  /** Without any mark the group offsets decide, for the whole subscription; otherwise the marked partitions are assigned. */
  method StartAt(marks: Marks, committed: map<Partition, int>, subscribed: set<Partition>) returns (position: map<Partition, int>)
    ensures position == map p | p in position.Keys :: StartPosition(p, marks, committed)
    ensures position.Keys == if marks == map[] then subscribed else marks.Keys
  {
    if marks == map[] {
      position := map p | p in subscribed :: StartPosition(p, map[], committed);
    } else {
      position := SeekToHwm(marks);
    }
  }

  lemma RestartIs(s: State, marks: Marks, position: map<Partition, int>)
    requires s.session.Down? && Resolves(marks, Summaries(s.table)) && marks.Keys <= position.Keys
    requires position == map p | p in position.Keys :: StartPosition(p, marks, s.committed)
    ensures Steps(s, Restart(position.Keys, marks), s.(session := Up(position, [], map[], |s.table|)))
  {
  }

  lemma FlushIs(s: State, snapshot: Snapshot, outcome: Outcome)
    requires s.session.Up? && (Commits(outcome) ==> s.session.buffer == [] || s.session.base == |s.table|)
    requires s.session.buffer != [] ==> Writes(snapshot, s.session.buffer, s.session.pending)
    ensures Steps(s, Step.Flush(snapshot, outcome), Flushed(s, snapshot, outcome))
  {
  }

  lemma OneStep(start: State, step: Step, t: State)
    requires Steps(start, step, t)
    ensures Path(start, [step], t)
  {
  }
}
