/**
 Exactly-once delivery of the logger writer (apps/logger-writer/src/writer.rs) as a transition
 system: one writer process at a time, no rebalance, no snapshot expiry, and a catalog that commits only
 on top of the snapshot a commit was prepared against. The theorem is at the end.
 */
module ExactlyOnce {
  import opened Wrappers
  import opened Decimals
  import opened Grouping
  import opened HighWaterMarks
  import opened WriteBatch

  /** A Kafka record; `None` is a payload that `Envelope::decode` rejects. */
  datatype Record = Record(envelope: Option<Envelope>, instant: Instant)

  type Log = map<(Partition, Offset), Record>

  /** An Iceberg snapshot: data files and the text properties committed with them in one step. */
  datatype Snapshot = Snapshot(files: seq<DataFile>, summary: Summary)

  /**
   A writer process: next offset per assigned partition, unflushed messages, their marks, and how many
   snapshots the table had when the process last loaded or changed it.
   */
  datatype Session = Down | Up(position: map<Partition, int>, buffer: seq<Message>, pending: Marks, base: nat)

  /** A commit still on its way to the catalog after its process is gone. */
  datatype Flight = Flight(snapshot: Snapshot, base: nat)

  datatype State = State(log: Log, table: seq<Snapshot>, committed: map<Partition, int>, session: Session, flying: seq<Flight>)

  /**
   How a flush ends. `Landed` is a commit that took effect but was reported as failed; an `Unresolved`
   one was reported as failed and may still take effect later, or never.
   */
  datatype Outcome = Committed(kafkaToo: bool) | Failed | Landed | Unresolved

  datatype Step =
    | Append(partition: Partition, offset: Offset, record: Record)
    | Receive(partition: Partition, offset: Offset)
    | Flush(snapshot: Snapshot, outcome: Outcome)
    | Land(flight: nat)
    | Crash
    | Restart(owned: set<Partition>, marks: Marks)

  // ----- the steps -----

  /** The message a decodable record is buffered as. */
  predicate Logged(log: Log, m: Message) {
    (m.partition, m.offset) in log && log[(m.partition, m.offset)] == Record(Some(m.envelope), m.instant)
  }

  /** The broker appends behind everything already in the partition; offsets may leave gaps. */
  predicate Appended(log: Log, p: Partition, o: Offset) {
    0 <= o && forall q: Offset :: (p, q) in log ==> q < o
  }

  /** The next record of `p` at or after `position`. */
  predicate IsNext(log: Log, p: Partition, position: int, o: Offset) {
    (p, o) in log && position <= o && forall q: Offset :: (p, q) in log && position <= q ==> o <= q
  }

  /** The mark of `p` after a message at `o` was buffered. */
  function Raise(pending: Marks, p: Partition, o: Offset): Marks {
    if p in pending && o <= pending[p] then pending else pending[p := o]
  }

  function Received(s: Session, log: Log, p: Partition, o: Offset): Session
    requires s.Up? && (p, o) in log
  {
    var r := log[(p, o)];
    var position := s.position[p := o + 1];
    if r.envelope.Some?
    then Up(position, s.buffer + [Message(p, o, r.envelope.value, r.instant)], Raise(s.pending, p, o), s.base)
    else Up(position, s.buffer, s.pending, s.base)
  }

  /** What a flush of this session hands to the catalog. */
  ghost predicate Writes(snapshot: Snapshot, buffer: seq<Message>, pending: Marks) {
    && Partitioned(snapshot.files, buffer)
    && FileRows(snapshot.files) == multiset(buffer)
    && Carries(snapshot.summary, pending)
  }

  function Summaries(table: seq<Snapshot>): (r: seq<Summary>)
    ensures |r| == |table|
    ensures forall i :: 0 <= i < |table| ==> r[i] == table[i].summary
  {
    seq(|table|, i requires 0 <= i < |table| => table[i].summary)
  }

  /** The offset to read after a mark. */
  function Resume(mark: Offset): int { mark + 1 }

  function StartPosition(p: Partition, marks: Marks, committed: map<Partition, int>): int {
    if p in marks then Resume(marks[p]) else if p in committed then committed[p] else 0
  }

  function Flushed(s: State, snapshot: Snapshot, outcome: Outcome): State
    requires s.session.Up?
  {
    if s.session.buffer == [] then s
    else
      match outcome
      case Committed(kafkaToo) =>
        State(s.log, s.table + [snapshot], if kafkaToo then s.committed + s.session.position else s.committed,
              Up(s.session.position, [], map[], |s.table| + 1), s.flying)
      case Failed => s.(session := Down)
      case Landed => s.(table := s.table + [snapshot], session := Down)
      case Unresolved => s.(session := Down, flying := s.flying + [Flight(snapshot, s.session.base)])
  }

  /** The catalog takes a late commit only if the table is still as it was when the commit was prepared. */
  function Landing(s: State, i: nat): State
    requires i < |s.flying|
  {
    var f := s.flying[i];
    s.(table := if f.base == |s.table| then s.table + [f.snapshot] else s.table, flying := s.flying[..i] + s.flying[i + 1..])
  }

  /** A commit takes effect only on top of the snapshot its process knows. */
  predicate Commits(outcome: Outcome) { outcome.Committed? || outcome.Landed? }

  ghost predicate Enabled(s: State, step: Step) {
    match step
    case Append(p, o, r) => Appended(s.log, p, o)
    case Receive(p, o) => s.session.Up? && p in s.session.position && IsNext(s.log, p, s.session.position[p], o)
    case Flush(snapshot, outcome) =>
      && s.session.Up? && (s.session.buffer != [] ==> Writes(snapshot, s.session.buffer, s.session.pending))
      && (Commits(outcome) ==> s.session.buffer == [] || s.session.base == |s.table|)
    case Land(i) => i < |s.flying|
    case Crash => s.session.Up?
    case Restart(owned, marks) => s.session.Down? && Resolves(marks, Summaries(s.table)) && marks.Keys <= owned
  }

  ghost function Next(s: State, step: Step): State
    requires Enabled(s, step)
  {
    match step
    case Append(p, o, r) => s.(log := s.log[(p, o) := r])
    case Receive(p, o) => s.(session := Received(s.session, s.log, p, o))
    case Flush(snapshot, outcome) => Flushed(s, snapshot, outcome)
    case Land(i) => Landing(s, i)
    case Crash => s.(session := Down)
    case Restart(owned, marks) =>
      s.(session := Up(map p | p in owned :: StartPosition(p, marks, s.committed), [], map[], |s.table|))
  }

  const INITIAL := State(map[], [], map[], Down, [])

  ghost predicate Steps(before: State, step: Step, s: State) {
    Enabled(before, step) && s == Next(before, step)
  }

  /** `steps` lead from `start` to `s`. */
  ghost predicate Path(start: State, steps: seq<Step>, s: State)
    decreases |steps|, 0
  {
    if steps == [] then s == start else PathThen(start, steps[..|steps| - 1], steps[|steps| - 1], s)
  }

  ghost predicate PathThen(start: State, steps: seq<Step>, last: Step, s: State)
    decreases |steps|, 1
  {
    exists before :: Path(start, steps, before) && Steps(before, last, s)
  }

  ghost predicate Run(steps: seq<Step>, s: State) {
    Path(INITIAL, steps, s)
  }

  lemma PathExtends(start: State, steps: seq<Step>, s: State, step: Step, t: State)
    requires Path(start, steps, s) && Steps(s, step, t)
    ensures Path(start, steps + [step], t)
  {
    assert (steps + [step])[..|steps|] == steps;
    assert PathThen(start, steps, step, t);
  }

  // ----- the invariant -----

  ghost predicate WrittenTable(table: seq<Snapshot>) {
    AllWritten(Summaries(table))
  }

  ghost function TableHigh(table: seq<Snapshot>): Marks
    requires WrittenTable(table)
  {
    High(Summaries(table))
  }

  ghost function Rows(table: seq<Snapshot>): multiset<Message> {
    if table == [] then multiset{} else Rows(table[..|table| - 1]) + FileRows(table[|table| - 1].files)
  }

  predicate Covered(high: Marks, p: Partition, o: Offset) {
    p in high && o <= high[p]
  }

  /** The rows are exactly the decodable messages up to the marks, each once. */
  ghost predicate Exact(rows: multiset<Message>, log: Log, high: Marks) {
    forall m: Message :: rows[m] == if Logged(log, m) && Covered(high, m.partition, m.offset) then 1 else 0
  }

  /** `position` is where reading from the start, or just after a record of `p`, leaves off. */
  predicate Reached(log: Log, p: Partition, position: int) {
    position == 0 || (0 < position <= I64_MAX + 1 && (p, position - 1) in log)
  }

  predicate NatLog(log: Log) {
    forall k :: k in log ==> 0 <= k.1
  }

  predicate HighReached(log: Log, high: Marks) {
    forall p :: p in high ==> (p, high[p]) in log
  }

  /** Committed group offsets never skip a decodable message that is not in the table. */
  ghost predicate CommittedSafe(log: Log, high: Marks, committed: map<Partition, int>) {
    && (forall p :: p in committed ==> Reached(log, p, committed[p]))
    && (forall p, o :: p in committed && (p, o) in log && log[(p, o)].envelope.Some? && o < committed[p] ==>
          Covered(high, p, o))
  }

  predicate PositionsSafe(log: Log, high: Marks, position: map<Partition, int>) {
    forall p :: p in position ==> Reached(log, p, position[p]) && (p in high ==> high[p] < position[p])
  }

  /** Read by this session and not yet in the table. */
  predicate Unflushed(log: Log, high: Marks, position: map<Partition, int>, m: Message) {
    && Logged(log, m) && m.partition in position && m.offset < position[m.partition]
    && !Covered(high, m.partition, m.offset)
  }

  ghost predicate BufferExact(log: Log, high: Marks, position: map<Partition, int>, buffer: seq<Message>) {
    forall m: Message :: multiset(buffer)[m] == if Unflushed(log, high, position, m) then 1 else 0
  }

  predicate IsLast(buffer: seq<Message>, p: Partition, o: Offset) {
    exists i :: 0 <= i < |buffer| && buffer[i].partition == p && buffer[i].offset == o
  }

  /** The pending mark of a partition is the largest offset buffered from it. */
  predicate PendingExact(buffer: seq<Message>, pending: Marks) {
    && (forall i :: 0 <= i < |buffer| ==> Covered(pending, buffer[i].partition, buffer[i].offset))
    && (forall p :: p in pending ==> IsLast(buffer, p, pending[p]))
  }

  /** Of what this session has read, all that decodes is in the table or still buffered. */
  ghost predicate NothingSkipped(log: Log, high: Marks, session: Session) {
    session.Up? ==>
      && (forall p :: p in session.position ==> Reached(log, p, session.position[p]))
      && forall m: Message :: Logged(log, m) && m.partition in session.position && m.offset < session.position[m.partition] ==>
           Covered(high, m.partition, m.offset) || m in session.buffer
  }

  ghost predicate SessionSafe(log: Log, high: Marks, session: Session) {
    session.Up? ==>
      && PositionsSafe(log, high, session.position)
      && BufferExact(log, high, session.position, session.buffer)
      && PendingExact(session.buffer, session.pending)
  }

  /** No snapshot was added behind the session's back; otherwise none of its commits takes effect any more. */
  predicate Current(table: seq<Snapshot>, session: Session) {
    session.Up? ==> session.base == |table|
  }

  /** A late commit that can still take effect completes the table up to the marks it carries. */
  ghost predicate FlightSafe(log: Log, table: seq<Snapshot>, f: Flight)
    requires WrittenTable(table)
  {
    && f.base <= |table| && Written(f.snapshot.summary)
    && (f.base == |table| ==>
          var merged := Merge(TableHigh(table), MarksOf(f.snapshot.summary));
          HighReached(log, merged) && Exact(Rows(table) + FileRows(f.snapshot.files), log, merged))
  }

  ghost predicate Inv(s: State) {
    && WrittenTable(s.table)
    && NatLog(s.log)
    && HighReached(s.log, TableHigh(s.table))
    && Exact(Rows(s.table), s.log, TableHigh(s.table))
    && CommittedSafe(s.log, TableHigh(s.table), s.committed)
    && NothingSkipped(s.log, TableHigh(s.table), s.session)
    && (s.session.Up? ==> s.session.base <= |s.table|)
    && (Current(s.table, s.session) ==> SessionSafe(s.log, TableHigh(s.table), s.session))
    && forall i :: 0 <= i < |s.flying| ==> FlightSafe(s.log, s.table, s.flying[i])
  }

  // ----- preservation, step by step -----

  lemma AppendKeepsTable(log: Log, p: Partition, o: Offset, r: Record, rows: multiset<Message>, high: Marks)
    requires Appended(log, p, o) && HighReached(log, high) && Exact(rows, log, high)
    ensures var more := log[(p, o) := r]; HighReached(more, high) && Exact(rows, more, high)
  {
  }

  lemma AppendKeepsSession(log: Log, p: Partition, o: Offset, r: Record, high: Marks, session: Session)
    requires Appended(log, p, o) && SessionSafe(log, high, session)
    ensures SessionSafe(log[(p, o) := r], high, session)
  {
  }

  lemma AppendKeepsCommitted(log: Log, p: Partition, o: Offset, r: Record, high: Marks, committed: map<Partition, int>)
    requires Appended(log, p, o) && CommittedSafe(log, high, committed)
    ensures CommittedSafe(log[(p, o) := r], high, committed)
  {
  }

  lemma AppendSkipsNothing(log: Log, p: Partition, o: Offset, r: Record, high: Marks, session: Session)
    requires Appended(log, p, o) && NothingSkipped(log, high, session)
    ensures NothingSkipped(log[(p, o) := r], high, session)
  {
  }

  lemma AppendKeepsFlight(log: Log, p: Partition, o: Offset, r: Record, table: seq<Snapshot>, f: Flight)
    requires Appended(log, p, o) && WrittenTable(table) && FlightSafe(log, table, f)
    ensures FlightSafe(log[(p, o) := r], table, f)
  {
    if f.base == |table| {
      AppendKeepsTable(log, p, o, r, Rows(table) + FileRows(f.snapshot.files), Merge(TableHigh(table), MarksOf(f.snapshot.summary)));
    }
  }

  lemma AppendKeeps(s: State, p: Partition, o: Offset, r: Record)
    requires Inv(s) && Appended(s.log, p, o)
    ensures Inv(s.(log := s.log[(p, o) := r]))
  {
    var high := TableHigh(s.table);
    AppendKeepsTable(s.log, p, o, r, Rows(s.table), high);
    AppendKeepsCommitted(s.log, p, o, r, high, s.committed);
    AppendSkipsNothing(s.log, p, o, r, high, s.session);
    if Current(s.table, s.session) {
      AppendKeepsSession(s.log, p, o, r, high, s.session);
    }
    forall i | 0 <= i < |s.flying|
      ensures FlightSafe(s.log[(p, o) := r], s.table, s.flying[i])
    {
      AppendKeepsFlight(s.log, p, o, r, s.table, s.flying[i]);
    }
  }

  lemma ReceiveKeeps(s: State, p: Partition, o: Offset)
    requires Inv(s) && Enabled(s, Receive(p, o))
    ensures Inv(Next(s, Receive(p, o)))
  {
    var high := TableHigh(s.table);
    ReceiveSkipsNothing(s.log, high, s.session, p, o);
    if Current(s.table, s.session) {
      ReceiveBuffer(s.log, high, s.session, p, o);
      ReceivePending(s.log, s.session, p, o);
    }
  }

  lemma ReceiveSkipsNothing(log: Log, high: Marks, session: Session, p: Partition, o: Offset)
    requires session.Up? && p in session.position && IsNext(log, p, session.position[p], o)
    requires NothingSkipped(log, high, session) && NatLog(log)
    ensures NothingSkipped(log, high, Received(session, log, p, o))
  {
    var t := Received(session, log, p, o);
    forall m: Message | Logged(log, m) && m.partition in t.position && m.offset < t.position[m.partition]
      ensures Covered(high, m.partition, m.offset) || m in t.buffer
    {
      if m.partition == p && m.offset >= session.position[p] {
        assert m.offset == o && t.buffer[|t.buffer| - 1] == m;
      } else {
        assert m in session.buffer ==> m in t.buffer;
      }
    }
  }

  lemma ReceiveBuffer(log: Log, high: Marks, session: Session, p: Partition, o: Offset)
    requires session.Up? && p in session.position && IsNext(log, p, session.position[p], o)
    requires PositionsSafe(log, high, session.position)
    requires BufferExact(log, high, session.position, session.buffer)
    ensures var t := Received(session, log, p, o);
            PositionsSafe(log, high, t.position) && BufferExact(log, high, t.position, t.buffer)
  {
    var t := Received(session, log, p, o);
    forall m: Message
      ensures multiset(t.buffer)[m] == if Unflushed(log, high, t.position, m) then 1 else 0
    {
      assert multiset(session.buffer)[m] == if Unflushed(log, high, session.position, m) then 1 else 0;
      if m.partition == p && Logged(log, m) && m.offset < o + 1 {
        assert m.offset < session.position[p] || m.offset == o;
      }
    }
  }

  lemma ReceivePending(log: Log, session: Session, p: Partition, o: Offset)
    requires session.Up? && (p, o) in log && PendingExact(session.buffer, session.pending)
    ensures var t := Received(session, log, p, o); PendingExact(t.buffer, t.pending)
  {
    var t := Received(session, log, p, o);
    if log[(p, o)].envelope.Some? {
      forall q | q in t.pending
        ensures IsLast(t.buffer, q, t.pending[q])
      {
        if q in session.pending && session.pending[q] == t.pending[q] {
          var i :| 0 <= i < |session.buffer| && session.buffer[i].partition == q && session.buffer[i].offset == t.pending[q];
          assert t.buffer[i] == session.buffer[i];
        } else {
          assert t.buffer[|session.buffer|].partition == q;
        }
      }
    }
  }

  /** The high-water marks after one more commit. */
  lemma OneMoreCommit(table: seq<Snapshot>, snapshot: Snapshot, pending: Marks)
    requires WrittenTable(table) && Carries(snapshot.summary, pending)
    ensures WrittenTable(table + [snapshot])
    ensures TableHigh(table + [snapshot]) == Merge(TableHigh(table), pending)
    ensures Rows(table + [snapshot]) == Rows(table) + FileRows(snapshot.files)
  {
    var more := table + [snapshot];
    assert more[..|table|] == table;
    MarksUnique(snapshot.summary, pending);
    var summaries := Summaries(more);
    assert summaries[..|table|] == Summaries(table);
    assert summaries[|table|] == snapshot.summary;
    forall i | 0 <= i < |summaries|
      ensures Written(summaries[i])
    {
      if i < |table| {
        assert summaries[i] == Summaries(table)[i];
      }
    }
  }

  /** What the marks cover after a flush is what they covered before, and the buffer. */
  lemma MergedCover(log: Log, high: Marks, session: Session, m: Message)
    requires session.Up? && SessionSafe(log, high, session) && Logged(log, m)
    ensures Covered(Merge(high, session.pending), m.partition, m.offset) <==>
            Covered(high, m.partition, m.offset) || multiset(session.buffer)[m] == 1
    ensures m.partition in session.position && m.offset < session.position[m.partition] ==>
            Covered(Merge(high, session.pending), m.partition, m.offset)
  {
    var p := m.partition;
    assert multiset(session.buffer)[m] == if Unflushed(log, high, session.position, m) then 1 else 0;
    if multiset(session.buffer)[m] == 1 {
      assert m in session.buffer;
    }
    if Covered(session.pending, p, m.offset) {
      var i :| 0 <= i < |session.buffer| && session.buffer[i].partition == p && session.buffer[i].offset == session.pending[p];
      var b := session.buffer[i];
      assert multiset(session.buffer)[b] == if Unflushed(log, high, session.position, b) then 1 else 0;
      assert b in multiset(session.buffer);
    }
  }

  lemma MergedBelowPositions(log: Log, high: Marks, session: Session)
    requires session.Up? && SessionSafe(log, high, session) && HighReached(log, high)
    ensures HighReached(log, Merge(high, session.pending))
    ensures PositionsSafe(log, Merge(high, session.pending), session.position)
  {
    forall p | p in session.pending
      ensures (p, session.pending[p]) in log && p in session.position && session.pending[p] < session.position[p]
    {
      var i :| 0 <= i < |session.buffer| && session.buffer[i].partition == p && session.buffer[i].offset == session.pending[p];
      var b := session.buffer[i];
      assert b in multiset(session.buffer);
      assert multiset(session.buffer)[b] == if Unflushed(log, high, session.position, b) then 1 else 0;
    }
  }

  /** The rows of a flush complete the table up to the merged marks. */
  lemma FlushExact(s: State, rows: multiset<Message>)
    requires Inv(s) && s.session.Up? && Current(s.table, s.session) && rows == Rows(s.table) + multiset(s.session.buffer)
    ensures Exact(rows, s.log, Merge(TableHigh(s.table), s.session.pending))
    ensures BufferExact(s.log, Merge(TableHigh(s.table), s.session.pending), s.session.position, [])
  {
    var high := TableHigh(s.table);
    var merged := Merge(high, s.session.pending);
    forall m: Message
      ensures rows[m] == if Logged(s.log, m) && Covered(merged, m.partition, m.offset) then 1 else 0
      ensures !Unflushed(s.log, merged, s.session.position, m)
    {
      assert Rows(s.table)[m] == if Logged(s.log, m) && Covered(high, m.partition, m.offset) then 1 else 0;
      assert multiset(s.session.buffer)[m] == if Unflushed(s.log, high, s.session.position, m) then 1 else 0;
      if Logged(s.log, m) {
        MergedCover(s.log, high, s.session, m);
      }
    }
  }

  lemma MergeDominates(a: Marks, b: Marks)
    ensures Dominates(Merge(a, b), a) && Dominates(Merge(a, b), b)
  {
  }

  lemma FlushCommitted(s: State)
    requires Inv(s) && s.session.Up? && Current(s.table, s.session)
    ensures CommittedSafe(s.log, Merge(TableHigh(s.table), s.session.pending), s.committed)
    ensures CommittedSafe(s.log, Merge(TableHigh(s.table), s.session.pending), s.committed + s.session.position)
  {
    var high := TableHigh(s.table);
    var merged := Merge(high, s.session.pending);
    MergeDominates(high, s.session.pending);
    forall p, o | p in s.session.position && (p, o) in s.log && s.log[(p, o)].envelope.Some? && o < s.session.position[p]
      ensures Covered(merged, p, o)
    {
      var r := s.log[(p, o)];
      MergedCover(s.log, high, s.session, Message(p, o, r.envelope.value, r.instant));
    }
  }

  lemma CommittedGrows(log: Log, high: Marks, more: Marks, committed: map<Partition, int>)
    requires CommittedSafe(log, high, committed) && Dominates(more, high)
    ensures CommittedSafe(log, more, committed)
  {
  }

  lemma SkippedGrows(log: Log, high: Marks, more: Marks, session: Session)
    requires NothingSkipped(log, high, session) && Dominates(more, high)
    ensures NothingSkipped(log, more, session)
  {
    if session.Up? {
      forall m: Message | Logged(log, m) && m.partition in session.position && m.offset < session.position[m.partition]
        ensures Covered(more, m.partition, m.offset) || m in session.buffer
      {
        assert Covered(high, m.partition, m.offset) || m in session.buffer;
      }
    }
  }

  /** Once the table has grown, no commit prepared before can take effect. */
  lemma FlightsStale(log: Log, table: seq<Snapshot>, snapshot: Snapshot, flying: seq<Flight>)
    requires WrittenTable(table) && WrittenTable(table + [snapshot])
    requires forall i :: 0 <= i < |flying| ==> FlightSafe(log, table, flying[i])
    ensures forall i :: 0 <= i < |flying| ==> FlightSafe(log, table + [snapshot], flying[i])
  {
    forall i | 0 <= i < |flying|
      ensures FlightSafe(log, table + [snapshot], flying[i])
    {
      assert FlightSafe(log, table, flying[i]);
    }
  }

  /** Everything that has to hold after a commit, for the table, the group offsets and the session. */
  lemma CommitKeeps(s: State, snapshot: Snapshot)
    requires Inv(s) && s.session.Up? && Current(s.table, s.session) && Writes(snapshot, s.session.buffer, s.session.pending)
    ensures var t := State(s.log, s.table + [snapshot], s.committed, Up(s.session.position, [], map[], |s.table| + 1), s.flying);
            Inv(t) && CommittedSafe(s.log, TableHigh(t.table), s.committed + s.session.position)
  {
    OneMoreCommit(s.table, snapshot, s.session.pending);
    FlushExact(s, Rows(s.table + [snapshot]));
    FlushCommitted(s);
    MergedBelowPositions(s.log, TableHigh(s.table), s.session);
    FlightsStale(s.log, s.table, snapshot, s.flying);
    FlushedSkipsNothing(s);
  }

  lemma FlushedSkipsNothing(s: State)
    requires Inv(s) && s.session.Up? && Current(s.table, s.session)
    ensures NothingSkipped(s.log, Merge(TableHigh(s.table), s.session.pending), Up(s.session.position, [], map[], |s.table| + 1))
  {
    var high := TableHigh(s.table);
    forall m: Message | Logged(s.log, m) && m.partition in s.session.position && m.offset < s.session.position[m.partition]
      ensures Covered(Merge(high, s.session.pending), m.partition, m.offset)
    {
      MergedCover(s.log, high, s.session, m);
    }
  }

  /** A commit left on its way completes the table, as long as nothing else is committed first. */
  lemma FlightTakesOff(s: State, snapshot: Snapshot)
    requires Inv(s) && s.session.Up? && Writes(snapshot, s.session.buffer, s.session.pending)
    ensures FlightSafe(s.log, s.table, Flight(snapshot, s.session.base))
  {
    MarksUnique(snapshot.summary, s.session.pending);
    if s.session.base == |s.table| {
      FlushExact(s, Rows(s.table) + FileRows(snapshot.files));
      MergedBelowPositions(s.log, TableHigh(s.table), s.session);
    }
  }

  lemma UnresolvedKeeps(s: State, snapshot: Snapshot)
    requires Inv(s) && s.session.Up? && Writes(snapshot, s.session.buffer, s.session.pending)
    ensures Inv(s.(session := Down, flying := s.flying + [Flight(snapshot, s.session.base)]))
  {
    FlightTakesOff(s, snapshot);
  }

  lemma LandedAtOnceKeeps(s: State, snapshot: Snapshot)
    requires Inv(s) && s.session.Up? && Current(s.table, s.session) && Writes(snapshot, s.session.buffer, s.session.pending)
    ensures Inv(s.(table := s.table + [snapshot], session := Down))
  {
    CommitKeeps(s, snapshot);
  }

  lemma FlushKeeps(s: State, snapshot: Snapshot, outcome: Outcome)
    requires Inv(s) && Enabled(s, Flush(snapshot, outcome))
    ensures Inv(Flushed(s, snapshot, outcome))
  {
    if s.session.buffer != [] {
      match outcome
      case Committed(_) => CommitKeeps(s, snapshot);
      case Failed =>
      case Landed => LandedAtOnceKeeps(s, snapshot);
      case Unresolved => UnresolvedKeeps(s, snapshot);
    }
  }

  lemma FlightsRemain(log: Log, table: seq<Snapshot>, flying: seq<Flight>, i: nat)
    requires WrittenTable(table) && i < |flying| && forall j :: 0 <= j < |flying| ==> FlightSafe(log, table, flying[j])
    ensures var rest := flying[..i] + flying[i + 1..]; forall j :: 0 <= j < |rest| ==> FlightSafe(log, table, rest[j])
  {
    var rest := flying[..i] + flying[i + 1..];
    forall j | 0 <= j < |rest|
      ensures FlightSafe(log, table, rest[j])
    {
      assert rest[j] == flying[if j < i then j else j + 1];
    }
  }

  /** What a late commit leaves behind when the catalog takes it. */
  lemma LandedKeeps(s: State, f: Flight)
    requires Inv(s) && FlightSafe(s.log, s.table, f) && f.base == |s.table|
    ensures Inv(s.(table := s.table + [f.snapshot]))
  {
    var high, marks := TableHigh(s.table), MarksOf(f.snapshot.summary);
    OneMoreCommit(s.table, f.snapshot, marks);
    MergeDominates(high, marks);
    CommittedGrows(s.log, high, Merge(high, marks), s.committed);
    SkippedGrows(s.log, high, Merge(high, marks), s.session);
    FlightsStale(s.log, s.table, f.snapshot, s.flying);
  }

  /** A late commit lands: it completes the table, or the catalog turns it down. */
  lemma LandKeeps(s: State, i: nat)
    requires Inv(s) && i < |s.flying|
    ensures Inv(Landing(s, i))
  {
    var f := s.flying[i];
    assert FlightSafe(s.log, s.table, f);
    var t := if f.base == |s.table| then s.(table := s.table + [f.snapshot]) else s;
    if f.base == |s.table| {
      LandedKeeps(s, f);
    }
    FlightsRemain(s.log, t.table, t.flying, i);
    assert Landing(s, i) == t.(flying := s.flying[..i] + s.flying[i + 1..]);
  }

  lemma StartSafe(log: Log, high: Marks, committed: map<Partition, int>, position: map<Partition, int>, base: nat)
    requires HighReached(log, high) && NatLog(log) && CommittedSafe(log, high, committed)
    requires forall p :: p in position ==> position[p] == StartPosition(p, high, committed)
    ensures PositionsSafe(log, high, position) && BufferExact(log, high, position, [])
    ensures NothingSkipped(log, high, Up(position, [], map[], base))
  {
  }

  lemma RestartKeeps(s: State, owned: set<Partition>, marks: Marks)
    requires Inv(s) && Enabled(s, Restart(owned, marks))
    ensures Inv(Next(s, Restart(owned, marks)))
  {
    ResolveRecovers(Summaries(s.table), marks);
    StartSafe(s.log, marks, s.committed, Next(s, Restart(owned, marks)).session.position, |s.table|);
  }

  lemma StepKeeps(s: State, step: Step)
    requires Inv(s) && Enabled(s, step)
    ensures Inv(Next(s, step))
  {
    match step
    case Append(p, o, r) => AppendKeeps(s, p, o, r);
    case Receive(p, o) => ReceiveKeeps(s, p, o);
    case Flush(snapshot, outcome) => FlushKeeps(s, snapshot, outcome);
    case Land(i) => LandKeeps(s, i);
    case Crash =>
    case Restart(owned, marks) => RestartKeeps(s, owned, marks);
  }

  // ----- the theorems -----

  /**
   In every state of every run, the table holds exactly the decodable messages with an offset up to
   the partition's high-water mark, each exactly once.
   */
  lemma {:induction false} ExactlyOnceDelivery(steps: seq<Step>, s: State)
    requires Run(steps, s)
    ensures Inv(s) && Exact(Rows(s.table), s.log, TableHigh(s.table))
  {
    if steps == [] {
      assert Summaries(s.table) == [];
    } else {
      var last := steps[|steps| - 1];
      assert PathThen(INITIAL, steps[..|steps| - 1], last, s);
      var before :| Path(INITIAL, steps[..|steps| - 1], before) && Steps(before, last, s);
      ExactlyOnceDelivery(steps[..|steps| - 1], before);
      StepKeeps(before, last);
    }
  }

  lemma FlushGrows(s: State, snapshot: Snapshot, outcome: Outcome)
    requires Inv(s) && Enabled(s, Flush(snapshot, outcome))
    ensures WrittenTable(Flushed(s, snapshot, outcome).table)
    ensures Rows(s.table) <= Rows(Flushed(s, snapshot, outcome).table)
    ensures Dominates(TableHigh(Flushed(s, snapshot, outcome).table), TableHigh(s.table))
  {
    if s.session.buffer != [] && Commits(outcome) {
      OneMoreCommit(s.table, snapshot, s.session.pending);
      MergeDominates(TableHigh(s.table), s.session.pending);
    }
  }

  /** Nothing that was delivered is ever lost again, and no mark moves back. */
  lemma StepGrows(s: State, step: Step)
    requires Inv(s) && Enabled(s, step)
    ensures Rows(s.table) <= Rows(Next(s, step).table)
    ensures Inv(Next(s, step)) && Dominates(TableHigh(Next(s, step).table), TableHigh(s.table))
  {
    StepKeeps(s, step);
    if step.Flush? {
      FlushGrows(s, step.snapshot, step.outcome);
    } else if step.Land? && s.flying[step.flight].base == |s.table| {
      var f := s.flying[step.flight];
      assert FlightSafe(s.log, s.table, f);
      OneMoreCommit(s.table, f.snapshot, MarksOf(f.snapshot.summary));
      MergeDominates(TableHigh(s.table), MarksOf(f.snapshot.summary));
    }
  }

  /** The snapshot of a flush of one message. */
  function OneRow(m: Message): Snapshot {
    Snapshot([DataFile(KeyOfMessage(m), [m])], map[KeyOf(m.partition) := Decimal(m.offset)])
  }

  lemma OneRowWrites(m: Message)
    ensures FileRows(OneRow(m).files) == multiset{m}
    ensures Writes(OneRow(m), [m], map[m.partition := m.offset])
  {
    var files, ms := OneRow(m).files, [m];
    assert files[..|files| - 1] == [] && ms[..|ms| - 1] == [];
    assert Group(ms, KeyOfMessage, KeyOfMessage(m)) == [] + [m];
  }

  /** The message with which a partition begins. */
  function First(p: Partition, envelope: Envelope, instant: Instant): Message {
    Message(p, 0, envelope, instant)
  }

  ghost predicate NothingDelivered(s: State, m: Message) {
    && s.log == map[(m.partition, m.offset) := Record(Some(m.envelope), m.instant)] && m.offset == 0
    && s.table == [] && s.committed == map[] && s.session.Down?
  }

  /** A process starts and reads the only message. */
  lemma ReadsFirst(steps: seq<Step>, s: State, m: Message) returns (more: seq<Step>)
    requires Run(steps, s) && NothingDelivered(s, m)
    ensures Run(more, s.(session := Up(map[m.partition := 1], [m], map[m.partition := 0], 0)))
  {
    var p := m.partition;
    var up := s.(session := Up(map[p := 0], [], map[], 0));
    assert Next(s, Restart({p}, map[])).session.position == map[p := 0];
    PathExtends(INITIAL, steps, s, Restart({p}, map[]), up);
    var read := s.(session := Up(map[p := 1], [m], map[p := 0], 0));
    assert map[p := 0][p := 1] == map[p := 1] && [] + [m] == [m];
    PathExtends(INITIAL, steps + [Restart({p}, map[])], up, Receive(p, 0), read);
    more := steps + [Restart({p}, map[])] + [Receive(p, 0)];
  }

  lemma FlushesFirst(steps: seq<Step>, s: State, m: Message, outcome: Outcome) returns (more: seq<Step>)
    requires Run(steps, s) && s.table == [] && s.session == Up(map[m.partition := 1], [m], map[m.partition := 0], 0) && m.offset == 0
    ensures Run(more, Flushed(s, OneRow(m), outcome))
  {
    OneRowWrites(m);
    PathExtends(INITIAL, steps, s, Flush(OneRow(m), outcome), Flushed(s, OneRow(m), outcome));
    more := steps + [Flush(OneRow(m), outcome)];
  }

  /**
   The catalog's check is needed: a process leaves its commit unresolved, the next one reads and commits
   the same message, and the first commit is still on its way. Taken unchecked, it repeats the message.
   */
  lemma UncheckedLandingRepeats(p: Partition, envelope: Envelope, instant: Instant) returns (steps: seq<Step>, s: State)
    ensures Run(steps, s) && |s.flying| == 1 && s.flying[0].base != |s.table|
    ensures var m := First(p, envelope, instant);
            Logged(s.log, m) && Rows(s.table)[m] == 1 && Rows(s.table + [s.flying[0].snapshot])[m] == 2
  {
    var m := First(p, envelope, instant);
    var log: Log := map[(p, 0) := Record(Some(envelope), instant)];
    var begun := State(log, [], map[], Down, []);
    assert Path(INITIAL, [], INITIAL);
    PathExtends(INITIAL, [], INITIAL, Append(p, 0, Record(Some(envelope), instant)), begun);
    var first := ReadsFirst([] + [Append(p, 0, Record(Some(envelope), instant))], begun, m);
    var one := begun.(session := Up(map[p := 1], [m], map[p := 0], 0));
    var left := FlushesFirst(first, one, m, Unresolved);
    var gone := State(log, [], map[], Down, [Flight(OneRow(m), 0)]);
    assert Flushed(one, OneRow(m), Unresolved) == gone;
    var second := ReadsFirst(left, gone, m);
    var two := gone.(session := Up(map[p := 1], [m], map[p := 0], 0));
    steps := FlushesFirst(second, two, m, Committed(false));
    s := Flushed(two, OneRow(m), Committed(false));
    OneRowWrites(m);
    assert [OneRow(m)][..0] == [] && [] + [OneRow(m)] == [OneRow(m)];
    assert Rows(s.table) == multiset{m};
    RowsMore(s.table, OneRow(m));
  }

  lemma RowsMore(table: seq<Snapshot>, snapshot: Snapshot)
    ensures Rows(table + [snapshot]) == Rows(table) + FileRows(snapshot.files)
  {
    assert (table + [snapshot])[..|table|] == table;
  }

  /** A writer that has read its partitions to the end and flushed has delivered everything in them. */
  lemma CaughtUp(steps: seq<Step>, s: State, m: Message)
    requires Run(steps, s) && s.session.Up? && s.session.buffer == []
    requires Logged(s.log, m) && m.partition in s.session.position && m.offset < s.session.position[m.partition]
    ensures Rows(s.table)[m] == 1
  {
    ExactlyOnceDelivery(steps, s);
    assert Covered(TableHigh(s.table), m.partition, m.offset);
  }
}
