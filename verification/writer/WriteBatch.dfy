/**
 The write path of one flush (apps/logger-writer/src/iceberg_write.rs): rows are grouped by the
 packed (ds, hour) key of their broker timestamp and written as one data file per group.
 */
module WriteBatch {
  import opened HighWaterMarks
  import opened Grouping

  // ----- the packed hour key -----

  /** The calendar fields of a UTC instant; `year` is the two's complement form of a signed year. */
  datatype Instant = Instant(year: bv32, month: bv32, day: bv32, hour: bv32)

  predicate OnCalendar(t: Instant) {
    1 <= t.month <= 12 && 1 <= t.day <= 31 && t.hour <= 23
  }

  datatype HourKey = HourKey(packed: bv32)

  function Pack(year: bv32, month: bv32, day: bv32, hour: bv32): bv32 {
    (year << 14) | ((month & 0xF) << 10) | ((day & 0x1F) << 5) | (hour & 0x1F)
  }

  function DsHourKey(t: Instant): HourKey {
    HourKey(Pack(t.year, t.month, t.day, t.hour))
  }

  function KeyYear(k: HourKey): bv32 { (k.packed >> 14) & 0x3FFF }
  function KeyMonth(k: HourKey): bv32 { (k.packed >> 10) & 0xF }
  function KeyDay(k: HourKey): bv32 { (k.packed >> 5) & 0x1F }
  function KeyHour(k: HourKey): bv32 { k.packed & 0x1F }

  /** A key shows month, day and hour, and the year exactly when it fits its 14 bits. */
  lemma PackedKeyShown(t: Instant)
    requires OnCalendar(t)
    ensures KeyMonth(DsHourKey(t)) == t.month && KeyDay(DsHourKey(t)) == t.day && KeyHour(DsHourKey(t)) == t.hour
    ensures KeyYear(DsHourKey(t)) == t.year <==> t.year < 0x4000
  {
  }

  /** So within those years a group is one hour: messages share a key exactly when they share year, month, day and hour. */
  lemma KeyIsTheHour(t: Instant, u: Instant)
    requires OnCalendar(t) && OnCalendar(u) && t.year < 0x4000 && u.year < 0x4000
    ensures DsHourKey(t) == DsHourKey(u) <==> t == u
  {
    PackedKeyShown(t);
    PackedKeyShown(u);
  }

  // ----- grouping -----

  datatype Envelope = Envelope(eventId: string, eventTimestamp: string, payload: seq<bv8>)

  /** A buffered message. Its partition and offset are kept only to say where a row came from. */
  datatype Message = Message(partition: Partition, offset: Offset, envelope: Envelope, instant: Instant)

  function KeyOfMessage(m: Message): HourKey { DsHourKey(m.instant) }

  datatype DataFile = DataFile(key: HourKey, rows: seq<Message>)

  /** The messages of one hour, in the order they were buffered. */
  function InHour(messages: seq<Message>, k: HourKey): seq<Message> {
    Group(messages, KeyOfMessage, k)
  }

  /** The rows of a commit, over all its files. */
  ghost function FileRows(files: seq<DataFile>): multiset<Message> {
    if files == [] then multiset{}
    else FileRows(files[..|files| - 1]) + multiset(files[|files| - 1].rows)
  }

  /** One file per hour that occurs, holding exactly that hour's messages. */
  ghost predicate Partitioned(files: seq<DataFile>, messages: seq<Message>) {
    && (forall i :: 0 <= i < |files| ==> files[i].rows == InHour(messages, files[i].key) && files[i].rows != [])
    && (forall i, j :: 0 <= i < j < |files| ==> files[i].key != files[j].key)
  }

  ghost predicate KeysAvoid(files: seq<DataFile>, keys: set<HourKey>) {
    forall i :: 0 <= i < |files| ==> files[i].key !in keys
  }

  /** Writes a batch: no row is dropped, duplicated or filed under another hour. */
  method WritePartitioned(messages: seq<Message>) returns (files: seq<DataFile>)
    ensures Partitioned(files, messages)
    ensures FileRows(files) == multiset(messages)
  {
    var groups := GroupBy(messages, KeyOfMessage);
    var todo := groups.Keys;
    files := [];
    NothingLeftOut(messages, KeyOfMessage, todo);
    while todo != {}
      invariant todo <= groups.Keys
      invariant Partitioned(files, messages)
      invariant KeysAvoid(files, todo)
      invariant FileRows(files) == multiset(Outside(messages, KeyOfMessage, todo))
      decreases |todo|
    {
      var k :| k in todo;
      var file := DataFile(k, groups[k]);
      assert file.rows == InHour(messages, k) != [];
      OneMoreFile(files, messages, todo, k);
      files, todo := files + [file], todo - {k};
    }
    OutsideNothing(messages, KeyOfMessage);
  }

  lemma OneMoreFile(files: seq<DataFile>, messages: seq<Message>, todo: set<HourKey>, k: HourKey)
    requires k in todo && InHour(messages, k) != []
    requires Partitioned(files, messages) && KeysAvoid(files, todo)
    requires FileRows(files) == multiset(Outside(messages, KeyOfMessage, todo))
    ensures var more := files + [DataFile(k, InHour(messages, k))];
            Partitioned(more, messages) && KeysAvoid(more, todo - {k})
    ensures FileRows(files + [DataFile(k, InHour(messages, k))]) == multiset(Outside(messages, KeyOfMessage, todo - {k}))
  {
    MoreRows(files, DataFile(k, InHour(messages, k)));
    OutsideOneLess(messages, KeyOfMessage, todo, k);
    MorePartitions(files, messages, todo, k);
  }

  lemma MoreRows(files: seq<DataFile>, file: DataFile)
    ensures FileRows(files + [file]) == FileRows(files) + multiset(file.rows)
  {
  }

  lemma MorePartitions(files: seq<DataFile>, messages: seq<Message>, todo: set<HourKey>, k: HourKey)
    requires k in todo && InHour(messages, k) != [] && Partitioned(files, messages) && KeysAvoid(files, todo)
    ensures var more := files + [DataFile(k, InHour(messages, k))];
            Partitioned(more, messages) && KeysAvoid(more, todo - {k})
  {
  }
}
