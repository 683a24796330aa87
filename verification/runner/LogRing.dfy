/**
 The sandbox runner's live log (apps/web/src/workflows/dag-runner.template.js): chunks written to
 stdout and stderr become lines, and a bounded ring keeps the most recent of them.
 */
module LogRing {
  const RING_MAX := 64 * 1024

  datatype Stream = Stdout | Stderr

  datatype Entry = Entry(stream: Stream, line: string)

  // ----- lines -----

  /** The text after the last newline. */
  function Rest(text: string): string {
    if text == "" then ""
    else if text[|text| - 1] == '\n' then ""
    else Rest(text[..|text| - 1]) + [text[|text| - 1]]
  }

  /** The complete lines of a text. */
  function Lines(text: string): seq<string> {
    if text == "" then []
    else
      var front := text[..|text| - 1];
      if text[|text| - 1] == '\n' then Lines(front) + [Rest(front)] else Lines(front)
  }

  function Unlines(lines: seq<string>): string {
    if lines == [] then "" else Unlines(lines[..|lines| - 1]) + lines[|lines| - 1] + "\n"
  }

  ghost predicate NoNewline(s: string) {
    forall i :: 0 <= i < |s| ==> s[i] != '\n'
  }

  ghost predicate AllWhole(lines: seq<string>) {
    forall i :: 0 <= i < |lines| ==> NoNewline(lines[i])
  }

  /** Lines and rest are the text, cut at its newlines ... */
  lemma {:induction false} LinesRebuild(text: string)
    ensures Unlines(Lines(text)) + Rest(text) == text && AllWhole(Lines(text)) && NoNewline(Rest(text))
  {
    if text != "" {
      var front, c := text[..|text| - 1], text[|text| - 1];
      LinesRebuild(front);
      RebuildMore(Lines(front), Rest(front), c);
      assert text == front + [c];
    }
  }

  /** One more character: a newline makes the rest a line. */
  lemma RebuildMore(lines: seq<string>, rest: string, c: char)
    ensures Unlines(lines + [rest]) == Unlines(lines) + rest + "\n"
    ensures c != '\n' ==> Unlines(lines) + (rest + [c]) == (Unlines(lines) + rest) + [c]
  {
    assert (lines + [rest])[..|lines|] == lines;
  }

  lemma {:induction false} RestOfWhole(s: string)
    requires NoNewline(s)
    ensures Lines(s) == [] && Rest(s) == s
  {
    if s != "" {
      RestOfWhole(s[..|s| - 1]);
    }
  }

  /** Reading on from the rest of what was read before. */
  lemma {:induction false} LinesContinue(a: string, b: string)
    ensures Lines(a + b) == Lines(a) + Lines(Rest(a) + b) && Rest(a + b) == Rest(Rest(a) + b)
  {
    LinesRebuild(a);
    if b == "" {
      assert a + b == a && Rest(a) + b == Rest(a);
      RestOfWhole(Rest(a));
    } else {
      var front, c := b[..|b| - 1], b[|b| - 1];
      LinesContinue(a, front);
      assert (a + b)[..|a + b| - 1] == a + front;
      assert (Rest(a) + b)[..|Rest(a) + b| - 1] == Rest(a) + front;
    }
  }

  lemma OneLine(line: string)
    requires NoNewline(line)
    ensures Lines(line + ['\n']) == [line] && Rest(line + ['\n']) == ""
  {
    assert (line + ['\n'])[..|line|] == line;
    RestOfWhole(line);
  }

  lemma CutAt(s: string, nl: nat)
    requires nl < |s| && s[nl] == '\n' && NoNewline(s[..nl])
    ensures Lines(s) == [s[..nl]] + Lines(s[nl + 1..]) && Rest(s) == Rest(s[nl + 1..])
  {
    var line, tail := s[..nl], s[nl + 1..];
    assert s == line + ['\n'] + tail;
    OneLine(line);
    LinesContinue(line + ['\n'], tail);
    assert "" + tail == tail;
  }

  // ----- the ring -----

  function Total(entries: seq<Entry>): nat {
    if entries == [] then 0 else |entries[0].line| + Total(entries[1..])
  }

  lemma {:induction false} TotalConcat(a: seq<Entry>, b: seq<Entry>)
    ensures Total(a + b) == Total(a) + Total(b)
  {
    if a == [] {
      assert a + b == b;
    } else {
      assert (a + b)[1..] == a[1..] + b;
      TotalConcat(a[1..], b);
    }
  }

  function Suffix(all: seq<Entry>, n: nat): seq<Entry>
    requires n <= |all|
  {
    all[|all| - n..]
  }

  /** The longest suffix within the limit, or the last entry alone when it exceeds the limit by itself. */
  ghost predicate IsWindow(ring: seq<Entry>, all: seq<Entry>) {
    && |ring| <= |all| && ring == Suffix(all, |ring|)
    && (all != [] ==> ring != [])
    && (Total(ring) <= RING_MAX || |ring| == 1)
    && (forall n :: |ring| < n <= |all| ==> Total(Suffix(all, n)) > RING_MAX)
  }

  /** There is only one such window. */
  lemma WindowUnique(a: seq<Entry>, b: seq<Entry>, all: seq<Entry>)
    requires IsWindow(a, all) && IsWindow(b, all)
    ensures a == b
  {
  }

  lemma SuffixOfMore(all: seq<Entry>, e: Entry, n: nat)
    requires n <= |all|
    ensures Suffix(all + [e], n + 1) == Suffix(all, n) + [e]
    ensures Total(Suffix(all + [e], n + 1)) == Total(Suffix(all, n)) + |e.line|
  {
    TotalConcat(Suffix(all, n), [e]);
    assert [e][1..] == [];
  }

  /** Suffixes that were too long before are too long after one more entry. */
  lemma StillTooLong(ring: seq<Entry>, all: seq<Entry>, e: Entry, n: nat)
    requires IsWindow(ring, all) && |ring| + 1 < n <= |all| + 1
    ensures Total(Suffix(all + [e], n)) > RING_MAX
  {
    SuffixOfMore(all, e, n - 1);
  }

  /** A nonempty suffix such that every longer one is too long. */
  ghost predicate Candidate(ring: seq<Entry>, all: seq<Entry>) {
    && 1 <= |ring| <= |all| && ring == Suffix(all, |ring|)
    && (forall n :: |ring| < n <= |all| ==> Total(Suffix(all, n)) > RING_MAX)
  }

  lemma DropOldest(ring: seq<Entry>, all: seq<Entry>)
    requires Candidate(ring, all) && |ring| > 1 && Total(ring) > RING_MAX
    ensures Candidate(ring[1..], all) && Total(ring[1..]) == Total(ring) - |ring[0].line|
  {
  }

  lemma Appended(ring: seq<Entry>, all: seq<Entry>, e: Entry)
    requires IsWindow(ring, all)
    ensures Candidate(ring + [e], all + [e]) && Total(ring + [e]) == Total(ring) + |e.line|
  {
    SuffixOfMore(all, e, |ring|);
    forall n | |ring| + 1 < n <= |all| + 1
      ensures Total(Suffix(all + [e], n)) > RING_MAX
    {
      StillTooLong(ring, all, e, n);
    }
  }

  class Ring {
    var ring: seq<Entry>
    var ringBytes: int

    constructor ()
      ensures ring == [] && ringBytes == 0
    {
      ring, ringBytes := [], 0;
    }

    /** Appends a line and drops the oldest ones while the ring is over its limit. */
    method Push(stream: Stream, line: string, ghost all: seq<Entry>)
      requires IsWindow(ring, all) && ringBytes == Total(ring)
      modifies this
      ensures IsWindow(ring, all + [Entry(stream, line)]) && ringBytes == Total(ring)
    {
      var entry := Entry(stream, line);
      ghost var more := all + [entry];
      Appended(ring, all, entry);
      ring := ring + [entry];
      ringBytes := ringBytes + |line|;
      while ringBytes > RING_MAX && |ring| > 1
        invariant ringBytes == Total(ring) && Candidate(ring, more)
      {
        DropOldest(ring, more);
        ringBytes := ringBytes - |ring[0].line|;
        ring := ring[1..];
      }
    }
  }

  // ----- the server -----

  function LinesOf(all: seq<Entry>, stream: Stream): seq<string> {
    if all == [] then []
    else
      var rest := LinesOf(all[..|all| - 1], stream);
      var e := all[|all| - 1];
      if e.stream == stream then rest + [e.line] else rest
  }

  lemma LinesOfSnoc(all: seq<Entry>, e: Entry, stream: Stream)
    ensures LinesOf(all + [e], stream) == if e.stream == stream then LinesOf(all, stream) + [e.line] else LinesOf(all, stream)
  {
  }

  function Other(stream: Stream): Stream {
    if stream == Stdout then Stderr else Stdout
  }

  lemma Regroup<T>(first: seq<T>, sent: seq<T>, x: T, more: seq<T>)
    ensures sent + ([x] + more) == sent + [x] + more && first + sent + [x] == first + (sent + [x])
  {
  }

  class LogServer {
    const ring: Ring
    var pending: map<Stream, string>
    /** Everything broadcast so far, and everything written so far per stream. */
    ghost var broadcast: seq<Entry>
    ghost var written: map<Stream, string>

    ghost predicate Valid()
      reads this, ring
    {
      && Stdout in pending && Stderr in pending && Stdout in written && Stderr in written
      && IsWindow(ring.ring, broadcast) && ring.ringBytes == Total(ring.ring)
      && Follows(Stdout) && Follows(Stderr)
    }

    /** What a stream broadcast and holds back is what it wrote, cut into lines. */
    ghost predicate Follows(s: Stream)
      requires s in pending && s in written
      reads this
    {
      pending[s] == Rest(written[s]) && LinesOf(broadcast, s) == Lines(written[s])
    }

    constructor ()
      ensures Valid() && broadcast == [] && written == map[Stdout := "", Stderr := ""] && fresh(ring)
    {
      ring := new Ring();
      pending, broadcast, written := map[Stdout := "", Stderr := ""], [], map[Stdout := "", Stderr := ""];
    }

    method Broadcast(stream: Stream, line: string)
      requires IsWindow(ring.ring, broadcast) && ring.ringBytes == Total(ring.ring)
      modifies this`broadcast, ring
      ensures IsWindow(ring.ring, broadcast) && ring.ringBytes == Total(ring.ring)
      ensures broadcast == old(broadcast) + [Entry(stream, line)]
      ensures LinesOf(broadcast, stream) == LinesOf(old(broadcast), stream) + [line]
      ensures LinesOf(broadcast, Other(stream)) == LinesOf(old(broadcast), Other(stream))
    {
      ring.Push(stream, line, broadcast);
      LinesOfSnoc(broadcast, Entry(stream, line), stream);
      LinesOfSnoc(broadcast, Entry(stream, line), Other(stream));
      broadcast := broadcast + [Entry(stream, line)];
    }

    /** Broadcasts the complete lines of a text and returns what is left of it. */
    method BroadcastLines(stream: Stream, chunk: string) returns (text: string)
      requires IsWindow(ring.ring, broadcast) && ring.ringBytes == Total(ring.ring)
      modifies this`broadcast, ring
      ensures IsWindow(ring.ring, broadcast) && ring.ringBytes == Total(ring.ring)
      ensures LinesOf(broadcast, stream) == LinesOf(old(broadcast), stream) + Lines(chunk) && text == Rest(chunk)
      ensures LinesOf(broadcast, Other(stream)) == LinesOf(old(broadcast), Other(stream))
    {
      text := chunk;
      ghost var sent: seq<string> := [];
      ghost var first := LinesOf(broadcast, stream);
      var nl := IndexOfNewline(text);
      while nl >= 0
        invariant -1 <= nl < |text| && (nl >= 0 ==> text[nl] == '\n' && NoNewline(text[..nl])) && (nl < 0 ==> NoNewline(text))
        invariant IsWindow(ring.ring, broadcast) && ring.ringBytes == Total(ring.ring)
        invariant LinesOf(broadcast, stream) == first + sent
        invariant sent + Lines(text) == Lines(chunk) && Rest(text) == Rest(chunk)
        invariant LinesOf(broadcast, Other(stream)) == LinesOf(old(broadcast), Other(stream))
        decreases |text|
      {
        CutAt(text, nl);
        var line := text[..nl];
        Regroup(first, sent, line, Lines(text[nl + 1..]));
        Broadcast(stream, line);
        sent := sent + [line];
        text := text[nl + 1..];
        nl := IndexOfNewline(text);
      }
      RestOfWhole(text);
      assert sent + [] == sent;
    }

    /**
     Whatever the chunk boundaries: the lines broadcast for a stream are the complete lines of all it
     wrote, and the ring is the window over all lines broadcast.
     */
    method Write(stream: Stream, chunk: string)
      requires Valid()
      modifies this, ring
      ensures Valid() && written == old(written)[stream := old(written)[stream] + chunk]
    {
      LinesContinue(written[stream], chunk);
      var text := BroadcastLines(stream, pending[stream] + chunk);
      written := written[stream := written[stream] + chunk];
      pending := pending[stream := text];
    }
  }

  method IndexOfNewline(s: string) returns (nl: int)
    ensures -1 <= nl < |s|
    ensures nl >= 0 ==> s[nl] == '\n' && NoNewline(s[..nl])
    ensures nl < 0 ==> NoNewline(s)
  {
    nl := 0;
    while nl < |s|
      invariant 0 <= nl <= |s| && NoNewline(s[..nl])
    {
      if s[nl] == '\n' {
        return;
      }
      nl := nl + 1;
    }
    assert s[..nl] == s;
    nl := -1;
  }
}
