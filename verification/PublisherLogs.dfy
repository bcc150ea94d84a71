/** Splitting the publisher's log stream and counting its frames (`botparty_robot/publisher.py`). */
module PublisherLogs {

  const NEWLINE: nat := 10
  const CHUNK: nat := 4096
  const LONGEST_LINE: nat := 16 * 1024

  type Bytes = seq<nat>

  /** The complete lines of a stream, without their newlines. */
  function Lines(s: Bytes): seq<Bytes> {
    if s == [] then []
    else if s[|s|-1] == NEWLINE then Lines(s[..|s|-1]) + [Rest(s[..|s|-1])]
    else Lines(s[..|s|-1])
  }

  /** What follows the last newline. */
  function Rest(s: Bytes): Bytes {
    if s == [] || s[|s|-1] == NEWLINE then []
    else Rest(s[..|s|-1]) + [s[|s|-1]]
  }

  /** Empty messages of complete lines are not handled. */
  function Messages(lines: seq<Bytes>, sanitize: Bytes -> string): seq<string> {
    if lines == [] then []
    else Message(lines[0], sanitize) + Messages(lines[1..], sanitize)
  }

  function Message(line: Bytes, sanitize: Bytes -> string): seq<string> {
    if sanitize(line) == "" then [] else [sanitize(line)]
  }

  /** No piece between newlines is longer than 16 KiB. */
  ghost predicate NoLongLine(s: Bytes) {
    (forall l :: l in Lines(s) ==> |l| <= LONGEST_LINE) && |Rest(s)| <= LONGEST_LINE
  }

  /** The whole stream handled at once. */
  function WholeStream(s: Bytes, sanitize: Bytes -> string): seq<string> {
    Messages(Lines(s), sanitize) + if Rest(s) == [] then [] else [sanitize(Rest(s))]
  }

  function Flatten(chunks: seq<Bytes>): Bytes {
    if chunks == [] then [] else Flatten(chunks[..|chunks|-1]) + chunks[|chunks|-1]
  }

  /** `stream.read(4096)` returns 1 to 4096 bytes until the end of the stream. */
  ghost predicate ChunksOk(chunks: seq<Bytes>) {
    forall i :: 0 <= i < |chunks| ==> 1 <= |chunks[i]| <= CHUNK
  }

  // ---- Splitting a concatenation ----

  /** The lines of `a + b` are those of `a`, and then those of what `a` left over followed by `b`. */
  lemma {:induction false} LinesConcat(a: Bytes, b: Bytes)
    ensures Lines(a + b) == Lines(a) + Lines(Rest(a) + b)
    ensures Rest(a + b) == Rest(Rest(a) + b)
  {
    if b == [] {
      RestAlone(a);
      assert a + b == a && Rest(a) + b == Rest(a);
    } else {
      var front, x := b[..|b|-1], b[|b|-1];
      LinesConcat(a, front);
      assert a + b == (a + front) + [x] && Rest(a) + b == (Rest(a) + front) + [x];
      SnocBoth(Lines(a), a + front, Rest(a) + front, x);
    }
  }

  lemma SnocBoth(p: seq<Bytes>, u: Bytes, v: Bytes, x: nat)
    requires Lines(u) == p + Lines(v) && Rest(u) == Rest(v)
    ensures Lines(u + [x]) == p + Lines(v + [x]) && Rest(u + [x]) == Rest(v + [x])
  {
    LinesSnoc(u, x);
    LinesSnoc(v, x);
  }

  lemma LinesSnoc(s: Bytes, x: nat)
    ensures Lines(s + [x]) == Lines(s) + if x == NEWLINE then [Rest(s)] else []
    ensures Rest(s + [x]) == if x == NEWLINE then [] else Rest(s) + [x]
  {
    assert (s + [x])[..|s|] == s;
  }

  lemma {:induction false} RestAlone(a: Bytes)
    ensures Lines(Rest(a)) == [] && Rest(Rest(a)) == Rest(a)
  {
    if a != [] && a[|a|-1] != NEWLINE {
      RestAlone(a[..|a|-1]);
      assert Rest(a)[..|Rest(a)|-1] == Rest(a[..|a|-1]);
    }
  }

  /** The last piece of a prefix is part of a line, or of the last piece, of the whole. */
  lemma {:induction false} PrefixHasNoLongLine(a: Bytes, b: Bytes)
    requires NoLongLine(a + b)
    ensures NoLongLine(a)
  {
    if b == [] {
      assert a + b == a;
    } else {
      var front := b[..|b|-1];
      var s := a + b;
      assert s[..|s|-1] == a + front;
      if b[|b|-1] == NEWLINE {
        assert Rest(a + front) in Lines(s);
      }
      assert forall l :: l in Lines(a + front) ==> l in Lines(s);
      PrefixHasNoLongLine(a, front);
    }
  }

  /** Python's `partition`: the first newline ends the first line. */
  lemma PartitionAtNewline(buffer: Bytes, i: nat)
    requires i < |buffer| && buffer[i] == NEWLINE && NEWLINE !in buffer[..i]
    ensures Lines(buffer) == [buffer[..i]] + Lines(buffer[i+1..])
    ensures Rest(buffer) == Rest(buffer[i+1..])
  {
    CutAt(buffer, i);
    Partition(buffer[..i], buffer[i+1..]);
  }

  lemma CutAt(buffer: Bytes, i: nat)
    requires i < |buffer|
    ensures buffer == (buffer[..i] + [buffer[i]]) + buffer[i+1..]
  {
  }

  lemma Partition(line: Bytes, tail: Bytes)
    requires NEWLINE !in line
    ensures Lines((line + [NEWLINE]) + tail) == [line] + Lines(tail)
    ensures Rest((line + [NEWLINE]) + tail) == Rest(tail)
  {
    OneLine(line);
    LinesConcat(line + [NEWLINE], tail);
    assert [] + tail == tail;
  }

  lemma OneLine(line: Bytes)
    requires NEWLINE !in line
    ensures Lines(line + [NEWLINE]) == [line] && Rest(line + [NEWLINE]) == []
  {
    NoNewline(line);
    assert (line + [NEWLINE])[..|line|] == line;
  }

  lemma {:induction false} NoNewline(s: Bytes)
    requires NEWLINE !in s
    ensures Lines(s) == [] && Rest(s) == s
  {
    if s != [] {
      assert s == s[..|s|-1] + [s[|s|-1]];
      NoNewline(s[..|s|-1]);
    }
  }

  lemma {:induction false} MessagesConcat(a: seq<Bytes>, b: seq<Bytes>, sanitize: Bytes -> string)
    ensures Messages(a + b, sanitize) == Messages(a, sanitize) + Messages(b, sanitize)
  {
    if a == [] {
      assert a + b == b;
    } else {
      assert (a + b)[1..] == a[1..] + b;
      MessagesConcat(a[1..], b, sanitize);
    }
  }

  lemma MessagesCons(line: Bytes, lines: seq<Bytes>, sanitize: Bytes -> string)
    ensures Messages([line] + lines, sanitize) == Message(line, sanitize) + Messages(lines, sanitize)
  {
    assert ([line] + lines)[1..] == lines;
  }

  // ---- The chunk loop as a fold ----

  datatype Drain = Drain(buffer: Bytes, handled: seq<string>)

  function Flushed(d: Drain, sanitize: Bytes -> string): Drain {
    if |d.buffer| <= LONGEST_LINE then d
    else Drain([], d.handled + [sanitize(d.buffer[..LONGEST_LINE])])
  }

  function Fed(d: Drain, chunk: Bytes, sanitize: Bytes -> string): Drain {
    var joined := d.buffer + chunk;
    Flushed(Drain(Rest(joined), d.handled + Messages(Lines(joined), sanitize)), sanitize)
  }

  function Drained(before: seq<string>, chunks: seq<Bytes>, sanitize: Bytes -> string): Drain {
    if chunks == [] then Drain([], before)
    else Fed(Drained(before, chunks[..|chunks|-1], sanitize), chunks[|chunks|-1], sanitize)
  }

  function AtEnd(d: Drain, sanitize: Bytes -> string): seq<string> {
    if d.buffer == [] then d.handled else d.handled + [sanitize(d.buffer)]
  }

  /** Without long lines, nothing is ever flushed early. */
  lemma {:induction false} DrainedPrefix(before: seq<string>, chunks: seq<Bytes>, sanitize: Bytes -> string)
    requires NoLongLine(Flatten(chunks))
    ensures var s := Flatten(chunks);
            Drained(before, chunks, sanitize) == Drain(Rest(s), before + Messages(Lines(s), sanitize))
  {
    if chunks == [] {
      assert before + [] == before;
    } else {
      var front, last := chunks[..|chunks|-1], chunks[|chunks|-1];
      PrefixHasNoLongLine(Flatten(front), last);
      DrainedPrefix(before, front, sanitize);
      FeedStep(before, Flatten(front), last, sanitize);
    }
  }

  lemma FeedStep(before: seq<string>, seen: Bytes, chunk: Bytes, sanitize: Bytes -> string)
    requires NoLongLine(seen + chunk)
    ensures Fed(Drain(Rest(seen), before + Messages(Lines(seen), sanitize)), chunk, sanitize)
            == Drain(Rest(seen + chunk), before + Messages(Lines(seen + chunk), sanitize))
  {
    var joined := Rest(seen) + chunk;
    LinesConcat(seen, chunk);
    MessagesConcat(Lines(seen), Lines(joined), sanitize);
    Assoc(before, Messages(Lines(seen), sanitize), Messages(Lines(joined), sanitize));
    assert |Rest(joined)| <= LONGEST_LINE;
  }

  lemma Assoc(p: seq<string>, q: seq<string>, r: seq<string>)
    ensures (p + q) + r == p + (q + r)
  {
  }

  /** Main result: for a stream without lines over 16 KiB the handled messages are those of the whole
      stream, however it is cut into chunks. */
  lemma ChunkingDoesNotMatter(before: seq<string>, chunks: seq<Bytes>, sanitize: Bytes -> string)
    requires NoLongLine(Flatten(chunks))
    ensures AtEnd(Drained(before, chunks, sanitize), sanitize) == before + WholeStream(Flatten(chunks), sanitize)
  {
    DrainedPrefix(before, chunks, sanitize);
  }

  /** Main result, what these messages are: a line that ends in a newline gives its own message first,
      unless that is empty, and the rest of the stream follows; a last piece without newline gives one
      message. The two laws fix the result for every stream. */
  lemma WholeStreamLaws(line: Bytes, tail: Bytes, sanitize: Bytes -> string)
    requires NEWLINE !in line
    ensures WholeStream((line + [NEWLINE]) + tail, sanitize)
            == (if sanitize(line) == "" then [] else [sanitize(line)]) + WholeStream(tail, sanitize)
    ensures WholeStream(line, sanitize) == if line == [] then [] else [sanitize(line)]
  {
    Partition(line, tail);
    MessagesCons(line, Lines(tail), sanitize);
    NoNewline(line);
  }

  // ---- The mutable publisher ----

  class Publisher {
    const sanitize: Bytes -> string
    var handled: seq<string>
    var frameCount: nat
    var lastRawFrameCount: nat

    constructor (sanitize: Bytes -> string)
      ensures this.sanitize == sanitize && handled == [] && frameCount == 0
    {
      this.sanitize := sanitize;
      handled, frameCount, lastRawFrameCount := [], 0, 0;
    }

    method HandleLogLine(message: string)
      modifies this`handled
      ensures handled == old(handled) + [message]
    {
      handled := handled + [message];
    }

    method FindNewline(buffer: Bytes) returns (i: nat)
      requires NEWLINE in buffer
      ensures i < |buffer| && buffer[i] == NEWLINE && NEWLINE !in buffer[..i]
    {
      i := 0;
      while buffer[i] != NEWLINE
        invariant i < |buffer| && NEWLINE !in buffer[..i]
        decreases |buffer| - i
      {
        assert NEWLINE in buffer[i+1..] by {
          assert buffer == buffer[..i] + [buffer[i]] + buffer[i+1..];
        }
        i := i + 1;
      }
    }

    method TakeLine(raw: Bytes)
      modifies this`handled
      ensures handled == old(handled) + Message(raw, sanitize)
      ensures handled == if sanitize(raw) == "" then old(handled) else old(handled) + [sanitize(raw)]
    {
      var message := sanitize(raw);
      if message != "" {
        HandleLogLine(message);
      }
    }

    /** Handle the complete lines of the buffer and return what is left. */
    method TakeLines(start: Bytes) returns (buffer: Bytes)
      modifies this`handled
      ensures handled == old(handled) + Messages(Lines(start), sanitize)
      ensures buffer == Rest(start)
    {
      buffer := start;
      while NEWLINE in buffer
        invariant Rest(start) == Rest(buffer)
        invariant handled + Messages(Lines(buffer), sanitize) == old(handled) + Messages(Lines(start), sanitize)
        decreases |buffer|
      {
        var i := FindNewline(buffer);
        PartitionAtNewline(buffer, i);
        MessagesCons(buffer[..i], Lines(buffer[i+1..]), sanitize);
        ghost var before := handled;
        var raw := buffer[..i];
        buffer := buffer[i+1..];
        TakeLine(raw);
        Assoc(before, Message(raw, sanitize), Messages(Lines(buffer), sanitize));
      }
      NoNewline(buffer);
      assert handled + [] == handled;
    }

    /** One chunk: take the complete lines, and flush what is left when it is too long. */
    method FeedChunk(start: Bytes, chunk: Bytes) returns (buffer: Bytes)
      modifies this`handled
      ensures Drain(buffer, handled) == Fed(Drain(start, old(handled)), chunk, sanitize)
      ensures |buffer| <= LONGEST_LINE
      ensures var rest := Rest(start + chunk);
              var handledLines := old(handled) + Messages(Lines(start + chunk), sanitize);
              if |rest| <= 16 * 1024 then buffer == rest && handled == handledLines
              else buffer == [] && handled == handledLines + [sanitize(rest[..16 * 1024])]
    {
      buffer := TakeLines(start + chunk);
      if |buffer| > LONGEST_LINE {
        HandleLogLine(sanitize(buffer[..LONGEST_LINE]));
        buffer := [];
      }
    }

    /** The chunk loop of `_drain_logs`; `largest` is the largest size of its buffer, which never
        exceeds 20 KiB whatever the stream. */
    method DrainLogs(chunks: seq<Bytes>) returns (largest: nat)
      requires ChunksOk(chunks)
      modifies this`handled
      ensures largest <= LONGEST_LINE + CHUNK
      ensures handled == AtEnd(Drained(old(handled), chunks, sanitize), sanitize)
      ensures NoLongLine(Flatten(chunks)) ==>
                handled == old(handled) + WholeStream(Flatten(chunks), sanitize)
    {
      var buffer: Bytes := [];
      largest := 0;
      var i := 0;
      while i < |chunks|
        invariant 0 <= i <= |chunks|
        invariant |buffer| <= LONGEST_LINE && largest <= LONGEST_LINE + CHUNK
        invariant Drain(buffer, handled) == Drained(old(handled), chunks[..i], sanitize)
      {
        assert chunks[..i+1][..i] == chunks[..i];
        largest := if |buffer| + |chunks[i]| > largest then |buffer| + |chunks[i]| else largest;
        buffer := FeedChunk(buffer, chunks[i]);
        i := i + 1;
      }
      assert chunks[..i] == chunks;
      if buffer != [] {
        HandleLogLine(sanitize(buffer));
      }
      if NoLongLine(Flatten(chunks)) {
        ChunkingDoesNotMatter(old(handled), chunks, sanitize);
      }
    }

    /** `_record_raw_frame_count`. */
    method RecordRawFrameCount(raw: int)
      modifies this`frameCount, this`lastRawFrameCount
      ensures raw < 0 ==> frameCount == old(frameCount) && lastRawFrameCount == old(lastRawFrameCount)
      ensures raw >= 0 ==> lastRawFrameCount == raw
      ensures raw >= 0 ==>
                frameCount == old(frameCount)
                + if raw < old(lastRawFrameCount) then raw else raw - old(lastRawFrameCount)
    {
      if raw < 0 {
        return;
      }
      if raw < lastRawFrameCount {
        lastRawFrameCount := 0;
      }
      var delta := raw - lastRawFrameCount;
      if delta > 0 {
        frameCount := frameCount + delta;
        lastRawFrameCount := raw;
      }
    }

    /** One publisher process: the raw counter starts again. */
    method RecordRun(raws: seq<int>)
      modifies this`frameCount, this`lastRawFrameCount
      ensures frameCount == old(frameCount) + SumOfRunEnds(NonNegative(raws))
    {
      lastRawFrameCount := 0;
      var i := 0;
      while i < |raws|
        invariant 0 <= i <= |raws|
        invariant frameCount == old(frameCount) + SumOfRunEnds(NonNegative(raws[..i]))
        invariant lastRawFrameCount == LastOr0(NonNegative(raws[..i]))
      {
        NonNegativeSnoc(raws, i);
        if raws[i] >= 0 {
          RunEndsSnoc(NonNegative(raws[..i]), raws[i]);
        }
        RecordRawFrameCount(raws[i]);
        i := i + 1;
      }
      assert raws[..i] == raws;
    }
  }

  // ---- Frame counts ----

  function NonNegative(raws: seq<int>): seq<nat> {
    if raws == [] then []
    else NonNegative(raws[..|raws|-1]) + if raws[|raws|-1] >= 0 then [raws[|raws|-1] as nat] else []
  }

  function LastOr0(counts: seq<nat>): nat { if counts == [] then 0 else counts[|counts|-1] }

  /** The sum of the last count of each non-decreasing run. */
  function SumOfRunEnds(counts: seq<nat>): nat {
    if counts == [] then 0
    else if |counts| == 1 then counts[0]
    else (if counts[1] < counts[0] then counts[0] else 0) + SumOfRunEnds(counts[1..])
  }

  lemma NonNegativeSnoc(raws: seq<int>, i: nat)
    requires i < |raws|
    ensures raws[i] >= 0 ==> NonNegative(raws[..i+1]) == NonNegative(raws[..i]) + [raws[i]]
    ensures raws[i] < 0 ==> NonNegative(raws[..i+1]) == NonNegative(raws[..i])
  {
    assert raws[..i+1][..i] == raws[..i];
  }

  lemma {:induction false} RunEndsSnoc(counts: seq<nat>, x: nat)
    ensures SumOfRunEnds(counts + [x])
            == SumOfRunEnds(counts) + if x < LastOr0(counts) then x else x - LastOr0(counts)
  {
    if |counts| <= 1 {
      assert counts + [x] == if counts == [] then [x] else [counts[0], x];
      if |counts| == 1 { assert [counts[0], x][1..] == [x]; }
    } else {
      RunEndsSnoc(counts[1..], x);
      assert (counts + [x])[1..] == counts[1..] + [x];
    }
  }
}
