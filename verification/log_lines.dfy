/** Reading a container's log through the circular buffer and parsing what it retained. */
module LogLines {
  import opened Kubernetes
  import opened CircularBuffers

  const NEWLINE: byte := 10
  const SPACE: byte := 32
  const MAX_LOG_SIZE_BYTES: nat := 10 * 1024 * 1024

  lemma SeparatorsAreCharacters()
    ensures NEWLINE as int == '\n' as int && SPACE as int == ' ' as int
  {
  }

  type Line = seq<byte>

  /** Timestamps come from an external parser; only whether one parses matters here. */
  type Clock = seq<byte> -> Option<nat>

  datatype LogLine = LogLine(timestamp: nat, message: seq<byte>)

  datatype ReadError = EndOfFile | Broken

  /** One call to the stream's reader: it may return data together with an error. */
  datatype Read = Read(data: seq<byte>, error: Option<ReadError>)

  datatype Outcome = Parsed(lines: seq<LogLine>) | MalformedLine(lines: seq<LogLine>) | ReadFailed

  // ---------- splitting on newlines ----------

  /** The pieces of s between newlines; there is always at least one. */
  function Split(s: seq<byte>): (lines: seq<Line>)
    ensures |lines| > 0
  {
    if s == [] then [[]] else Prepend(s[0], Split(s[1..]))
  }

  /** Puts one byte in front of the lines of what follows it. */
  function Prepend(b: byte, lines: seq<Line>): (longer: seq<Line>)
    requires |lines| > 0
    ensures |longer| > 0
  {
    if b == NEWLINE then [[]] + lines else [[b] + lines[0]] + lines[1..]
  }

  /** The lines of two adjacent texts: the last of one and the first of the other are one line. */
  function Glue(before: seq<Line>, after: seq<Line>): seq<Line>
    requires |before| > 0 && |after| > 0
  {
    before[..|before| - 1] + [before[|before| - 1] + after[0]] + after[1..]
  }

  lemma GluePrepend(b: byte, before: seq<Line>, after: seq<Line>)
    requires |before| > 0 && |after| > 0
    ensures Glue(Prepend(b, before), after) == Prepend(b, Glue(before, after))
  {
    var longer := Prepend(b, before);
    if b == NEWLINE {
      assert longer[..|longer| - 1] == [[]] + before[..|before| - 1];
    } else if |before| == 1 {
      assert ([b] + before[0]) + after[0] == [b] + (before[0] + after[0]);
    } else {
      assert longer[..|longer| - 1] == [[b] + before[0]] + before[1..|before| - 1];
    }
  }

  function Join(lines: seq<Line>): seq<byte>
    requires |lines| > 0
  {
    if |lines| == 1 then lines[0] else lines[0] + [NEWLINE] + Join(lines[1..])
  }

  /** Splitting loses nothing and leaves no newline inside a line. */
  lemma {:induction false} SplitThenJoin(s: seq<byte>)
    ensures Join(Split(s)) == s
    ensures forall line :: line in Split(s) ==> NEWLINE !in line
  {
    if s != [] {
      SplitThenJoin(s[1..]);
      JoinPrepend(s[0], Split(s[1..]));
      forall line | line in Split(s) ensures NEWLINE !in line {
        assert line in Split(s[1..]) || line == [] || line == [s[0]] + Split(s[1..])[0];
      }
    }
  }

  lemma JoinPrepend(b: byte, lines: seq<Line>)
    requires |lines| > 0
    ensures Join(Prepend(b, lines)) == [b] + Join(lines)
  {
    var longer := Prepend(b, lines);
    if b == NEWLINE {
      assert longer[1..] == lines;
      assert [] + [NEWLINE] == [b];
    } else if |lines| > 1 {
      assert longer[1..] == lines[1..];
      PutInFront(b, lines[0], Join(lines[1..]));
    }
  }

  lemma PutInFront(b: byte, first: Line, rest: seq<byte>)
    ensures ([b] + first) + [NEWLINE] + rest == [b] + (first + [NEWLINE] + rest)
  {
  }

  /** The line that straddles a cut is the only one a cut touches. */
  lemma {:induction false} SplitAcrossCut(a: seq<byte>, b: seq<byte>)
    ensures Split(a + b) == Glue(Split(a), Split(b))
  {
    if a == [] {
      assert a + b == b;
      assert [] + Split(b)[0] == Split(b)[0];
    } else {
      assert (a + b)[1..] == a[1..] + b;
      SplitAcrossCut(a[1..], b);
      GluePrepend(a[0], Split(a[1..]), Split(b));
    }
  }

  predicate IsSuffixOf<T(==)>(s: seq<T>, t: seq<T>) {
    |s| <= |t| && t[|t| - |s|..] == s
  }

  /** Keeping the last n bytes keeps whole lines, except that the first may lose its beginning. */
  lemma TruncationKeepsWholeLines(stream: seq<byte>, n: nat)
    ensures var all, kept := Split(stream), Split(Last(stream, n));
            && |kept| <= |all|
            && kept[1..] == all[|all| - |kept| + 1..]
            && IsSuffixOf(kept[0], all[|all| - |kept|])
            && (|stream| <= n ==> kept == all)
  {
    var kept := Last(stream, n);
    var lost := stream[..|stream| - |kept|];
    assert stream == lost + kept;
    SplitAcrossCut(lost, kept);
    var before := Split(lost);
    var all := Split(stream);
    assert all[|all| - |Split(kept)|] == before[|before| - 1] + Split(kept)[0];
  }

  // ---------- parsing lines ----------

  /** The position of the first space, or the length of the line when it has none. */
  function FirstSpace(line: Line): (i: nat)
    ensures i <= |line| && SPACE !in line[..i] && (i < |line| ==> line[i] == SPACE)
  {
    if line == [] || line[0] == SPACE then 0
    else
      var i := FirstSpace(line[1..]);
      assert line[..i + 1] == [line[0]] + line[1..][..i];
      1 + i
  }

  function SplitLogLine(line: Line, clock: Clock): Option<LogLine> {
    var i := FirstSpace(line);
    if i == |line| then None
    else
      match clock(line[..i])
      case Some(t) => Some(LogLine(t, line[i + 1..]))
      case None => None
  }

  function Extend(lines: seq<LogLine>, rest: Outcome): Outcome {
    match rest
    case Parsed(more) => Parsed(lines + more)
    case MalformedLine(more) => MalformedLine(lines + more)
    case ReadFailed => ReadFailed
  }

  /** Empty lines are skipped and the first unparseable one ends the parse. */
  function ParseStrictly(lines: seq<Line>, clock: Clock): Outcome {
    if lines == [] then Parsed([])
    else if lines[0] == [] then ParseStrictly(lines[1..], clock)
    else
      match SplitLogLine(lines[0], clock)
      case None => MalformedLine([])
      case Some(l) => Extend([l], ParseStrictly(lines[1..], clock))
  }

  /** What the line at index 0 contributes: nothing when it is empty or unparseable. */
  function Lenient(line: Line, clock: Clock): seq<LogLine> {
    match SplitLogLine(line, clock)
    case None => []
    case Some(l) => [l]
  }

  /** A possibly torn first line, then complete ones. */
  function ParseRetained(lines: seq<Line>, clock: Clock): Outcome
    requires |lines| > 0
  {
    Extend(Lenient(lines[0], clock), ParseStrictly(lines[1..], clock))
  }

  // ---------- what a parse means ----------

  /** The line is a timestamp, a space and a message. */
  predicate Reads(line: Line, stamp: seq<byte>, clock: Clock, l: LogLine) {
    line == stamp + [SPACE] + l.message && SPACE !in stamp && clock(stamp) == Some(l.timestamp)
  }

  lemma {:induction false} FirstSpaceIs(stamp: seq<byte>, message: seq<byte>)
    requires SPACE !in stamp
    ensures FirstSpace(stamp + [SPACE] + message) == |stamp|
  {
    if stamp != [] {
      FirstSpaceIs(stamp[1..], message);
      assert (stamp + [SPACE] + message)[1..] == stamp[1..] + [SPACE] + message;
    }
  }

  /** A line yields exactly what can be read from it, and it can be read in one way only. */
  lemma LineReadsIff(line: Line, clock: Clock, l: LogLine)
    ensures SplitLogLine(line, clock) == Some(l) <==> exists stamp :: Reads(line, stamp, clock, l)
  {
    var i := FirstSpace(line);
    if i < |line| {
      assert line == line[..i] + [SPACE] + line[i + 1..];
    }
    if stamp :| Reads(line, stamp, clock, l) {
      FirstSpaceIs(stamp, l.message);
      assert line[..i] == stamp && line[i + 1..] == l.message;
    }
    if SplitLogLine(line, clock) == Some(l) {
      assert Reads(line, line[..i], clock, l);
    }
  }

  ghost predicate IsReadable(line: Line, clock: Clock) {
    exists l, stamp :: Reads(line, stamp, clock, l)
  }

  lemma ReadableIff(line: Line, clock: Clock)
    ensures IsReadable(line, clock) <==> SplitLogLine(line, clock).Some?
  {
    match SplitLogLine(line, clock)
    case Some(l) => LineReadsIff(line, clock, l);
    case None =>
      if l, stamp :| Reads(line, stamp, clock, l) {
        LineReadsIff(line, clock, l);
      }
  }

  /** Lines are parsed in order, and what follows the lines that were not all parsed is not looked at. */
  lemma {:induction false} ParseInOrder(a: seq<Line>, b: seq<Line>, clock: Clock)
    ensures ParseStrictly(a + b, clock) ==
            var first := ParseStrictly(a, clock);
            if first.Parsed? then Extend(first.lines, ParseStrictly(b, clock)) else first
  {
    if a == [] {
      assert a + b == b;
      ExtendByNothing(ParseStrictly(b, clock));
    } else {
      assert (a + b)[0] == a[0] && (a + b)[1..] == a[1..] + b;
      ParseInOrder(a[1..], b, clock);
      match SplitLogLine(a[0], clock)
      case None =>
      case Some(l) =>
        var first := ParseStrictly(a[1..], clock);
        if first.Parsed? {
          ExtendTwice([l], first.lines, ParseStrictly(b, clock));
        }
    }
  }

  lemma ExtendByNothing(rest: Outcome)
    ensures Extend([], rest) == rest
  {
    if !rest.ReadFailed? {
      assert [] + rest.lines == rest.lines;
    }
  }

  /** A parse succeeds exactly if every line is empty or can be read. Otherwise it stops at the first that can't, with
      the lines before it. */
  lemma {:induction false} ParseSucceedsIff(lines: seq<Line>, clock: Clock)
    ensures ParseStrictly(lines, clock).Parsed? <==>
            forall line :: line in lines ==> line == [] || IsReadable(line, clock)
    ensures !ParseStrictly(lines, clock).ReadFailed?
  {
    if lines != [] {
      ReadableIff(lines[0], clock);
      ParseSucceedsIff(lines[1..], clock);
      assert forall line :: line in lines <==> line == lines[0] || line in lines[1..];
    }
  }

  lemma ParseStopsAt(lines: seq<Line>, clock: Clock, i: nat)
    requires i < |lines| && lines[i] != [] && !IsReadable(lines[i], clock)
    requires forall line :: line in lines[..i] ==> line == [] || IsReadable(line, clock)
    ensures ParseStrictly(lines[..i], clock).Parsed?
    ensures ParseStrictly(lines, clock) == MalformedLine(ParseStrictly(lines[..i], clock).lines)
  {
    ParseSucceedsIff(lines[..i], clock);
    ReadableIff(lines[i], clock);
    assert lines == lines[..i] + lines[i..];
    ParseInOrder(lines[..i], lines[i..], clock);
    assert ParseStrictly(lines[i..], clock) == MalformedLine([]);
  }

  // ---------- writing a log and reading it back ----------

  /** A log as a container writes it: lines with timestamps, some of them perhaps empty. */
  datatype Entry = Blank | Stamped(stamp: seq<byte>, message: seq<byte>)

  function Written(entries: seq<Entry>): seq<Line> {
    seq(|entries|, i requires 0 <= i < |entries| => WrittenLine(entries[i]))
  }

  function WrittenLine(e: Entry): Line {
    match e
    case Blank => []
    case Stamped(stamp, message) => stamp + [SPACE] + message
  }

  predicate IsWritable(e: Entry, clock: Clock) {
    e.Stamped? ==> SPACE !in e.stamp && NEWLINE !in e.stamp && NEWLINE !in e.message && clock(e.stamp).Some?
  }

  function Meant(entries: seq<Entry>, clock: Clock): seq<LogLine>
    requires forall e :: e in entries ==> IsWritable(e, clock)
  {
    if entries == [] then []
    else
      assert entries[0] in entries && IsWritable(entries[0], clock);
      (match entries[0]
       case Blank => []
       case Stamped(stamp, message) => [LogLine(clock(stamp).value, message)])
      + Meant(entries[1..], clock)
  }

  lemma {:induction false} WrittenParses(entries: seq<Entry>, clock: Clock)
    requires forall e :: e in entries ==> IsWritable(e, clock)
    ensures ParseStrictly(Written(entries), clock) == Parsed(Meant(entries, clock))
  {
    if entries != [] {
      assert entries[0] in entries && Written(entries)[1..] == Written(entries[1..]);
      WrittenParses(entries[1..], clock);
      match entries[0]
      case Blank => assert [] + Meant(entries[1..], clock) == Meant(entries[1..], clock);
      case Stamped(stamp, message) =>
        var line, l := WrittenLine(entries[0]), LogLine(clock(stamp).value, message);
        assert Reads(line, stamp, clock, l);
        LineReadsIff(line, clock, l);
    }
  }

  /** Lines without newlines survive being joined and split again. */
  lemma {:induction false} JoinThenSplit(lines: seq<Line>)
    requires |lines| > 0 && forall line :: line in lines ==> NEWLINE !in line
    ensures Split(Join(lines)) == lines
  {
    assert lines[0] in lines;
    OneLine(lines[0]);
    if |lines| > 1 {
      var rest := Join(lines[1..]);
      JoinThenSplit(lines[1..]);
      assert Join(lines) == lines[0] + ([NEWLINE] + rest);
      SplitAcrossCut(lines[0], [NEWLINE] + rest);
      assert ([NEWLINE] + rest)[1..] == rest;
      assert Split([NEWLINE] + rest) == [[]] + lines[1..];
      assert lines[0] + [] == lines[0];
    }
  }

  lemma {:induction false} OneLine(line: Line)
    requires NEWLINE !in line
    ensures Split(line) == [line]
  {
    if line != [] {
      OneLine(line[1..]);
      assert [line[0]] + line[1..] == line;
    }
  }

  lemma WrittenHasNoNewlines(entries: seq<Entry>, clock: Clock)
    requires forall e :: e in entries ==> IsWritable(e, clock)
    ensures forall line :: line in Written(entries) ==> NEWLINE !in line
  {
    forall i | 0 <= i < |entries| ensures NEWLINE !in WrittenLine(entries[i]) {
      assert entries[i] in entries;
    }
  }

  /** A log that fits is read back entry by entry, whatever the clock. */
  lemma WrittenLogIsReadBack(entries: seq<Entry>, text: seq<byte>, capacity: nat, clock: Clock, result: Outcome)
    requires entries != [] && forall e :: e in entries ==> IsWritable(e, clock)
    requires text == Join(Written(entries)) && |text| <= capacity && IsLogOf(result, text, capacity, clock)
    ensures result == Parsed(Meant(entries, clock))
  {
    LogThatFits(text, capacity, clock, result);
    WrittenHasNoNewlines(entries, clock);
    JoinThenSplit(Written(entries));
    WrittenParses(entries, clock);
    FirstIsLenient(Written(entries), clock);
  }

  lemma LogThatFits(text: seq<byte>, capacity: nat, clock: Clock, result: Outcome)
    requires |text| <= capacity && IsLogOf(result, text, capacity, clock)
    ensures result == ParseRetained(Split(text), clock)
  {
    var all := Split(text);
    if text == [] {
      assert all == [[]];
    } else {
      assert all[0 + 1..] == all[1..];
    }
  }

  /** A first line that can't be read is forgiven, and otherwise lenience makes no difference. */
  lemma FirstIsLenient(lines: seq<Line>, clock: Clock)
    requires |lines| > 0
    ensures ParseRetained(lines, clock) ==
            ParseStrictly(if lines[0] == [] || IsReadable(lines[0], clock) then lines else lines[1..], clock)
  {
    ReadableIff(lines[0], clock);
    ExtendByNothing(ParseStrictly(lines[1..], clock));
  }

  lemma ExtendTwice(a: seq<LogLine>, b: seq<LogLine>, rest: Outcome)
    ensures Extend(a, Extend(b, rest)) == Extend(a + b, rest)
  {
    if !rest.ReadFailed? {
      assert a + (b + rest.lines) == (a + b) + rest.lines;
    }
  }

  // ---------- the whole operation ----------

  /** The bytes delivered up to and including the read that reports an error. */
  function Received(stream: seq<Read>): seq<byte> {
    if stream == [] then []
    else if stream[0].error.Some? then stream[0].data
    else stream[0].data + Received(stream[1..])
  }

  predicate Breaks(stream: seq<Read>) {
    stream != [] && (stream[0].error == Some(Broken) || (stream[0].error.None? && Breaks(stream[1..])))
  }

  function AllData(chunks: seq<Read>): seq<byte> {
    if chunks == [] then [] else AllData(chunks[..|chunks| - 1]) + chunks[|chunks| - 1].data
  }

  /** What is received is all data up to the first read that reports an error, its own included, and the log can't be
      had exactly if that error is not the end of the file. Without any error everything is received. */
  lemma {:induction false} ReceivedToFirstError(before: seq<Read>, last: Read, after: seq<Read>)
    requires forall r :: r in before ==> r.error.None?
    ensures Received(before) == AllData(before) && !Breaks(before)
    ensures last.error.Some? ==>
              && Received(before + [last] + after) == AllData(before) + last.data
              && (Breaks(before + [last] + after) <==> last.error == Some(Broken))
  {
    if before == [] {
      assert before + [last] + after == [last] + after;
    } else {
      var rest := before[1..];
      assert (before + [last] + after)[1..] == rest + [last] + after && before[0] in before;
      ReceivedToFirstError(rest, last, after);
      FirstData(before);
      assert (before[0].data + AllData(rest)) + last.data == before[0].data + (AllData(rest) + last.data);
    }
  }

  lemma {:induction false} FirstData(chunks: seq<Read>)
    requires chunks != []
    ensures AllData(chunks) == chunks[0].data + AllData(chunks[1..])
  {
    var n := |chunks| - 1;
    if n == 0 {
      assert chunks[..0] == [] && chunks[1..] == [] && AllData(chunks) == [] + chunks[0].data;
    } else {
      FirstData(chunks[..n]);
      assert chunks[..n][1..] == chunks[1..][..n - 1];
      assert (chunks[0].data + AllData(chunks[1..n])) + chunks[n].data ==
             chunks[0].data + (AllData(chunks[1..n]) + chunks[n].data);
    }
  }

  lemma NextRead(stream: seq<Read>, i: nat)
    requires i < |stream|
    ensures stream[i].error.Some? ==> Received(stream[i..]) == stream[i].data
    ensures stream[i].error.None? ==> Received(stream[i..]) == stream[i].data + Received(stream[i + 1..])
    ensures Breaks(stream[i..]) ==
            (stream[i].error == Some(Broken) || (stream[i].error.None? && Breaks(stream[i + 1..])))
  {
    assert stream[i..][1..] == stream[i + 1..];
  }

  /** Reads the stream to its end into the buffer; a reader past its last read is at its end. */
  method ReadInto(buffer: CircularBuffer, stream: seq<Read>) returns (ok: bool)
    requires buffer.Valid() && buffer.capacity > 0
    modifies buffer, buffer.buf
    ensures buffer.Valid()
    ensures ok <==> !Breaks(stream)
    ensures buffer.written == old(buffer.written) + Received(stream)
  {
    ghost var all, broken := buffer.written + Received(stream), Breaks(stream);
    assert stream[0..] == stream && stream[|stream|..] == [];
    for i := 0 to |stream|
      invariant buffer.Valid()
      invariant buffer.written + Received(stream[i..]) == all
      invariant Breaks(stream[i..]) == broken
    {
      NextRead(stream, i);
      var data := stream[i].data;
      ghost var before := buffer.written;
      if |data| > 0 {
        buffer.Write(data);
      }
      assert buffer.written == before + data;
      if stream[i].error.Some? {
        return stream[i].error.value == EndOfFile;
      }
      assert (before + data) + Received(stream[i + 1..]) == before + (data + Received(stream[i + 1..]));
    }
    return true;
  }

  method ParseLines(lines: seq<Line>, clock: Clock) returns (result: Outcome)
    requires |lines| > 0
    ensures result == ParseRetained(lines, clock)
  {
    var logLines := [];
    for i := 0 to |lines|
      invariant i == 0 ==> logLines == []
      invariant i > 0 ==> ParseRetained(lines, clock) == Extend(logLines, ParseStrictly(lines[i..], clock))
    {
      assert lines[i..][1..] == lines[i + 1..];
      if |lines[i]| == 0 {
        continue;
      }
      var parsed := SplitLogLine(lines[i], clock);
      if i == 0 && parsed.None? {
        continue;
      } else if parsed.None? {
        return MalformedLine(logLines);
      }
      if i > 0 {
        ExtendTwice(logLines, [parsed.value], ParseStrictly(lines[i + 1..], clock));
      }
      logLines := logLines + [parsed.value];
    }
    return Parsed(logLines);
  }

  /** The lines of the log: every complete line of the stream that survived truncation, in order, preceded by
      whatever the possibly torn first line yields. A malformed complete line ends the parse. */
  method ParseLogs(stream: seq<Read>, clock: Clock) returns (result: Outcome)
    ensures Breaks(stream) ==> result == ReadFailed
    ensures !Breaks(stream) ==> IsLogOf(result, Received(stream), MAX_LOG_SIZE_BYTES, clock)
    ensures !Breaks(stream) && |Received(stream)| <= 10 * 1024 * 1024 ==>
              result == ParseRetained(Split(Received(stream)), clock)
  {
    result := ParseLogsWithin(MAX_LOG_SIZE_BYTES, stream, clock);
    if !Breaks(stream) && |Received(stream)| <= MAX_LOG_SIZE_BYTES {
      LogThatFits(Received(stream), MAX_LOG_SIZE_BYTES, clock, result);
    }
  }

  method ParseLogsWithin(capacity: nat, stream: seq<Read>, clock: Clock) returns (result: Outcome)
    requires capacity > 0
    ensures Breaks(stream) ==> result == ReadFailed
    ensures !Breaks(stream) ==> IsLogOf(result, Received(stream), capacity, clock)
  {
    var retained, ok := Retain(capacity, stream);
    if !ok {
      return ReadFailed;
    }
    var lines := Split(retained);
    result := ParseLines(lines, clock);
    RetainedIsLog(Received(stream), capacity, clock);
  }

  /** What is left of a stream: its last bytes, or zero bytes when there was nothing to read. */
  function Retained(stream: seq<byte>, capacity: nat): seq<byte> {
    if stream == [] then Zeros(capacity) else Last(stream, capacity)
  }

  method Retain(capacity: nat, stream: seq<Read>) returns (retained: seq<byte>, ok: bool)
    requires capacity > 0
    ensures ok <==> !Breaks(stream)
    ensures retained == Retained(Received(stream), capacity)
  {
    var buffer := new CircularBuffer(capacity);
    ok := ReadInto(buffer, stream);
    assert buffer.written == Received(stream);
    retained := buffer.Bytes();
  }

  /** What a reader is promised: at most one torn line and then complete lines of the stream, which together are
      exactly its last capacity bytes; the whole stream when it fits; nothing when it is empty. */
  ghost predicate IsLogOf(result: Outcome, stream: seq<byte>, capacity: nat, clock: Clock) {
    if stream == [] then result == Parsed([])
    else
      exists first: nat, torn: Line ::
        && first < |Split(stream)| && IsSuffixOf(torn, Split(stream)[first])
        && Join([torn] + Split(stream)[first + 1..]) == Last(stream, capacity)
        && (|stream| <= capacity ==> first == 0 && torn == Split(stream)[0])
        && result == Extend(Lenient(torn, clock), ParseStrictly(Split(stream)[first + 1..], clock))
  }

  lemma RetainedIsLog(stream: seq<byte>, capacity: nat, clock: Clock)
    ensures IsLogOf(ParseRetained(Split(Retained(stream, capacity)), clock), stream, capacity, clock)
  {
    if stream == [] {
      ZerosAreOneMalformedLine(capacity, clock);
    } else {
      TruncationKeepsWholeLines(stream, capacity);
      var all, kept := Split(stream), Split(Last(stream, capacity));
      var first := |all| - |kept|;
      SplitThenJoin(Last(stream, capacity));
      assert [kept[0]] + all[first + 1..] == kept;
      assert IsSuffixOf(kept[0], all[first]);
    }
  }

  /** An empty stream leaves the buffer's zero bytes, which form one unparseable first line. */
  lemma ZerosAreOneMalformedLine(n: nat, clock: Clock)
    ensures Split(Zeros(n)) == [Zeros(n)]
    ensures Lenient(Zeros(n), clock) == []
  {
    if n > 0 {
      assert Zeros(n)[1..] == Zeros(n - 1);
      ZerosAreOneMalformedLine(n - 1, clock);
      assert Zeros(n) == [0] + Zeros(n - 1);
    }
    var i := FirstSpace(Zeros(n));
    assert i == n;
  }
}
