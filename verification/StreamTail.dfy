/** Following an event stream: a bounded first read of the file's tail, then the bytes appended since. */
module StreamTail {
  import opened Options
  import opened Bytes
  import opened Lines
  import opened Sequences

  datatype Record = Malformed | NotAnObject | Object(kind: string, body: string)

  const NEWLINE_BYTE: byte := 10

  // Every character that ends a line for str.splitlines. A carriage return before a newline makes one
  // more empty piece here, which is blank and skipped.
  predicate IsLineBreak(c: char) {
    || '\n' <= c <= '\r' || '\U{1C}' <= c <= '\U{1E}'
    || c == '\U{85}' || c == '\U{2028}' || c == '\U{2029}'
  }

  predicate IsBlank(c: char) {
    IsLineBreak(c) || c == ' ' || c == '\t'
  }

  predicate Wanted(record: Record) {
    record.Object? && record.kind != "system" && record.kind != "rate_limit_event"
  }

  // ---- From text to events ----

  predicate Blank(text: string) {
    forall c | c in text :: IsBlank(c)
  }

  predicate OneLine(text: string) {
    forall c | c in text :: !IsLineBreak(c)
  }

  function EventOf(parse: string -> Record, line: string): seq<Record> {
    if Blank(line) then []
    else
      var record := parse(line);
      if Wanted(record) then [record] else []
  }

  function EventsOf(parse: string -> Record, lines: seq<string>): seq<Record> {
    if lines == [] then [] else EventsOf(parse, lines[..|lines| - 1]) + EventOf(parse, lines[|lines| - 1])
  }

  function EventsIn(parse: string -> Record, text: string): seq<Record> {
    EventsOf(parse, SplitAt(IsLineBreak, text))
  }

  lemma EventsStep(parse: string -> Record, lines: seq<string>, i: nat)
    requires i < |lines|
    ensures EventsOf(parse, lines[..i + 1]) == EventsOf(parse, lines[..i]) + EventOf(parse, lines[i])
  {
    assert lines[..i + 1][..i] == lines[..i];
  }

  // The line is not blank and parses to the record.
  predicate Shows(parse: string -> Record, line: string, record: Record) {
    !Blank(line) && parse(line) == record
  }

  lemma EventOfExact(parse: string -> Record, line: string, record: Record)
    ensures record in EventOf(parse, line)
       <==> record.Object? && record.kind != "system" && record.kind != "rate_limit_event" && Shows(parse, line, record)
    ensures |EventOf(parse, line)| <= 1
  {
  }

  lemma SomeLineShows(parse: string -> Record, lines: seq<string>, record: Record)
    requires lines != []
    ensures (exists line | line in lines :: Shows(parse, line, record))
       <==> (exists line | line in lines[..|lines| - 1] :: Shows(parse, line, record))
            || Shows(parse, lines[|lines| - 1], record)
  {
    var front, last := lines[..|lines| - 1], lines[|lines| - 1];
    assert lines == front + [last];
    assert last in lines && forall line | line in front :: line in lines;
  }

  /** The events of a list of lines are the objects that its lines parse to, system and rate limit events
      and blank lines excepted, and at most one for each line. */
  lemma {:induction false} EventsExact(parse: string -> Record, lines: seq<string>, record: Record)
    ensures record in EventsOf(parse, lines)
       <==> record.Object? && record.kind != "system" && record.kind != "rate_limit_event"
            && exists line | line in lines :: Shows(parse, line, record)
    ensures |EventsOf(parse, lines)| <= |lines|
  {
    if lines != [] {
      EventsExact(parse, lines[..|lines| - 1], record);
      SomeLineShows(parse, lines, record);
      EventOfExact(parse, lines[|lines| - 1], record);
    }
  }

  /** What decoding promises: a newline byte always decodes to a newline, on its own and apart from the
      bytes around it, and nothing else does. */
  ghost predicate SplitsAtNewlines(decode: seq<byte> -> string) {
    && decode([]) == ""
    && (forall a, b :: decode(a + [NEWLINE_BYTE] + b) == decode(a) + "\n" + decode(b))
    && (forall a | NEWLINE_BYTE !in a :: '\n' !in decode(a))
  }

  // The events that a full parse of the file gives.
  function FileEvents(decode: seq<byte> -> string, parse: string -> Record, file: seq<byte>): seq<Record> {
    EventsIn(parse, decode(file))
  }

  // ---- One read ----

  function TailStart(size: nat, offset: nat, maxTail: Option<int>): (r: (nat, bool)) {
    if offset == 0 && maxTail.Some? && 0 < maxTail.value < size then (size - maxTail.value, true)
    else (offset, false)
  }

  // The first position of a newline, or the length of the text.
  function NewlineIndex(text: string): (i: nat)
    ensures i <= |text|
    ensures forall j | 0 <= j < i :: text[j] != '\n'
    ensures i < |text| ==> text[i] == '\n'
  {
    if text == "" || text[0] == '\n' then 0 else 1 + NewlineIndex(text[1..])
  }

  function DropPartialFirstLine(text: string): string {
    var i := NewlineIndex(text);
    if i < |text| then text[i + 1..] else ""
  }

  function TailBytes(file: seq<byte>, start: nat): seq<byte> {
    if start <= |file| then file[start..] else []
  }

  datatype Reading = Reading(events: seq<Record>, offset: nat)

  function StartOf(file: seq<byte>, offset: nat, maxTail: Option<int>): nat {
    TailStart(|file|, offset, maxTail).0
  }

  // The text that one read gets to parse.
  function ContentFrom(decode: seq<byte> -> string, file: seq<byte>, offset: nat, maxTail: Option<int>): string {
    var content := decode(TailBytes(file, StartOf(file, offset, maxTail)));
    if TailStart(|file|, offset, maxTail).1 then DropPartialFirstLine(content) else content
  }

  function OffsetAfter(file: seq<byte>, offset: nat, maxTail: Option<int>): nat {
    var start := StartOf(file, offset, maxTail);
    start + |TailBytes(file, start)|
  }

  function ReadFrom(
    decode: seq<byte> -> string, parse: string -> Record, file: seq<byte>, offset: nat, maxTail: Option<int>
  ): Reading {
    Reading(EventsIn(parse, ContentFrom(decode, file, offset, maxTail)), OffsetAfter(file, offset, maxTail))
  }

  method ParseLines(parse: string -> Record, lines: seq<string>) returns (events: seq<Record>)
    ensures events == EventsOf(parse, lines)
  {
    events := [];
    for i := 0 to |lines|
      invariant events == EventsOf(parse, lines[..i])
    {
      EventsStep(parse, lines, i);
      if !Blank(lines[i]) {
        var record := parse(lines[i]);
        if Wanted(record) {
          events := events + [record];
        }
      }
    }
    assert lines[..|lines|] == lines;
  }

  method ReadText(decode: seq<byte> -> string, file: seq<byte>, offset: nat, maxTail: Option<int>)
    returns (content: string, newOffset: nat)
    ensures content == ContentFrom(decode, file, offset, maxTail)
    ensures newOffset == OffsetAfter(file, offset, maxTail)
  {
    var (start, dropPartial) := TailStart(|file|, offset, maxTail);
    var raw := TailBytes(file, start);
    newOffset := start + |raw|;
    content := decode(raw);
    if dropPartial {
      content := DropPartialFirstLine(content);
    }
  }

  // No file stands for a path that is not allowed, is missing or cannot be read.
  method ReadStreamIncremental(
    decode: seq<byte> -> string, parse: string -> Record, file: Option<seq<byte>>, offset: nat, maxTail: Option<int>
  ) returns (result: Option<Reading>)
    ensures file.None? ==> result.None?
    ensures file.Some? ==> result == Some(ReadFrom(decode, parse, file.value, offset, maxTail))
  {
    if file.None? {
      return None;
    }
    var content, newOffset := ReadText(decode, file.value, offset, maxTail);
    var events := ParseLines(parse, SplitAt(IsLineBreak, content));
    result := Some(Reading(events, newOffset));
  }

  // ---- Splitting a file at a line boundary ----

  predicate LineStart(file: seq<byte>, k: nat) {
    k <= |file| && (k == 0 || k == |file| || file[k - 1] == NEWLINE_BYTE)
  }

  predicate EndsLine(file: seq<byte>) {
    file == [] || file[|file| - 1] == NEWLINE_BYTE
  }

  lemma EventsAppend(parse: string -> Record, lines: seq<string>, line: string)
    ensures EventsOf(parse, lines + [line]) == EventsOf(parse, lines) + EventOf(parse, line)
  {
    assert (lines + [line])[..|lines|] == lines;
  }

  lemma {:induction false} EventsConcat(parse: string -> Record, a: seq<string>, b: seq<string>)
    ensures EventsOf(parse, a + b) == EventsOf(parse, a) + EventsOf(parse, b)
  {
    if b == [] {
      assert a + b == a;
    } else {
      var n := |b| - 1;
      EventsConcat(parse, a, b[..n]);
      EventsAppend(parse, a + b[..n], b[n]);
      assert a + b[..n] + [b[n]] == a + b;
      ConcatAssociates(EventsOf(parse, a), EventsOf(parse, b[..n]), EventOf(parse, b[n]));
    }
  }

  lemma EventsOfBlank(parse: string -> Record)
    ensures EventsOf(parse, [""]) == []
  {
    assert [""][..0] == [];
    assert EventOf(parse, "") == [];
  }

  lemma PiecesInTwoParts(parse: string -> Record, whole: seq<string>, rest: seq<string>)
    ensures EventsOf(parse, whole + rest) == EventsOf(parse, whole + [""]) + EventsOf(parse, rest)
  {
    var events := EventsOf(parse, whole);
    EventsConcat(parse, whole, rest);
    EventsConcat(parse, whole, [""]);
    EventsOfBlank(parse);
    assert events + [] == events;
  }

  lemma EventsInTwoParts(parse: string -> Record, a: string, b: string)
    requires AtBoundary(IsLineBreak, a)
    ensures EventsIn(parse, a + b) == EventsIn(parse, a) + EventsIn(parse, b)
  {
    var pieces := SplitAt(IsLineBreak, a);
    var whole := pieces[..|pieces| - 1];
    SplitConcat(IsLineBreak, a, b);
    assert pieces == whole + [""];
    PiecesInTwoParts(parse, whole, SplitAt(IsLineBreak, b));
  }

  // Text up to a newline and the text after it decode and parse independently.
  lemma LineEndParts(decode: seq<byte> -> string, parse: string -> Record, front: seq<byte>, b: seq<byte>)
    requires SplitsAtNewlines(decode)
    ensures FileEvents(decode, parse, front + [NEWLINE_BYTE] + b)
         == FileEvents(decode, parse, front + [NEWLINE_BYTE]) + FileEvents(decode, parse, b)
  {
    var a := front + [NEWLINE_BYTE];
    assert a == front + [NEWLINE_BYTE] + [];
    assert decode(a) == decode(front) + "\n";
    assert decode(a + b) == decode(a) + decode(b);
    EventsInTwoParts(parse, decode(a), decode(b));
  }

  lemma EventsOfParts(decode: seq<byte> -> string, parse: string -> Record, a: seq<byte>, b: seq<byte>)
    requires SplitsAtNewlines(decode) && LineStart(a + b, |a|)
    ensures FileEvents(decode, parse, a + b) == FileEvents(decode, parse, a) + FileEvents(decode, parse, b)
  {
    NoEventsInNoText(parse);
    if a == [] {
      assert a + b == b;
    } else if b == [] {
      assert a + b == a;
    } else {
      var front := a[..|a| - 1];
      assert (a + b)[|a| - 1] == a[|a| - 1];
      assert a == front + [NEWLINE_BYTE];
      LineEndParts(decode, parse, front, b);
    }
  }

  /** At the start of a line the file's events fall apart into those before and those after. */
  lemma FileInTwoParts(decode: seq<byte> -> string, parse: string -> Record, file: seq<byte>, k: nat)
    requires SplitsAtNewlines(decode) && LineStart(file, k)
    ensures FileEvents(decode, parse, file)
         == FileEvents(decode, parse, file[..k]) + FileEvents(decode, parse, file[k..])
  {
    assert file == file[..k] + file[k..];
    EventsOfParts(decode, parse, file[..k], file[k..]);
  }

  lemma NoEventsInNoText(parse: string -> Record)
    ensures EventsIn(parse, "") == []
  {
    EventsOfOneLine(parse, "");
  }

  lemma EventsOfOneLine(parse: string -> Record, text: string)
    requires OneLine(text)
    ensures EventsIn(parse, text) == EventOf(parse, text)
  {
    SplitWithoutBreaks(IsLineBreak, text);
    assert [text][..0] == [];
    assert EventsOf(parse, [text]) == EventsOf(parse, []) + EventOf(parse, text);
  }

  // ---- The first read ----

  // The first newline byte at or after the position, or the end of the file.
  function NewlineFrom(file: seq<byte>, start: nat): (i: nat)
    requires start <= |file|
    ensures start <= i <= |file|
    ensures NEWLINE_BYTE !in file[start..i]
    ensures i < |file| ==> file[i] == NEWLINE_BYTE
    decreases |file| - start
  {
    if start == |file| || file[start] == NEWLINE_BYTE then start else NewlineFrom(file, start + 1)
  }

  function LineAfter(file: seq<byte>, start: nat): (k: nat)
    requires start <= |file|
    ensures start <= k && LineStart(file, k)
    ensures forall j | start < j < k :: !LineStart(file, j)
  {
    var i := NewlineFrom(file, start);
    assert forall j | start <= j < i :: file[start..i][j - start] == file[j];
    if i < |file| then i + 1 else i
  }

  // Where the kept part of the file begins when it is first read.
  function KeptFrom(file: seq<byte>, maxTail: Option<int>): (k: nat)
    ensures LineStart(file, k)
  {
    if maxTail.Some? && 0 < maxTail.value < |file| then LineAfter(file, |file| - maxTail.value) else 0
  }

  lemma NewlineIndexIs(text: string, i: nat)
    requires i < |text| && text[i] == '\n' && forall j | 0 <= j < i :: text[j] != '\n'
    ensures NewlineIndex(text) == i
  {
  }

  lemma DropLine(line: string, rest: string)
    requires '\n' !in line
    ensures DropPartialFirstLine(line + "\n" + rest) == rest
  {
    var text := line + "\n" + rest;
    forall j | 0 <= j < |line| ensures text[j] != '\n' {
      assert text[j] == line[j] && line[j] in line;
    }
    NewlineIndexIs(text, |line|);
    assert text[|line| + 1..] == rest;
  }

  lemma DropEverything(text: string)
    requires '\n' !in text
    ensures DropPartialFirstLine(text) == ""
  {
    assert forall j | 0 <= j < |text| :: text[j] in text;
  }

  // Dropping the first decoded line is skipping to the next line of the file.
  lemma DroppingSkipsOneLine(decode: seq<byte> -> string, file: seq<byte>, start: nat)
    requires SplitsAtNewlines(decode) && start <= |file|
    ensures DropPartialFirstLine(decode(file[start..])) == decode(file[LineAfter(file, start)..])
  {
    var i := NewlineFrom(file, start);
    var front := file[start..i];
    if i < |file| {
      var rest := file[i + 1..];
      assert file[start..] == front + [NEWLINE_BYTE] + rest;
      DropLine(decode(front), decode(rest));
    } else {
      assert front == file[start..] && file[i..] == [];
      DropEverything(decode(front));
    }
  }

  lemma FirstContent(decode: seq<byte> -> string, file: seq<byte>, maxTail: Option<int>)
    requires SplitsAtNewlines(decode)
    ensures ContentFrom(decode, file, 0, maxTail) == decode(file[KeptFrom(file, maxTail)..])
    ensures OffsetAfter(file, 0, maxTail) == |file|
  {
    if maxTail.Some? && 0 < maxTail.value < |file| {
      DroppingSkipsOneLine(decode, file, |file| - maxTail.value);
    }
  }

  /** The first read gives exactly the events of the file from the kept position on, and leaves the
      offset at the end of the file. */
  lemma FirstRead(decode: seq<byte> -> string, parse: string -> Record, file: seq<byte>, maxTail: Option<int>)
    requires SplitsAtNewlines(decode)
    ensures ReadFrom(decode, parse, file, 0, maxTail)
         == Reading(FileEvents(decode, parse, file[KeptFrom(file, maxTail)..]), |file|)
  {
    FirstContent(decode, file, maxTail);
  }

  /** Every line that begins inside the window, after its first byte, is kept. */
  lemma WindowIsKept(decode: seq<byte> -> string, parse: string -> Record, file: seq<byte>, budget: nat, j: nat)
    requires SplitsAtNewlines(decode) && 0 < budget < |file|
    requires |file| - budget < j && LineStart(file, j)
    ensures var k := KeptFrom(file, Some(budget));
      && k <= j
      && ReadFrom(decode, parse, file, 0, Some(budget)).events
         == FileEvents(decode, parse, file[k..j]) + FileEvents(decode, parse, file[j..])
  {
    FirstRead(decode, parse, file, Some(budget));
    EventsFromLine(decode, parse, file, KeptFrom(file, Some(budget)), j);
  }

  lemma LineStartInRest(file: seq<byte>, k: nat, j: nat)
    requires LineStart(file, j) && k <= j
    ensures file[k..] == file[k..j] + file[j..] && LineStart(file[k..j] + file[j..], |file[k..j]|)
  {
  }

  lemma EventsFromLine(decode: seq<byte> -> string, parse: string -> Record, file: seq<byte>, k: nat, j: nat)
    requires SplitsAtNewlines(decode) && LineStart(file, j) && k <= j
    ensures FileEvents(decode, parse, file[k..])
         == FileEvents(decode, parse, file[k..j]) + FileEvents(decode, parse, file[j..])
  {
    LineStartInRest(file, k, j);
    EventsOfParts(decode, parse, file[k..j], file[j..]);
  }

  // ---- Following a growing file ----

  function AfterReads(
    decode: seq<byte> -> string, parse: string -> Record, files: seq<seq<byte>>, maxTail: Option<int>
  ): Reading {
    if files == [] then Reading([], 0)
    else Advanced(decode, parse, AfterReads(decode, parse, files[..|files| - 1], maxTail), files[|files| - 1], maxTail)
  }

  function Advanced(
    decode: seq<byte> -> string, parse: string -> Record, before: Reading, file: seq<byte>, maxTail: Option<int>
  ): Reading {
    var now := ReadFrom(decode, parse, file, before.offset, maxTail);
    Reading(before.events + now.events, now.offset)
  }

  // What a client has after following the file from position k.
  function Following(decode: seq<byte> -> string, parse: string -> Record, file: seq<byte>, k: nat): Reading
    requires k <= |file|
  {
    Reading(FileEvents(decode, parse, file[k..]), |file|)
  }

  function Latest(files: seq<seq<byte>>): seq<byte> {
    if files == [] then [] else files[|files| - 1]
  }

  // The file only grows, and is seen at a line boundary by every read but possibly the last one.
  predicate Grows(files: seq<seq<byte>>) {
    forall i | 0 <= i < |files| - 1 :: files[i] <= files[i + 1] && EndsLine(files[i])
  }

  // The position fixed by the first read that finds a non-empty file.
  function FollowedFrom(files: seq<seq<byte>>, maxTail: Option<int>): nat {
    if files == [] then 0
    else if Latest(files[..|files| - 1]) != [] then FollowedFrom(files[..|files| - 1], maxTail)
    else KeptFrom(Latest(files), maxTail)
  }

  lemma LaterContent(decode: seq<byte> -> string, file: seq<byte>, offset: nat, maxTail: Option<int>)
    requires 0 < offset <= |file|
    ensures ContentFrom(decode, file, offset, maxTail) == decode(file[offset..])
    ensures OffsetAfter(file, offset, maxTail) == |file|
  {
  }

  // The line starts of a file stay line starts as it grows, and so does its end.
  lemma GrownFile(seen: seq<byte>, file: seq<byte>, k: nat)
    requires seen != [] && seen <= file && EndsLine(seen) && LineStart(seen, k)
    ensures LineStart(file, k) && LineStart(file, |seen|) && file[k..|seen|] == seen[k..]
  {
  }

  lemma NextRead(
    decode: seq<byte> -> string, parse: string -> Record, seen: seq<byte>, file: seq<byte>, k: nat, maxTail: Option<int>
  )
    requires SplitsAtNewlines(decode) && seen != [] && seen <= file && EndsLine(seen) && LineStart(seen, k)
    ensures LineStart(file, k)
    ensures Advanced(decode, parse, Following(decode, parse, seen, k), file, maxTail)
         == Following(decode, parse, file, k)
  {
    GrownFile(seen, file, k);
    LaterContent(decode, file, |seen|, maxTail);
    EventsFromLine(decode, parse, file, k, |seen|);
  }

  lemma FirstAdvance(decode: seq<byte> -> string, parse: string -> Record, file: seq<byte>, maxTail: Option<int>)
    requires SplitsAtNewlines(decode)
    ensures Advanced(decode, parse, Reading([], 0), file, maxTail)
         == Following(decode, parse, file, KeptFrom(file, maxTail))
  {
    FirstRead(decode, parse, file, maxTail);
  }

  lemma {:induction false} ReadsFollowFile(
    decode: seq<byte> -> string, parse: string -> Record, files: seq<seq<byte>>, maxTail: Option<int>
  )
    requires SplitsAtNewlines(decode) && Grows(files)
    ensures LineStart(Latest(files), FollowedFrom(files, maxTail))
    ensures AfterReads(decode, parse, files, maxTail)
         == Following(decode, parse, Latest(files), FollowedFrom(files, maxTail))
  {
    NoEventsInNoText(parse);
    if files != [] {
      var front, file := files[..|files| - 1], files[|files| - 1];
      ReadsFollowFile(decode, parse, front, maxTail);
      if Latest(front) != [] {
        NextRead(decode, parse, Latest(front), file, FollowedFrom(front, maxTail), maxTail);
      } else {
        FirstAdvance(decode, parse, file, maxTail);
      }
    }
  }

  /** A bounded first read and any number of later reads at line boundaries collect a suffix of the
      events of the whole file, whole records only and each of them once. */
  lemma ReadsGiveSuffix(
    decode: seq<byte> -> string, parse: string -> Record, files: seq<seq<byte>>, maxTail: Option<int>
  )
    requires SplitsAtNewlines(decode) && Grows(files)
    ensures var all := FileEvents(decode, parse, Latest(files));
            var k := FollowedFrom(files, maxTail);
            var followed := AfterReads(decode, parse, files, maxTail);
            && LineStart(Latest(files), k)
            && all == FileEvents(decode, parse, Latest(files)[..k]) + followed.events
            && followed.offset == |Latest(files)|
            && (maxTail.None? ==> followed.events == all)
  {
    ReadsFollowFile(decode, parse, files, maxTail);
    FileInTwoParts(decode, parse, Latest(files), FollowedFrom(files, maxTail));
    if maxTail.None? {
      UnboundedReadsStartAtZero(files);
    }
  }

  lemma {:induction false} UnboundedReadsStartAtZero(files: seq<seq<byte>>)
    ensures FollowedFrom(files, None) == 0
  {
    if files != [] {
      UnboundedReadsStartAtZero(files[..|files| - 1]);
    }
  }

  lemma UnusableLine(parse: string -> Record, text: string)
    requires OneLine(text) && parse(text).Malformed?
    ensures EventsIn(parse, text) == []
  {
    EventsOfOneLine(parse, text);
  }

  // One character for each byte: newlines, and letters for everything else.
  function PlainText(bytes: seq<byte>): string {
    seq(|bytes|, i requires 0 <= i < |bytes| => if bytes[i] == NEWLINE_BYTE then '\n' else 'a')
  }

  lemma PlainTextSplits()
    ensures SplitsAtNewlines(PlainText)
  {
    forall a, b ensures PlainText(a + [NEWLINE_BYTE] + b) == PlainText(a) + "\n" + PlainText(b) {
    }
  }

  function AnyRecord(line: string): Record {
    Object("", "")
  }

  // When the first part leaves a line open, its record is read twice.
  lemma OpenRecordIsReadTwice(a: seq<byte>)
    requires !EndsLine(a)
    ensures |FileEvents(PlainText, AnyRecord, a) + FileEvents(PlainText, AnyRecord, [0])|
         == |FileEvents(PlainText, AnyRecord, a + [0])| + 1
  {
    var text := PlainText(a);
    var pieces := SplitAt(IsLineBreak, text);
    var whole, open := pieces[..|pieces| - 1], pieces[|pieces| - 1];
    assert text[|text| - 1] == 'a';
    OpenLine(IsLineBreak, text, 'a');
    assert PlainText(a + [0]) == text + ['a'];
    assert pieces == whole + [open];
    EventsAppend(AnyRecord, whole, open);
    EventsAppend(AnyRecord, whole, open + ['a']);
    OneRecord(open);
    OneRecord(open + ['a']);
    assert PlainText([0]) == "a";
    EventsOfOneLine(AnyRecord, "a");
    OneRecord("a");
  }

  lemma OneRecord(line: string)
    requires line != "" && line[|line| - 1] == 'a'
    ensures |EventOf(AnyRecord, line)| == 1
  {
    assert line[|line| - 1] in line && !IsBlank('a');
  }

  /** Two reads that meet at some position collect the events of the whole file, whatever the records and
      the rest of the file are, if and only if that position is the end of a line. */
  lemma ReadsAgreeExactlyAtLineEnds(a: seq<byte>)
    ensures (forall decode, parse, b | SplitsAtNewlines(decode) ::
              FileEvents(decode, parse, a) + FileEvents(decode, parse, b) == FileEvents(decode, parse, a + b))
       <==> EndsLine(a)
  {
    if EndsLine(a) {
      forall decode, parse, b | SplitsAtNewlines(decode)
        ensures FileEvents(decode, parse, a) + FileEvents(decode, parse, b) == FileEvents(decode, parse, a + b)
      {
        assert LineStart(a + b, |a|) by {
          assert a != [] ==> (a + b)[|a| - 1] == a[|a| - 1];
        }
        EventsOfParts(decode, parse, a, b);
      }
    } else {
      PlainTextSplits();
      OpenRecordIsReadTwice(a);
      assert FileEvents(PlainText, AnyRecord, a) + FileEvents(PlainText, AnyRecord, [0])
          != FileEvents(PlainText, AnyRecord, a + [0]);
    }
  }

  /** A record first seen half written is lost: neither read parses, although the whole file does. */
  lemma HalfWrittenRecordIsLost(decode: seq<byte> -> string, parse: string -> Record, line: seq<byte>, k: nat)
    requires 0 < k < |line|
    requires var a, b, whole := decode(line[..k]), decode(line[k..]), decode(line);
      && OneLine(a) && OneLine(b) && OneLine(whole) && !Blank(whole)
      && parse(a).Malformed? && parse(b).Malformed?
      && Wanted(parse(whole))
    ensures AfterReads(decode, parse, [line[..k], line], None).events == []
    ensures FileEvents(decode, parse, line) == [parse(decode(line))]
  {
    var first := line[..k];
    assert first[0..] == first;
    LaterContent(decode, line, k, None);
    UnusableLine(parse, decode(first));
    UnusableLine(parse, decode(line[k..]));
    EventsOfOneLine(parse, decode(line));
    assert Advanced(decode, parse, Reading([], 0), first, None) == Reading([], k);
    TwoReads(decode, parse, first, line);
  }

  lemma TwoReads(decode: seq<byte> -> string, parse: string -> Record, a: seq<byte>, b: seq<byte>)
    ensures AfterReads(decode, parse, [a, b], None)
         == Advanced(decode, parse, Advanced(decode, parse, Reading([], 0), a, None), b, None)
  {
    assert [a][..0] == [] && [a, b][..1] == [a];
    assert AfterReads(decode, parse, [a], None) == Advanced(decode, parse, Reading([], 0), a, None);
  }
}
