/** Lifecycle events of a pipeline run and the state derived from a stream of them. */
module LifecycleEvents {
  import opened Options
  import opened Sequences

  datatype Action = Started | Paused | Resumed | Cancelled | PhaseComplete

  // A validated event. phase is None when the field is missing or not a string.
  datatype Event = Event(
    action: Action, ts: string, phase: Option<string>, phaseAtPause: Option<string>, tmuxSession: Option<string>)

  // What a stream line is: not a lifecycle event; a lifecycle event that fails validation, with the
  // phase it still names as complete; or a valid event.
  datatype Line = Ignored | Rejected(completed: Option<string>) | Valid(event: Event)

  datatype Status = StatusIdle | StatusRunning | StatusPaused | StatusCancelled

  datatype Derived = Derived(
    status: Status,
    phaseAtPause: Option<string>,
    lastPhaseComplete: Option<string>,
    startedAt: Option<string>,
    tmuxSession: Option<string>)

  const INITIAL := Derived(StatusIdle, None, None, None, None)

  predicate NamesPhase(phase: Option<string>) {
    phase.Some? && phase.value != ""
  }

  function ApplyAction(d: Derived, e: Event): Derived {
    match e.action
    case Started => d.(status := StatusRunning, startedAt := Some(e.ts), phaseAtPause := None)
    case Resumed => d.(status := StatusRunning, phaseAtPause := None)
    case PhaseComplete =>
      d.(status := StatusRunning, phaseAtPause := None,
         lastPhaseComplete := if NamesPhase(e.phase) then e.phase else d.lastPhaseComplete)
    case Paused => d.(status := StatusPaused, phaseAtPause := e.phaseAtPause)
    case Cancelled => d.(status := StatusCancelled, phaseAtPause := None)
  }

  function ApplyLine(d: Derived, line: Line): Derived {
    if !line.Valid? then d
    else
      var named := if NamesPhase(line.event.tmuxSession) then d.(tmuxSession := line.event.tmuxSession) else d;
      ApplyAction(named, line.event)
  }

  function Folded(d: Derived, lines: seq<Line>): Derived {
    if lines == [] then d else ApplyLine(Folded(d, lines[..|lines| - 1]), lines[|lines| - 1])
  }

  lemma FoldedOne(d: Derived, line: Line)
    ensures Folded(d, [line]) == ApplyLine(d, line)
  {
    assert [line][..0] == [];
    assert Folded(d, [line]) == ApplyLine(Folded(d, [line][..0]), line);
  }

  lemma {:induction false} FoldedConcat(d: Derived, a: seq<Line>, b: seq<Line>)
    ensures Folded(d, a + b) == Folded(Folded(d, a), b)
  {
    if b == [] {
      assert a + b == a;
    } else {
      FoldedConcat(d, a, b[..|b| - 1]);
      assert (a + b)[..|a + b| - 1] == a + b[..|b| - 1];
    }
  }

  // ---- Closed form of the derived state ----

  // The last valid event with a given property.
  function LastEvent(lines: seq<Line>, p: Event -> bool): Option<Event> {
    if lines == [] then None else
      var line := lines[|lines| - 1];
      if line.Valid? && p(line.event) then Some(line.event) else LastEvent(lines[..|lines| - 1], p)
  }

  lemma {:induction false} LastEventIsLast(lines: seq<Line>, p: Event -> bool)
    ensures match LastEvent(lines, p)
      case None => forall j | 0 <= j < |lines| :: !(lines[j].Valid? && p(lines[j].event))
      case Some(e) => p(e) && exists i | 0 <= i < |lines| ::
        lines[i] == Valid(e) && forall j | i < j < |lines| :: !(lines[j].Valid? && p(lines[j].event))
  {
    if lines != [] {
      var n := |lines| - 1;
      LastEventIsLast(lines[..n], p);
      if !(lines[n].Valid? && p(lines[n].event)) && LastEvent(lines[..n], p).Some? {
        var e := LastEvent(lines[..n], p).value;
        var i :| 0 <= i < n && lines[..n][i] == Valid(e)
          && forall j | i < j < n :: !(lines[..n][j].Valid? && p(lines[..n][j].event));
        assert lines[i] == Valid(e);
        assert forall j | i < j < n :: lines[j] == lines[..n][j];
      }
    }
  }

  predicate CompletesPhase(e: Event) {
    e.action.PhaseComplete? && NamesPhase(e.phase)
  }

  function StatusAfter(a: Action): Status {
    match a
    case Paused => StatusPaused
    case Cancelled => StatusCancelled
    case _ => StatusRunning
  }

  /** The status is decided by the last valid event alone, a phase at pause is kept only while that
      event is a pause, and the other fields come from the last event that sets them. */
  lemma {:induction false} DerivedClosedForm(lines: seq<Line>)
    ensures var d := Folded(INITIAL, lines);
      var last := LastEvent(lines, (e: Event) => true);
      && d.status == (if last.None? then StatusIdle else StatusAfter(last.value.action))
      && d.phaseAtPause == (if last.Some? && last.value.action.Paused? then last.value.phaseAtPause else None)
    ensures var d := Folded(INITIAL, lines);
      var started := LastEvent(lines, (e: Event) => e.action.Started?);
      d.startedAt == if started.None? then None else Some(started.value.ts)
    ensures var d := Folded(INITIAL, lines);
      var completed := LastEvent(lines, CompletesPhase);
      d.lastPhaseComplete == if completed.None? then None else completed.value.phase
    ensures var d := Folded(INITIAL, lines);
      var named := LastEvent(lines, (e: Event) => NamesPhase(e.tmuxSession));
      d.tmuxSession == if named.None? then None else named.value.tmuxSession
  {
    if lines != [] {
      DerivedClosedForm(lines[..|lines| - 1]);
    }
  }

  // ---- The phase to resume from ----

  // The scan of the resume helper reads the phase of any complete event, valid or not.
  function CompletedPhase(line: Line): Option<string> {
    match line
    case Ignored => None
    case Rejected(completed) => if NamesPhase(completed) then completed else None
    case Valid(e) => if e.action.PhaseComplete? && NamesPhase(e.phase) then e.phase else None
  }

  function LastCompleted(lines: seq<Line>): Option<string> {
    if lines == [] then None
    else if CompletedPhase(lines[|lines| - 1]).Some? then CompletedPhase(lines[|lines| - 1])
    else LastCompleted(lines[..|lines| - 1])
  }

  method ScanLastPhaseComplete(lines: seq<Line>) returns (candidate: Option<string>)
    ensures candidate == LastCompleted(lines)
  {
    candidate := None;
    for i := 0 to |lines|
      invariant candidate == LastCompleted(lines[..i])
    {
      assert lines[..i + 1][..i] == lines[..i];
      var phase := CompletedPhase(lines[i]);
      if phase.Some? {
        candidate := phase;
      }
    }
    assert lines[..|lines|] == lines;
  }

  /** The status view and the resume scan agree on the last completed phase whenever no rejected line
      names one. */
  lemma {:induction false} ScanAgreesWithStatus(lines: seq<Line>)
    requires forall l | l in lines && l.Rejected? :: !NamesPhase(l.completed)
    ensures Folded(INITIAL, lines).lastPhaseComplete == LastCompleted(lines)
  {
    if lines != [] {
      ScanAgreesWithStatus(lines[..|lines| - 1]);
    }
  }

  // The last line that names a completed phase, valid or rejected.
  function LastNaming(lines: seq<Line>): Option<Line> {
    if lines == [] then None
    else if CompletedPhase(lines[|lines| - 1]).Some? then Some(lines[|lines| - 1])
    else LastNaming(lines[..|lines| - 1])
  }

  lemma {:induction false} ScanReadsLastNaming(lines: seq<Line>)
    ensures LastNaming(lines).None? ==> LastCompleted(lines) == None && LastEvent(lines, CompletesPhase) == None
    ensures LastNaming(lines).Some? ==> LastCompleted(lines) == CompletedPhase(LastNaming(lines).value)
    ensures LastNaming(lines).Some? && LastNaming(lines).value.Valid? ==>
      LastEvent(lines, CompletesPhase) == Some(LastNaming(lines).value.event)
  {
    if lines != [] {
      ScanReadsLastNaming(lines[..|lines| - 1]);
    }
  }

  /** The resume scan and the status agree if and only if no line names a completion, or the last line
      that does is valid, or it names the phase of the last valid completion. */
  lemma ScanAgreesExactlyWhen(lines: seq<Line>)
    ensures LastCompleted(lines) == Folded(INITIAL, lines).lastPhaseComplete
       <==> match LastNaming(lines)
            case None => true
            case Some(line) =>
              || line.Valid?
              || (LastEvent(lines, CompletesPhase).Some?
                  && LastEvent(lines, CompletesPhase).value.phase == CompletedPhase(line))
  {
    ScanReadsLastNaming(lines);
    DerivedClosedForm(lines);
    CompletionNamesPhase(lines);
  }

  lemma {:induction false} CompletionNamesPhase(lines: seq<Line>)
    ensures LastNaming(lines).Some? ==> CompletedPhase(LastNaming(lines).value).Some?
  {
    if lines != [] {
      CompletionNamesPhase(lines[..|lines| - 1]);
    }
  }

  // Otherwise they disagree: a rejected completion is resumed from but not shown.
  lemma RejectedCompletionDisagrees(phase: string)
    requires phase != ""
    ensures LastCompleted([Rejected(Some(phase))]) == Some(phase)
    ensures Folded(INITIAL, [Rejected(Some(phase))]).lastPhaseComplete == None
  {
    assert [Rejected(Some(phase))][..0] == [];
  }

  function IndexOf(order: seq<string>, phase: string): (i: nat)
    requires phase in order
    ensures i < |order| && order[i] == phase && phase !in order[..i]
  {
    if order[0] == phase then 0 else
      var i := 1 + IndexOf(order[1..], phase);
      assert order[..i] == [order[0]] + order[1..][..i - 1];
      i
  }

  // An unknown phase falls back to the first one.
  function NextPhase(last: Option<string>, order: seq<string>): Option<string>
    requires order != []
  {
    if last.None? || last.value !in order then Some(order[0])
    else
      var i := IndexOf(order, last.value);
      if i + 1 < |order| then Some(order[i + 1]) else None
  }

  function Completion(phase: string): Line {
    Valid(Event(PhaseComplete, "", Some(phase), None, None))
  }

  // The stream after k rounds of completing whatever phase comes next.
  function AfterRounds(lines: seq<Line>, order: seq<string>, k: nat): seq<Line>
    requires order != []
  {
    if k == 0 then lines else OneRound(AfterRounds(lines, order, k - 1), order)
  }

  function OneRound(lines: seq<Line>, order: seq<string>): seq<Line>
    requires order != []
  {
    match NextPhase(LastCompleted(lines), order)
    case None => lines
    case Some(phase) => lines + [Completion(phase)]
  }

  function Completions(order: seq<string>, k: nat): seq<Line>
    requires k <= |order|
  {
    if k == 0 then [] else Completions(order, k - 1) + [Completion(order[k - 1])]
  }

  predicate DistinctPhases(order: seq<string>) {
    order != [] && "" !in order && Distinct(order)
  }

  lemma NextAfter(order: seq<string>, i: nat)
    requires DistinctPhases(order) && i < |order|
    ensures NextPhase(Some(order[i]), order) == if i + 1 < |order| then Some(order[i + 1]) else None
  {
  }

  lemma CompletedLast(lines: seq<Line>, phase: string)
    requires phase != ""
    ensures LastCompleted(lines + [Completion(phase)]) == Some(phase)
  {
  }

  lemma RoundStep(before: seq<Line>, order: seq<string>, k: nat)
    requires DistinctPhases(order) && k < |order|
    requires NextPhase(LastCompleted(before), order) == Some(order[k])
    ensures OneRound(before, order) == before + [Completion(order[k])]
    ensures NextPhase(LastCompleted(OneRound(before, order)), order)
         == if k + 1 < |order| then Some(order[k + 1]) else None
  {
    assert order[k] in order;
    CompletedLast(before, order[k]);
    NextAfter(order, k);
  }

  /** Starting without a completed phase, the next phase after k rounds of completing it is the k-th
      of a duplicate-free order, and after the last one there is none. */
  lemma {:induction false} NextAfterRounds(lines: seq<Line>, order: seq<string>, k: nat)
    requires DistinctPhases(order) && LastCompleted(lines) == None && k <= |order|
    ensures NextPhase(LastCompleted(AfterRounds(lines, order, k)), order)
         == if k < |order| then Some(order[k]) else None
  {
    if k > 0 {
      NextAfterRounds(lines, order, k - 1);
      RoundStep(AfterRounds(lines, order, k - 1), order, k - 1);
    }
  }

  lemma OneMoreRound(lines: seq<Line>, order: seq<string>, k: nat)
    requires DistinctPhases(order) && LastCompleted(lines) == None && k < |order|
    ensures AfterRounds(lines, order, k + 1) == AfterRounds(lines, order, k) + [Completion(order[k])]
  {
    NextAfterRounds(lines, order, k);
    RoundStep(AfterRounds(lines, order, k), order, k);
  }

  /** So the rounds go through the order once, from first to last, and then stop. */
  lemma {:induction false} RoundsWalkTheOrder(lines: seq<Line>, order: seq<string>, k: nat)
    requires DistinctPhases(order) && LastCompleted(lines) == None && k <= |order|
    ensures AfterRounds(lines, order, k) == lines + Completions(order, k)
  {
    var done := Completions(order, k);
    if k == 0 {
      assert lines + done == lines;
    } else {
      RoundsWalkTheOrder(lines, order, k - 1);
      var before, next := Completions(order, k - 1), [Completion(order[k - 1])];
      OneMoreRound(lines, order, k - 1);
      assert AfterRounds(lines, order, k) == lines + before + next && done == before + next;
      ConcatAssociates(lines, before, next);
    }
  }
}

/** The per-target cache that reads only the bytes appended since the previous poll. */
module LifecycleStatus {
  import opened Options
  import opened Lines
  import opened LifecycleEvents

  predicate IsNewline(c: char) {
    c == '\n'
  }

  predicate Blank(text: string) {
    forall c | c in text :: c in " \t\r\n"
  }

  function Parsed(parse: string -> Line, text: string): Line {
    if Blank(text) then Ignored else parse(text)
  }

  function ParsedAll(parse: string -> Line, pieces: seq<string>): seq<Line> {
    seq(|pieces|, i requires 0 <= i < |pieces| => Parsed(parse, pieces[i]))
  }

  function FoldText(d: Derived, parse: string -> Line, text: string): Derived {
    Folded(d, ParsedAll(parse, SplitAt(IsNewline, text)))
  }

  // The state of a stream, computed from its whole content.
  function Replay(parse: string -> Line, content: string): Derived {
    FoldText(INITIAL, parse, content)
  }

  datatype Cache = Cache(offset: nat, derived: Derived)

  const EMPTY_CACHE := Cache(0, INITIAL)

  // What one poll sees of the file: its size first, and its content when it is read after that.
  datatype Observation =
    | Missing
    | StatFails
    | OpenFails(size: nat)
    | Read(size: nat, content: string)

  function Tail(content: string, offset: nat): string {
    if offset <= |content| then content[offset..] else ""
  }

  function AfterPoll(c: Cache, parse: string -> Line, seen: Observation): Cache {
    match seen
    case Missing => c
    case StatFails => c
    case OpenFails(size) => if size < c.offset then EMPTY_CACHE else c
    case Read(size, content) =>
      var kept := if size < c.offset then EMPTY_CACHE else c;
      if size == kept.offset then kept
      else
        var raw := Tail(content, kept.offset);
        Cache(kept.offset + |raw|, FoldText(kept.derived, parse, raw))
  }

  // A session that is not alive is not reported for a running or paused target.
  function Reported(d: Derived, live: set<string>): Derived {
    if (d.status.StatusRunning? || d.status.StatusPaused?) && NamesPhase(d.tmuxSession) && d.tmuxSession.value !in live
    then d.(tmuxSession := None) else d
  }

  class StatusCache {
    const parse: string -> Line
    var byteOffset: nat
    var derived: Derived

    ghost function View(): Cache
      reads this
    {
      Cache(byteOffset, derived)
    }

    constructor (parse: string -> Line)
      ensures this.parse == parse && View() == EMPTY_CACHE
    {
      this.parse := parse;
      byteOffset, derived := 0, INITIAL;
    }

    method ApplyText(raw: string)
      modifies this`derived
      ensures derived == FoldText(old(derived), parse, raw)
    {
      var pieces := SplitAt(IsNewline, raw);
      ghost var lines := ParsedAll(parse, pieces);
      for i := 0 to |pieces|
        invariant derived == Folded(old(derived), lines[..i])
      {
        assert lines[..i + 1][..i] == lines[..i];
        derived := ApplyLine(derived, Parsed(parse, pieces[i]));
      }
      assert lines[..|pieces|] == lines;
    }

    method DeriveStatus(seen: Observation, live: set<string>) returns (status: Derived)
      modifies this`byteOffset, this`derived
      ensures View() == AfterPoll(old(View()), parse, seen)
      ensures status == Reported(derived, live)
    {
      if seen.OpenFails? || seen.Read? {
        if seen.size < byteOffset {
          byteOffset, derived := 0, INITIAL;
        }
        if seen.Read? && seen.size != byteOffset {
          var raw := Tail(seen.content, byteOffset);
          byteOffset := byteOffset + |raw|;
          ApplyText(raw);
        }
      }
      status := Reported(derived, live);
    }
  }

  // ---- The cache against replaying the whole stream ----

  lemma FoldPieces(d: Derived, parse: string -> Line, a: seq<string>, b: seq<string>)
    ensures Folded(d, ParsedAll(parse, a + b)) == Folded(Folded(d, ParsedAll(parse, a)), ParsedAll(parse, b))
  {
    assert ParsedAll(parse, a + b) == ParsedAll(parse, a) + ParsedAll(parse, b);
    FoldedConcat(d, ParsedAll(parse, a), ParsedAll(parse, b));
  }

  lemma FoldNothing(d: Derived, parse: string -> Line)
    ensures Folded(d, ParsedAll(parse, [""])) == d
  {
    assert ParsedAll(parse, [""]) == [Ignored];
    FoldedOne(d, Ignored);
  }

  // Reading a stream in two parts at a line boundary is reading it at once.
  lemma FoldInTwoParts(d: Derived, parse: string -> Line, a: string, b: string)
    requires AtBoundary(IsNewline, a)
    ensures FoldText(d, parse, a + b) == FoldText(FoldText(d, parse, a), parse, b)
  {
    var pieces, rest := SplitAt(IsNewline, a), SplitAt(IsNewline, b);
    var whole := pieces[..|pieces| - 1];
    SplitConcat(IsNewline, a, b);
    assert pieces == whole + [""];
    FoldPieces(d, parse, whole, rest);
    FoldPieces(d, parse, whole, [""]);
    FoldNothing(Folded(d, ParsedAll(parse, whole)), parse);
  }

  // The cache reflects exactly the content f, which ends at a line boundary.
  ghost predicate Coherent(c: Cache, parse: string -> Line, f: string) {
    AtBoundary(IsNewline, f) && c == Cache(|f|, Replay(parse, f))
  }

  // An append-only stream, or one detected as truncated; always seen at line boundaries.
  predicate LegalObservation(f: string, seen: Observation) {
    match seen
    case Read(size, content) =>
      AtBoundary(IsNewline, content) && size <= |content| && (size < |f| || f <= content)
    case _ => true
  }

  // The content a coherent cache reflects after a poll.
  function ReflectedAfter(f: string, seen: Observation): string {
    match seen
    case OpenFails(size) => if size < |f| then "" else f
    case Read(size, content) =>
      if size < |f| then if size == 0 then "" else content
      else if size == |f| then f else content
    case _ => f
  }

  lemma PollStaysCoherent(c: Cache, parse: string -> Line, f: string, seen: Observation)
    requires Coherent(c, parse, f) && LegalObservation(f, seen)
    ensures Coherent(AfterPoll(c, parse, seen), parse, ReflectedAfter(f, seen))
  {
    NothingRead(parse);
    if seen.Read? {
      if seen.size < |f| {
        assert seen.content[0..] == seen.content;
      } else {
        FoldInTwoParts(INITIAL, parse, f, seen.content[|f|..]);
        assert f + seen.content[|f|..] == seen.content;
      }
    }
  }

  lemma NothingRead(parse: string -> Line)
    ensures Replay(parse, "") == INITIAL
  {
    assert ParsedAll(parse, SplitAt(IsNewline, "")) == [Ignored];
    FoldedOne(INITIAL, Ignored);
  }

  function AfterPolls(c: Cache, parse: string -> Line, polls: seq<Observation>): Cache {
    if polls == [] then c else AfterPoll(AfterPolls(c, parse, polls[..|polls| - 1]), parse, polls[|polls| - 1])
  }

  function Reflected(polls: seq<Observation>): string {
    if polls == [] then "" else ReflectedAfter(Reflected(polls[..|polls| - 1]), polls[|polls| - 1])
  }

  ghost predicate LegalPolls(polls: seq<Observation>) {
    forall i | 0 <= i < |polls| :: LegalObservation(Reflected(polls[..i]), polls[i])
  }

  /** After any sequence of polls of an append-only stream seen at line boundaries, with polls where
      the file is missing or unreadable and truncations detected in between, the cached state is the
      state of replaying the whole reflected content. */
  lemma {:induction false} CacheEqualsReplay(parse: string -> Line, polls: seq<Observation>)
    requires LegalPolls(polls)
    ensures Coherent(AfterPolls(EMPTY_CACHE, parse, polls), parse, Reflected(polls))
  {
    if polls == [] {
      NothingRead(parse);
    } else {
      var n := |polls| - 1;
      assert forall i | 0 <= i < n :: polls[..n][..i] == polls[..i];
      CacheEqualsReplay(parse, polls[..n]);
      PollStaysCoherent(AfterPolls(EMPTY_CACHE, parse, polls[..n]), parse, Reflected(polls[..n]), polls[n]);
    }
  }

  /** In particular a poll that reads what it measured returns the state of the whole file. */
  lemma CurrentPollIsExact(parse: string -> Line, polls: seq<Observation>, content: string)
    requires LegalPolls(polls + [Read(|content|, content)])
    ensures AfterPolls(EMPTY_CACHE, parse, polls + [Read(|content|, content)]).derived == Replay(parse, content)
  {
    var all := polls + [Read(|content|, content)];
    var f := Reflected(polls);
    assert all[..|polls|] == polls;
    assert LegalObservation(Reflected(all[..|polls|]), all[|polls|]);
    assert |content| == |f| ==> content == f;
    CacheEqualsReplay(parse, all);
  }

  // ---- Why line boundaries and detection matter ----

  lemma FoldOneLine(d: Derived, parse: string -> Line, text: string)
    requires '\n' !in text
    ensures FoldText(d, parse, text) == ApplyLine(d, Parsed(parse, text))
  {
    SplitWithoutBreaks(IsNewline, text);
    assert ParsedAll(parse, [text]) == [Parsed(parse, text)];
    FoldedOne(d, Parsed(parse, text));
  }

  lemma LastLineApplied(d: Derived, parse: string -> Line, lines: seq<string>, text: string)
    ensures Folded(d, ParsedAll(parse, lines + [text]))
         == ApplyLine(Folded(d, ParsedAll(parse, lines)), Parsed(parse, text))
  {
    FoldPieces(d, parse, lines, [text]);
    assert ParsedAll(parse, [text]) == [Parsed(parse, text)];
    FoldedOne(Folded(d, ParsedAll(parse, lines)), Parsed(parse, text));
  }

  // A grammar in which the given line cancels and every other one starts.
  function CancelledBy(line: string): string -> Line {
    text => Valid(Event(if text == line then Cancelled else Started, "", None, None, None))
  }

  // When the first part leaves a line open, its completion is read as a line of its own.
  lemma OpenLineIsMisread(a: string)
    requires !AtBoundary(IsNewline, a)
    ensures exists parse, b :: FoldText(FoldText(INITIAL, parse, a), parse, b) != Replay(parse, a + b)
  {
    var pieces := SplitAt(IsNewline, a);
    var open := pieces[|pieces| - 1];
    var parse := CancelledBy(open + "x");
    OpenLine(IsNewline, a, 'x');
    LastLineApplied(INITIAL, parse, pieces[..|pieces| - 1], open + "x");
    assert !Blank(open + "x") by {
      assert 'x' in open + "x";
    }
    assert Replay(parse, a + "x").status == StatusCancelled;
    FoldOneLine(FoldText(INITIAL, parse, a), parse, "x");
    assert !Blank("x") by {
      assert 'x' in "x";
    }
    assert FoldText(FoldText(INITIAL, parse, a), parse, "x").status == StatusRunning;
  }

  /** Reading a stream in two parts gives the state of the whole, whatever the events and the rest of the
      stream are, if and only if the first part ends at a line boundary. */
  lemma PartsAgreeExactlyAtBoundaries(a: string)
    ensures (forall parse, b :: FoldText(FoldText(INITIAL, parse, a), parse, b) == Replay(parse, a + b))
       <==> AtBoundary(IsNewline, a)
  {
    if AtBoundary(IsNewline, a) {
      forall parse, b ensures FoldText(FoldText(INITIAL, parse, a), parse, b) == Replay(parse, a + b) {
        FoldInTwoParts(INITIAL, parse, a, b);
      }
    } else {
      OpenLineIsMisread(a);
    }
  }

  /** A line that is first seen half written is never applied: the cache then misses an event that a
      replay of the file shows. */
  lemma HalfWrittenLineIsLost(parse: string -> Line, text: string, k: nat, e: Event)
    requires 0 < k < |text| && '\n' !in text && !Blank(text)
    requires parse(text) == Valid(e) && parse(text[..k]).Ignored? && parse(text[k..]).Ignored?
    ensures var polls := [Read(k, text[..k]), Read(|text|, text)];
      AfterPolls(EMPTY_CACHE, parse, polls).derived.status == StatusIdle
      && Replay(parse, text).status != StatusIdle
  {
    var first := Read(k, text[..k]);
    var second := Read(|text|, text);
    assert text[..k][0..] == text[..k];
    FoldOneLine(INITIAL, parse, text[..k]);
    FoldOneLine(INITIAL, parse, text[k..]);
    FoldOneLine(INITIAL, parse, text);
    assert AfterPoll(EMPTY_CACHE, parse, first) == Cache(k, INITIAL);
    TwoPolls(parse, first, second);
  }

  lemma FoldTerminatedLine(d: Derived, parse: string -> Line, text: string)
    requires '\n' !in text
    ensures FoldText(d, parse, text + "\n") == ApplyLine(d, Parsed(parse, text))
  {
    SplitWithoutBreaks(IsNewline, text);
    assert (text + "\n")[..|text|] == text;
    assert SplitAt(IsNewline, text + "\n") == [text, ""];
    assert ParsedAll(parse, [text, ""]) == [Parsed(parse, text)] + [Ignored];
    FoldedConcat(d, [Parsed(parse, text)], [Ignored]);
    FoldedOne(d, Parsed(parse, text));
    FoldedOne(ApplyLine(d, Parsed(parse, text)), Ignored);
  }

  lemma TwoPolls(parse: string -> Line, first: Observation, second: Observation)
    ensures AfterPolls(EMPTY_CACHE, parse, [first, second])
         == AfterPoll(AfterPoll(EMPTY_CACHE, parse, first), parse, second)
  {
    assert [first][..0] == [] && [first, second][..1] == [first];
    assert AfterPolls(EMPTY_CACHE, parse, [first]) == AfterPoll(EMPTY_CACHE, parse, first);
  }

  lemma FirstPoll(parse: string -> Line, content: string)
    requires content != ""
    ensures AfterPoll(EMPTY_CACHE, parse, Read(|content|, content)) == Cache(|content|, Replay(parse, content))
  {
    assert content[0..] == content;
  }

  lemma SameSizePoll(c: Cache, parse: string -> Line, content: string)
    requires |content| == c.offset
    ensures AfterPoll(c, parse, Read(|content|, content)) == c
  {
  }

  /** A stream replaced by one of the same size is not noticed: a cancelled run keeps its old state. */
  lemma SameSizeReplacementUnseen(parse: string -> Line, a: string, b: string, started: Event, cancelled: Event)
    requires |a| == |b| && '\n' !in a && '\n' !in b && !Blank(a) && !Blank(b)
    requires parse(a) == Valid(started) && started.action.Started?
    requires parse(b) == Valid(cancelled) && cancelled.action.Cancelled?
    ensures var polls := [Read(|a| + 1, a + "\n"), Read(|b| + 1, b + "\n")];
      AfterPolls(EMPTY_CACHE, parse, polls).derived.status == StatusRunning
      && Replay(parse, b + "\n").status == StatusCancelled
  {
    FoldTerminatedLine(INITIAL, parse, a);
    FoldTerminatedLine(INITIAL, parse, b);
    assert Replay(parse, a + "\n") == ApplyLine(INITIAL, Valid(started));
    assert Replay(parse, b + "\n") == ApplyLine(INITIAL, Valid(cancelled));
    FirstPoll(parse, a + "\n");
    SameSizePoll(Cache(|a| + 1, Replay(parse, a + "\n")), parse, b + "\n");
    TwoPolls(parse, Read(|a| + 1, a + "\n"), Read(|b| + 1, b + "\n"));
  }
}
