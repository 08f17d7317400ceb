/** The accumulating line pump of internal/sse/stream.go, with the production configuration and a context
    that is not cancelled. */
module Pump {

  import opened Basics

  datatype Part = Part(text: string, kind: string)

  datatype LineResult = LineResult(
    parsed: bool, stop: bool, contentFilter: bool, errorMessage: string,
    parts: seq<Part>, detection: seq<Part>, nextType: string, responseMessageID: int)

  // ParseDeepSeekContentLine for one line and the current segment type.
  type Parse = (string, string) -> LineResult

  // utf8.RuneCountInString; all that matters here is that only the empty string has no runes.
  type RuneCount = f: string -> nat | forall s :: f(s) == 0 <==> s == "" witness s => |s|

  const THINKING := "thinking"
  const MIN_CHARS: nat := 16

  function Texts(parts: seq<Part>): string {
    if parts == [] then "" else parts[0].text + Texts(parts[1..])
  }

  predicate BreaksLine(text: string) {
    exists i | 0 <= i < |text| :: text[i] == '\n' || text[i] == '\r'
  }

  // ---------------------------------------------------------------- one step of the pump

  datatype State = State(
    text: string, textKind: string, thinking: string, thinkingKind: string, detection: string,
    anyFlushed: bool, messageID: int, cursor: string, waiting: bool, out: seq<LineResult>)
  {
    predicate HasBuffered() {
      text != "" || thinking != "" || detection != ""
    }

    function Buffered(): seq<Part> {
      (if thinking != "" then [Part(thinking, thinkingKind)] else []) +
        (if text != "" then [Part(text, textKind)] else [])
    }

    function Send(r: LineResult): State {
      this.(out := out + [r])
    }
  }

  function Initial(cursor: string): State {
    State("", "", "", "", "", false, 0, cursor, false, [])
  }

  predicate ShouldFlush(runes: RuneCount, s: State, force: bool) {
    force || !s.anyFlushed || runes(s.text) >= MIN_CHARS || (runes(s.thinking) > 0 && runes(s.text) >= 50)
  }

  function Flush(runes: RuneCount, s: State, force: bool): State {
    if ShouldFlush(runes, s, force) then Emptied(s) else s
  }

  /** Everything buffered leaves in one result, thinking first. */
  function Emptied(s: State): State {
    State("", s.textKind, "", s.thinkingKind, "", true, if s.HasBuffered() then 0 else s.messageID, s.cursor, false,
          if s.HasBuffered() then s.out + [Accumulated(s)] else s.out)
  }

  function Accumulated(s: State): LineResult {
    LineResult(true, false, false, "", s.Buffered(), Detected(s.detection), s.cursor, s.messageID)
  }

  function Detected(detection: string): seq<Part> {
    if detection != "" then [Part(detection, THINKING)] else []
  }

  function Buffer(s: State, p: Part): State {
    if p.kind == THINKING then s.(thinking := s.thinking + p.text, thinkingKind := THINKING)
    else s.(text := s.text + p.text, textKind := p.kind)
  }

  function AddPart(runes: RuneCount, s: State, p: Part): State {
    if p.kind == THINKING then Buffer(if s.text != "" then Flush(runes, s, true) else s, p)
    else if BreaksLine(p.text) then Flush(runes, Buffer(s, p), true)
    else Buffer(s, p)
  }

  function AddParts(runes: RuneCount, s: State, parts: seq<Part>): State
    decreases |parts|
  {
    if parts == [] then s else AddParts(runes, AddPart(runes, s, parts[0]), parts[1..])
  }

  function BufferAll(s: State, parts: seq<Part>): State
    decreases |parts|
  {
    if parts == [] then s else BufferAll(Buffer(s, parts[0]), parts[1..])
  }

  function Stopped(s: State): LineResult {
    LineResult(true, true, false, "", [], [], s.cursor, s.messageID)
  }

  function Arrive(s: State, r: LineResult): State {
    s.(cursor := r.nextType, messageID := if r.responseMessageID > 0 then r.responseMessageID else s.messageID)
  }

  function Detect(s: State, r: LineResult): State {
    s.(detection := s.detection + Texts(r.detection))
  }

  function StopFlushed(runes: RuneCount, s: State, r: LineResult): State {
    var d := Detect(s, r);
    if d.text != "" || r.parts != [] || d.detection != "" then Flush(runes, BufferAll(d, r.parts), true) else d
  }

  function StopLine(runes: RuneCount, s: State, r: LineResult): State {
    var f := StopFlushed(runes, s, r);
    if r.errorMessage != "" || r.contentFilter then f.Send(r) else f.(messageID := 0).Send(Stopped(f))
  }

  function ContentLine(runes: RuneCount, s: State, r: LineResult): State {
    var a := AddParts(runes, Detect(s, r), r.parts);
    var f := if runes(a.text) >= MIN_CHARS then Flush(runes, a, false) else a;
    f.(waiting := f.waiting || f.HasBuffered())
  }

  function ProcessLine(runes: RuneCount, s: State, r: LineResult): State {
    var a := Arrive(s, r);
    if r.stop then StopLine(runes, a, r) else if r.parsed then ContentLine(runes, a, r) else a
  }

  // ---------------------------------------------------------------- a run

  /** What the select loop observes before the scanner ends: lines in order, timer ticks anywhere. */
  datatype Event = Line(raw: string) | Tick

  /** The end of the scan is seen either on the drained line channel or, first, on the error channel, with
      the rest of the lines still queued. */
  datatype Ending = LinesClosed | ScanDone(queued: seq<string>)

  function Reaction(parse: Parse, runes: RuneCount, s: State, e: Event): State {
    match e
    case Line(raw) => ProcessLine(runes, s, parse(raw, s.cursor))
    case Tick => var t := s.(waiting := false); if t.HasBuffered() then Flush(runes, t, true) else t
  }

  function Observe(parse: Parse, runes: RuneCount, s: State, events: seq<Event>): State
    decreases |events|
  {
    if events == [] then s else Observe(parse, runes, Reaction(parse, runes, s, events[0]), events[1..])
  }

  function AsLines(raws: seq<string>): seq<Event> {
    if raws == [] then [] else [Line(raws[0])] + AsLines(raws[1..])
  }

  function AllEvents(events: seq<Event>, ending: Ending): seq<Event> {
    match ending
    case LinesClosed => events
    case ScanDone(queued) => events + AsLines(queued)
  }

  /** The state when the output channel closes. */
  function Final(parse: Parse, runes: RuneCount, cursor: string, events: seq<Event>, ending: Ending): State {
    Flush(runes, Observe(parse, runes, Initial(cursor), AllEvents(events, ending)).(waiting := false), true)
  }

  class LinePump {
    const parse: Parse
    const runes: RuneCount
    var textBuffer: string
    var textPendingType: string
    var thinkingBuffer: string
    var thinkingPendingType: string
    var toolDetectionThinkingBuffer: string
    var anyFlushed: bool
    var pendingResponseMessageID: int
    var currentType: string
    var maxWaitActive: bool
    var out: seq<LineResult>

    ghost function Now(): State
      reads this
    {
      State(textBuffer, textPendingType, thinkingBuffer, thinkingPendingType, toolDetectionThinkingBuffer,
            anyFlushed, pendingResponseMessageID, currentType, maxWaitActive, out)
    }

    constructor (parse: Parse, runes: RuneCount, initialType: string)
      ensures Now() == Initial(initialType) && this.parse == parse && this.runes == runes
    {
      this.parse, this.runes := parse, runes;
      textBuffer, textPendingType, thinkingBuffer, thinkingPendingType, toolDetectionThinkingBuffer := "", "", "",
        "", "";
      anyFlushed, pendingResponseMessageID, currentType, maxWaitActive, out := false, 0, initialType, false, [];
    }

    predicate HasBufferedData()
      reads this
    {
      |textBuffer| > 0 || |thinkingBuffer| > 0 || |toolDetectionThinkingBuffer| > 0
    }

    method FlushBuffer(force: bool)
      modifies this
      ensures Now() == Flush(runes, old(Now()), force)
    {
      var textChars := runes(textBuffer);
      var thinkingChars := runes(thinkingBuffer);
      if !(force || !anyFlushed || textChars >= MIN_CHARS || (thinkingChars > 0 && textChars >= 50)) {
        return;
      }
      anyFlushed := true;
      var parts: seq<Part> := [];
      if thinkingChars > 0 {
        parts := parts + [Part(thinkingBuffer, thinkingPendingType)];
        thinkingBuffer := "";
      }
      if textChars > 0 {
        parts := parts + [Part(textBuffer, textPendingType)];
        textBuffer := "";
      }
      assert parts == old(Now()).Buffered();
      if |parts| > 0 || |toolDetectionThinkingBuffer| > 0 {
        var detectionParts: seq<Part> := [];
        if |toolDetectionThinkingBuffer| > 0 {
          detectionParts := detectionParts + [Part(toolDetectionThinkingBuffer, THINKING)];
          toolDetectionThinkingBuffer := "";
        }
        assert detectionParts == Detected(old(toolDetectionThinkingBuffer));
        out := out + [LineResult(true, false, false, "", parts, detectionParts, currentType, pendingResponseMessageID)];
        pendingResponseMessageID := 0;
      }
      maxWaitActive := HasBufferedData();
    }

    method BufferDetection(parts: seq<Part>)
      modifies this`toolDetectionThinkingBuffer
      ensures toolDetectionThinkingBuffer == old(toolDetectionThinkingBuffer) + Texts(parts)
    {
      for i := 0 to |parts|
        invariant toolDetectionThinkingBuffer + Texts(parts[i..]) == old(toolDetectionThinkingBuffer) + Texts(parts)
      {
        toolDetectionThinkingBuffer := toolDetectionThinkingBuffer + parts[i].text;
        assert parts[i..][1..] == parts[i + 1..];
      }
    }

    method BufferPart(p: Part)
      modifies this
      ensures Now() == Buffer(old(Now()), p)
    {
      if p.kind == THINKING {
        thinkingBuffer := thinkingBuffer + p.text;
        thinkingPendingType := THINKING;
      } else {
        textBuffer := textBuffer + p.text;
        textPendingType := p.kind;
      }
    }

    method FlushAtStop(result: LineResult)
      modifies this
      ensures Now() == StopFlushed(runes, old(Now()), result)
    {
      BufferDetection(result.detection);
      if |textBuffer| > 0 || |result.parts| > 0 || |toolDetectionThinkingBuffer| > 0 {
        ghost var d := Now();
        for i := 0 to |result.parts|
          invariant BufferAll(Now(), result.parts[i..]) == BufferAll(d, result.parts)
        {
          assert result.parts[i..][1..] == result.parts[i + 1..];
          BufferPart(result.parts[i]);
        }
        FlushBuffer(true);
      }
    }

    method ProcessStop(result: LineResult)
      modifies this
      ensures Now() == StopLine(runes, old(Now()), result)
    {
      FlushAtStop(result);
      if result.errorMessage != "" || result.contentFilter {
        out := out + [result];
      } else {
        out := out + [LineResult(true, true, false, "", [], [], currentType, pendingResponseMessageID)];
        pendingResponseMessageID := 0;
      }
    }

    method ProcessPart(p: Part)
      modifies this
      ensures Now() == AddPart(runes, old(Now()), p)
    {
      if p.kind == THINKING {
        if |textBuffer| > 0 {
          FlushBuffer(true);
        }
        BufferPart(p);
      } else {
        BufferPart(p);
        if BreaksLine(p.text) {
          FlushBuffer(true);
        }
      }
    }

    method ProcessParts(parts: seq<Part>)
      modifies this
      ensures Now() == AddParts(runes, old(Now()), parts)
    {
      for i := 0 to |parts|
        invariant AddParts(runes, Now(), parts[i..]) == AddParts(runes, old(Now()), parts)
      {
        assert parts[i..][1..] == parts[i + 1..];
        ProcessPart(parts[i]);
      }
    }

    method ProcessContent(result: LineResult)
      modifies this
      ensures Now() == ContentLine(runes, old(Now()), result)
    {
      BufferDetection(result.detection);
      ProcessParts(result.parts);
      if runes(textBuffer) >= MIN_CHARS {
        FlushBuffer(false);
      }
      if HasBufferedData() && !maxWaitActive {
        maxWaitActive := true;
      }
    }

    method ReceiveLine(raw: string)
      modifies this
      ensures Now() == Reaction(parse, runes, old(Now()), Line(raw))
    {
      var result := parse(raw, currentType);
      currentType := result.nextType;
      if result.responseMessageID > 0 {
        pendingResponseMessageID := result.responseMessageID;
      }
      if result.stop {
        ProcessStop(result);
      } else if result.parsed {
        ProcessContent(result);
      }
    }

    method React(e: Event)
      modifies this
      ensures Now() == Reaction(parse, runes, old(Now()), e)
    {
      match e
      case Line(raw) => ReceiveLine(raw);
      case Tick =>
        maxWaitActive := false;
        if HasBufferedData() {
          FlushBuffer(true);
        }
    }

    method ReactToAll(events: seq<Event>)
      modifies this
      ensures Now() == Observe(parse, runes, old(Now()), events)
    {
      for i := 0 to |events|
        invariant Observe(parse, runes, Now(), events[i..]) == Observe(parse, runes, old(Now()), events)
      {
        assert events[i..][1..] == events[i + 1..];
        React(events[i]);
      }
    }

    method Drain(queued: seq<string>)
      modifies this
      ensures Now() == Observe(parse, runes, old(Now()), AsLines(queued))
    {
      for i := 0 to |queued|
        invariant Observe(parse, runes, Now(), AsLines(queued[i..])) ==
          Observe(parse, runes, old(Now()), AsLines(queued))
      {
        assert queued[i..][1..] == queued[i + 1..];
        assert AsLines(queued[i..]) == [Line(queued[i])] + AsLines(queued[i + 1..]);
        ReceiveLine(queued[i]);
      }
    }

    /** The select loop and the final flush, for one order of observations. */
    method Run(events: seq<Event>, ending: Ending)
      requires Now() == Initial(currentType)
      modifies this
      ensures Now() == Final(parse, runes, old(currentType), events, ending)
    {
      ReactToAll(events);
      if ending.ScanDone? {
        ObserveAppend(parse, runes, old(Now()), events, AsLines(ending.queued));
        Drain(ending.queued);
      }
      maxWaitActive := false;
      FlushBuffer(true);
    }
  }

  lemma {:induction false} ObserveAppend(parse: Parse, runes: RuneCount, s: State, a: seq<Event>, b: seq<Event>)
    ensures Observe(parse, runes, s, a + b) == Observe(parse, runes, Observe(parse, runes, s, a), b)
    decreases |a|
  {
    if a == [] {
      assert a + b == b;
    } else {
      assert (a + b)[1..] == a[1..] + b;
      ObserveAppend(parse, runes, Reaction(parse, runes, s, a[0]), a[1..], b);
    }
  }

  // ---------------------------------------------------------------- nothing is lost, doubled or reordered

  const TEXT := "text"

  predicate IsKind(kind: string) {
    kind == THINKING || kind == TEXT
  }

  ghost predicate Known(parts: seq<Part>) {
    forall p | p in parts :: IsKind(p.kind)
  }

  /** What the pump relies on: results that end the stream carry no content, and the only kinds are the
      two the parser knows. */
  ghost predicate WellBehaved(parse: Parse) {
    forall raw, cursor | IsKind(cursor) :: SoundResult(parse(raw, cursor))
  }

  ghost predicate SoundResult(r: LineResult) {
    IsKind(r.nextType) && Known(r.parts) && (r.stop ==> r.parts == [] && r.detection == [])
  }

  function Tag(text: string, kind: string): seq<(char, string)> {
    seq(|text|, i requires 0 <= i < |text| => (text[i], kind))
  }

  /** Every character with its kind: the content of a list of parts, however it is cut. */
  function Chars(parts: seq<Part>): seq<(char, string)> {
    if parts == [] then [] else Tag(parts[0].text, parts[0].kind) + Chars(parts[1..])
  }

  function Emitted(out: seq<LineResult>): seq<(char, string)> {
    if out == [] then [] else Emitted(out[..|out| - 1]) + Chars(out[|out| - 1].parts)
  }

  function EmittedDetection(out: seq<LineResult>): string {
    if out == [] then "" else EmittedDetection(out[..|out| - 1]) + Texts(out[|out| - 1].detection)
  }

  /** The content the parser found in the lines, in order. */
  function Received(parse: Parse, cursor: string, events: seq<Event>): seq<(char, string)>
    decreases |events|
  {
    if events == [] then []
    else if events[0].Tick? then Received(parse, cursor, events[1..])
    else
      var r := parse(events[0].raw, cursor);
      Content(r) + Received(parse, r.nextType, events[1..])
  }

  function Content(r: LineResult): seq<(char, string)> {
    if r.parsed then Chars(r.parts) else []
  }

  function ReceivedDetection(parse: Parse, cursor: string, events: seq<Event>): string
    decreases |events|
  {
    if events == [] then ""
    else if events[0].Tick? then ReceivedDetection(parse, cursor, events[1..])
    else
      var r := parse(events[0].raw, cursor);
      Detection(r) + ReceivedDetection(parse, r.nextType, events[1..])
  }

  function Detection(r: LineResult): string {
    if r.parsed then Texts(r.detection) else ""
  }

  ghost predicate Sound(s: State) {
    IsKind(s.cursor) && (s.thinking != "" ==> s.thinkingKind == THINKING) && (s.text != "" ==> s.textKind == TEXT)
  }

  /** Sent and buffered content together. */
  function Total(s: State): seq<(char, string)> {
    Emitted(s.out) + (Tag(s.thinking, THINKING) + Tag(s.text, TEXT))
  }

  function TotalDetection(s: State): string {
    EmittedDetection(s.out) + s.detection
  }

  lemma SendTotals(out: seq<LineResult>, r: LineResult)
    ensures Emitted(out + [r]) == Emitted(out) + Chars(r.parts)
    ensures EmittedDetection(out + [r]) == EmittedDetection(out) + Texts(r.detection)
  {
    assert (out + [r])[..|out|] == out;
  }

  lemma BufferedChars(s: State)
    requires Sound(s)
    ensures Chars(s.Buffered()) == Tag(s.thinking, THINKING) + Tag(s.text, TEXT)
  {
    var a, b := Part(s.thinking, s.thinkingKind), Part(s.text, s.textKind);
    assert Chars([a]) == Tag(s.thinking, s.thinkingKind) && Chars([b]) == Tag(s.text, s.textKind);
    assert [a, b][1..] == [b] && Chars([a, b]) == Tag(s.thinking, s.thinkingKind) + Chars([b]);
    assert Tag("", THINKING) == [] && Tag("", TEXT) == [];
  }

  lemma DetectedText(d: string)
    ensures Texts(Detected(d)) == d
  {
    assert d != "" ==> Detected(d)[1..] == [] && Texts(Detected(d)) == d + "";
  }

  lemma FlushKeepsTotals(runes: RuneCount, s: State, force: bool)
    requires Sound(s)
    ensures var f := Flush(runes, s, force);
      Sound(f) && f.cursor == s.cursor && Total(f) == Total(s) && TotalDetection(f) == TotalDetection(s)
    ensures force ==> !Flush(runes, s, force).HasBuffered()
  {
    if ShouldFlush(runes, s, force) {
      var r := Accumulated(s);
      SendTotals(s.out, r);
      BufferedChars(s);
      DetectedText(s.detection);
      assert Tag("", THINKING) + Tag("", TEXT) == [];
      assert Emitted(s.out + [r]) + [] == Emitted(s.out) + Chars(s.Buffered());
      assert EmittedDetection(s.out) + "" == EmittedDetection(s.out);
      assert !s.HasBuffered() ==> Total(s) == Emitted(s.out) + [];
    }
  }

  lemma TagAppend(a: string, b: string, kind: string)
    ensures Tag(a + b, kind) == Tag(a, kind) + Tag(b, kind)
  {
  }

  /** Buffering keeps the order as long as no text is buffered before thinking. */
  lemma BufferAddsPart(s: State, p: Part)
    requires Sound(s) && IsKind(p.kind) && (p.kind == THINKING ==> s.text == "")
    ensures Sound(Buffer(s, p)) && Total(Buffer(s, p)) == Total(s) + Tag(p.text, p.kind)
    ensures TotalDetection(Buffer(s, p)) == TotalDetection(s) && Buffer(s, p).cursor == s.cursor
  {
    assert Tag("", TEXT) == [];
    var before := Emitted(s.out);
    if p.kind == THINKING {
      TagAppend(s.thinking, p.text, THINKING);
    } else {
      TagAppend(s.text, p.text, TEXT);
    }
    assert Total(Buffer(s, p)) == Total(s) + Tag(p.text, p.kind);
  }

  lemma AddPartTotals(runes: RuneCount, s: State, p: Part)
    requires Sound(s) && IsKind(p.kind)
    ensures var a := AddPart(runes, s, p);
      && Sound(a) && a.cursor == s.cursor && Total(a) == Total(s) + Tag(p.text, p.kind)
      && TotalDetection(a) == TotalDetection(s)
  {
    FlushKeepsTotals(runes, s, true);
    if p.kind == THINKING {
      BufferAddsPart(if s.text != "" then Flush(runes, s, true) else s, p);
    } else {
      BufferAddsPart(s, p);
      FlushKeepsTotals(runes, Buffer(s, p), true);
    }
  }

  lemma {:induction false} AddPartsTotals(runes: RuneCount, s: State, parts: seq<Part>)
    requires Sound(s) && Known(parts)
    ensures var a := AddParts(runes, s, parts);
      Sound(a) && a.cursor == s.cursor && Total(a) == Total(s) + Chars(parts) && TotalDetection(a) == TotalDetection(s)
    decreases |parts|
  {
    if parts == [] {
      assert Total(s) + [] == Total(s);
    } else {
      var p, rest := parts[0], parts[1..];
      AddPartTotals(runes, s, p);
      AddPartsTotals(runes, AddPart(runes, s, p), rest);
      Associates(Total(s), Tag(p.text, p.kind), Chars(rest));
    }
  }

  lemma StopTotals(runes: RuneCount, s: State, r: LineResult)
    requires Sound(s) && r.parts == [] && r.detection == []
    ensures var a := StopLine(runes, s, r);
      Sound(a) && a.cursor == s.cursor && Total(a) == Total(s) && TotalDetection(a) == TotalDetection(s)
  {
    var d := Detect(s, r);
    assert s.detection + "" == s.detection && d == s;
    FlushKeepsTotals(runes, d, true);
    var f := StopFlushed(runes, s, r);
    SendTotals(f.out, r);
    SendTotals(f.out, Stopped(f));
    assert Emitted(f.out) + [] == Emitted(f.out) && EmittedDetection(f.out) + "" == EmittedDetection(f.out);
  }

  lemma ContentTotals(runes: RuneCount, s: State, r: LineResult)
    requires Sound(s) && Known(r.parts)
    ensures var a := ContentLine(runes, s, r);
      && Sound(a) && a.cursor == s.cursor && Total(a) == Total(s) + Chars(r.parts)
      && TotalDetection(a) == TotalDetection(s) + Texts(r.detection)
  {
    var d := Detect(s, r);
    assert TotalDetection(d) == TotalDetection(s) + Texts(r.detection);
    AddPartsTotals(runes, d, r.parts);
    FlushKeepsTotals(runes, AddParts(runes, d, r.parts), false);
  }

  lemma ReactionTotals(parse: Parse, runes: RuneCount, s: State, e: Event)
    requires WellBehaved(parse) && Sound(s)
    ensures var a := Reaction(parse, runes, s, e);
      && Sound(a)
      && (e.Tick? ==> a.cursor == s.cursor && Total(a) == Total(s) && TotalDetection(a) == TotalDetection(s))
      && (e.Line? ==>
            var r := parse(e.raw, s.cursor);
            && a.cursor == r.nextType && Total(a) == Total(s) + Content(r)
            && TotalDetection(a) == TotalDetection(s) + Detection(r))
  {
    match e
    case Tick => FlushKeepsTotals(runes, s.(waiting := false), true);
    case Line(raw) =>
      var r := parse(raw, s.cursor);
      assert SoundResult(r);
      var a := Arrive(s, r);
      assert Total(a) == Total(s) && TotalDetection(a) == TotalDetection(s);
      assert Total(s) + [] == Total(s) && TotalDetection(s) + "" == TotalDetection(s);
      if r.stop {
        StopTotals(runes, a, r);
      } else {
        ContentTotals(runes, a, r);
      }
  }

  lemma {:induction false} ObserveTotals(parse: Parse, runes: RuneCount, s: State, events: seq<Event>)
    requires WellBehaved(parse) && Sound(s)
    ensures var a := Observe(parse, runes, s, events);
      && Sound(a) && Total(a) == Total(s) + Received(parse, s.cursor, events)
      && TotalDetection(a) == TotalDetection(s) + ReceivedDetection(parse, s.cursor, events)
    decreases |events|
  {
    if events == [] {
      assert Total(s) + [] == Total(s) && TotalDetection(s) + "" == TotalDetection(s);
    } else {
      ObserveOne(parse, runes, s, events);
    }
  }

  lemma {:induction false} ObserveOne(parse: Parse, runes: RuneCount, s: State, events: seq<Event>)
    requires WellBehaved(parse) && Sound(s) && events != []
    ensures var a := Observe(parse, runes, s, events);
      && Sound(a) && Total(a) == Total(s) + Received(parse, s.cursor, events)
      && TotalDetection(a) == TotalDetection(s) + ReceivedDetection(parse, s.cursor, events)
    decreases |events|, 0
  {
    var e, next, rest := events[0], Reaction(parse, runes, s, events[0]), events[1..];
    ReactionTotals(parse, runes, s, e);
    ObserveTotals(parse, runes, next, rest);
    if e.Line? {
      var r := parse(e.raw, s.cursor);
      Associates(Total(s), Content(r), Received(parse, r.nextType, rest));
      Associates(TotalDetection(s), Detection(r), ReceivedDetection(parse, r.nextType, rest));
    }
  }

  lemma FromNothing<T>(a: seq<T>)
    ensures [] + a == a
  {
  }

  lemma EmptyTotals(s: State)
    requires !s.HasBuffered()
    ensures Total(s) == Emitted(s.out) && TotalDetection(s) == EmittedDetection(s.out)
  {
    assert Tag("", THINKING) + Tag("", TEXT) == [];
  }

  /** For every order of lines, ticks and the two ways the end is seen: when the output channel closes, the
      pump has sent exactly the content it received, in order and with its kinds. */
  lemma NothingLost(parse: Parse, runes: RuneCount, cursor: string, events: seq<Event>, ending: Ending)
    requires WellBehaved(parse) && IsKind(cursor)
    ensures var out := Final(parse, runes, cursor, events, ending).out;
      var all := AllEvents(events, ending);
      Emitted(out) == Received(parse, cursor, all) && EmittedDetection(out) == ReceivedDetection(parse, cursor, all)
  {
    var s, all := Initial(cursor), AllEvents(events, ending);
    EmptyTotals(s);
    ObserveTotals(parse, runes, s, all);
    FromNothing(Received(parse, cursor, all));
    FromNothing(ReceivedDetection(parse, cursor, all));
    var o := Observe(parse, runes, s, all).(waiting := false);
    FlushKeepsTotals(runes, o, true);
    EmptyTotals(Flush(runes, o, true));
  }

  // ---------------------------------------------------------------- in terms of coalesced parts

  /** Adjacent parts of one kind joined, empty ones dropped. */
  function Coalesce(parts: seq<Part>): seq<Part> {
    if parts == [] then []
    else
      var p, rest := parts[0], Coalesce(parts[1..]);
      if p.text == "" then rest
      else if rest != [] && rest[0].kind == p.kind then [Part(p.text + rest[0].text, p.kind)] + rest[1..]
      else [p] + rest
  }

  ghost predicate IsCoalesced(parts: seq<Part>) {
    (forall i | 0 <= i < |parts| :: parts[i].text != "") &&
    (forall i | 0 < i < |parts| :: parts[i - 1].kind != parts[i].kind)
  }

  lemma {:induction false} CoalesceIsCoalesced(parts: seq<Part>)
    ensures IsCoalesced(Coalesce(parts)) && Chars(Coalesce(parts)) == Chars(parts)
  {
    if parts != [] {
      var p, rest := parts[0], Coalesce(parts[1..]);
      CoalesceIsCoalesced(parts[1..]);
      if p.text == "" {
        assert Tag(p.text, p.kind) + Chars(rest) == Chars(rest);
      } else if rest != [] && rest[0].kind == p.kind {
        var joined := Part(p.text + rest[0].text, p.kind);
        TagAppend(p.text, rest[0].text, p.kind);
        assert ([joined] + rest[1..])[1..] == rest[1..];
        Associates(Tag(p.text, p.kind), Tag(rest[0].text, p.kind), Chars(rest[1..]));
      } else {
        assert ([p] + rest)[1..] == rest;
      }
    }
  }

  /** The first part of a coalesced list is the first run of one kind. */
  lemma {:induction false} FirstRun(parts: seq<Part>)
    requires IsCoalesced(parts) && parts != []
    ensures var n, c := |parts[0].text|, Chars(parts);
      && 0 < n <= |c| && c[n..] == Chars(parts[1..])
      && (forall i | 0 <= i < n :: c[i] == (parts[0].text[i], parts[0].kind))
      && (n < |c| ==> c[n].1 != parts[0].kind)
  {
    var rest := parts[1..];
    if rest != [] {
      assert parts[1 - 1].kind != parts[1].kind && rest[0] == parts[1] && rest[0].text != "";
      assert Chars(rest)[0] == (rest[0].text[0], rest[0].kind);
    }
  }

  lemma {:induction false} FirstRunNotLonger(p: seq<Part>, q: seq<Part>)
    requires IsCoalesced(p) && IsCoalesced(q) && p != [] && q != [] && Chars(p) == Chars(q)
    ensures |p[0].text| <= |q[0].text|
  {
    FirstRun(p);
    FirstRun(q);
    var c, n := Chars(p), |q[0].text|;
    assert forall i | 0 <= i < |p[0].text| :: c[i].1 == p[0].kind;
    assert c[0].1 == p[0].kind == q[0].kind;
    assert n < |c| ==> c[n].1 != p[0].kind;
  }

  /** A coalesced list is determined by its characters. */
  lemma {:induction false} CoalescedIsUnique(p: seq<Part>, q: seq<Part>)
    requires IsCoalesced(p) && IsCoalesced(q) && Chars(p) == Chars(q)
    ensures p == q
    decreases |p|
  {
    if p != [] && q != [] {
      FirstRun(p);
      FirstRun(q);
      var c, m, n := Chars(p), |p[0].text|, |q[0].text|;
      assert c[0] == (p[0].text[0], p[0].kind) == (q[0].text[0], q[0].kind);
      FirstRunNotLonger(p, q);
      FirstRunNotLonger(q, p);
      assert p[0].text == q[0].text by {
        forall i | 0 <= i < n ensures p[0].text[i] == q[0].text[i] {
          assert c[i] == (p[0].text[i], p[0].kind) == (q[0].text[i], q[0].kind);
        }
      }
      TailIsCoalesced(p);
      TailIsCoalesced(q);
      CoalescedIsUnique(p[1..], q[1..]);
      assert p == [p[0]] + p[1..] && q == [q[0]] + q[1..];
    } else if p != [] {
      FirstRun(p);
    } else if q != [] {
      FirstRun(q);
    }
  }

  lemma TailIsCoalesced(parts: seq<Part>)
    requires IsCoalesced(parts) && parts != []
    ensures IsCoalesced(parts[1..])
  {
    var rest := parts[1..];
    forall i | 0 < i < |rest| ensures rest[i - 1].kind != rest[i].kind {
      assert parts[(i + 1) - 1].kind != parts[i + 1].kind;
    }
  }

  function EmittedParts(out: seq<LineResult>): seq<Part> {
    if out == [] then [] else EmittedParts(out[..|out| - 1]) + out[|out| - 1].parts
  }

  function ReceivedParts(parse: Parse, cursor: string, events: seq<Event>): seq<Part>
    decreases |events|
  {
    if events == [] then []
    else if events[0].Tick? then ReceivedParts(parse, cursor, events[1..])
    else
      var r := parse(events[0].raw, cursor);
      (if r.parsed then r.parts else []) + ReceivedParts(parse, r.nextType, events[1..])
  }

  lemma {:induction false} CharsAppend(a: seq<Part>, b: seq<Part>)
    ensures Chars(a + b) == Chars(a) + Chars(b)
  {
    if a == [] {
      assert a + b == b;
    } else {
      assert (a + b)[1..] == a[1..] + b;
      CharsAppend(a[1..], b);
    }
  }

  lemma {:induction false} EmittedChars(out: seq<LineResult>)
    ensures Chars(EmittedParts(out)) == Emitted(out)
  {
    if out != [] {
      EmittedChars(out[..|out| - 1]);
      CharsAppend(EmittedParts(out[..|out| - 1]), out[|out| - 1].parts);
    }
  }

  lemma {:induction false} ReceivedChars(parse: Parse, cursor: string, events: seq<Event>)
    ensures Chars(ReceivedParts(parse, cursor, events)) == Received(parse, cursor, events)
    decreases |events|
  {
    if events != [] {
      if events[0].Tick? {
        ReceivedChars(parse, cursor, events[1..]);
      } else {
        var r := parse(events[0].raw, cursor);
        ReceivedChars(parse, r.nextType, events[1..]);
        CharsAppend(if r.parsed then r.parts else [], ReceivedParts(parse, r.nextType, events[1..]));
      }
    }
  }

  /** The sent parts are the received parts, once adjacent parts of one kind are joined. */
  lemma PumpPreservesParts(parse: Parse, runes: RuneCount, cursor: string, events: seq<Event>, ending: Ending)
    requires WellBehaved(parse) && IsKind(cursor)
    ensures Coalesce(EmittedParts(Final(parse, runes, cursor, events, ending).out)) ==
            Coalesce(ReceivedParts(parse, cursor, AllEvents(events, ending)))
  {
    var out, all := Final(parse, runes, cursor, events, ending).out, AllEvents(events, ending);
    NothingLost(parse, runes, cursor, events, ending);
    EmittedChars(out);
    ReceivedChars(parse, cursor, all);
    CoalesceIsCoalesced(EmittedParts(out));
    CoalesceIsCoalesced(ReceivedParts(parse, cursor, all));
    CoalescedIsUnique(Coalesce(EmittedParts(out)), Coalesce(ReceivedParts(parse, cursor, all)));
  }

  // ---------------------------------------------------------------- the end-of-stream result

  /** Thinking is all that is buffered: what a stop line leaves behind. */
  predicate Exposed(s: State) {
    s.thinking != "" && s.text == "" && s.detection == ""
  }

  /** The result that reports the end comes after everything received before it exactly when thinking is
      not the only thing buffered at that moment. */
  lemma StopIsLastIff(runes: RuneCount, s: State, r: LineResult)
    requires Sound(s) && r.stop && r.parts == [] && r.detection == []
    ensures var a := StopLine(runes, s, r);
      && a.out != [] && a.out[|a.out| - 1].stop
      && (Emitted(a.out) == Total(s) <==> !Exposed(s))
  {
    StopTotals(runes, s, r);
    var a := StopLine(runes, s, r);
    assert s.detection + "" == s.detection && Detect(s, r) == s;
    if s.text != "" || s.detection != "" {
      FlushKeepsTotals(runes, s, true);
      EmptyTotals(a);
    } else if s.thinking == "" {
      EmptyTotals(a);
    } else {
      assert |Total(a)| == |Emitted(a.out)| + |Tag(a.thinking, THINKING)|;
    }
  }

  predicate IsBlank(parts: seq<Part>) {
    forall p | p in parts :: p.text == ""
  }

  predicate HasText(parts: seq<Part>) {
    exists p | p in parts :: p.kind != THINKING && p.text != ""
  }

  /** The last part that is not empty is thinking. */
  predicate EndsInThinking(parts: seq<Part>) {
    parts != [] &&
    if IsBlank(parts[1..]) then parts[0].kind == THINKING && parts[0].text != "" else EndsInThinking(parts[1..])
  }

  /** Thinking comes with detection text, which is flushed with it. */
  predicate Covered(r: LineResult) {
    EndsInThinking(r.parts) ==> Texts(r.detection) != ""
  }

  lemma {:induction false} PartsExposeIff(runes: RuneCount, s: State, parts: seq<Part>)
    ensures Exposed(AddParts(runes, s, parts)) <==>
            if IsBlank(parts) then Exposed(s)
            else EndsInThinking(parts) && (s.text != "" || s.detection == "" || HasText(parts))
    decreases |parts|
  {
    if parts != [] {
      var p, rest := parts[0], parts[1..];
      assert parts == [p] + rest;
      assert IsBlank(parts) <==> p.text == "" && IsBlank(rest);
      assert HasText(parts) <==> (p.kind != THINKING && p.text != "") || HasText(rest);
      assert BreaksLine(p.text) ==> p.text != "";
      PartsExposeIff(runes, AddPart(runes, s, p), rest);
    }
  }

  /** When a line leaves thinking exposed: it ends in thinking that comes after text, its own or buffered before,
      so that the detection text has been flushed already. */
  lemma LineExposesIff(runes: RuneCount, s: State, r: LineResult)
    requires Covered(r)
    ensures Exposed(ContentLine(runes, s, r)) <==>
            if IsBlank(r.parts) then Exposed(s) && Texts(r.detection) == ""
            else EndsInThinking(r.parts) && (s.text != "" || HasText(r.parts))
  {
    PartsExposeIff(runes, Detect(s, r), r.parts);
    var a := AddParts(runes, Detect(s, r), r.parts);
    assert runes(a.text) >= MIN_CHARS ==> a.text != "";
  }

  /** A line with content and then the end of the stream, after any run: the end is the last thing sent, after all
      that was received, exactly when the line does not end in thinking that comes after text. */
  lemma StopAfterLineIff(parse: Parse, runes: RuneCount, cursor: string, events: seq<Event>, raw: string, last: string)
    requires WellBehaved(parse) && IsKind(cursor)
    requires var s := Observe(parse, runes, Initial(cursor), events);
      var r := parse(raw, s.cursor);
      r.parsed && !r.stop && Covered(r) && !IsBlank(r.parts) && parse(last, r.nextType).stop
    ensures var s := Observe(parse, runes, Initial(cursor), events);
      var r := parse(raw, s.cursor);
      var all := events + [Line(raw), Line(last)];
      var out := Observe(parse, runes, Initial(cursor), all).out;
      && out != [] && out[|out| - 1].stop
      && (Emitted(out) == Received(parse, cursor, all) <==>
          !(EndsInThinking(r.parts) && (s.text != "" || HasText(r.parts))))
  {
    var s := Observe(parse, runes, Initial(cursor), events);
    var r := parse(raw, s.cursor);
    var more := events + [Line(raw)];
    ObserveAppend(parse, runes, Initial(cursor), events, [Line(raw)]);
    LineExposesIff(runes, Arrive(s, r), r);
    LineMovesCursor(parse, runes, cursor, events, raw);
    StopAfterIff(parse, runes, cursor, more, last);
    assert more + [Line(last)] == events + [Line(raw), Line(last)];
  }

  lemma LineMovesCursor(parse: Parse, runes: RuneCount, cursor: string, events: seq<Event>, raw: string)
    requires WellBehaved(parse) && IsKind(cursor)
    ensures var s := Observe(parse, runes, Initial(cursor), events);
      Reaction(parse, runes, s, Line(raw)).cursor == parse(raw, s.cursor).nextType
  {
    ReceivedInAll(parse, runes, cursor, events);
    ReactionTotals(parse, runes, Observe(parse, runes, Initial(cursor), events), Line(raw));
  }

  /** The end of the stream after any run. */
  lemma StopAfterIff(parse: Parse, runes: RuneCount, cursor: string, events: seq<Event>, last: string)
    requires WellBehaved(parse) && IsKind(cursor)
    requires parse(last, Observe(parse, runes, Initial(cursor), events).cursor).stop
    ensures var all := events + [Line(last)];
      var out := Observe(parse, runes, Initial(cursor), all).out;
      && out != [] && out[|out| - 1].stop
      && (Emitted(out) == Received(parse, cursor, all) <==> !Exposed(Observe(parse, runes, Initial(cursor), events)))
  {
    var s := Observe(parse, runes, Initial(cursor), events);
    var r := parse(last, s.cursor);
    ReceivedInAll(parse, runes, cursor, events);
    ReceivedInAll(parse, runes, cursor, events + [Line(last)]);
    ObserveAppend(parse, runes, Initial(cursor), events, [Line(last)]);
    StopTotals(runes, Arrive(s, r), r);
    StopIsLastIff(runes, Arrive(s, r), r);
    assert Total(Arrive(s, r)) == Total(s);
  }

  lemma ReceivedInAll(parse: Parse, runes: RuneCount, cursor: string, events: seq<Event>)
    requires WellBehaved(parse) && IsKind(cursor)
    ensures var s := Observe(parse, runes, Initial(cursor), events);
      Sound(s) && Total(s) == Received(parse, cursor, events)
  {
    EmptyTotals(Initial(cursor));
    ObserveTotals(parse, runes, Initial(cursor), events);
    FromNothing(Received(parse, cursor, events));
  }

  /** It does happen: a line with text and then thinking, and the end of the stream with no tick between them. */
  lemma StopOvertakesThinking(parse: Parse, runes: RuneCount, first: string, last: string, text: string,
                              thought: string)
    requires text != "" && thought != "" && !BreaksLine(text)
    requires parse(first, THINKING) == LineResult(true, false, false, "", [Part(text, TEXT), Part(thought, THINKING)],
                                                  [Part(thought, THINKING)], TEXT, 0)
    requires parse(last, TEXT) == LineResult(true, true, false, "", [], [], TEXT, 0)
    ensures Final(parse, runes, THINKING, [Line(first), Line(last)], LinesClosed).out ==
            [LineResult(true, false, false, "", [Part(text, TEXT)], [Part(thought, THINKING)], TEXT, 0),
             LineResult(true, true, false, "", [], [], TEXT, 0),
             LineResult(true, false, false, "", [Part(thought, THINKING)], [], TEXT, 0)]
  {
    var events := [Line(first), Line(last)];
    var p, q := Part(text, TEXT), Part(thought, THINKING);
    assert events[1..] == [Line(last)] && events[1..][1..] == [];
    var s0 := Initial(THINKING);
    var s1 := Reaction(parse, runes, s0, events[0]);
    var d := s0.(cursor := TEXT, detection := thought);
    assert [q][1..] == [] && Texts([q]) == thought + "" == thought;
    assert Detect(Arrive(s0, parse(first, THINKING)), parse(first, THINKING)) == d;
    var b := AddPart(runes, d, p);
    assert b == d.(text := text, textKind := TEXT);
    assert [p, q][1..] == [q] && [q][1..] == [];
    assert AddParts(runes, d, [p, q]) == AddParts(runes, b, [q]) == AddPart(runes, b, q);
    var sent := LineResult(true, false, false, "", [p], [q], TEXT, 0);
    assert b.Buffered() == [] + [p] == [p] && Accumulated(b) == sent;
    assert s1 == State("", TEXT, thought, THINKING, "", true, 0, TEXT, true, [sent]);
    var s2 := Reaction(parse, runes, s1, events[1]);
    assert s2 == s1.(out := [sent, LineResult(true, true, false, "", [], [], TEXT, 0)]);
    assert Observe(parse, runes, s1, [Line(last)]) == Observe(parse, runes, s2, []) == s2;
    assert Accumulated(s2) == LineResult(true, false, false, "", [q] + [], [], TEXT, 0) && [q] + [] == [q];
    assert Flush(runes, s2.(waiting := false), true).out == s2.out + [Accumulated(s2)];
  }
}
