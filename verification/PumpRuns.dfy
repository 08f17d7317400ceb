/** What the line pump of internal/sse/stream.go sends besides content: ends of stream, message ids, and when it
    waits. */
module PumpRuns {

  import opened Basics
  import opened Pump
  import opened Parser

  // ---------------------------------------------------------------- how a stream ends

  /** What the parser makes of the lines, in order. */
  function Results(parse: Parse, cursor: string, events: seq<Event>): seq<LineResult>
    decreases |events|
  {
    if events == [] then []
    else if events[0].Tick? then Results(parse, cursor, events[1..])
    else
      var r := parse(events[0].raw, cursor);
      [r] + Results(parse, r.nextType, events[1..])
  }

  /** The ends of stream among some results, each with its error and its filter flag. */
  function Ends(results: seq<LineResult>): seq<(string, bool)> {
    if results == [] then []
    else
      var r := results[|results| - 1];
      Ends(results[..|results| - 1]) + (if r.stop then [(r.errorMessage, r.contentFilter)] else [])
  }

  predicate ReportsTrouble(r: LineResult) {
    r.errorMessage != "" || r.contentFilter
  }

  lemma EndsOfSent(out: seq<LineResult>, r: LineResult)
    ensures Ends(out + [r]) == Ends(out) + (if r.stop then [(r.errorMessage, r.contentFilter)] else [])
  {
    assert (out + [r])[..|out|] == out;
  }

  lemma {:induction false} EndsAppend(a: seq<LineResult>, b: seq<LineResult>)
    ensures Ends(a + b) == Ends(a) + Ends(b)
    decreases |b|
  {
    if b == [] {
      assert a + b == a && Ends(a) + [] == Ends(a);
    } else {
      var n := |b| - 1;
      assert (a + b)[..|a + b| - 1] == a + b[..n] && (a + b)[|a + b| - 1] == b[n];
      EndsAppend(a, b[..n]);
    }
  }

  lemma FlushEndsNothing(runes: RuneCount, s: State, force: bool)
    ensures Ends(Flush(runes, s, force).out) == Ends(s.out)
  {
    EndsOfSent(s.out, Accumulated(s));
    assert Ends(s.out) + [] == Ends(s.out);
  }

  lemma {:induction false} PartsEndNothing(runes: RuneCount, s: State, parts: seq<Part>)
    ensures Ends(AddParts(runes, s, parts).out) == Ends(s.out)
    decreases |parts|
  {
    if parts != [] {
      PartEndsNothing(runes, s, parts[0]);
      PartsEndNothing(runes, AddPart(runes, s, parts[0]), parts[1..]);
    }
  }

  lemma PartEndsNothing(runes: RuneCount, s: State, p: Part)
    ensures Ends(AddPart(runes, s, p).out) == Ends(s.out)
  {
    FlushEndsNothing(runes, s, true);
    FlushEndsNothing(runes, Buffer(s, p), true);
  }

  lemma {:induction false} BufferingSendsNothing(s: State, parts: seq<Part>)
    ensures BufferAll(s, parts).out == s.out && BufferAll(s, parts).cursor == s.cursor
    ensures BufferAll(s, parts).messageID == s.messageID
    decreases |parts|
  {
    if parts != [] {
      BufferingSendsNothing(Buffer(s, parts[0]), parts[1..]);
    }
  }

  lemma StopEnds(runes: RuneCount, s: State, r: LineResult)
    requires r.stop
    ensures Ends(StopLine(runes, s, r).out) == Ends(s.out) + [(r.errorMessage, r.contentFilter)]
  {
    var d, f := Detect(s, r), StopFlushed(runes, s, r);
    BufferingSendsNothing(d, r.parts);
    FlushEndsNothing(runes, BufferAll(d, r.parts), true);
    EndsOfSent(f.out, r);
    EndsOfSent(f.out, Stopped(f));
  }

  lemma ContentEndsNothing(runes: RuneCount, s: State, r: LineResult)
    ensures Ends(ContentLine(runes, s, r).out) == Ends(s.out)
  {
    PartsEndNothing(runes, Detect(s, r), r.parts);
    FlushEndsNothing(runes, AddParts(runes, Detect(s, r), r.parts), false);
  }

  lemma LineEnds(runes: RuneCount, s: State, r: LineResult)
    ensures Ends(ProcessLine(runes, s, r).out) == Ends(s.out) + Ends([r])
  {
    EndsOfSent([], r);
    assert [] + [r] == [r];
    if r.stop {
      StopEnds(runes, Arrive(s, r), r);
    } else {
      ContentEndsNothing(runes, Arrive(s, r), r);
      assert Ends(s.out) + [] == Ends(s.out);
    }
  }

  lemma {:induction false} RunEnds(parse: Parse, runes: RuneCount, s: State, events: seq<Event>)
    requires WellBehaved(parse) && Sound(s)
    ensures Ends(Observe(parse, runes, s, events).out) == Ends(s.out) + Ends(Results(parse, s.cursor, events))
    decreases |events|
  {
    if events == [] {
      assert Ends(s.out) + [] == Ends(s.out);
    } else {
      var e, next := events[0], Reaction(parse, runes, s, events[0]);
      ReactionTotals(parse, runes, s, e);
      RunEnds(parse, runes, next, events[1..]);
      match e
      case Tick => FlushEndsNothing(runes, s.(waiting := false), true);
      case Line(raw) =>
        var r := parse(raw, s.cursor);
        var later := Results(parse, r.nextType, events[1..]);
        LineEnds(runes, s, r);
        EndsAppend([r], later);
        Associates(Ends(s.out), Ends([r]), Ends(later));
    }
  }

  /** For every order of lines, ticks and endings: the ends of stream sent before the channel closes are, in order,
      those received, with their errors and their filter flags. */
  lemma EndsAreReported(parse: Parse, runes: RuneCount, cursor: string, events: seq<Event>, ending: Ending)
    requires WellBehaved(parse) && IsKind(cursor)
    ensures Ends(Final(parse, runes, cursor, events, ending).out) ==
            Ends(Results(parse, cursor, AllEvents(events, ending)))
  {
    var all := AllEvents(events, ending);
    RunEnds(parse, runes, Initial(cursor), all);
    FlushEndsNothing(runes, Observe(parse, runes, Initial(cursor), all).(waiting := false), true);
    assert Ends(Results(parse, cursor, all)) == [] + Ends(Results(parse, cursor, all));
  }

  lemma StopSends(runes: RuneCount, s: State, r: LineResult)
    requires r.stop
    ensures var out := ProcessLine(runes, s, r).out;
      && out != [] && (ReportsTrouble(r) ==> out[|out| - 1] == r)
      && (!ReportsTrouble(r) ==>
        out[|out| - 1].(responseMessageID := 0) == LineResult(true, true, false, "", [], [], r.nextType, 0))
  {
    var a := Arrive(s, r);
    BufferingSendsNothing(Detect(a, r), r.parts);
  }

  /** After any run: a line that ends the stream with an error or filtered content is passed on as it is, any other end
      of the stream as a plain one with the cursor of the line. */
  lemma StopIsPassedOn(parse: Parse, runes: RuneCount, cursor: string, events: seq<Event>, raw: string)
    requires var s := Observe(parse, runes, Initial(cursor), events); parse(raw, s.cursor).stop
    ensures var s := Observe(parse, runes, Initial(cursor), events);
      var r := parse(raw, s.cursor);
      var out := Observe(parse, runes, Initial(cursor), events + [Line(raw)]).out;
      && out != [] && (ReportsTrouble(r) ==> out[|out| - 1] == r)
      && (!ReportsTrouble(r) ==>
        out[|out| - 1].(responseMessageID := 0) == LineResult(true, true, false, "", [], [], r.nextType, 0))
  {
    var s := Observe(parse, runes, Initial(cursor), events);
    ObserveAppend(parse, runes, Initial(cursor), events, [Line(raw)]);
    StopSends(runes, s, parse(raw, s.cursor));
    assert [Line(raw)][1..] == [];
  }

  /** Over the parser: a chunk that reports an error, and one that was filtered. */
  lemma TroubleIsPassedOn(lib: Library, lines: LineLibrary, enabled: bool, runes: RuneCount, cursor: string,
                          events: seq<Event>, raw: string, chunk: Fields)
    requires lines.decode(raw) == Chunk(chunk) && lines.ends(chunk) != Continues
    requires lines.ends(chunk).EndsWithError? ==> lines.ends(chunk).message != ""
    ensures var parse: Parse := (raw, c) => ParseLine(lib, lines, enabled, raw, c);
      var at := Observe(parse, runes, Initial(cursor), events).cursor;
      var out := Observe(parse, runes, Initial(cursor), events + [Line(raw)]).out;
      out != [] && out[|out| - 1] ==
        match lines.ends(chunk)
        case EndsWithError(message) => LineResult(true, true, false, message, [], [], at, 0)
        case EndsFiltered => LineResult(true, true, true, "", [], [], at, 0)
  {
    StopIsPassedOn((raw, c) => ParseLine(lib, lines, enabled, raw, c), runes, cursor, events, raw);
  }

  // ---------------------------------------------------------------- message ids

  /** The last positive message id among some results, or zero. */
  function LastID(results: seq<LineResult>): int {
    if results == [] then 0
    else
      var r := results[|results| - 1];
      if r.responseMessageID > 0 then r.responseMessageID else LastID(results[..|results| - 1])
  }

  /** How many of them carry one. */
  function CountIDs(results: seq<LineResult>): nat {
    if results == [] then 0
    else
      CountIDs(results[..|results| - 1]) + (if results[|results| - 1].responseMessageID > 0 then 1 else 0)
  }

  lemma IDsOfSent(out: seq<LineResult>, r: LineResult)
    ensures LastID(out + [r]) == if r.responseMessageID > 0 then r.responseMessageID else LastID(out)
    ensures CountIDs(out + [r]) == CountIDs(out) + (if r.responseMessageID > 0 then 1 else 0)
  {
    assert (out + [r])[..|out|] == out;
  }

  /** The last id known: one that waits to be sent, or the last one sent. */
  function Latest(s: State): int {
    if s.messageID > 0 then s.messageID else LastID(s.out)
  }

  function Counted(s: State): nat {
    CountIDs(s.out) + (if s.messageID > 0 then 1 else 0)
  }

  lemma FlushKeepsIDs(runes: RuneCount, s: State, force: bool)
    ensures var f := Flush(runes, s, force); Latest(f) == Latest(s) && Counted(f) == Counted(s)
  {
    IDsOfSent(s.out, Accumulated(s));
  }

  lemma {:induction false} PartsKeepIDs(runes: RuneCount, s: State, parts: seq<Part>)
    ensures var a := AddParts(runes, s, parts); Latest(a) == Latest(s) && Counted(a) == Counted(s)
    decreases |parts|
  {
    if parts != [] {
      PartKeepsIDs(runes, s, parts[0]);
      PartsKeepIDs(runes, AddPart(runes, s, parts[0]), parts[1..]);
    }
  }

  lemma PartKeepsIDs(runes: RuneCount, s: State, p: Part)
    ensures var a := AddPart(runes, s, p); Latest(a) == Latest(s) && Counted(a) == Counted(s)
  {
    if p.kind == THINKING {
      if s.text != "" {
        FlushKeepsIDs(runes, s, true);
        BufferKeepsIDs(Flush(runes, s, true), p);
      } else {
        BufferKeepsIDs(s, p);
      }
    } else {
      BufferKeepsIDs(s, p);
      if BreaksLine(p.text) {
        FlushKeepsIDs(runes, Buffer(s, p), true);
      }
    }
  }

  lemma BufferKeepsIDs(s: State, p: Part)
    ensures Latest(Buffer(s, p)) == Latest(s) && Counted(Buffer(s, p)) == Counted(s)
  {
  }

  /** Results that report trouble carry no id; the parser sees to that. */
  predicate TroubleHasNoID(r: LineResult) {
    r.stop && ReportsTrouble(r) ==> r.responseMessageID <= 0
  }

  lemma StopKeepsIDs(runes: RuneCount, s: State, r: LineResult)
    requires r.stop && TroubleHasNoID(r)
    ensures var a := StopLine(runes, s, r);
      Latest(a) == Latest(s) && Counted(a) == Counted(s) && (!ReportsTrouble(r) ==> a.messageID == 0)
  {
    var d, f := Detect(s, r), StopFlushed(runes, s, r);
    BufferingSendsNothing(d, r.parts);
    FlushKeepsIDs(runes, BufferAll(d, r.parts), true);
    IDsOfSent(f.out, r);
    IDsOfSent(f.out, Stopped(f));
  }

  lemma LineIDs(runes: RuneCount, s: State, r: LineResult)
    requires TroubleHasNoID(r)
    ensures var a := ProcessLine(runes, s, r);
      && Latest(a) == (if r.responseMessageID > 0 then r.responseMessageID else Latest(s))
      && Counted(a) <= Counted(s) + (if r.responseMessageID > 0 then 1 else 0)
  {
    var a := Arrive(s, r);
    if r.stop {
      StopKeepsIDs(runes, a, r);
    } else {
      PartsKeepIDs(runes, Detect(a, r), r.parts);
      FlushKeepsIDs(runes, AddParts(runes, Detect(a, r), r.parts), false);
    }
  }

  lemma {:induction false} IDsAppend(a: seq<LineResult>, b: seq<LineResult>)
    ensures LastID(a + b) == if LastID(b) > 0 then LastID(b) else LastID(a)
    ensures LastID(b) >= 0 && CountIDs(a + b) == CountIDs(a) + CountIDs(b)
    decreases |b|
  {
    if b == [] {
      assert a + b == a;
    } else {
      var n := |b| - 1;
      assert (a + b)[..|a + b| - 1] == a + b[..n] && (a + b)[|a + b| - 1] == b[n];
      IDsAppend(a, b[..n]);
    }
  }

  lemma OneID(r: LineResult)
    ensures LastID([r]) == if r.responseMessageID > 0 then r.responseMessageID else 0
    ensures CountIDs([r]) == if r.responseMessageID > 0 then 1 else 0
  {
    IDsOfSent([], r);
    assert [] + [r] == [r];
  }

  lemma {:induction false} RunIDs(parse: Parse, runes: RuneCount, s: State, events: seq<Event>)
    requires WellBehaved(parse) && Sound(s) && forall raw, c :: TroubleHasNoID(parse(raw, c))
    ensures var a, results := Observe(parse, runes, s, events), Results(parse, s.cursor, events);
      && Latest(a) == (if LastID(results) > 0 then LastID(results) else Latest(s))
      && Counted(a) <= Counted(s) + CountIDs(results)
    decreases |events|
  {
    if events != [] {
      var e, next := events[0], Reaction(parse, runes, s, events[0]);
      ReactionTotals(parse, runes, s, e);
      RunIDs(parse, runes, next, events[1..]);
      match e
      case Tick => FlushKeepsIDs(runes, s.(waiting := false), true);
      case Line(raw) =>
        var r := parse(raw, s.cursor);
        LineIDs(runes, s, r);
        OneID(r);
        IDsAppend([r], Results(parse, r.nextType, events[1..]));
    }
  }

  /** After any run that ends in a plain end of stream: the last message id sent is the last one received, and no more
      results carry one than lines did. */
  lemma MessageIDIsReported(parse: Parse, runes: RuneCount, cursor: string, events: seq<Event>, raw: string)
    requires WellBehaved(parse) && IsKind(cursor) && forall raw, c :: TroubleHasNoID(parse(raw, c))
    requires var r := parse(raw, Observe(parse, runes, Initial(cursor), events).cursor);
      r.stop && !ReportsTrouble(r)
    ensures var all := events + [Line(raw)];
      var out, results := Observe(parse, runes, Initial(cursor), all).out, Results(parse, cursor, all);
      LastID(out) == LastID(results) && CountIDs(out) <= CountIDs(results)
  {
    var s, all := Observe(parse, runes, Initial(cursor), events), events + [Line(raw)];
    RunIDs(parse, runes, Initial(cursor), all);
    ObserveAppend(parse, runes, Initial(cursor), events, [Line(raw)]);
    assert [Line(raw)][1..] == [];
    StopKeepsIDs(runes, Arrive(s, parse(raw, s.cursor)), parse(raw, s.cursor));
    IDsAppend([], Results(parse, cursor, all));
  }

  lemma ParserGivesTroubleNoID(lib: Library, lines: LineLibrary, enabled: bool)
    ensures forall raw, c :: TroubleHasNoID(ParseLine(lib, lines, enabled, raw, c))
  {
  }

  // ---------------------------------------------------------------- when content is sent

  /** What waits after a line is short and holds no line break. */
  predicate IsShort(runes: RuneCount, text: string) {
    runes(text) < 16 && forall i | 0 <= i < |text| :: text[i] != '\n' && text[i] != '\r'
  }

  predicate NoBreak(text: string) {
    forall i | 0 <= i < |text| :: text[i] != '\n' && text[i] != '\r'
  }

  lemma {:induction false} PartsLeaveNoBreak(runes: RuneCount, s: State, parts: seq<Part>)
    requires NoBreak(s.text)
    ensures NoBreak(AddParts(runes, s, parts).text)
    decreases |parts|
  {
    if parts != [] {
      PartsLeaveNoBreak(runes, AddPart(runes, s, parts[0]), parts[1..]);
    }
  }

  lemma LineLeavesShort(runes: RuneCount, s: State, r: LineResult)
    requires IsShort(runes, s.text) && (r.stop ==> r.parts == [])
    ensures IsShort(runes, ProcessLine(runes, s, r).text)
  {
    if !r.stop && r.parsed {
      PartsLeaveNoBreak(runes, Detect(Arrive(s, r), r), r.parts);
    }
  }

  /** After any run the text that waits has fewer than sixteen characters and no line break, and after a tick nothing
      waits. */
  lemma {:induction false} LittleWaits(parse: Parse, runes: RuneCount, s: State, events: seq<Event>)
    requires WellBehaved(parse) && Sound(s) && IsShort(runes, s.text)
    ensures var a := Observe(parse, runes, s, events);
      IsShort(runes, a.text) && (events != [] && events[|events| - 1] == Tick ==> !a.HasBuffered())
    decreases |events|
  {
    if events != [] {
      var e, next := events[0], Reaction(parse, runes, s, events[0]);
      ReactionTotals(parse, runes, s, e);
      if e.Line? {
        LineLeavesShort(runes, s, parse(e.raw, s.cursor));
      }
      LittleWaits(parse, runes, next, events[1..]);
    }
  }

  lemma {:induction false} TextWaits(runes: RuneCount, s: State, parts: seq<Part>)
    requires forall p | p in parts :: p.kind != THINKING && NoBreak(p.text)
    ensures var a := AddParts(runes, s, parts); a.out == s.out && a.text == s.text + Texts(parts)
    decreases |parts|
  {
    if parts == [] {
      assert s.text + "" == s.text;
    } else {
      var p := parts[0];
      TextWaits(runes, AddPart(runes, s, p), parts[1..]);
      Associates(s.text, p.text, Texts(parts[1..]));
    }
  }

  /** A line of text without a line break is not sent by itself as long as fewer than sixteen characters wait. */
  lemma ShortTextWaits(runes: RuneCount, s: State, r: LineResult)
    requires r.parsed && !r.stop && (forall p | p in r.parts :: p.kind != THINKING && NoBreak(p.text))
    requires runes(s.text + Texts(r.parts)) < 16
    ensures ProcessLine(runes, s, r).out == s.out
  {
    TextWaits(runes, Detect(Arrive(s, r), r), r.parts);
  }
}
