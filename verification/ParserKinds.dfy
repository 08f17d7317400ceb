/** Which content internal/sse/parser.go takes for text and which for thinking, on the chunks upstream sends. */
module ParserKinds {

  import opened Basics
  import opened Pump
  import opened Parser

  /** A text the tag functions leave alone. */
  predicate Plain(lib: Library, s: string) {
    s != "" && s != "FINISHED" && lib.strip(s) == s && lib.closeTag(s) == None
  }

  predicate AllPlain(lib: Library, parts: seq<Part>) {
    parts == [] || (Plain(lib, parts[0].text) && AllPlain(lib, parts[1..]))
  }

  // ---------------------------------------------------------------- what a chunk shows of what it carries

  lemma {:induction false} PlainIsNotSplit(lib: Library, parts: seq<Part>)
    requires AllPlain(lib, parts)
    ensures SplitThinking(lib, parts, false) == (parts, false)
    decreases |parts|
  {
    if parts != [] {
      PlainIsNotSplit(lib, parts[1..]);
      assert [parts[0]] + parts[1..] == parts;
    }
  }

  lemma {:induction false} PlainIsNotStripped(lib: Library, parts: seq<Part>)
    requires AllPlain(lib, parts)
    ensures StripAll(lib, WithoutThinking(parts)) == WithoutThinking(parts)
  {
    if parts != [] {
      var p, rest := parts[0], WithoutThinking(parts[1..]);
      PlainIsNotStripped(lib, parts[1..]);
      if p.kind != THINKING {
        assert ([p] + rest)[1..] == rest;
      } else {
        assert [] + rest == rest;
      }
    }
  }

  /** A chunk that does not finish the response shows every text part it carries, in order, and its thinking only
      before the body and when thinking is enabled; all thinking is given to detection. */
  lemma ChunkShows(lib: Library, enabled: bool, chunk: Fields, cursor: string)
    requires "v" in chunk && !lib.skipsPath(StrAt(chunk, "p"))
    requires !(IsStatusPath(StrAt(chunk, "p")) && chunk["v"].Str?)
    requires var (w, finished) := Gathered(lib, enabled, chunk, StrAt(chunk, "p"), chunk["v"], cursor);
      !finished && AllPlain(lib, w.parts)
    ensures var w := Gathered(lib, enabled, chunk, StrAt(chunk, "p"), chunk["v"], cursor).0;
      ParseChunk(lib, enabled, chunk, cursor) ==
      Parsed(if enabled && cursor != "text" then w.parts else WithoutThinking(w.parts), OnlyThinking(w.parts), false,
             w.cursor)
  {
    var w := Gathered(lib, enabled, chunk, StrAt(chunk, "p"), chunk["v"], cursor).0;
    PlainIsNotSplit(lib, w.parts);
    PlainIsNotStripped(lib, w.parts);
  }

  /** What is shown of one part. */
  function Shown(enabled: bool, cursor: string, p: Part): seq<Part> {
    if p.kind == "text" || (enabled && cursor != "text") then [p] else []
  }

  lemma OnePart(lib: Library, enabled: bool, chunk: Fields, cursor: string, p: Part)
    requires "v" in chunk && !lib.skipsPath(StrAt(chunk, "p")) && Plain(lib, p.text) && IsKind(p.kind)
    requires !(IsStatusPath(StrAt(chunk, "p")) && chunk["v"].Str?)
    requires var (w, finished) := Gathered(lib, enabled, chunk, StrAt(chunk, "p"), chunk["v"], cursor);
      !finished && w.parts == [p]
    ensures var w := Gathered(lib, enabled, chunk, StrAt(chunk, "p"), chunk["v"], cursor).0;
      ParseChunk(lib, enabled, chunk, cursor) ==
      Parsed(Shown(enabled, cursor, p), if p.kind == "thinking" then [p] else [], false, w.cursor)
  {
    assert [p][1..] == [];
    ChunkShows(lib, enabled, chunk, cursor);
    assert [p] + [] == [p];
    if p.kind == THINKING {
      assert OnlyThinking([p]) == [p] + [] && WithoutThinking([p]) == [] + [];
    } else {
      assert OnlyThinking([p]) == [] + [] && WithoutThinking([p]) == [p] + [];
    }
  }

  // ---------------------------------------------------------------- text at a path

  function At(path: string, s: string): Fields {
    map["p" := Str(path), "v" := Str(s)]
  }

  /** The answer is text, wherever the cursor stands and whether or not thinking is enabled, and starts the body. */
  lemma ContentIsText(lib: Library, enabled: bool, cursor: string, s: string)
    requires Plain(lib, s) && !lib.skipsPath("response/content")
    ensures ParseChunk(lib, enabled, At("response/content", s), cursor) == Parsed([Part(s, "text")], [], false, "text")
  {
    OnePart(lib, enabled, At("response/content", s), cursor, Part(s, TEXT));
  }

  /** Thinking is shown before the body when it is enabled, moves the cursor back only before the body, and is always
      detected. */
  lemma ThinkingIsThinking(lib: Library, enabled: bool, cursor: string, s: string)
    requires Plain(lib, s) && !lib.skipsPath("response/thinking_content")
    ensures var p := Part(s, "thinking");
      ParseChunk(lib, enabled, At("response/thinking_content", s), cursor) ==
      Parsed(if enabled && cursor != "text" then [p] else [], [p], false,
             if enabled && cursor == "text" then "text" else "thinking")
  {
    OnePart(lib, enabled, At("response/thinking_content", s), cursor, Part(s, THINKING));
  }

  /** Text without a path has the kind of the cursor, and is text before there is one. */
  lemma NoPathFollowsCursor(lib: Library, enabled: bool, cursor: string, s: string)
    requires Plain(lib, s) && !lib.skipsPath("") && (cursor == "" || IsKind(cursor))
    ensures var p := Part(s, if cursor == "" then "text" else cursor);
      ParseChunk(lib, enabled, map["v" := Str(s)], cursor) ==
      Parsed(Shown(enabled, cursor, p), if cursor == "thinking" then [p] else [], false, cursor)
  {
    OnePart(lib, enabled, map["v" := Str(s)], cursor, Part(s, if cursor == "" then TEXT else cursor));
  }

  // ---------------------------------------------------------------- a value at any path

  /** The path of a fragment's content. */
  ghost predicate IsFragmentContent(path: string) {
    && (exists r: string :: path == "fragments/" + r || path == "response/fragments/" + r)
    && exists a: string, b: string :: path == a + ("/content" + b)
  }

  lemma PrefixIff(path: string, p: string)
    ensures HasPrefix(path, p) <==> exists r: string :: path == p + r
  {
    if HasPrefix(path, p) {
      assert path == p + path[|p|..];
    }
  }

  lemma ContainsIff(path: string, p: string)
    ensures Contains(path, p) <==> exists a: string, b: string :: path == a + (p + b)
  {
    if a: string, b: string :| path == a + (p + b) {
      assert path[|a|..] == p + b;
    }
    if i :| 0 <= i <= |path| && p <= path[i..] {
      assert path == path[..i] + (p + path[i..][|p|..]);
    }
  }

  lemma FragmentContentIs(path: string)
    ensures IsFragmentContent(path) <==>
      (HasPrefix(path, "fragments/") || HasPrefix(path, "response/fragments/")) && Contains(path, "/content")
  {
    PrefixIff(path, "fragments/");
    PrefixIff(path, "response/fragments/");
    ContainsIff(path, "/content");
  }

  /** A text at any path: thinking only at its own path, what the cursor says inside a fragment and without a path, and
      text everywhere else. */
  lemma TextAtPath(lib: Library, enabled: bool, chunk: Fields, cursor: string, s: string, kind: string)
    requires "v" in chunk && chunk["v"] == Str(s) && Plain(lib, s) && IsKind(kind)
    requires var path := StrAt(chunk, "p");
      && !lib.skipsPath(path) && path !in {"response/status", "status"}
      && (path == "response/thinking_content" ==> kind == "thinking")
      && (IsFragmentContent(path) ==> kind == cursor)
      && (path == "" ==> kind == if cursor == "" then "text" else cursor)
      && (path !in {"", "response/thinking_content"} && !IsFragmentContent(path) ==> kind == "text")
    ensures var path, p := StrAt(chunk, "p"), Part(s, kind);
      ParseChunk(lib, enabled, chunk, cursor) ==
      Parsed(Shown(enabled, cursor, p), if kind == "thinking" then [p] else [], false,
             if path == "response/content" then "text"
             else if path == "response/thinking_content" && !(enabled && cursor == "text") then "thinking"
             else cursor)
  {
    var path := StrAt(chunk, "p");
    FragmentContentIs(path);
    KindAt(path, ExplicitCursor(path, enabled, cursor), kind);
    OnePart(lib, enabled, chunk, cursor, Part(s, kind));
  }

  lemma KindAt(path: string, cursor: string, kind: string)
    requires path == "response/thinking_content" ==> kind == "thinking"
    requires IsFragmentContent(path) && path != "response/content" ==> kind == cursor
    requires path == "" ==> kind == if cursor == "" then "text" else cursor
    requires path !in {"", "response/thinking_content"} && !IsFragmentContent(path) ==> kind == "text"
    ensures !IsFragmentContent("response/content") && !IsFragmentContent("response/thinking_content")
    ensures PartKind(path, cursor) == kind
  {
    FragmentContentIs(path);
    FragmentContentIs("response/content");
    FragmentContentIs("response/thinking_content");
    assert "response/content"[9] == 'c' && "response/thinking_content"[9] == 't' && "response/fragments/"[9] == 'f';
    assert "response/content"[0] == 'r' && "fragments/"[0] == 'f' && "response/thinking_content"[0] == 'r';
  }

  /** An object that holds a text stands for that text at the content paths and without a path. */
  lemma ObjectIsItsText(lib: Library, enabled: bool, chunk: Fields, cursor: string, m: Fields, s: string)
    requires "v" in chunk && chunk["v"] == Obj(m) && s != "" && s != "FINISHED"
    requires StrAt(chunk, "p") in {"response/content", "response/thinking_content", ""}
    requires if StrAt(m, "text") != "" then s == StrAt(m, "text") else s == StrAt(m, "content")
    ensures ParseChunk(lib, enabled, chunk, cursor) == ParseChunk(lib, enabled, chunk["v" := Str(s)], cursor)
  {
    var path := StrAt(chunk, "p");
    assert StrAt(chunk["v" := Str(s)], "p") == path;
    assert Gathered(lib, enabled, chunk, path, Obj(m), cursor) ==
           Gathered(lib, enabled, chunk["v" := Str(s)], path, Str(s), cursor);
  }

  /** Everywhere else only the fragments an object wraps are read. */
  lemma OtherObjectIsSilent(lib: Library, enabled: bool, chunk: Fields, cursor: string, m: Fields)
    requires "v" in chunk && chunk["v"] == Obj(m) && "response" !in m && "fragments" !in m
    requires StrAt(chunk, "p") !in {"response/content", "response/thinking_content", ""}
    ensures ParseChunk(lib, enabled, chunk, cursor) == Parsed([], [], false, cursor)
  {
  }

  // ---------------------------------------------------------------- a closing tag

  predicate AllClean(lib: Library, parts: seq<Part>) {
    forall p | p in parts :: p.text != "" && lib.strip(p.text) == p.text && IsKind(p.kind)
  }

  function AsText(parts: seq<Part>): seq<Part> {
    seq(|parts|, i requires 0 <= i < |parts| => Part(parts[i].text, "text"))
  }

  function Whole(text: string, kind: string): seq<Part> {
    if text == "" then [] else [Part(text, kind)]
  }

  lemma {:induction false} AfterCloseIsText(lib: Library, parts: seq<Part>)
    requires AllClean(lib, parts)
    ensures SplitThinking(lib, parts, true) == (AsText(parts), true)
    decreases |parts|
  {
    if parts != [] {
      AfterCloseIsText(lib, parts[1..]);
      assert AsText(parts) == [Part(parts[0].text, "text")] + AsText(parts[1..]);
    }
  }

  /** What stands before the first closing tag stays, the tag goes, and everything behind it is text. */
  lemma {:induction false} SplitAtClose(lib: Library, before: seq<Part>, a: string, tag: string, b: string,
                                        after: seq<Part>)
    requires AllPlain(lib, before) && AllClean(lib, after) && lib.strip(b) == b
    requires lib.closeTag(a + tag + b) == Some((|a|, |a + tag|))
    ensures SplitThinking(lib, before + [Part(a + tag + b, "thinking")] + after, false) ==
            (before + Whole(a, "thinking") + Whole(b, "text") + AsText(after), true)
    decreases |before|
  {
    var all := before + [Part(a + tag + b, "thinking")] + after;
    if before == [] {
      assert all[0] == Part(a + tag + b, THINKING) && all[1..] == after;
      assert (a + tag + b)[..|a|] == a && (a + tag + b)[|a + tag|..] == b;
      AfterCloseIsText(lib, after);
      assert [] + Whole(a, "thinking") == Whole(a, "thinking");
    } else {
      var rest := before[1..];
      assert all[0] == before[0] && all[1..] == rest + [Part(a + tag + b, "thinking")] + after;
      SplitAtClose(lib, rest, a, tag, b, after);
      assert before == [before[0]] + rest;
      assert [before[0]] + (rest + Whole(a, "thinking") + Whole(b, "text") + AsText(after)) ==
             before + Whole(a, "thinking") + Whole(b, "text") + AsText(after);
    }
  }

  /** So does a chunk of any shape before the body: a closing tag in its thinking starts the body there. */
  lemma ClosingTagStartsBody(lib: Library, enabled: bool, chunk: Fields, cursor: string, before: seq<Part>, a: string,
                             tag: string, b: string, after: seq<Part>)
    requires "v" in chunk && !lib.skipsPath(StrAt(chunk, "p")) && !(enabled && cursor == "text")
    requires !(IsStatusPath(StrAt(chunk, "p")) && chunk["v"].Str?)
    requires var (w, finished) := Gathered(lib, enabled, chunk, StrAt(chunk, "p"), chunk["v"], cursor);
      !finished && w.parts == before + [Part(a + tag + b, "thinking")] + after
    requires AllPlain(lib, before) && AllClean(lib, after) && lib.strip(b) == b
    requires lib.closeTag(a + tag + b) == Some((|a|, |a + tag|))
    ensures var parts := before + Whole(a, "thinking") + Whole(b, "text") + AsText(after);
      ParseChunk(lib, enabled, chunk, cursor) ==
      Parsed(if enabled then parts else WithoutThinking(parts), OnlyThinking(parts), false, "text")
  {
    SplitAtClose(lib, before, a, tag, b, after);
  }

  /** The end of the response, told by a status or by the bare word. */
  lemma FinishedEnds(lib: Library, enabled: bool, cursor: string, path: string)
    requires (path == "response/status" || path == "status") && !lib.skipsPath(path) && lib.saysFinished("FINISHED")
    requires !lib.skipsPath("")
    ensures ParseChunk(lib, enabled, At(path, "FINISHED"), cursor) == Parsed([], [], true, cursor)
    ensures ParseChunk(lib, enabled, map["v" := Str("FINISHED")], cursor) == Parsed([], [], true, cursor)
  {
  }

  // ---------------------------------------------------------------- typed fragments

  datatype Piece = Piece(tag: string, content: string)

  predicate IsThought(tag: string) {
    tag == "THINK" || tag == "THINKING"
  }

  predicate IsLabel(lib: Library, tag: string) {
    (IsThought(tag) || tag == "RESPONSE" || "TOOL_" <= tag) && lib.upper(tag) == tag
  }

  predicate AllLabelled(lib: Library, pieces: seq<Piece>) {
    forall k | 0 <= k < |pieces| :: IsLabel(lib, pieces[k].tag) && Plain(lib, pieces[k].content)
  }

  function AsJson(p: Piece): Json {
    Obj(map["type" := Str(p.tag), "content" := Str(p.content)])
  }

  function AsJsons(pieces: seq<Piece>): seq<Json> {
    if pieces == [] then [] else [AsJson(pieces[0])] + AsJsons(pieces[1..])
  }

  /** Responses are text, thoughts and tool output are thinking. */
  function PartsOf(pieces: seq<Piece>): seq<Part> {
    if pieces == [] then []
    else
      var p := pieces[0];
      [Part(p.content, if p.tag == "RESPONSE" then "text" else "thinking")] + PartsOf(pieces[1..])
  }

  /** A response starts the body; a thought goes back to thinking unless the body has begun. */
  function CursorAt(enabled: bool, cursor: string, tag: string): string {
    if tag == "RESPONSE" then "text"
    else if IsThought(tag) && !(enabled && cursor == "text") then "thinking"
    else cursor
  }

  function CursorOver(enabled: bool, cursor: string, pieces: seq<Piece>): string
    decreases |pieces|
  {
    if pieces == [] then cursor else CursorOver(enabled, CursorAt(enabled, cursor, pieces[0].tag), pieces[1..])
  }

  lemma OneFragment(lib: Library, enabled: bool, w: Walk, p: Piece, other: string)
    requires IsLabel(lib, p.tag) && p.content != ""
    ensures AddFragment(lib, enabled, w, AsJson(p), other) ==
            Walk(CursorAt(enabled, w.cursor, p.tag), w.parts + PartsOf([p]))
  {
    assert [p][1..] == [] && PartsOf([p]) == [Part(p.content, if p.tag == "RESPONSE" then "text" else "thinking")];
    LabelIs(lib, p);
  }

  lemma LabelIs(lib: Library, p: Piece)
    requires IsLabel(lib, p.tag)
    ensures FragmentOf(lib, AsJson(p).fields) ==
      if IsThought(p.tag) then Think else if p.tag == "RESPONSE" then Response else Tool
  {
    assert "THINK"[1] == 'H' && "RESPONSE"[0] == 'R' && "TOOL_"[1] == 'O';
  }

  lemma {:induction false} FragmentsAre(lib: Library, enabled: bool, w: Walk, pieces: seq<Piece>, other: string)
    requires AllLabelled(lib, pieces)
    ensures AddFragments(lib, enabled, w, AsJsons(pieces), other) ==
            Walk(CursorOver(enabled, w.cursor, pieces), w.parts + PartsOf(pieces))
    decreases |pieces|
  {
    if pieces == [] {
      assert w.parts + [] == w.parts;
    } else {
      var p, rest := pieces[0], pieces[1..];
      OneFragment(lib, enabled, w, p, other);
      var next := AddFragment(lib, enabled, w, AsJson(p), other);
      assert AsJsons(pieces)[1..] == AsJsons(rest) && AsJsons(pieces)[0] == AsJson(p);
      assert [p][1..] == [] && PartsOf([p]) + PartsOf(rest) == PartsOf(pieces);
      FragmentsAre(lib, enabled, next, rest, other);
      Associates(w.parts, PartsOf([p]), PartsOf(rest));
    }
  }

  lemma {:induction false} PiecesArePlain(lib: Library, pieces: seq<Piece>)
    requires AllLabelled(lib, pieces)
    ensures AllPlain(lib, PartsOf(pieces))
    decreases |pieces|
  {
    if pieces != [] {
      PiecesArePlain(lib, pieces[1..]);
      assert PartsOf(pieces)[1..] == PartsOf(pieces[1..]);
    }
  }

  /** Fragment items carry no value, so that the batch walker passes over them. */
  lemma {:induction false} BatchPassesOver(lib: Library, enabled: bool, w: Walk, pieces: seq<Piece>, kind: string,
                                           parent: string)
    ensures AddItems(lib, enabled, w, AsJsons(pieces), kind, parent) == (w, false)
    decreases |pieces|
  {
    if pieces != [] {
      assert AsJsons(pieces)[1..] == AsJsons(pieces[1..]);
      BatchPassesOver(lib, enabled, w, pieces[1..], kind, parent);
    }
  }

  function Appended(pieces: seq<Piece>): Fields {
    map["p" := Str("response/fragments"), "o" := Str("APPEND"), "v" := Arr(AsJsons(pieces))]
  }

  function Wrapping(pieces: seq<Piece>): Fields {
    map["v" := Obj(map["response" := Obj(map["fragments" := Arr(AsJsons(pieces))])])]
  }

  /** What a chunk of fragments comes to. */
  function FragmentsShown(enabled: bool, cursor: string, pieces: seq<Piece>): Parsed {
    var parts := PartsOf(pieces);
    Parsed(if enabled && cursor != "text" then parts else WithoutThinking(parts), OnlyThinking(parts), false,
           CursorOver(enabled, cursor, pieces))
  }

  lemma AppendedFragments(lib: Library, enabled: bool, cursor: string, pieces: seq<Piece>)
    requires AllLabelled(lib, pieces) && !lib.skipsPath("response/fragments") && lib.saysAppend("APPEND")
    ensures ParseChunk(lib, enabled, Appended(pieces), cursor) == FragmentsShown(enabled, cursor, pieces)
  {
    AppendedGathers(lib, enabled, cursor, pieces);
    PiecesArePlain(lib, pieces);
    ChunkShows(lib, enabled, Appended(pieces), cursor);
  }

  lemma AppendedGathers(lib: Library, enabled: bool, cursor: string, pieces: seq<Piece>)
    requires AllLabelled(lib, pieces) && lib.saysAppend("APPEND")
    ensures Gathered(lib, enabled, Appended(pieces), "response/fragments", Arr(AsJsons(pieces)), cursor) ==
      (Walk(CursorOver(enabled, cursor, pieces), PartsOf(pieces)), false)
  {
    var path := "response/fragments";
    FragmentsAre(lib, enabled, Walk(cursor, []), pieces, TEXT);
    assert [] + PartsOf(pieces) == PartsOf(pieces);
    var next := Walk(CursorOver(enabled, cursor, pieces), PartsOf(pieces));
    BatchPassesOver(lib, enabled, next, pieces, PartKind(path, next.cursor), path);
  }

  lemma WrappedFragments(lib: Library, enabled: bool, cursor: string, pieces: seq<Piece>)
    requires AllLabelled(lib, pieces) && !lib.skipsPath("")
    ensures ParseChunk(lib, enabled, Wrapping(pieces), cursor) == FragmentsShown(enabled, cursor, pieces)
  {
    WrappingGathers(lib, enabled, cursor, pieces);
    PiecesArePlain(lib, pieces);
    ChunkShows(lib, enabled, Wrapping(pieces), cursor);
  }

  lemma WrappingGathers(lib: Library, enabled: bool, cursor: string, pieces: seq<Piece>)
    requires AllLabelled(lib, pieces)
    ensures Gathered(lib, enabled, Wrapping(pieces), "", Wrapping(pieces)["v"], cursor) ==
      (Walk(CursorOver(enabled, cursor, pieces), PartsOf(pieces)), false)
  {
    FragmentsAre(lib, enabled, Walk(cursor, []), pieces, PartKind("", cursor));
    assert [] + PartsOf(pieces) == PartsOf(pieces);
  }

  function Untyped(s: string): Json {
    Obj(map["content" := Str(s)])
  }

  function AppendedOne(s: string): Fields {
    map["p" := Str("response/fragments"), "o" := Str("APPEND"), "v" := Arr([Untyped(s)])]
  }

  function WrappedOne(s: string): Fields {
    map["v" := Obj(map["fragments" := Arr([Untyped(s)])])]
  }

  /** A fragment without a type is text when appended, and of the cursor's kind when wrapped; it moves no cursor. */
  lemma UntypedFragment(lib: Library, enabled: bool, cursor: string, s: string)
    requires Plain(lib, s) && IsKind(cursor) && lib.upper("") == "" && lib.saysAppend("APPEND")
    requires !lib.skipsPath("response/fragments") && !lib.skipsPath("")
    ensures ParseChunk(lib, enabled, AppendedOne(s), cursor) == Parsed([Part(s, "text")], [], false, cursor)
    ensures var p := Part(s, cursor);
      ParseChunk(lib, enabled, WrappedOne(s), cursor) ==
      Parsed(Shown(enabled, cursor, p), if cursor == "thinking" then [p] else [], false, cursor)
  {
    UntypedAppended(lib, enabled, cursor, s);
    UntypedWrapped(lib, enabled, cursor, s);
    OnePart(lib, enabled, AppendedOne(s), cursor, Part(s, TEXT));
    OnePart(lib, enabled, WrappedOne(s), cursor, Part(s, cursor));
  }

  lemma UntypedAppended(lib: Library, enabled: bool, cursor: string, s: string)
    requires s != "" && lib.upper("") == "" && lib.saysAppend("APPEND")
    ensures Gathered(lib, enabled, AppendedOne(s), "response/fragments", Arr([Untyped(s)]), cursor) ==
            (Walk(cursor, [Part(s, "text")]), false)
  {
    var w, frags := Walk(cursor, []), [Untyped(s)];
    assert frags[1..] == [];
    AddUntyped(lib, enabled, w, s, TEXT);
    assert AddFragments(lib, enabled, w, frags, TEXT) == Walk(cursor, [Part(s, TEXT)]);
    var next, path := Walk(cursor, [Part(s, TEXT)]), "response/fragments";
    assert AddItem(lib, enabled, next, frags[0], PartKind(path, cursor), path) == Some(next);
    assert AddItems(lib, enabled, next, frags, PartKind(path, cursor), path) ==
           AddItems(lib, enabled, next, [], PartKind(path, cursor), path);
  }

  lemma UntypedWrapped(lib: Library, enabled: bool, cursor: string, s: string)
    requires s != "" && lib.upper("") == "" && IsKind(cursor)
    ensures Gathered(lib, enabled, WrappedOne(s), "", WrappedOne(s)["v"], cursor) ==
            (Walk(cursor, [Part(s, cursor)]), false)
  {
    var w, frags := Walk(cursor, []), [Untyped(s)];
    assert frags[1..] == [];
    AddUntyped(lib, enabled, w, s, cursor);
    assert AddFragments(lib, enabled, w, frags, cursor) == Walk(cursor, [Part(s, cursor)]);
  }

  lemma AddUntyped(lib: Library, enabled: bool, w: Walk, s: string, kind: string)
    requires s != "" && lib.upper("") == ""
    ensures AddFragment(lib, enabled, w, Untyped(s), kind) == w.(parts := w.parts + [Part(s, kind)])
  {
  }

  // ---------------------------------------------------------------- nested in a batch

  function Nested(pieces: seq<Piece>): Json {
    Obj(map["p" := Str("fragments"), "o" := Str("APPEND"), "v" := Arr(AsJsons(pieces))])
  }

  function Nesting(pieces: seq<Piece>): Fields {
    map["p" := Str("response"), "v" := Arr([Nested(pieces)])]
  }

  lemma {:induction false} MovesOver(lib: Library, enabled: bool, cursor: string, pieces: seq<Piece>)
    requires AllLabelled(lib, pieces)
    ensures MoveOver(lib, enabled, cursor, AsJsons(pieces)) == CursorOver(enabled, cursor, pieces)
    decreases |pieces|
  {
    if pieces != [] {
      var p := pieces[0];
      LabelIs(lib, p);
      assert AsJsons(pieces)[1..] == AsJsons(pieces[1..]) && AsJsons(pieces)[0] == AsJson(p);
      MovesOver(lib, enabled, Moved(enabled, cursor, FragmentOf(lib, AsJson(p).fields)), pieces[1..]);
    }
  }

  lemma {:induction false} InnersAreFragments(lib: Library, enabled: bool, w: Walk, pieces: seq<Piece>, kind: string)
    requires AllLabelled(lib, pieces)
    ensures AddInners(lib, enabled, w, AsJsons(pieces), kind) == AddFragments(lib, enabled, w, AsJsons(pieces), kind)
    decreases |pieces|
  {
    if pieces != [] {
      assert AsJsons(pieces)[1..] == AsJsons(pieces[1..]) && AsJsons(pieces)[0] == AsJson(pieces[0]);
      InnersAreFragments(lib, enabled, AddFragment(lib, enabled, w, AsJson(pieces[0]), kind), pieces[1..], kind);
    }
  }

  /** Moving over the same fragments twice is moving over them once. */
  lemma {:induction false} MovesOnce(enabled: bool, cursor: string, start: string, pieces: seq<Piece>)
    requires IsKind(cursor) && IsKind(start)
    requires start == cursor || start == CursorOver(enabled, cursor, pieces)
    ensures CursorOver(enabled, start, pieces) == CursorOver(enabled, cursor, pieces)
    decreases |pieces|
  {
    if pieces != [] && start != cursor {
      BodyStays(enabled, pieces);
      var tag, rest := pieces[0].tag, pieces[1..];
      var c, c' := CursorAt(enabled, cursor, tag), CursorAt(enabled, start, tag);
      BodyStays(enabled, rest);
      if c' != c {
        MovesOnce(enabled, c, c', rest);
      }
    }
  }

  lemma {:induction false} BodyStays(enabled: bool, pieces: seq<Piece>)
    ensures enabled ==> CursorOver(enabled, "text", pieces) == "text"
    decreases |pieces|
  {
    if pieces != [] {
      BodyStays(enabled, pieces[1..]);
    }
  }

  lemma NestedFragments(lib: Library, enabled: bool, cursor: string, pieces: seq<Piece>)
    requires AllLabelled(lib, pieces) && IsKind(cursor)
    requires !lib.skipsPath("response") && !lib.skipsPath("fragments")
    ensures ParseChunk(lib, enabled, Nesting(pieces), cursor) == FragmentsShown(enabled, cursor, pieces)
  {
    var moved, parts := CursorOver(enabled, cursor, pieces), PartsOf(pieces);
    NestedItem(lib, enabled, cursor, pieces);
    PiecesArePlain(lib, pieces);
    NestingGathers(lib, enabled, cursor, pieces);
    ChunkShows(lib, enabled, Nesting(pieces), cursor);
  }

  lemma NestingGathers(lib: Library, enabled: bool, cursor: string, pieces: seq<Piece>)
    requires AllLabelled(lib, pieces)
    requires var w := Walk(CursorOver(enabled, cursor, pieces), []);
      AddItem(lib, enabled, w, Nested(pieces), PartKind("response", w.cursor), "response") ==
      Some(w.(parts := PartsOf(pieces)))
    ensures Gathered(lib, enabled, Nesting(pieces), "response", Arr([Nested(pieces)]), cursor) ==
      (Walk(CursorOver(enabled, cursor, pieces), PartsOf(pieces)), false)
  {
    var items := [Nested(pieces)];
    assert items[1..] == [];
    MovesOver(lib, enabled, cursor, pieces);
    var w := Walk(CursorOver(enabled, cursor, pieces), []);
    assert MoveNested(lib, enabled, cursor, items) == MoveNested(lib, enabled, w.cursor, []) == w.cursor;
    var kind := PartKind("response", w.cursor);
    var next := w.(parts := PartsOf(pieces));
    assert AddItems(lib, enabled, w, items, kind, "response") == AddItems(lib, enabled, next, [], kind, "response") ==
      (next, false);
  }

  lemma NestedItem(lib: Library, enabled: bool, cursor: string, pieces: seq<Piece>)
    requires AllLabelled(lib, pieces) && IsKind(cursor) && !lib.skipsPath("fragments")
    ensures var w := Walk(CursorOver(enabled, cursor, pieces), []);
      AddItem(lib, enabled, w, Nested(pieces), PartKind("response", w.cursor), "response") ==
      Some(w.(parts := PartsOf(pieces)))
  {
    var w := Walk(CursorOver(enabled, cursor, pieces), []);
    var kind, m := PartKind("response", w.cursor), Nested(pieces).fields;
    NestedFields(pieces, m);
    FragmentsKind(lib, w.cursor, kind);
    SecondWalk(lib, enabled, cursor, pieces);
    ArrayItem(lib, enabled, w, m, AsJsons(pieces), kind, "response");
  }

  lemma NestedFields(pieces: seq<Piece>, m: Fields)
    requires m == Nested(pieces).fields
    ensures StrAt(m, "p") == "fragments" && StrAt(m, "content") == "" && "v" in m && m["v"] == Arr(AsJsons(pieces))
    ensures !IsStatusPath("fragments")
  {
    assert "fragments"[0] == 'f' && "status"[0] == 's' && "response/status"[0] == 'r';
  }

  lemma ArrayItem(lib: Library, enabled: bool, w: Walk, m: Fields, inners: seq<Json>, kind: string, parent: string)
    requires "v" in m && m["v"] == Arr(inners) && StrAt(m, "content") == ""
    requires !IsStatusPath(StrAt(m, "p")) && !lib.skipsPath(StrAt(m, "p"))
    ensures AddItem(lib, enabled, w, Obj(m), kind, parent) ==
      Some(AddInners(lib, enabled, w, inners, ItemKind(lib, w.cursor, StrAt(m, "p"), parent, kind)))
  {
  }

  lemma SecondWalk(lib: Library, enabled: bool, cursor: string, pieces: seq<Piece>)
    requires AllLabelled(lib, pieces) && IsKind(cursor)
    ensures var w := Walk(CursorOver(enabled, cursor, pieces), []);
      AddInners(lib, enabled, w, AsJsons(pieces), TEXT) == w.(parts := PartsOf(pieces))
  {
    var w := Walk(CursorOver(enabled, cursor, pieces), []);
    InnersAreFragments(lib, enabled, w, pieces, TEXT);
    FragmentsAre(lib, enabled, w, pieces, TEXT);
    CursorStaysKind(enabled, cursor, pieces);
    MovesOnce(enabled, cursor, w.cursor, pieces);
    assert [] + PartsOf(pieces) == PartsOf(pieces);
  }

  lemma FragmentsKind(lib: Library, cursor: string, kind: string)
    ensures ItemKind(lib, cursor, "fragments", "response", kind) == TEXT
  {
    forall i | 0 <= i <= 9 ensures !("thinking" <= "fragments"[i..]) {
      assert i <= 1 ==> "fragments"[i..][0] == "fragments"[i] != 't';
    }
  }

  lemma {:induction false} CursorStaysKind(enabled: bool, cursor: string, pieces: seq<Piece>)
    requires IsKind(cursor)
    ensures IsKind(CursorOver(enabled, cursor, pieces))
    decreases |pieces|
  {
    if pieces != [] {
      CursorStaysKind(enabled, CursorAt(enabled, cursor, pieces[0].tag), pieces[1..]);
    }
  }

  // ---------------------------------------------------------------- a batch of texts

  /** A batch item with a text of its own. */
  function Item(path: string, s: string): Json {
    Obj(map["p" := Str(path), "v" := Str(s)])
  }

  /** The path of one fragment, by its number or from the end. */
  ghost predicate IsOneFragment(path: string) {
    exists d: string :: d != "" && NoSlash(d) && (path == "fragments/" + d || path == "response/fragments/" + d)
  }

  predicate NoSlash(d: string) {
    forall i | 0 <= i < |d| :: d[i] != '/'
  }

  lemma HasNoSlash(d: string)
    ensures NoSlash(d) <==> !Contains(d, "/")
  {
    forall i | 0 <= i < |d| ensures d[i] == '/' <==> "/" <= d[i..] {
      assert d[i..][0] == d[i];
    }
  }

  lemma ScopedIs(lib: Library, path: string, prefix: string, d: string)
    requires prefix == "fragments/" || prefix == "response/fragments/"
    requires d != "" && NoSlash(d) && lib.trim(path) == prefix + d
    ensures IsFragmentScopedPath(lib, path)
  {
    HasNoSlash(d);
    if prefix == "fragments/" {
      assert (prefix + d)[0] == 'f' && "response/"[0] == 'r';
      assert (prefix + d)[|"fragments/"|..] == d;
    } else {
      assert prefix == "response/" + "fragments/" && prefix + d == "response/" + ("fragments/" + d);
      assert (prefix + d)[|"response/"|..] == "fragments/" + d;
      assert ("fragments/" + d)[|"fragments/"|..] == d;
    }
  }

  /** Those are exactly the paths taken for a fragment's own, whatever stands around them. */
  lemma ScopedIff(lib: Library, path: string)
    ensures IsFragmentScopedPath(lib, path) <==> IsOneFragment(lib.trim(path))
  {
    var t := lib.trim(path);
    if IsFragmentScopedPath(lib, path) {
      var p := TrimPrefix(t, "response/");
      var d := p[|"fragments/"|..];
      HasNoSlash(d);
      assert p == "fragments/" + d;
      assert HasPrefix(t, "response/") ==> t == "response/" + p == "response/fragments/" + d;
    }
    if d: string :| d != "" && NoSlash(d) && (t == "fragments/" + d || t == "response/fragments/" + d) {
      ScopedIs(lib, path, if t == "fragments/" + d then "fragments/" else "response/fragments/", d);
    }
  }

  lemma UnscopedResponse(lib: Library)
    requires lib.trim("response") == "response"
    ensures !IsFragmentScopedPath(lib, "response")
  {
    assert "response"[0] == 'r' && "fragments/"[0] == 'f' && |"response"| < |"response/"|;
  }

  predicate IsTextPath(path: string) {
    path == "content" || path == "response/content" || path == "response" || path == "fragments"
  }

  lemma SaysNoThinking(path: string)
    requires IsTextPath(path)
    ensures !Contains(path, "thinking")
  {
    forall i | 0 <= i <= |path| ensures !("thinking" <= path[i..]) {
      if i + 8 <= |path| {
        assert path[i..][7] == path[i + 7] != 'g' || path[i..][0] == path[i] != 't';
      }
    }
  }

  /** In a batch of the response the answer is text, thinking is thinking, what has no path follows the cursor, and a
      finished status ends the batch. */
  lemma BatchItems(lib: Library, enabled: bool, w: Walk, path: string, s: string, kind: string)
    requires s != "" && s != "FINISHED" && IsTextPath(path) && lib.trim("response") == "response"
    requires !lib.skipsPath(path) && !lib.skipsPath("thinking_content") && !lib.skipsPath("")
    requires lib.saysFinished("FINISHED") && IsKind(w.cursor)
    ensures AddItem(lib, enabled, w, Item(path, s), kind, "response") ==
            Some(w.(parts := w.parts + [Part(s, "text")]))
    ensures AddItem(lib, enabled, w, Item("thinking_content", s), kind, "response") ==
            Some(w.(parts := w.parts + [Part(s, "thinking")]))
    ensures AddItem(lib, enabled, w, Item("", s), kind, "response") ==
            Some(w.(parts := w.parts + [Part(s, w.cursor)]))
    ensures AddItem(lib, enabled, w, Item("status", "FINISHED"), kind, "response") == None
  {
    UnscopedResponse(lib);
    TextItem(lib, enabled, w, path, s, kind);
    ThinkingItem(lib, enabled, w, s, kind);
    BareItem(lib, enabled, w, s, kind);
    StatusItem(lib, enabled, w, kind);
  }

  lemma TextItem(lib: Library, enabled: bool, w: Walk, path: string, s: string, kind: string)
    requires s != "" && s != "FINISHED" && IsTextPath(path) && !lib.skipsPath(path)
    requires !IsFragmentScopedPath(lib, "response")
    ensures AddItem(lib, enabled, w, Item(path, s), kind, "response") ==
            Some(w.(parts := w.parts + [Part(s, "text")]))
  {
    SaysNoThinking(path);
    var m := Item(path, s).fields;
    assert StrAt(m, "p") == path && StrAt(m, "content") == "" && m["v"] == Str(s);
    assert !IsStatusPath(path);
  }

  lemma ThinkingItem(lib: Library, enabled: bool, w: Walk, s: string, kind: string)
    requires s != "" && s != "FINISHED" && !lib.skipsPath("thinking_content")
    requires !IsFragmentScopedPath(lib, "response")
    ensures AddItem(lib, enabled, w, Item("thinking_content", s), kind, "response") ==
            Some(w.(parts := w.parts + [Part(s, "thinking")]))
  {
    var m := Item("thinking_content", s).fields;
    assert StrAt(m, "p") == "thinking_content" && StrAt(m, "content") == "" && m["v"] == Str(s);
    assert "thinking" <= "thinking_content"[0..];
    assert !IsStatusPath("thinking_content");
  }

  lemma BareItem(lib: Library, enabled: bool, w: Walk, s: string, kind: string)
    requires s != "" && s != "FINISHED" && !lib.skipsPath("") && IsKind(w.cursor)
    requires !IsFragmentScopedPath(lib, "response")
    ensures AddItem(lib, enabled, w, Item("", s), kind, "response") ==
            Some(w.(parts := w.parts + [Part(s, w.cursor)]))
  {
    var m := Item("", s).fields;
    assert StrAt(m, "p") == "" && StrAt(m, "content") == "" && m["v"] == Str(s);
    assert !Contains("", "thinking");
    assert !IsStatusPath("");
  }

  lemma StatusItem(lib: Library, enabled: bool, w: Walk, kind: string)
    requires lib.saysFinished("FINISHED") && !IsFragmentScopedPath(lib, "response")
    ensures AddItem(lib, enabled, w, Item("status", "FINISHED"), kind, "response") == None
  {
    var m := Item("status", "FINISHED").fields;
    assert StrAt(m, "p") == "status" && m["v"] == Str("FINISHED");
  }

  /** In a batch of one fragment content is thinking, and its status does not end the response. */
  lemma FragmentItems(lib: Library, enabled: bool, w: Walk, prefix: string, d: string, s: string, kind: string)
    requires prefix == "fragments/" || prefix == "response/fragments/"
    requires d != "" && NoSlash(d) && lib.trim(prefix + d) == prefix + d
    requires s != "" && s != "FINISHED" && !lib.skipsPath("content") && !lib.skipsPath("response/content")
    ensures AddItem(lib, enabled, w, Item("content", s), kind, prefix + d) ==
            Some(w.(parts := w.parts + [Part(s, "thinking")]))
    ensures AddItem(lib, enabled, w, Item("response/content", s), kind, prefix + d) ==
            Some(w.(parts := w.parts + [Part(s, "thinking")]))
    ensures AddItem(lib, enabled, w, Item("status", "FINISHED"), kind, prefix + d) == Some(w)
  {
    ScopedIs(lib, prefix + d, prefix, d);
  }

  // ---------------------------------------------------------------- the end of the response

  /** A batch item that says the response is finished. */
  predicate SaysEnd(lib: Library, item: Json) {
    && item.Obj? && "p" in item.fields && "v" in item.fields
    && item.fields["p"] in {Str("response/status"), Str("status")}
    && item.fields["v"].Str? && lib.saysFinished(item.fields["v"].s)
  }

  lemma EndsItem(lib: Library, enabled: bool, w: Walk, item: Json, kind: string, parent: string)
    ensures AddItem(lib, enabled, w, item, kind, parent) == None <==>
            !IsFragmentScopedPath(lib, parent) && SaysEnd(lib, item)
  {
  }

  lemma {:induction false} EndsBatch(lib: Library, enabled: bool, w: Walk, items: seq<Json>, kind: string,
                                     parent: string)
    ensures AddItems(lib, enabled, w, items, kind, parent).1 <==>
            !IsFragmentScopedPath(lib, parent) && exists item | item in items :: SaysEnd(lib, item)
    decreases |items|
  {
    if items != [] {
      EndsItem(lib, enabled, w, items[0], kind, parent);
      var next := AddItem(lib, enabled, w, items[0], kind, parent);
      assert forall item :: item in items <==> item == items[0] || item in items[1..];
      if next != None {
        EndsBatch(lib, enabled, next.value, items[1..], kind, parent);
      }
    }
  }

  /** A chunk of any shape ends the response exactly when its status says so, its bare text is the word itself, or an
      item of its batch says so and the batch is not that of one fragment. */
  predicate SaysFinished(lib: Library, path: string, v: Json) {
    match v
    case Str(s) =>
      if path == "response/status" || path == "status" then lib.saysFinished(s) else path == "" && s == "FINISHED"
    case Arr(items) => exists item | item in items :: SaysEnd(lib, item)
    case _ => false
  }

  lemma FinishedIff(lib: Library, enabled: bool, chunk: Fields, cursor: string)
    ensures ParseChunk(lib, enabled, chunk, cursor).finished <==>
      var path := StrAt(chunk, "p");
      && "v" in chunk && !lib.skipsPath(path) && SaysFinished(lib, path, chunk["v"])
      && !(chunk["v"].Arr? && IsOneFragment(lib.trim(path)))
  {
    if "v" in chunk && chunk["v"].Arr? {
      var path, items := StrAt(chunk, "p"), chunk["v"].items;
      ScopedIff(lib, path);
      var direct := if path == "response/fragments" && lib.saysAppend(StrAt(chunk, "o"))
                    then AddFragments(lib, enabled, Walk(ExplicitCursor(path, enabled, cursor), []), items, TEXT)
                    else Walk(ExplicitCursor(path, enabled, cursor), []);
      var nested := if path == "response"
                    then direct.(cursor := MoveNested(lib, enabled, direct.cursor, items)) else direct;
      EndsBatch(lib, enabled, nested, items, PartKind(path, nested.cursor), path);
    }
  }
}
