/** The segment cursor of internal/sse/parser.go and internal/sse/line.go: which kind a fragment of content
    gets, and when thinking may still be shown. */
module Parser {

  import opened Basics
  import opened Pump

  datatype Json =
    | Null
    | Bool(b: bool)
    | Number(n: real)
    | Str(s: string)
    | Arr(items: seq<Json>)
    | Obj(fields: map<string, Json>)

  type Fields = map<string, Json>

  // What the parser asks of the string and regexp libraries and of its own path tables.
  datatype Library = Library(
    skipsPath: string -> bool,           // shouldSkipPath
    saysFinished: string -> bool,        // EqualFold(TrimSpace(s), "FINISHED")
    saysAppend: string -> bool,          // EqualFold(op, "APPEND")
    trim: string -> string,
    upper: string -> string,
    strip: string -> string,             // stripThinkTags
    closeTag: string -> Option<(nat, nat)>)  // thinkClosePattern.FindStringIndex

  predicate HasPrefix(s: string, p: string) {
    p <= s
  }

  function TrimPrefix(s: string, p: string): string {
    if HasPrefix(s, p) then s[|p|..] else s
  }

  predicate Contains(s: string, p: string) {
    exists i | 0 <= i <= |s| :: p <= s[i..]
  }

  function StrAt(m: Fields, key: string): string {
    if key in m && m[key].Str? then m[key].s else ""
  }

  predicate IsStr(m: Fields, key: string, s: string) {
    key in m && m[key] == Str(s)
  }

  predicate IsStatusPath(path: string) {
    path == "response/status" || path == "status"
  }

  predicate IsFragmentScopedPath(lib: Library, path: string) {
    var p := TrimPrefix(lib.trim(path), "response/");
    HasPrefix(p, "fragments/") && p != "fragments/" && !Contains(TrimPrefix(p, "fragments/"), "/")
  }

  predicate BodyStarted(enabled: bool, cursor: string) {
    enabled && cursor == TEXT
  }

  // ---------------------------------------------------------------- the walkers

  /** The cursor and the parts the walkers share through pointers. */
  datatype Walk = Walk(cursor: string, parts: seq<Part>) {
    function Add(content: string, kind: string): Walk {
      if content == "" then this else this.(parts := parts + [Part(content, kind)])
    }
  }

  datatype Fragment = Think | Response | Tool | Other

  function FragmentOf(lib: Library, m: Fields): Fragment {
    var t := lib.upper(StrAt(m, "type"));
    if t == "THINK" || t == "THINKING" then Think
    else if t == "RESPONSE" then Response
    else if HasPrefix(t, "TOOL_") then Tool
    else Other
  }

  /** A typed fragment moves the cursor: THINK rewinds it unless the body has begun, RESPONSE starts the body. */
  function Moved(enabled: bool, cursor: string, f: Fragment): string {
    match f
    case Think => if BodyStarted(enabled, cursor) then cursor else THINKING
    case Response => TEXT
    case _ => cursor
  }

  function KindOf(f: Fragment, other: string): string {
    match f
    case Think => THINKING
    case Tool => THINKING
    case Response => TEXT
    case Other => other
  }

  function AddFragment(lib: Library, enabled: bool, w: Walk, frag: Json, other: string): Walk {
    if !frag.Obj? then w
    else
      var f := FragmentOf(lib, frag.fields);
      Walk(Moved(enabled, w.cursor, f), w.Add(StrAt(frag.fields, "content"), KindOf(f, other)).parts)
  }

  function AddFragments(lib: Library, enabled: bool, w: Walk, frags: seq<Json>, other: string): Walk
    decreases |frags|
  {
    if frags == [] then w
    else AddFragments(lib, enabled, AddFragment(lib, enabled, w, frags[0], other), frags[1..], other)
  }

  function MoveOver(lib: Library, enabled: bool, cursor: string, frags: seq<Json>): string
    decreases |frags|
  {
    if frags == [] then cursor
    else
      var c := if frags[0].Obj? then Moved(enabled, cursor, FragmentOf(lib, frags[0].fields)) else cursor;
      MoveOver(lib, enabled, c, frags[1..])
  }

  function MoveNested(lib: Library, enabled: bool, cursor: string, items: seq<Json>): string
    decreases |items|
  {
    if items == [] then cursor
    else
      var it := items[0];
      var nests := it.Obj? && IsStr(it.fields, "p", "fragments") && IsStr(it.fields, "o", "APPEND") &&
                   "v" in it.fields && it.fields["v"].Arr?;
      MoveNested(lib, enabled, if nests then MoveOver(lib, enabled, cursor, it.fields["v"].items)
        else cursor, items[1..])
  }

  function Sticky(cursor: string, kind: string): string {
    if cursor != "" then cursor else kind
  }

  /** An element of an array value inside a batch. */
  function AddInner(lib: Library, enabled: bool, w: Walk, inner: Json, kind: string): Walk {
    match inner
    case Str(x) => w.Add(x, kind)
    case Obj(m) =>
      var content := StrAt(m, "content");
      if content == "" then w.Add(StrAt(m, "v"), Sticky(w.cursor, kind))
      else AddFragment(lib, enabled, w, inner, kind)
    case _ => w
  }

  function AddInners(lib: Library, enabled: bool, w: Walk, inners: seq<Json>, kind: string): Walk
    decreases |inners|
  {
    if inners == [] then w else AddInners(lib, enabled, AddInner(lib, enabled, w, inners[0], kind), inners[1..], kind)
  }

  function ItemKind(lib: Library, cursor: string, path: string, parent: string, kind: string): string {
    if IsFragmentScopedPath(lib, parent) && (path == "content" || path == "response/content") then THINKING
    else if Contains(path, "thinking") then THINKING
    else if path == "content" || path == "response" || path == "fragments" || path == "response/content" then TEXT
    else Sticky(cursor, kind)
  }

  /** One item of a batch: the walk after it, or None when it ends the response. */
  function AddItem(lib: Library, enabled: bool, w: Walk, item: Json, kind: string, parent: string): Option<Walk> {
    if !item.Obj? || "v" !in item.fields then Some(w)
    else
      var m, path, v := item.fields, StrAt(item.fields, "p"), item.fields["v"];
      if IsStatusPath(path) && !IsFragmentScopedPath(lib, parent) then
        if v.Str? && lib.saysFinished(v.s) then None else Some(w)
      else if lib.skipsPath(path) then Some(w)
      else if StrAt(m, "content") != "" then Some(AddFragment(lib, enabled, w, item, kind))
      else
        var itemKind := ItemKind(lib, w.cursor, path, parent, kind);
        match v
        case Str(s) => Some(if IsStatusPath(path) || s == "FINISHED" then w else w.Add(s, itemKind))
        case Arr(inners) => Some(AddInners(lib, enabled, w, inners, itemKind))
        case _ => Some(w)
  }

  /** A batch: the walk after its items and whether one of them ended the response. */
  function AddItems(lib: Library, enabled: bool, w: Walk, items: seq<Json>, kind: string, parent: string): (Walk, bool)
    decreases |items|
  {
    if items == [] then (w, false)
    else
      var next := AddItem(lib, enabled, w, items[0], kind, parent);
      if next == None then (w, true) else AddItems(lib, enabled, next.value, items[1..], kind, parent)
  }

  // ---------------------------------------------------------------- one chunk

  function ExplicitCursor(path: string, enabled: bool, cursor: string): string {
    if path == "response/content" then TEXT
    else if path == "response/thinking_content" && !BodyStarted(enabled, cursor) then THINKING
    else cursor
  }

  function PartKind(path: string, cursor: string): string {
    if path == "response/thinking_content" then THINKING
    else if path == "response/content" then TEXT
    else if (HasPrefix(path, "fragments/") || HasPrefix(path, "response/fragments/")) && Contains(path, "/content")
      then cursor
    else if path == "" then Sticky(cursor, TEXT)
    else TEXT
  }

  function Wrapped(m: Fields): Fields {
    if "response" in m && m["response"].Obj? then m["response"].fields else m
  }

  function ObjectText(m: Fields): string {
    if StrAt(m, "text") != "" then StrAt(m, "text") else StrAt(m, "content")
  }

  /** The content of the chunk's value, and whether it ends the response. */
  function AddValue(lib: Library, enabled: bool, w: Walk, path: string, v: Json): (Walk, bool) {
    var kind := PartKind(path, w.cursor);
    match v
    case Str(s) =>
      if s == "FINISHED" && (path == "" || path == "status") then (w, true)
      else if IsStatusPath(path) then (w, false)
      else (w.Add(s, kind), false)
    case Arr(items) => AddItems(lib, enabled, w, items, kind, path)
    case Obj(m) =>
      if (path == "response/content" || path == "response/thinking_content" || path == "") && ObjectText(m) != ""
      then (w.Add(ObjectText(m), kind), false)
      else
        var resp := Wrapped(m);
        if "fragments" in resp && resp["fragments"].Arr?
        then (AddFragments(lib, enabled, w, resp["fragments"].items, kind), false)
        else (w, false)
    case _ => (w, false)
  }

  function Gathered(lib: Library, enabled: bool, chunk: Fields, path: string, v: Json, cursor: string): (Walk, bool) {
    var w := Walk(ExplicitCursor(path, enabled, cursor), []);
    var direct := if path == "response/fragments" && lib.saysAppend(StrAt(chunk, "o")) && v.Arr?
                  then AddFragments(lib, enabled, w, v.items, TEXT) else w;
    var nested := if path == "response" && v.Arr?
                  then direct.(cursor := MoveNested(lib, enabled, direct.cursor, v.items)) else direct;
    AddValue(lib, enabled, nested, path, v)
  }

  function OnlyThinking(parts: seq<Part>): seq<Part> {
    if parts == [] then []
    else (if parts[0].kind == THINKING then [parts[0]] else []) + OnlyThinking(parts[1..])
  }

  function WithoutThinking(parts: seq<Part>): seq<Part> {
    if parts == [] then []
    else (if parts[0].kind == THINKING then [] else [parts[0]]) + WithoutThinking(parts[1..])
  }

  function Stripped(lib: Library, text: string, kind: string): seq<Part> {
    var t := lib.strip(text);
    if t == "" then [] else [Part(t, kind)]
  }

  function StripAll(lib: Library, parts: seq<Part>): seq<Part> {
    if parts == [] then [] else Stripped(lib, parts[0].text, parts[0].kind) + StripAll(lib, parts[1..])
  }

  /** A closing think tag inside thinking turns everything after it into text. */
  function SplitThinking(lib: Library, parts: seq<Part>, done: bool): (seq<Part>, bool)
    decreases |parts|
  {
    if parts == [] then ([], done)
    else
      var p := parts[0];
      var loc := lib.closeTag(p.text);
      if p.kind != THINKING then
        var (rest, d) := SplitThinking(lib, parts[1..], done); (Stripped(lib, p.text, p.kind) + rest, d)
      else if done then
        var (rest, d) := SplitThinking(lib, parts[1..], done); (Stripped(lib, p.text, TEXT) + rest, d)
      else if loc == None || !(loc.value.0 <= loc.value.1 <= |p.text|) then
        var (rest, d) := SplitThinking(lib, parts[1..], done); ([p] + rest, d)
      else
        var (rest, d) := SplitThinking(lib, parts[1..], true);
        var before := p.text[..loc.value.0];
        ((if before == "" then [] else [Part(before, THINKING)]) + Stripped(lib, p.text[loc.value.1..], TEXT) + rest, d)
  }

  datatype Parsed = Parsed(parts: seq<Part>, detection: seq<Part>, finished: bool, nextType: string)

  /** ParseSSEChunkForContentDetailed. */
  function ParseChunk(lib: Library, enabled: bool, chunk: Fields, cursor: string): Parsed {
    if "v" !in chunk then Parsed([], [], false, cursor)
    else
      var v, path := chunk["v"], StrAt(chunk, "p");
      if lib.skipsPath(path) then Parsed([], [], false, cursor)
      else if IsStatusPath(path) && v.Str? then Parsed([], [], lib.saysFinished(v.s), cursor)
      else
        var (w, finished) := Gathered(lib, enabled, chunk, path, v, cursor);
        if finished then Parsed([], [], true, w.cursor)
        else if BodyStarted(enabled, cursor) then
          Parsed(StripAll(lib, WithoutThinking(w.parts)), OnlyThinking(w.parts), false, w.cursor)
        else
          var (parts, closed) := SplitThinking(lib, w.parts, false);
          Parsed(if enabled then parts else WithoutThinking(parts), OnlyThinking(parts), false, if closed then TEXT
            else w.cursor)
  }

  // ---------------------------------------------------------------- the walkers, as the source runs them

  class Walker {
    const lib: Library
    const thinkingEnabled: bool
    var newType: string
    var parts: seq<Part>

    ghost function Now(): Walk
      reads this
    {
      Walk(newType, parts)
    }

    constructor (lib: Library, thinkingEnabled: bool, newType: string)
      ensures Now() == Walk(newType, []) && this.lib == lib && this.thinkingEnabled == thinkingEnabled
    {
      this.lib, this.thinkingEnabled, this.newType, this.parts := lib, thinkingEnabled, newType, [];
    }

    method AppendContentPart(content: string, kind: string)
      modifies this`parts
      ensures Now() == old(Now()).Add(content, kind)
    {
      if content == "" {
        return;
      }
      parts := parts + [Part(content, kind)];
    }

    /** The loop of collectDirectFragments and of appendWrappedFragments. */
    method AppendFragments(frags: seq<Json>, other: string)
      modifies this
      ensures Now() == AddFragments(lib, thinkingEnabled, old(Now()), frags, other)
    {
      for i := 0 to |frags|
        invariant AddFragments(lib, thinkingEnabled, Now(), frags[i..], other) ==
                  AddFragments(lib, thinkingEnabled, old(Now()), frags, other)
      {
        assert frags[i..][1..] == frags[i + 1..];
        if frags[i].Obj? {
          var f := FragmentOf(lib, frags[i].fields);
          newType := Moved(thinkingEnabled, newType, f);
          AppendContentPart(StrAt(frags[i].fields, "content"), KindOf(f, other));
        }
      }
    }

    /** updateTypeFromNestedResponse. */
    method UpdateTypeFromNestedResponse(path: string, v: Json)
      modifies this`newType
      ensures newType == if path == "response" && v.Arr? then MoveNested(lib, thinkingEnabled, old(newType), v.items)
        else old(newType)
    {
      if path != "response" || !v.Arr? {
        return;
      }
      var items := v.items;
      for i := 0 to |items|
        invariant MoveNested(lib, thinkingEnabled, newType, items[i..]) ==
          MoveNested(lib, thinkingEnabled, old(newType), items)
      {
        assert items[i..][1..] == items[i + 1..];
        var it := items[i];
        if it.Obj? && IsStr(it.fields, "p", "fragments") && IsStr(it.fields, "o", "APPEND") && "v" in it.fields &&
            it.fields["v"].Arr? {
          var frags := it.fields["v"].items;
          ghost var start := newType;
          for k := 0 to |frags|
            invariant MoveOver(lib, thinkingEnabled, newType, frags[k..]) ==
              MoveOver(lib, thinkingEnabled, start, frags)
          {
            assert frags[k..][1..] == frags[k + 1..];
            if frags[k].Obj? {
              newType := Moved(thinkingEnabled, newType, FragmentOf(lib, frags[k].fields));
            }
          }
        }
      }
    }

    method AppendInner(inner: Json, kind: string)
      modifies this
      ensures Now() == AddInner(lib, thinkingEnabled, old(Now()), inner, kind)
    {
      match inner {
        case Str(x) => AppendContentPart(x, kind);
        case Obj(m) =>
          if StrAt(m, "content") == "" {
            AppendContentPart(StrAt(m, "v"), if newType != "" then newType else kind);
          } else {
            AppendFragments([inner], kind);
          }
        case _ =>
      }
    }

    /** extractContentRecursiveFrom. */
    method ExtractContent(items: seq<Json>, defaultType: string, parent: string) returns (finished: bool)
      modifies this
      ensures (Now(), finished) == AddItems(lib, thinkingEnabled, old(Now()), items, defaultType, parent)
    {
      for i := 0 to |items|
        invariant AddItems(lib, thinkingEnabled, Now(), items[i..], defaultType, parent) ==
                  AddItems(lib, thinkingEnabled, old(Now()), items, defaultType, parent)
      {
        assert items[i..][1..] == items[i + 1..];
        var ended := ExtractItem(items[i], defaultType, parent);
        if ended {
          return true;
        }
      }
      return false;
    }

    method ExtractItem(item: Json, defaultType: string, parent: string) returns (ended: bool)
      modifies this
      ensures AddItem(lib, thinkingEnabled, old(Now()), item, defaultType, parent) == if ended then None
        else Some(Now())
      ensures ended ==> Now() == old(Now())
    {
      if !item.Obj? || "v" !in item.fields {
        return false;
      }
      var m, path, v := item.fields, StrAt(item.fields, "p"), item.fields["v"];
      if IsStatusPath(path) && !IsFragmentScopedPath(lib, parent) {
        return v.Str? && lib.saysFinished(v.s);
      }
      if lib.skipsPath(path) {
        return false;
      }
      if StrAt(m, "content") != "" {
        AppendFragments([item], defaultType);
        return false;
      }
      var partType := ItemKind(lib, newType, path, parent, defaultType);
      match v {
        case Str(s) =>
          if !IsStatusPath(path) && s != "FINISHED" {
            AppendContentPart(s, partType);
          }
        case Arr(inners) =>
          ghost var start := Now();
          for k := 0 to |inners|
            invariant AddInners(lib, thinkingEnabled, Now(), inners[k..], partType) ==
                      AddInners(lib, thinkingEnabled, start, inners, partType)
          {
            assert inners[k..][1..] == inners[k + 1..];
            AppendInner(inners[k], partType);
          }
        case _ =>
      }
      return false;
    }
  }

  // ---------------------------------------------------------------- what every walker keeps

  /** A started body stays started, and only the two known kinds are used. */
  ghost predicate Keeps(enabled: bool, w: Walk, next: Walk) {
    CursorKeeps(enabled, w.cursor, next.cursor) && (Known(w.parts) ==> Known(next.parts))
  }

  predicate CursorKeeps(enabled: bool, cursor: string, next: string) {
    (BodyStarted(enabled, cursor) ==> next == TEXT) && IsKind(next)
  }

  lemma AddFragmentKeeps(lib: Library, enabled: bool, w: Walk, frag: Json, other: string)
    requires IsKind(w.cursor) && IsKind(other)
    ensures Keeps(enabled, w, AddFragment(lib, enabled, w, frag, other))
  {
  }

  lemma {:induction false} AddFragmentsKeep(lib: Library, enabled: bool, w: Walk, frags: seq<Json>, other: string)
    requires IsKind(w.cursor) && IsKind(other)
    ensures Keeps(enabled, w, AddFragments(lib, enabled, w, frags, other))
    decreases |frags|
  {
    if frags != [] {
      AddFragmentKeeps(lib, enabled, w, frags[0], other);
      AddFragmentsKeep(lib, enabled, AddFragment(lib, enabled, w, frags[0], other), frags[1..], other);
    }
  }

  lemma {:induction false} MoveOverKeeps(lib: Library, enabled: bool, cursor: string, frags: seq<Json>)
    requires IsKind(cursor)
    ensures CursorKeeps(enabled, cursor, MoveOver(lib, enabled, cursor, frags))
    decreases |frags|
  {
    if frags != [] {
      var c := if frags[0].Obj? then Moved(enabled, cursor, FragmentOf(lib, frags[0].fields)) else cursor;
      MoveOverKeeps(lib, enabled, c, frags[1..]);
    }
  }

  lemma {:induction false} MoveNestedKeeps(lib: Library, enabled: bool, cursor: string, items: seq<Json>)
    requires IsKind(cursor)
    ensures CursorKeeps(enabled, cursor, MoveNested(lib, enabled, cursor, items))
    decreases |items|
  {
    if items != [] {
      var it := items[0];
      if it.Obj? && IsStr(it.fields, "p", "fragments") && IsStr(it.fields, "o", "APPEND") && "v" in it.fields &&
          it.fields["v"].Arr? {
        MoveOverKeeps(lib, enabled, cursor, it.fields["v"].items);
        MoveNestedKeeps(lib, enabled, MoveOver(lib, enabled, cursor, it.fields["v"].items), items[1..]);
      } else {
        MoveNestedKeeps(lib, enabled, cursor, items[1..]);
      }
    }
  }

  lemma AddInnerKeeps(lib: Library, enabled: bool, w: Walk, inner: Json, kind: string)
    requires IsKind(w.cursor) && IsKind(kind)
    ensures Keeps(enabled, w, AddInner(lib, enabled, w, inner, kind))
  {
    if inner.Obj? {
      AddFragmentKeeps(lib, enabled, w, inner, kind);
    }
  }

  lemma {:induction false} AddInnersKeep(lib: Library, enabled: bool, w: Walk, inners: seq<Json>, kind: string)
    requires IsKind(w.cursor) && IsKind(kind)
    ensures Keeps(enabled, w, AddInners(lib, enabled, w, inners, kind))
    decreases |inners|
  {
    if inners != [] {
      AddInnerKeeps(lib, enabled, w, inners[0], kind);
      AddInnersKeep(lib, enabled, AddInner(lib, enabled, w, inners[0], kind), inners[1..], kind);
    }
  }

  lemma AddItemKeeps(lib: Library, enabled: bool, w: Walk, item: Json, kind: string, parent: string)
    requires IsKind(w.cursor) && IsKind(kind)
    ensures var next := AddItem(lib, enabled, w, item, kind, parent);
      next.Some? ==> Keeps(enabled, w, next.value)
  {
    if item.Obj? && "v" in item.fields {
      AddFragmentKeeps(lib, enabled, w, item, kind);
      if item.fields["v"].Arr? {
        var itemKind := ItemKind(lib, w.cursor, StrAt(item.fields, "p"), parent, kind);
        AddInnersKeep(lib, enabled, w, item.fields["v"].items, itemKind);
      }
    }
  }

  lemma {:induction false} AddItemsKeep(lib: Library, enabled: bool, w: Walk, items: seq<Json>, kind: string,
                                        parent: string)
    requires IsKind(w.cursor) && IsKind(kind)
    ensures Keeps(enabled, w, AddItems(lib, enabled, w, items, kind, parent).0)
    decreases |items|
  {
    if items != [] {
      var next := AddItem(lib, enabled, w, items[0], kind, parent);
      AddItemKeeps(lib, enabled, w, items[0], kind, parent);
      if next.Some? {
        AddItemsKeep(lib, enabled, next.value, items[1..], kind, parent);
      }
    }
  }

  lemma AddValueKeeps(lib: Library, enabled: bool, w: Walk, path: string, v: Json)
    requires IsKind(w.cursor)
    ensures Keeps(enabled, w, AddValue(lib, enabled, w, path, v).0)
  {
    var kind := PartKind(path, w.cursor);
    match v {
      case Arr(items) => AddItemsKeep(lib, enabled, w, items, kind, path);
      case Obj(m) =>
        var resp := Wrapped(m);
        if "fragments" in resp && resp["fragments"].Arr? {
          AddFragmentsKeep(lib, enabled, w, resp["fragments"].items, kind);
        }
      case _ =>
    }
  }

  lemma GatheredKeeps(lib: Library, enabled: bool, chunk: Fields, path: string, v: Json, cursor: string)
    requires IsKind(cursor)
    ensures Keeps(enabled, Walk(cursor, []), Gathered(lib, enabled, chunk, path, v, cursor).0)
  {
    var w := Walk(ExplicitCursor(path, enabled, cursor), []);
    var direct := w;
    if path == "response/fragments" && lib.saysAppend(StrAt(chunk, "o")) && v.Arr? {
      AddFragmentsKeep(lib, enabled, w, v.items, TEXT);
      direct := AddFragments(lib, enabled, w, v.items, TEXT);
    }
    var nested := direct;
    if path == "response" && v.Arr? {
      MoveNestedKeeps(lib, enabled, direct.cursor, v.items);
      nested := direct.(cursor := MoveNested(lib, enabled, direct.cursor, v.items));
    }
    AddValueKeeps(lib, enabled, nested, path, v);
  }

  // ---------------------------------------------------------------- what a chunk may show

  ghost predicate ShowsNoThinking(parts: seq<Part>) {
    forall p | p in parts :: p.kind != THINKING
  }

  lemma {:induction false} WithoutThinkingShowsNone(parts: seq<Part>)
    ensures ShowsNoThinking(WithoutThinking(parts)) && (Known(parts) ==> Known(WithoutThinking(parts)))
  {
    if parts != [] {
      WithoutThinkingShowsNone(parts[1..]);
    }
  }

  lemma {:induction false} StripKeepsKinds(lib: Library, parts: seq<Part>)
    ensures ShowsNoThinking(parts) ==> ShowsNoThinking(StripAll(lib, parts))
    ensures Known(parts) ==> Known(StripAll(lib, parts))
  {
    if parts != [] {
      StripKeepsKinds(lib, parts[1..]);
    }
  }

  lemma {:induction false} SplitKeepsKinds(lib: Library, parts: seq<Part>, done: bool)
    requires Known(parts)
    ensures Known(SplitThinking(lib, parts, done).0)
    decreases |parts|
  {
    if parts != [] {
      var p := parts[0];
      var loc := lib.closeTag(p.text);
      SplitKeepsKinds(lib, parts[1..], done);
      SplitKeepsKinds(lib, parts[1..], true);
    }
  }

  /** Once the body has begun, a chunk of any shape leaves the cursor there and shows no thinking. */
  lemma BodyIsSticky(lib: Library, chunk: Fields, cursor: string)
    requires cursor == TEXT
    ensures var r := ParseChunk(lib, true, chunk, cursor);
      r.nextType == TEXT && ShowsNoThinking(r.parts)
  {
    if "v" in chunk {
      var v, path := chunk["v"], StrAt(chunk, "p");
      GatheredKeeps(lib, true, chunk, path, v, cursor);
      var w := Gathered(lib, true, chunk, path, v, cursor).0;
      WithoutThinkingShowsNone(w.parts);
      StripKeepsKinds(lib, WithoutThinking(w.parts));
    }
  }

  /** With thinking disabled no chunk shows any. */
  lemma DisabledShowsNoThinking(lib: Library, chunk: Fields, cursor: string)
    ensures ShowsNoThinking(ParseChunk(lib, false, chunk, cursor).parts)
  {
    if "v" in chunk {
      var w := Gathered(lib, false, chunk, StrAt(chunk, "p"), chunk["v"], cursor).0;
      WithoutThinkingShowsNone(SplitThinking(lib, w.parts, false).0);
    }
  }

  /** The kinds stay known, and the chunk that ends the response carries no content. */
  lemma ChunkIsSound(lib: Library, enabled: bool, chunk: Fields, cursor: string)
    requires IsKind(cursor)
    ensures var r := ParseChunk(lib, enabled, chunk, cursor);
      IsKind(r.nextType) && Known(r.parts) && (r.finished ==> r.parts == [] && r.detection == [])
  {
    if "v" in chunk {
      var v, path := chunk["v"], StrAt(chunk, "p");
      GatheredKeeps(lib, enabled, chunk, path, v, cursor);
      var w := Gathered(lib, enabled, chunk, path, v, cursor).0;
      SplitKeepsKinds(lib, w.parts, false);
      WithoutThinkingShowsNone(w.parts);
      StripKeepsKinds(lib, WithoutThinking(w.parts));
      WithoutThinkingShowsNone(SplitThinking(lib, w.parts, false).0);
    }
  }

  // ---------------------------------------------------------------- a run of chunks

  function ParseAll(lib: Library, enabled: bool, cursor: string, chunks: seq<Fields>): (rs: seq<Parsed>)
    ensures |rs| == |chunks|
    decreases |chunks|
  {
    if chunks == [] then []
    else
      var r := ParseChunk(lib, enabled, chunks[0], cursor);
      [r] + ParseAll(lib, enabled, r.nextType, chunks[1..])
  }

  lemma {:induction false} StaysInBody(lib: Library, cursor: string, chunks: seq<Fields>, j: nat)
    requires cursor == TEXT && j < |chunks|
    ensures var r := ParseAll(lib, true, cursor, chunks)[j];
      r.nextType == TEXT && ShowsNoThinking(r.parts)
    decreases |chunks|
  {
    BodyIsSticky(lib, chunks[0], cursor);
    if j > 0 {
      StaysInBody(lib, ParseChunk(lib, true, chunks[0], cursor).nextType, chunks[1..], j - 1);
    }
  }

  /** In a run with thinking enabled, after a chunk that leaves the cursor in the body, no chunk leaves it
      or shows thinking again. */
  lemma {:induction false} ThinkingNeverReturns(lib: Library, cursor: string, chunks: seq<Fields>, i: nat, j: nat)
    requires i < j < |chunks|
    requires ParseAll(lib, true, cursor, chunks)[i].nextType == TEXT
    ensures var rs := ParseAll(lib, true, cursor, chunks);
      rs[j].nextType == TEXT && ShowsNoThinking(rs[j].parts)
    decreases |chunks|
  {
    var r := ParseChunk(lib, true, chunks[0], cursor);
    var later := ParseAll(lib, true, r.nextType, chunks[1..]);
    assert ParseAll(lib, true, cursor, chunks) == [r] + later;
    if i == 0 {
      StaysInBody(lib, r.nextType, chunks[1..], j - 1);
    } else {
      ThinkingNeverReturns(lib, r.nextType, chunks[1..], i - 1, j - 1);
    }
  }

  // ---------------------------------------------------------------- one line, and the pump behind it

  datatype Decoded = NotData | Done | Chunk(fields: Fields)

  datatype Ends = Continues | EndsWithError(message: string) | EndsFiltered

  // What the line parser asks of the JSON decoder and of the checks made before content is read.
  datatype LineLibrary = LineLibrary(
    decode: string -> Decoded,
    ends: Fields -> Ends,
    clean: string -> Option<string>,   // what filterLeakedContentFilterParts leaves of a text, if anything
    messageID: Fields -> int)

  function CleanAll(clean: string -> Option<string>, parts: seq<Part>): seq<Part> {
    if parts == [] then []
    else
      var rest := CleanAll(clean, parts[1..]);
      match clean(parts[0].text)
      case None => rest
      case Some(t) => [Part(t, parts[0].kind)] + rest
  }

  /** ParseDeepSeekContentLine. */
  function ParseLine(lib: Library, lines: LineLibrary, enabled: bool, raw: string, cursor: string): LineResult {
    match lines.decode(raw)
    case NotData => LineResult(false, false, false, "", [], [], cursor, 0)
    case Done => LineResult(true, true, false, "", [], [], cursor, 0)
    case Chunk(chunk) =>
      match lines.ends(chunk)
      case EndsWithError(message) => LineResult(true, true, false, message, [], [], cursor, 0)
      case EndsFiltered => LineResult(true, true, true, "", [], [], cursor, 0)
      case Continues =>
        var r := ParseChunk(lib, enabled, chunk, cursor);
        LineResult(true, r.finished, false, "", CleanAll(lines.clean, r.parts), CleanAll(lines.clean, r.detection),
          r.nextType,
                   lines.messageID(chunk))
  }

  lemma {:induction false} CleanKeepsKinds(clean: string -> Option<string>, parts: seq<Part>)
    requires Known(parts)
    ensures Known(CleanAll(clean, parts))
  {
    if parts != [] {
      CleanKeepsKinds(clean, parts[1..]);
    }
  }

  /** The parser meets everything the pump relies on. */
  lemma ParserIsWellBehaved(lib: Library, lines: LineLibrary, enabled: bool)
    ensures WellBehaved((raw, cursor) => ParseLine(lib, lines, enabled, raw, cursor))
  {
    forall raw, cursor | IsKind(cursor)
      ensures SoundResult(ParseLine(lib, lines, enabled, raw, cursor))
    {
      if lines.decode(raw).Chunk? {
        var chunk := lines.decode(raw).fields;
        ChunkIsSound(lib, enabled, chunk, cursor);
        CleanKeepsKinds(lines.clean, ParseChunk(lib, enabled, chunk, cursor).parts);
      }
    }
  }

  /** So the pump over this parser loses, doubles and reorders nothing, whatever the lines and the timing. */
  lemma PumpOverParser(lib: Library, lines: LineLibrary, enabled: bool, runes: RuneCount, cursor: string,
                       events: seq<Event>, ending: Ending)
    requires IsKind(cursor)
    ensures var parse: Parse := (raw, c) => ParseLine(lib, lines, enabled, raw, c);
      Coalesce(EmittedParts(Final(parse, runes, cursor, events, ending).out)) ==
      Coalesce(ReceivedParts(parse, cursor, AllEvents(events, ending)))
  {
    ParserIsWellBehaved(lib, lines, enabled);
    PumpPreservesParts((raw, c) => ParseLine(lib, lines, enabled, raw, c), runes, cursor, events, ending);
  }

  // ---------------------------------------------------------------- what the client may see of thinking

  /** The cursor once the events are parsed. */
  function CursorAfter(parse: Parse, cursor: string, events: seq<Event>): string
    decreases |events|
  {
    if events == [] then cursor
    else CursorAfter(parse, if events[0].Tick? then cursor else parse(events[0].raw, cursor).nextType, events[1..])
  }

  lemma {:induction false} ReceivedInTwo(parse: Parse, cursor: string, a: seq<Event>, b: seq<Event>)
    ensures Received(parse, cursor, a + b) == Received(parse, cursor, a) +
      Received(parse, CursorAfter(parse, cursor, a), b)
    decreases |a|
  {
    if a == [] {
      assert a + b == b;
    } else {
      assert (a + b)[1..] == a[1..] + b;
      ReceivedInTwo(parse, if a[0].Tick? then cursor else parse(a[0].raw, cursor).nextType, a[1..], b);
    }
  }

  ghost predicate NoThinking(content: seq<(char, string)>) {
    forall c | c in content :: c.1 != THINKING
  }

  lemma {:induction false} NoThinkingIn(parts: seq<Part>)
    requires ShowsNoThinking(parts)
    ensures NoThinking(Chars(parts))
  {
    if parts != [] {
      NoThinkingIn(parts[1..]);
    }
  }

  lemma {:induction false} CleanShowsNoThinking(clean: string -> Option<string>, parts: seq<Part>)
    requires ShowsNoThinking(parts)
    ensures ShowsNoThinking(CleanAll(clean, parts))
  {
    if parts != [] {
      CleanShowsNoThinking(clean, parts[1..]);
    }
  }

  lemma LineInBody(lib: Library, lines: LineLibrary, raw: string)
    ensures var r := ParseLine(lib, lines, true, raw, TEXT);
      r.nextType == TEXT && NoThinking(Content(r))
  {
    if lines.decode(raw).Chunk? {
      var chunk := lines.decode(raw).fields;
      BodyIsSticky(lib, chunk, TEXT);
      CleanShowsNoThinking(lines.clean, ParseChunk(lib, true, chunk, TEXT).parts);
    }
    NoThinkingIn(ParseLine(lib, lines, true, raw, TEXT).parts);
  }

  lemma {:induction false} NoneReceivedInBody(lib: Library, lines: LineLibrary, parse: Parse, events: seq<Event>)
    requires forall raw, c :: parse(raw, c) == ParseLine(lib, lines, true, raw, c)
    ensures NoThinking(Received(parse, TEXT, events))
    decreases |events|
  {
    if events != [] {
      NoneReceivedInBody(lib, lines, parse, events[1..]);
      if events[0].Line? {
        LineInBody(lib, lines, events[0].raw);
      }
    }
  }

  /** With thinking enabled, whatever the lines and the timing: everything the pump sends of what was received after
      the body had begun is text; all thinking it sends was received before. */
  lemma NoThinkingAfterBody(lib: Library, lines: LineLibrary, runes: RuneCount, cursor: string,
                            before: seq<Event>, after: seq<Event>, ending: Ending, events: seq<Event>)
    requires IsKind(cursor) && AllEvents(events, ending) == before + after
    requires CursorAfter((raw, c) => ParseLine(lib, lines, true, raw, c), cursor, before) == TEXT
    ensures var parse: Parse := (raw, c) => ParseLine(lib, lines, true, raw, c);
      var sent := Emitted(Final(parse, runes, cursor, events, ending).out);
      && sent == Received(parse, cursor, before) + Received(parse, TEXT, after)
      && NoThinking(Received(parse, TEXT, after))
  {
    var parse: Parse := (raw, c) => ParseLine(lib, lines, true, raw, c);
    ParserIsWellBehaved(lib, lines, true);
    NothingLost(parse, runes, cursor, events, ending);
    ReceivedInTwo(parse, cursor, before, after);
    NoneReceivedInBody(lib, lines, parse, after);
  }

  // ---------------------------------------------------------------- the end of the stream behind the parser

  lemma {:induction false} EndIsThinking(parts: seq<Part>)
    requires EndsInThinking(parts)
    ensures !ShowsNoThinking(parts)
  {
    assert parts[0] in parts;
    if !IsBlank(parts[1..]) {
      EndIsThinking(parts[1..]);
      assert forall p | p in parts[1..] :: p in parts;
    }
  }

  /** What is shown as thinking also appears in the detection text. */
  lemma {:induction false} ShownIsDetected(clean: string -> Option<string>, parts: seq<Part>)
    requires EndsInThinking(CleanAll(clean, parts))
    ensures Texts(CleanAll(clean, OnlyThinking(parts))) != ""
  {
    var p, rest := parts[0], parts[1..];
    var cleaned := CleanAll(clean, rest);
    var own := if p.kind == THINKING then [p] else [];
    assert OnlyThinking(parts) == own + OnlyThinking(rest);
    if p.kind == THINKING {
      assert (own + OnlyThinking(rest))[1..] == OnlyThinking(rest);
    } else {
      assert own + OnlyThinking(rest) == OnlyThinking(rest);
    }
    if EndsInThinking(cleaned) {
      ShownIsDetected(clean, rest);
      if p.kind == THINKING && clean(p.text).Some? {
        var q := Part(clean(p.text).value, THINKING);
        assert ([q] + CleanAll(clean, OnlyThinking(rest)))[1..] == CleanAll(clean, OnlyThinking(rest));
      }
    } else {
      var q := Part(clean(p.text).value, p.kind);
      assert ([q] + cleaned)[1..] == cleaned;
    }
  }

  /** Thinking in the result of a line comes with detection text. */
  lemma LineIsCovered(lib: Library, lines: LineLibrary, enabled: bool, raw: string, cursor: string)
    ensures Covered(ParseLine(lib, lines, enabled, raw, cursor))
  {
    var r := ParseLine(lib, lines, enabled, raw, cursor);
    if EndsInThinking(r.parts) {
      EndIsThinking(r.parts);
      assert r.parts != [];
      var chunk := lines.decode(raw).fields;
      var path, v := StrAt(chunk, "p"), chunk["v"];
      var w := Gathered(lib, enabled, chunk, path, v, cursor).0;
      if BodyStarted(enabled, cursor) {
        WithoutThinkingShowsNone(w.parts);
        StripKeepsKinds(lib, WithoutThinking(w.parts));
        CleanShowsNoThinking(lines.clean, StripAll(lib, WithoutThinking(w.parts)));
      } else if enabled {
        ShownIsDetected(lines.clean, SplitThinking(lib, w.parts, false).0);
      } else {
        WithoutThinkingShowsNone(SplitThinking(lib, w.parts, false).0);
        CleanShowsNoThinking(lines.clean, WithoutThinking(SplitThinking(lib, w.parts, false).0));
      }
    }
  }

  /** After any run over this parser, a line with content and the end of the stream: the end is reported after all
      that was received exactly when the line does not end in thinking that comes after text. */
  lemma StopOvertakesIff(lib: Library, lines: LineLibrary, enabled: bool, runes: RuneCount, cursor: string,
                         events: seq<Event>, raw: string, last: string)
    requires IsKind(cursor)
    requires var s := Observe((raw, c) => ParseLine(lib, lines, enabled, raw, c), runes, Initial(cursor), events);
      var r := ParseLine(lib, lines, enabled, raw, s.cursor);
      !r.stop && !IsBlank(r.parts) && ParseLine(lib, lines, enabled, last, r.nextType).stop
    ensures var parse: Parse := (raw, c) => ParseLine(lib, lines, enabled, raw, c);
      var s := Observe(parse, runes, Initial(cursor), events);
      var r := parse(raw, s.cursor);
      var all := events + [Line(raw), Line(last)];
      var out := Observe(parse, runes, Initial(cursor), all).out;
      && out != [] && out[|out| - 1].stop
      && (Emitted(out) == Received(parse, cursor, all) <==>
          !(EndsInThinking(r.parts) && (s.text != "" || HasText(r.parts))))
  {
    var parse: Parse := (raw, c) => ParseLine(lib, lines, enabled, raw, c);
    ParserIsWellBehaved(lib, lines, enabled);
    var s := Observe(parse, runes, Initial(cursor), events);
    LineIsCovered(lib, lines, enabled, raw, s.cursor);
    assert !parse(raw, s.cursor).parsed ==> parse(raw, s.cursor).parts == [];
    StopAfterLineIff(parse, runes, cursor, events, raw, last);
  }

  function FragmentWith(kind: string, content: string): Json {
    Obj(map["type" := Str(kind), "content" := Str(content)])
  }

  /** A chunk that appends an answer fragment and then a thinking fragment. */
  function AnswerThenThought(answer: string, thought: string): Fields {
    map["p" := Str("response/fragments"), "o" := Str("APPEND"),
        "v" := Arr([FragmentWith("RESPONSE", answer), FragmentWith("THINK", thought)])]
  }

  lemma ChunkShowsBoth(lib: Library, answer: string, thought: string)
    requires answer != "" && thought != ""
    requires !lib.skipsPath("response/fragments") && lib.saysAppend("APPEND")
    requires lib.upper("RESPONSE") == "RESPONSE" && lib.upper("THINK") == "THINK"
    requires lib.strip(answer) == answer && lib.closeTag(thought) == None
    ensures ParseChunk(lib, true, AnswerThenThought(answer, thought), THINKING) ==
            Parsed([Part(answer, TEXT), Part(thought, THINKING)], [Part(thought, THINKING)], false, TEXT)
  {
    GathersBoth(lib, answer, thought);
    SplitsNeither(lib, Part(answer, TEXT), Part(thought, THINKING));
  }

  lemma GathersBoth(lib: Library, answer: string, thought: string)
    requires answer != "" && thought != "" && lib.saysAppend("APPEND")
    requires lib.upper("RESPONSE") == "RESPONSE" && lib.upper("THINK") == "THINK"
    ensures var chunk := AnswerThenThought(answer, thought);
      Gathered(lib, true, chunk, "response/fragments", chunk["v"], THINKING) ==
      (Walk(TEXT, [Part(answer, TEXT), Part(thought, THINKING)]), false)
  {
    var a, b := FragmentWith("RESPONSE", answer), FragmentWith("THINK", thought);
    var p, q, path := Part(answer, TEXT), Part(thought, THINKING), "response/fragments";
    assert [a, b][1..] == [b] && [b][1..] == [];
    assert FragmentOf(lib, a.fields) == Response && FragmentOf(lib, b.fields) == Think;
    var w := Walk(THINKING, []);
    var w1 := AddFragment(lib, true, w, a, TEXT);
    assert w1 == Walk(TEXT, [p]);
    var w2 := AddFragment(lib, true, w1, b, TEXT);
    assert w2 == Walk(TEXT, [p, q]);
    assert AddFragments(lib, true, w, [a, b], TEXT) == AddFragments(lib, true, w1, [b], TEXT) == w2;
    assert AddItems(lib, true, w2, [a, b], PartKind(path, TEXT), path) ==
      AddItems(lib, true, w2, [b], PartKind(path, TEXT), path) == (w2, false);
  }

  lemma SplitsNeither(lib: Library, p: Part, q: Part)
    requires p.kind == TEXT && q.kind == THINKING && p.text != ""
    requires lib.strip(p.text) == p.text && lib.closeTag(q.text) == None
    ensures SplitThinking(lib, [p, q], false) == ([p, q], false) && OnlyThinking([p, q]) == [q]
  {
    var rest := [p, q][1..];
    assert rest == [q] && rest[1..] == [];
    assert SplitThinking(lib, rest[1..], false) == ([], false);
    assert SplitThinking(lib, rest, false) == ([q] + [], false) && [q] + [] == [q];
    assert [p] + [q] == [p, q] && [] + OnlyThinking([q]) == [q] + [] == [q];
  }

  /** A stream the program can receive: that chunk and the end, with no tick between them. The end is reported before
      the thought. */
  lemma StopOvertakesThought(lib: Library, lines: LineLibrary, runes: RuneCount, first: string, last: string,
                             answer: string, thought: string)
    requires answer != "" && thought != "" && !BreaksLine(answer)
    requires !lib.skipsPath("response/fragments") && lib.saysAppend("APPEND")
    requires lib.upper("RESPONSE") == "RESPONSE" && lib.upper("THINK") == "THINK"
    requires lib.strip(answer) == answer && lib.closeTag(thought) == None
    requires lines.decode(first) == Chunk(AnswerThenThought(answer, thought)) && lines.decode(last) == Done
    requires lines.ends(AnswerThenThought(answer, thought)) == Continues
    requires lines.messageID(AnswerThenThought(answer, thought)) == 0
    requires lines.clean(answer) == Some(answer) && lines.clean(thought) == Some(thought)
    ensures var parse: Parse := (raw, c) => ParseLine(lib, lines, true, raw, c);
      Final(parse, runes, THINKING, [Line(first), Line(last)], LinesClosed).out ==
      [LineResult(true, false, false, "", [Part(answer, TEXT)], [Part(thought, THINKING)], TEXT, 0),
       LineResult(true, true, false, "", [], [], TEXT, 0),
       LineResult(true, false, false, "", [Part(thought, THINKING)], [], TEXT, 0)]
  {
    var p, q := Part(answer, TEXT), Part(thought, THINKING);
    ChunkShowsBoth(lib, answer, thought);
    assert [p, q][1..] == [q] && [q][1..] == [];
    assert CleanAll(lines.clean, [q]) == [q] + [] == [q];
    assert CleanAll(lines.clean, [p, q]) == [p] + [q] == [p, q];
    StopOvertakesThinking((raw, c) => ParseLine(lib, lines, true, raw, c), runes, first, last, answer, thought);
  }
}
