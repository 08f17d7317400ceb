/** splitTopLevelJSONValues of internal/toolcall/toolcalls_array_parse.go against the joins it must undo. */
module JsonSplit {

  import opened Basics
  import opened FoldText

  // ---------------------------------------------------------------- the splitter

  /** The scanner between two characters. */
  datatype State = State(depth: nat, inString: bool, escaped: bool)

  function Outside(depth: nat): State {
    State(depth, false, false)
  }

  function Next(st: State, c: char): State {
    if st.inString then
      if st.escaped then st.(escaped := false)
      else if c == '\\' then st.(escaped := true)
      else if c == '"' then st.(inString := false)
      else st
    else if c == '"' then st.(inString := true)
    else if c == '{' || c == '[' then st.(depth := st.depth + 1)
    else if (c == '}' || c == ']') && st.depth > 0 then st.(depth := st.depth - 1)
    else st
  }

  predicate Cuts(st: State, c: char) {
    !st.inString && c == ',' && st.depth == 0
  }

  /** The text cut at its top-level commas: piece is what was read since the last one, s what is to come. */
  function Pieces(piece: string, s: string, st: State): (ps: seq<string>)
    ensures ps != []
    decreases |s|
  {
    if s == "" then [piece]
    else if Cuts(st, s[0]) then [piece] + Pieces("", s[1..], Next(st, s[0]))
    else Pieces(piece + [s[0]], s[1..], Next(st, s[0]))
  }

  predicate NoneBlank(ps: seq<string>) {
    forall i | 0 <= i < |ps| :: TrimSpace(ps[i]) != ""
  }

  function TrimAll(ps: seq<string>): (ts: seq<string>)
    ensures |ts| == |ps|
  {
    seq(|ps|, i requires 0 <= i < |ps| => TrimSpace(ps[i]))
  }

  /** At least two pieces, none of them blank. */
  function Split(raw: string): Option<seq<string>> {
    var ps := Pieces("", TrimSpace(raw), Outside(0));
    if NoneBlank(ps) && |ps| >= 2 then Some(TrimAll(ps)) else None
  }

  /** One turn of the scan. */
  method Advance(c: char, depth: nat, inString: bool, escaped: bool)
    returns (depth': nat, inString': bool, escaped': bool)
    ensures State(depth', inString', escaped') == Next(State(depth, inString, escaped), c)
  {
    depth', inString', escaped' := depth, inString, escaped;
    if inString {
      if escaped {
        escaped' := false;
      } else if c == '\\' {
        escaped' := true;
      } else if c == '"' {
        inString' := false;
      }
    } else if c == '"' {
      inString' := true;
    } else if c == '{' || c == '[' {
      depth' := depth + 1;
    } else if c == '}' || c == ']' {
      if depth > 0 {
        depth' := depth - 1;
      }
    }
  }

  method SplitTopLevelJSONValues(raw: string) returns (r: Option<seq<string>>)
    ensures r == Split(raw)
  {
    var trimmed := TrimSpace(raw);
    ghost var all := Pieces("", trimmed, Outside(0));
    if trimmed == "" {
      return None;
    }
    var values: seq<string> := [];
    var start, i, depth, inString, escaped := 0, 0, 0, false, false;
    ghost var done: seq<string> := [];
    while i < |trimmed|
      invariant start <= i <= |trimmed|
      invariant all == done + Pieces(trimmed[start..i], trimmed[i..], State(depth, inString, escaped))
      invariant NoneBlank(done) && values == TrimAll(done)
    {
      var c := trimmed[i];
      assert trimmed[i..][1..] == trimmed[i + 1..] && trimmed[start..i] + [c] == trimmed[start..i + 1];
      if !inString && c == ',' && depth == 0 {
        var segment := TrimSpace(trimmed[start..i]);
        if segment == "" {
          assert all[|done|] == trimmed[start..i];
          return None;
        }
        values := values + [segment];
        done := done + [trimmed[start..i]];
        start := i + 1;
        assert trimmed[start..start] == "";
      }
      depth, inString, escaped := Advance(c, depth, inString, escaped);
      i := i + 1;
    }
    assert trimmed[i..] == "" && trimmed[start..i] == trimmed[start..];
    assert all == done + [trimmed[start..]];
    var last := TrimSpace(trimmed[start..]);
    if last == "" {
      assert all[|done|] == trimmed[start..];
      return None;
    }
    values := values + [last];
    assert values == TrimAll(all) && NoneBlank(all);
    return if |values| < 2 then None else Some(values);
  }

  // ---------------------------------------------------------------- JSON text

  // One character of a string: plain, or a backslash and the character it escapes.
  datatype Char = Plain(c: char) | Escaped(c: char)

  // A value with its layout: the space around every part is part of the datatype.
  datatype Json =
    | Token(text: string)                    // a number, true, false or null
    | Text(chars: seq<Char>)
    | Array(items: Items)
    | Object(members: Members)

  datatype Items =
    | Gap(space: string)
    | Item(before: string, value: Json, after: string, rest: Items)
    | Last(before: string, value: Json, after: string)

  datatype Members =
    | NoMembers(space: string)
    | Member(lead: string, key: seq<Char>, colon: string, before: string, value: Json, after: string, rest: Members)
    | LastMember(lead: string, key: seq<Char>, colon: string, before: string, value: Json, after: string)

  predicate IsBlank(s: string) {
    forall i | 0 <= i < |s| :: IsSpace(s[i])
  }

  predicate IsTokenChar(c: char) {
    'a' <= c <= 'z' || 'A' <= c <= 'Z' || '0' <= c <= '9' || c == '-' || c == '+' || c == '.'
  }

  /** Numbers and the three literals are tokens. */
  lemma TokensAre(c: char)
    requires c in "0123456789+-.eE" || c in "truefalsenull"
    ensures IsTokenChar(c)
  {
  }

  predicate IsString(chars: seq<Char>) {
    forall i | 0 <= i < |chars| :: chars[i].Plain? ==> chars[i].c != '"' && chars[i].c != '\\'
  }

  predicate IsJson(v: Json) {
    match v
    case Token(t) => t != "" && forall i | 0 <= i < |t| :: IsTokenChar(t[i])
    case Text(chars) => IsString(chars)
    case Array(items) => AreItems(items)
    case Object(members) => AreMembers(members)
  }

  predicate AreItems(items: Items) {
    match items
    case Gap(s) => IsBlank(s)
    case Item(b, v, a, rest) => IsBlank(b) && IsJson(v) && IsBlank(a) && !rest.Gap? && AreItems(rest)
    case Last(b, v, a) => IsBlank(b) && IsJson(v) && IsBlank(a)
  }

  predicate AreMembers(members: Members) {
    match members
    case NoMembers(s) => IsBlank(s)
    case Member(l, k, c, b, v, a, rest) =>
      IsBlank(l) && IsString(k) && IsBlank(c) && IsBlank(b) && IsJson(v) && IsBlank(a) && !rest.NoMembers? &&
        AreMembers(rest)
    case LastMember(l, k, c, b, v, a) =>
      IsBlank(l) && IsString(k) && IsBlank(c) && IsBlank(b) && IsJson(v) && IsBlank(a)
  }

  function WriteChar(ch: Char): string {
    if ch.Plain? then [ch.c] else ['\\', ch.c]
  }

  function WriteChars(chars: seq<Char>): string {
    if chars == [] then "" else WriteChar(chars[0]) + WriteChars(chars[1..])
  }

  function WriteString(chars: seq<Char>): string {
    "\"" + WriteChars(chars) + "\""
  }

  function Write(v: Json): string {
    match v
    case Token(t) => t
    case Text(chars) => WriteString(chars)
    case Array(items) => "[" + WriteItems(items) + "]"
    case Object(members) => "{" + WriteMembers(members) + "}"
  }

  function WriteItems(items: Items): string {
    match items
    case Gap(s) => s
    case Item(b, v, a, rest) => b + Write(v) + a + "," + WriteItems(rest)
    case Last(b, v, a) => b + Write(v) + a
  }

  function WriteMembers(members: Members): string {
    match members
    case NoMembers(s) => s
    case Member(l, k, c, b, v, a, rest) => l + WriteString(k) + c + ":" + (b + Write(v) + a) + "," + WriteMembers(rest)
    case LastMember(l, k, c, b, v, a) => l + WriteString(k) + c + ":" + (b + Write(v) + a)
  }

  // ---------------------------------------------------------------- scanning text that holds no top-level comma

  function Scan(s: string, st: State): State
    decreases |s|
  {
    if s == "" then st else Scan(s[1..], Next(st, s[0]))
  }

  predicate Quiet(s: string, st: State)
    decreases |s|
  {
    s == "" || (!Cuts(st, s[0]) && Quiet(s[1..], Next(st, s[0])))
  }

  /** Read at any depth, s leaves the scanner where it was and is not cut. */
  ghost predicate Neutral(s: string) {
    forall d: nat :: Scan(s, Outside(d)) == Outside(d) && Quiet(s, Outside(d))
  }

  /** The same inside brackets only. */
  ghost predicate NeutralInside(s: string) {
    forall d: nat | d > 0 :: Scan(s, Outside(d)) == Outside(d) && Quiet(s, Outside(d))
  }

  lemma {:induction false} ScanAppend(a: string, b: string, st: State)
    ensures Scan(a + b, st) == Scan(b, Scan(a, st))
    ensures Quiet(a + b, st) <==> Quiet(a, st) && Quiet(b, Scan(a, st))
    decreases |a|
  {
    if a == "" {
      assert a + b == b;
    } else {
      assert (a + b)[1..] == a[1..] + b;
      ScanAppend(a[1..], b, Next(st, a[0]));
    }
  }

  lemma NeutralAppend(a: string, b: string)
    ensures Neutral(a) && Neutral(b) ==> Neutral(a + b)
    ensures NeutralInside(a) && NeutralInside(b) ==> NeutralInside(a + b)
  {
    forall d: nat ensures Scan(a + b, Outside(d)) == Scan(b, Scan(a, Outside(d)))
                  ensures Quiet(a + b, Outside(d)) <==> Quiet(a, Outside(d)) && Quiet(b, Scan(a, Outside(d))) {
      ScanAppend(a, b, Outside(d));
    }
  }

  predicate IsPlainChar(c: char) {
    c != '"' && c != '{' && c != '[' && c != '}' && c != ']' && c != ','
  }

  lemma {:induction false} PlainIsNeutral(s: string, d: nat)
    requires forall i | 0 <= i < |s| :: IsPlainChar(s[i])
    ensures Scan(s, Outside(d)) == Outside(d) && Quiet(s, Outside(d))
    decreases |s|
  {
    if s != "" {
      PlainIsNeutral(s[1..], d);
    }
  }

  lemma BlankIsNeutral(s: string)
    requires IsBlank(s)
    ensures Neutral(s)
  {
    forall d: nat ensures Scan(s, Outside(d)) == Outside(d) && Quiet(s, Outside(d)) {
      PlainIsNeutral(s, d);
    }
  }

  lemma CharStaysInside(ch: Char, d: nat)
    requires ch.Plain? ==> ch.c != '"' && ch.c != '\\'
    ensures Scan(WriteChar(ch), State(d, true, false)) == State(d, true, false) &&
      Quiet(WriteChar(ch), State(d, true, false))
  {
    assert [ch.c][1..] == "" && ['\\', ch.c][1..] == [ch.c];
    if ch.Escaped? {
      assert Scan([ch.c], State(d, true, true)) == State(d, true, false);
    }
  }

  lemma {:induction false} CharsStayInside(chars: seq<Char>, d: nat)
    requires IsString(chars)
    ensures Scan(WriteChars(chars), State(d, true, false)) == State(d, true, false) &&
      Quiet(WriteChars(chars), State(d, true, false))
    decreases |chars|
  {
    if chars != [] {
      var first := WriteChar(chars[0]);
      var inside := State(d, true, false);
      CharsStayInside(chars[1..], d);
      CharStaysInside(chars[0], d);
      ScanAppend(first, WriteChars(chars[1..]), inside);
    }
  }

  lemma StringIsNeutral(chars: seq<Char>)
    requires IsString(chars)
    ensures Neutral(WriteString(chars))
  {
    forall d: nat ensures Scan(WriteString(chars), Outside(d)) == Outside(d) && Quiet(WriteString(chars), Outside(d)) {
      CharsStayInside(chars, d);
      var body := WriteChars(chars);
      ScanAppend("\"" + body, "\"", Outside(d));
      ScanAppend("\"", body, Outside(d));
      assert "\""[1..] == "";
    }
  }

  /** A bracketed text is neutral when what it encloses is so inside brackets. */
  lemma BracketsAreNeutral(open: char, body: string, close: char)
    requires NeutralInside(body) && (open == '[' || open == '{') && (close == ']' || close == '}')
    ensures Neutral([open] + body + [close])
  {
    forall d: nat ensures Scan([open] + body + [close], Outside(d)) == Outside(d) &&
        Quiet([open] + body + [close], Outside(d)) {
      ScanAppend([open] + body, [close], Outside(d));
      ScanAppend([open], body, Outside(d));
      assert [open][1..] == "" && [close][1..] == "";
      assert Scan([open], Outside(d)) == Outside(d + 1);
    }
  }

  lemma CommaInside()
    ensures NeutralInside(",") && Neutral(":")
  {
    assert ","[1..] == "" && ":"[1..] == "";
  }

  lemma {:induction false} ValueIsNeutral(v: Json)
    requires IsJson(v)
    ensures Neutral(Write(v))
    decreases v, 0
  {
    match v
    case Token(t) =>
      forall d: nat ensures Scan(t, Outside(d)) == Outside(d) && Quiet(t, Outside(d)) {
        PlainIsNeutral(t, d);
      }
    case Text(chars) => StringIsNeutral(chars);
    case Array(items) =>
      ItemsAreNeutral(items);
      BracketsAreNeutral('[', WriteItems(items), ']');
    case Object(members) =>
      MembersAreNeutral(members);
      BracketsAreNeutral('{', WriteMembers(members), '}');
  }

  lemma {:induction false} SpacedIsNeutral(before: string, v: Json, after: string)
    requires IsBlank(before) && IsJson(v) && IsBlank(after)
    ensures Neutral(before + Write(v) + after)
    decreases v, 1
  {
    ValueIsNeutral(v);
    BlankIsNeutral(before);
    BlankIsNeutral(after);
    NeutralAppend(before, Write(v));
    NeutralAppend(before + Write(v), after);
  }

  lemma {:induction false} ItemsAreNeutral(items: Items)
    requires AreItems(items)
    ensures NeutralInside(WriteItems(items))
    decreases items
  {
    match items
    case Gap(s) => BlankIsNeutral(s);
    case Last(b, v, a) => SpacedIsNeutral(b, v, a);
    case Item(b, v, a, rest) =>
      SpacedIsNeutral(b, v, a);
      ItemsAreNeutral(rest);
      CommaInside();
      NeutralAppend(b + Write(v) + a, ",");
      NeutralAppend(b + Write(v) + a + ",", WriteItems(rest));
  }

  lemma {:induction false} MembersAreNeutral(members: Members)
    requires AreMembers(members)
    ensures NeutralInside(WriteMembers(members))
    decreases members
  {
    match members
    case NoMembers(s) => BlankIsNeutral(s);
    case LastMember(l, k, c, b, v, a) => SpacedIsNeutral(b, v, a); MemberIsNeutral(l, k, c, b + Write(v) + a);
    case Member(l, k, c, b, v, a, rest) =>
      SpacedIsNeutral(b, v, a);
      MemberIsNeutral(l, k, c, b + Write(v) + a);
      MembersAreNeutral(rest);
      CommaInside();
      var m := l + WriteString(k) + c + ":" + (b + Write(v) + a);
      NeutralAppend(m, ",");
      NeutralAppend(m + ",", WriteMembers(rest));
  }

  lemma MemberIsNeutral(lead: string, key: seq<Char>, colon: string, value: string)
    requires IsBlank(lead) && IsString(key) && IsBlank(colon) && Neutral(value)
    ensures Neutral(lead + WriteString(key) + colon + ":" + value)
  {
    BlankIsNeutral(lead);
    StringIsNeutral(key);
    BlankIsNeutral(colon);
    CommaInside();
    NeutralAppend(lead, WriteString(key));
    NeutralAppend(lead + WriteString(key), colon);
    NeutralAppend(lead + WriteString(key) + colon, ":");
    NeutralAppend(lead + WriteString(key) + colon + ":", value);
  }

  // ---------------------------------------------------------------- cutting a join

  /** Cutting loses nothing: the pieces joined by commas are the text. */
  function CommaJoin(ps: seq<string>): string {
    if ps == [] then "" else if |ps| == 1 then ps[0] else ps[0] + "," + CommaJoin(ps[1..])
  }

  lemma {:induction false} PiecesRejoin(piece: string, s: string, st: State)
    ensures CommaJoin(Pieces(piece, s, st)) == piece + s
    decreases |s|
  {
    if s == "" {
      assert piece + "" == piece;
    } else if Cuts(st, s[0]) {
      var rest := Pieces("", s[1..], Next(st, s[0]));
      PiecesRejoin("", s[1..], Next(st, s[0]));
      assert ([piece] + rest)[1..] == rest;
      assert piece + "," + ("" + s[1..]) == piece + s;
    } else {
      PiecesRejoin(piece + [s[0]], s[1..], Next(st, s[0]));
      assert piece + [s[0]] + s[1..] == piece + s;
    }
  }

  /** Whatever the text, a successful split is a cut of the trimmed text at commas, trimmed piece by piece. */
  lemma SplitIsACut(raw: string) returns (ps: seq<string>)
    requires Split(raw).Some?
    ensures CommaJoin(ps) == TrimSpace(raw) && Split(raw).value == TrimAll(ps) && |ps| >= 2 && NoneBlank(ps)
  {
    ps := Pieces("", TrimSpace(raw), Outside(0));
    PiecesRejoin("", TrimSpace(raw), Outside(0));
    assert "" + TrimSpace(raw) == TrimSpace(raw);
  }

  lemma {:induction false} QuietStaysTogether(piece: string, a: string, rest: string, st: State)
    requires Quiet(a, st)
    ensures Pieces(piece, a + rest, st) == Pieces(piece + a, rest, Scan(a, st))
    decreases |a|
  {
    if a == "" {
      assert a + rest == rest && piece + a == piece;
    } else {
      assert (a + rest)[1..] == a[1..] + rest && (a + rest)[0] == a[0];
      QuietStaysTogether(piece + [a[0]], a[1..], rest, Next(st, a[0]));
      assert piece + [a[0]] + a[1..] == piece + a;
    }
  }

  function SpacedTexts(items: Items): seq<string> {
    match items
    case Gap(_) => []
    case Item(b, v, a, rest) => [b + Write(v) + a] + SpacedTexts(rest)
    case Last(b, v, a) => [b + Write(v) + a]
  }

  function Texts(items: Items): seq<string> {
    match items
    case Gap(_) => []
    case Item(_, v, _, rest) => [Write(v)] + Texts(rest)
    case Last(_, v, _) => [Write(v)]
  }

  lemma {:induction false} JoinIsCut(items: Items)
    requires AreItems(items) && !items.Gap?
    ensures Pieces("", WriteItems(items), Outside(0)) == SpacedTexts(items)
  {
    match items
    case Last(b, v, a) =>
      var p := b + Write(v) + a;
      SpacedIsNeutral(b, v, a);
      QuietStaysTogether("", p, "", Outside(0));
      assert p + "" == p && "" + p == p;
    case Item(b, v, a, rest) =>
      var p, tail := b + Write(v) + a, WriteItems(rest);
      SpacedIsNeutral(b, v, a);
      QuietStaysTogether("", p, "," + tail, Outside(0));
      assert p + "," + tail == p + ("," + tail) && "" + p == p;
      assert ("," + tail)[1..] == tail;
      JoinIsCut(rest);
  }

  lemma {:induction false} TrimLeftBlank(b: string, x: string)
    requires IsBlank(b) && x != "" && !IsSpace(x[0])
    ensures TrimLeft(b + x) == x
    decreases |b|
  {
    if b == "" {
      assert b + x == x;
    } else {
      assert (b + x)[1..] == b[1..] + x;
      TrimLeftBlank(b[1..], x);
    }
  }

  lemma {:induction false} TrimRightBlank(x: string, a: string)
    requires IsBlank(a) && x != "" && !IsSpace(x[|x| - 1])
    ensures TrimRight(x + a) == x
    decreases |a|
  {
    if a == "" {
      assert x + a == x;
    } else {
      var n := |a| - 1;
      assert (x + a)[..|x + a| - 1] == x + a[..n];
      TrimRightBlank(x, a[..n]);
    }
  }

  predicate IsTight(x: string) {
    x != "" && !IsSpace(x[0]) && !IsSpace(x[|x| - 1])
  }

  lemma TrimSpaced(b: string, x: string, a: string)
    requires IsBlank(b) && IsTight(x) && IsBlank(a)
    ensures TrimSpace(b + x + a) == x
  {
    assert b + x + a == b + (x + a);
    TrimLeftBlank(b, x + a);
    TrimRightBlank(x, a);
  }

  lemma WriteIsTight(v: Json)
    requires IsJson(v)
    ensures IsTight(Write(v))
  {
    match v
    case Token(t) =>
      assert IsTokenChar(t[0]) && IsTokenChar(t[|t| - 1]);
    case _ =>
  }

  lemma {:induction false} SpacedTextsTrim(items: Items)
    requires AreItems(items)
    ensures TrimAll(SpacedTexts(items)) == Texts(items) && NoneBlank(SpacedTexts(items))
  {
    match items
    case Gap(_) =>
    case Last(b, v, a) =>
      WriteIsTight(v);
      TrimSpaced(b, Write(v), a);
    case Item(b, v, a, rest) =>
      WriteIsTight(v);
      TrimSpaced(b, Write(v), a);
      SpacedTextsTrim(rest);
      var first := b + Write(v) + a;
      assert TrimAll([first] + SpacedTexts(rest)) == [TrimSpace(first)] + TrimAll(SpacedTexts(rest));
  }

  // ---------------------------------------------------------------- the outer space

  function WithoutLead(items: Items): Items {
    match items
    case Gap(_) => items
    case Item(_, v, a, rest) => Item("", v, a, rest)
    case Last(_, v, a) => Last("", v, a)
  }

  function Lead(items: Items): string {
    match items
    case Gap(_) => ""
    case Item(b, _, _, _) => b
    case Last(b, _, _) => b
  }

  function WithoutTrail(items: Items): Items {
    match items
    case Gap(_) => items
    case Item(b, v, a, rest) => Item(b, v, a, WithoutTrail(rest))
    case Last(b, v, _) => Last(b, v, "")
  }

  function Trail(items: Items): string {
    match items
    case Gap(_) => ""
    case Item(_, _, _, rest) => Trail(rest)
    case Last(_, _, a) => a
  }

  lemma LeadComesOff(items: Items)
    requires AreItems(items) && !items.Gap?
    ensures var inner := WithoutLead(items);
      && WriteItems(items) == Lead(items) + WriteItems(inner) && AreItems(inner) && Texts(inner) == Texts(items)
      && WriteItems(inner) != "" && !IsSpace(WriteItems(inner)[0]) && IsBlank(Lead(items))
  {
    var b, w := Lead(items), Write(items.value);
    WriteIsTight(items.value);
    assert "" + w == w && b + w + items.after == b + (w + items.after);
    if items.Item? {
      var tail := "," + WriteItems(items.rest);
      assert b + w + items.after + "," + WriteItems(items.rest) ==
             b + ("" + w + items.after + "," + WriteItems(items.rest));
    }
  }

  lemma {:induction false} TrailComesOff(items: Items)
    requires AreItems(items) && !items.Gap?
    ensures var inner := WithoutTrail(items);
      && WriteItems(items) == WriteItems(inner) + Trail(items) && AreItems(inner) && Texts(inner) == Texts(items)
      && WriteItems(inner) != "" && !IsSpace(WriteItems(inner)[|WriteItems(inner)| - 1]) && IsBlank(Trail(items))
      && (items.Item? <==> inner.Item?) && !inner.Gap?
  {
    WriteIsTight(items.value);
    var w := items.before + Write(items.value);
    match items
    case Last(_, _, a) =>
      assert w + "" == w && w + a == w + "" + a;
    case Item(_, _, a, rest) =>
      TrailComesOff(rest);
      assert w + a + "," + (WriteItems(WithoutTrail(rest)) + Trail(rest)) ==
             w + a + "," + WriteItems(WithoutTrail(rest)) + Trail(rest);
  }

  /** The splitter undoes every comma-join of two or more JSON values, whatever the space around them. */
  lemma SplitUndoesJoin(items: Items)
    requires AreItems(items) && items.Item?
    ensures Split(WriteItems(items)) == Some(Texts(items))
  {
    var inner := WithoutLead(items);
    LeadComesOff(items);
    TrailComesOff(inner);
    var core := WithoutTrail(inner);
    var x := WriteItems(core);
    TrimLeftBlank(Lead(items), WriteItems(inner));
    TrimRightBlank(x, Trail(inner));
    assert TrimSpace(WriteItems(items)) == x;
    JoinIsCut(core);
    SpacedTextsTrim(core);
    AtLeastTwo(core);
  }

  lemma AtLeastTwo(items: Items)
    requires AreItems(items) && items.Item?
    ensures |SpacedTexts(items)| >= 2
  {
    assert !items.rest.Gap?;
  }

  /** One value alone is not split. */
  lemma OneValueIsNotSplit(before: string, v: Json, after: string)
    requires IsBlank(before) && IsJson(v) && IsBlank(after)
    ensures Split(before + Write(v) + after) == None
  {
    var items := Last("", v, "");
    WriteIsTight(v);
    TrimSpaced(before, Write(v), after);
    JoinIsCut(items);
    assert "" + Write(v) + "" == Write(v);
  }
}
