/** The tool-call marker of internal/toolcall/marker.go: rewriting a prompt and rewriting a stream back. */
module Marker {
  import opened Basics
  import opened FoldText

  const KEYWORD := "EPSE"

  // ---------------------------------------------------------------- one-shot rewriting

  /** The scan from position i on, left to right, with out already written: every occurrence of m
      becomes the keyword. */
  function ReplaceFrom(s: string, i: nat, m: string, out: string): string
    requires m != ""
    decreases |s| - i
  {
    if i >= |s| then out
    else if MatchesAt(s, i, m) then ReplaceFrom(s, i + |m|, m, out + KEYWORD)
    else ReplaceFrom(s, i + 1, m, out + [s[i]])
  }

  function Replace(s: string, m: string): string
    requires m != ""
  {
    ReplaceFrom(s, 0, m, "")
  }

  /** What the scan writes does not depend on what was written before. */
  lemma {:induction false} OutputIsAppended(s: string, i: nat, m: string, out: string)
    requires m != ""
    ensures ReplaceFrom(s, i, m, out) == out + ReplaceFrom(s, i, m, "")
    decreases |s| - i
  {
    if i < |s| {
      var piece, next := [s[i]], i + 1;
      if MatchesAt(s, i, m) {
        piece, next := KEYWORD, i + |m|;
      }
      assert "" + piece == piece;
      OutputIsAppended(s, next, m, out + piece);
      OutputIsAppended(s, next, m, piece);
      Associates(out, piece, ReplaceFrom(s, next, m, ""));
    }
  }

  /** Where the last occurrence met by that scan ends, given the last end met before i. */
  function LastEndFrom(s: string, i: nat, m: string, end: nat): (e: nat)
    requires m != "" && end <= i <= |s|
    ensures end <= e <= |s|
    decreases |s| - i
  {
    if i + |m| > |s| then end
    else if MatchesAt(s, i, m) then LastEndFrom(s, i + |m|, m, i + |m|)
    else LastEndFrom(s, i + 1, m, end)
  }

  method ContainsMarker(text: string, marker: string) returns (found: bool)
    requires marker != ""
    ensures found <==> Occurs(text, marker)
  {
    found := false;
    if |text| < |marker| {
      return;
    }
    var i := 0;
    while i + |marker| <= |text|
      invariant i <= |text|
      invariant forall k | 0 <= k < i :: !MatchesAt(text, k, marker)
    {
      WindowMatches(text, i, marker);
      if EqualFold(text[i..i + |marker|], marker) {
        return true;
      }
      i := i + 1;
    }
  }

  lemma {:induction false} NothingToReplace(s: string, i: nat, m: string, out: string)
    requires m != "" && i <= |s| && !Occurs(s, m)
    ensures ReplaceFrom(s, i, m, out) == out + s[i..]
    decreases |s| - i
  {
    if i < |s| {
      NothingToReplace(s, i + 1, m, out + [s[i]]);
      assert s[i..] == [s[i]] + s[i + 1..];
    }
  }

  method ReplaceMarkerKeyword(text: string, marker: string) returns (out: string)
    ensures out == if marker == "" then text else Replace(text, marker)
  {
    if text == "" || marker == "" {
      return text;
    }
    var found := ContainsMarker(text, marker);
    if !found {
      NothingToReplace(text, 0, marker, "");
      return text;
    }
    out := "";
    var i := 0;
    while i < |text|
      invariant ReplaceFrom(text, i, marker, out) == Replace(text, marker)
    {
      if i + |marker| <= |text| {
        WindowMatches(text, i, marker);
      }
      if i + |marker| <= |text| && EqualFold(text[i..i + |marker|], marker) {
        out := out + KEYWORD;
        i := i + |marker|;
      } else {
        out := out + [text[i]];
        i := i + 1;
      }
    }
  }

  method LastOccurrenceEnd(data: string, marker: string) returns (end: nat)
    requires marker != ""
    ensures end == LastEndFrom(data, 0, marker, 0)
  {
    if |data| < |marker| {
      return 0;
    }
    end := 0;
    var i := 0;
    while i + |marker| <= |data|
      invariant end <= i <= |data|
      invariant LastEndFrom(data, 0, marker, 0) == LastEndFrom(data, i, marker, end)
    {
      WindowMatches(data, i, marker);
      if EqualFold(data[i..i + |marker|], marker) {
        i := i + |marker|;
        end := i;
        continue;
      }
      i := i + 1;
    }
  }

  // ---------------------------------------------------------------- the stream

  /** How much of the text may be released: all but the held suffix that follows the last occurrence. */
  function Released(s: string, m: string): (p: nat)
    requires m != ""
    ensures p <= |s|
  {
    HoldStart(s, LastEndFrom(s, 0, m, 0), m)
  }

  /** The scan of the whole text s + x passes through the cut p, having written up to there what the scan of the
      head s[..p] writes. */
  lemma {:induction false} ScanPassesCut(s: string, x: string, whole: string, head: string, i: nat, end: nat,
                                         m: string, out: string)
    requires m != "" && whole == s + x && head <= s && end <= i <= |head|
    requires |head| == HoldStart(s, LastEndFrom(s, i, m, end), m)
    ensures ReplaceFrom(whole, i, m, out) == ReplaceFrom(whole, |head|, m, ReplaceFrom(head, i, m, out))
    decreases |head| - i
  {
    if i < |head| {
      if MatchesAt(s, i, m) {
        ScanOverMatch(s, x, whole, head, i, m);
        ScanPassesCut(s, x, whole, head, i + |m|, i + |m|, m, out + KEYWORD);
      } else {
        ScanOverLetter(s, x, whole, head, i, end, m);
        ScanPassesCut(s, x, whole, head, i + 1, end, m, out + [whole[i]]);
      }
    }
  }

  lemma ScanOverMatch(s: string, x: string, whole: string, head: string, i: nat, m: string)
    requires m != "" && whole == s + x && head <= s && MatchesAt(s, i, m) && i + |m| <= |head|
    ensures MatchesAt(whole, i, m) && MatchesAt(head, i, m)
  {
    assert head == s[..|head|];
    MatchOnBothSides(s, x, i, |head|, m);
  }

  lemma ScanOverLetter(s: string, x: string, whole: string, head: string, i: nat, end: nat, m: string)
    requires m != "" && whole == s + x && head <= s && end <= i < |head| && !MatchesAt(s, i, m)
    requires |head| == HoldStart(s, LastEndFrom(s, i, m, end), m)
    ensures !MatchesAt(whole, i, m) && !MatchesAt(head, i, m) && whole[i] == head[i]
    ensures LastEndFrom(s, i, m, end) == LastEndFrom(s, i + 1, m, end)
  {
    assert head == s[..|head|];
    NoMatchBeforeCut(s, x, i, end, |head|, m);
  }

  lemma MatchOnBothSides(s: string, x: string, i: nat, p: nat, m: string)
    requires MatchesAt(s, i, m) && i + |m| <= p <= |s|
    ensures MatchesAt(s + x, i, m) && MatchesAt(s[..p], i, m)
  {
    MatchInPrefix(s, x, i, m);
    MatchInPrefix(s[..p], s[p..], i, m);
    assert s[..p] + s[p..] == s;
  }

  lemma NoMatchBeforeCut(s: string, x: string, i: nat, end: nat, p: nat, m: string)
    requires m != "" && end <= i < p <= |s| && p == HoldStart(s, LastEndFrom(s, i, m, end), m)
    requires !MatchesAt(s, i, m)
    ensures !MatchesAt(s + x, i, m) && !MatchesAt(s[..p], i, m)
    ensures LastEndFrom(s, i, m, end) == LastEndFrom(s, i + 1, m, end)
  {
    if MatchesAt(s + x, i, m) {
      if i + |m| <= |s| {
        MatchInPrefix(s, x, i, m);
      } else {
        MatchAcrossEnd(s, x, i, m);
      }
    }
    if i + |m| <= p {
      assert s[..p] + s[p..] == s;
      MatchInPrefix(s[..p], s[p..], i, m);
    }
  }

  /** The scan of a suffix is the scan of the suffix alone. */
  lemma {:induction false} ScanOfSuffix(a: string, b: string, j: nat, m: string, out: string)
    requires m != ""
    ensures ReplaceFrom(a + b, |a| + j, m, out) == ReplaceFrom(b, j, m, out)
    decreases |b| - j
  {
    if j < |b| {
      MatchInSuffix(a, b, j, m);
      assert (a + b)[|a| + j] == b[j];
      if MatchesAt(b, j, m) {
        ScanOfSuffix(a, b, j + |m|, m, out + KEYWORD);
      } else {
        ScanOfSuffix(a, b, j + 1, m, out + [b[j]]);
      }
    }
  }

  /** Cutting there commits to nothing: whatever follows, both parts are rewritten independently. */
  lemma CutIsSafe(s: string, m: string, x: string)
    requires m != ""
    ensures Replace(s + x, m) == Replace(s[..Released(s, m)], m) + Replace(s[Released(s, m)..] + x, m)
  {
    var p := Released(s, m);
    var first := Replace(s[..p], m);
    ScanPassesCut(s, x, s + x, s[..p], 0, 0, m, "");
    assert s[..p] + (s[p..] + x) == s + x;
    ScanOfSuffix(s[..p], s[p..] + x, 0, m, first);
    OutputIsAppended(s[p..] + x, 0, m, first);
  }

  /** The text a Write returns and the buffer it leaves. */
  function WriteStep(m: string, buf: string, chunk: string): (string, string) {
    if m == "" then (chunk, buf)
    else
      var data := buf + chunk;
      var p := Released(data, m);
      (Replace(data[..p], m), data[p..])
  }

  function FlushStep(m: string, buf: string): string {
    if m == "" then "" else Replace(buf, m)
  }

  /** Everything a normalizer emits for a stream of chunks and the final flush. */
  function StreamOutput(m: string, buf: string, chunks: seq<string>): string
    decreases |chunks|
  {
    if chunks == [] then FlushStep(m, buf)
    else
      var (out, rest) := WriteStep(m, buf, chunks[0]);
      out + StreamOutput(m, rest, chunks[1..])
  }

  /** For every marker and every chunking the stream is rewritten as the whole text would be. */
  lemma ChunkingDoesNotMatter(m: string, chunks: seq<string>)
    ensures StreamOutput(m, "", chunks) == if m == "" then Join(chunks) else Replace(Join(chunks), m)
  {
    if m == "" {
      InactivePassesThrough("", chunks);
    } else {
      StreamFromBuffer(m, "", chunks);
      assert "" + Join(chunks) == Join(chunks);
    }
  }

  lemma {:induction false} InactivePassesThrough(buf: string, chunks: seq<string>)
    ensures StreamOutput("", buf, chunks) == Join(chunks)
    decreases |chunks|
  {
    if chunks != [] {
      InactivePassesThrough(buf, chunks[1..]);
    }
  }

  lemma {:induction false} StreamFromBuffer(m: string, buf: string, chunks: seq<string>)
    requires m != ""
    ensures StreamOutput(m, buf, chunks) == Replace(buf + Join(chunks), m)
    decreases |chunks|
  {
    if chunks == [] {
      assert buf + "" == buf;
    } else {
      var data := buf + chunks[0];
      var p := Released(data, m);
      StreamFromBuffer(m, data[p..], chunks[1..]);
      CutIsSafe(data, m, Join(chunks[1..]));
      assert buf + Join(chunks) == data + Join(chunks[1..]);
    }
  }

  // ---------------------------------------------------------------- the normalizer

  function Upper(c: char): char {
    if 'a' <= c <= 'z' then c - 'a' + 'A' else c
  }

  function ToUpper(s: string): (u: string)
    ensures |u| == |s|
  {
    seq(|s|, i requires 0 <= i < |s| => Upper(s[i]))
  }

  /** Upper-casing maps the small ASCII letters to the capitals and keeps everything else. */
  lemma UpperIsAscii(c: char)
    ensures forall i | 0 <= i < 26 :: Upper(SMALL_LETTERS[i]) == CAPITALS[i]
    ensures c !in SMALL_LETTERS ==> Upper(c) == c
  {
    if 'a' <= c <= 'z' {
      var i := c as int - 'a' as int;
      assert SMALL_LETTERS[i] == c;
    }
  }

  /** The marker a normalizer works with; empty when it has nothing to do. */
  function Canonical(marker: string): string {
    var m := ToUpper(TrimSpace(marker));
    if m == KEYWORD then "" else m
  }

  class MarkerNormalizer {
    const marker: string
    var buf: string

    constructor (marker: string)
      ensures this.marker == Canonical(marker) && buf == ""
    {
      this.marker := Canonical(marker);
      buf := "";
    }

    method Write(chunk: string) returns (out: string)
      modifies this
      ensures (out, buf) == WriteStep(marker, old(buf), chunk)
    {
      if marker == "" {
        return chunk;
      }
      var data := buf + chunk;
      buf := "";
      var end := LastOccurrenceEnd(data, marker);
      var hold := TrailingPrefixLen(data[end..], marker);
      HoldInSuffix(data, end, 0, marker);
      assert |data| - hold == Released(data, marker);
      buf := data[|data| - hold..];
      out := ReplaceMarkerKeyword(data[..|data| - hold], marker);
    }

    method Flush() returns (out: string)
      modifies this
      ensures out == FlushStep(marker, old(buf))
      ensures marker != "" ==> buf == ""
    {
      if marker == "" {
        return "";
      }
      out := ReplaceMarkerKeyword(buf, marker);
      buf := "";
    }
  }

  /** What NormalizeMarkerText computes. */
  function Normalized(text: string, marker: string): string {
    var m := Canonical(marker);
    if m == "" then text else Replace(text, m)
  }

  method NormalizeMarkerText(text: string, marker: string) returns (out: string)
    ensures out == Normalized(text, marker)
  {
    var n := new MarkerNormalizer(marker);
    if n.marker == "" {
      return text;
    }
    ChunkingDoesNotMatter(n.marker, [text]);
    assert Join([text]) == text;
    assert StreamOutput(n.marker, "", [text]) ==
           WriteStep(n.marker, "", text).0 + StreamOutput(n.marker, WriteStep(n.marker, "", text).1, []);
    var first := n.Write(text);
    var last := n.Flush();
    out := first + last;
  }

  // ---------------------------------------------------------------- the prompt side

  /** word stands in text at i, exactly. */
  predicate WordAt(text: string, i: nat, word: string) {
    i + |word| <= |text| && forall k | 0 <= k < |word| :: text[i + k] == word[k]
  }

  predicate Contains(text: string, word: string) {
    exists i | 0 <= i <= |text| :: WordAt(text, i, word)
  }

  /** strings.ReplaceAll with the keyword as the pattern, from position i on. */
  function ReplaceKeyword(text: string, i: nat, marker: string): string
    decreases |text| - i
  {
    if i >= |text| then ""
    else if WordAt(text, i, KEYWORD) then marker + ReplaceKeyword(text, i + |KEYWORD|, marker)
    else [text[i]] + ReplaceKeyword(text, i + 1, marker)
  }

  function ApplyToolMarker(text: string, marker: string): string {
    var m := TrimSpace(marker);
    if m == "" || m == KEYWORD || text == "" || !Contains(text, KEYWORD) then text else ReplaceKeyword(text, 0, m)
  }

  function BorderFrom(m: string, l: nat): (r: nat)
    requires l < |m| || l == 0
    ensures r <= l && (r > 0 ==> m[|m| - r..] == m[..r])
    ensures forall k | r < k <= l :: m[|m| - k..] != m[..k]
  {
    if l == 0 then 0 else if m[|m| - l..] == m[..l] then l else BorderFrom(m, l - 1)
  }

  /** markerBorderLen: the longest proper prefix of m that is also a suffix of it. */
  function BorderLen(m: string): nat {
    BorderFrom(m, if m == "" then 0 else |m| - 1)
  }

  predicate IsBorder(m: string, b: nat) {
    0 < b < |m| && m[|m| - b..] == m[..b]
  }

  /** Every border of m is a beginning of the keyword, so that what looks like the head of a further
      occurrence was one before the keyword was replaced. */
  ghost predicate Harmless(m: string) {
    forall b: nat | IsBorder(m, b) :: b <= |KEYWORD| && m[..b] == KEYWORD[..b]
  }

  lemma WordIsMatch(text: string, i: nat, m: string)
    ensures WordAt(text, i, m) ==> MatchesAt(text, i, m)
  {
  }

  /** ApplyToolMarker is undone by NormalizeMarkerText on every text free of the marker (up to case) exactly
      when every border of the upper-cased marker is a beginning of the keyword. */
  lemma RoundTripIff(marker: string)
    ensures Harmless(ToUpper(TrimSpace(marker))) <==>
            forall text | TrimSpace(marker) == "" || !Occurs(text, TrimSpace(marker)) ::
              Normalized(ApplyToolMarker(text, marker), marker) == text
  {
    var m := ToUpper(TrimSpace(marker));
    if Harmless(m) {
      forall text | TrimSpace(marker) == "" || !Occurs(text, TrimSpace(marker))
        ensures Normalized(ApplyToolMarker(text, marker), marker) == text
      {
        ApplyThenNormalize(text, marker);
      }
    } else {
      var b: nat :| IsBorder(m, b) && !(b <= |KEYWORD| && m[..b] == KEYWORD[..b]);
      BorderBreaks(marker, b);
    }
  }

  /** In particular an unbordered marker is undone, which is what markerBorderLen is for. */
  lemma UnborderedIsHarmless(m: string)
    requires BorderLen(m) == 0
    ensures Harmless(m)
  {
  }

  lemma ApplyThenNormalize(text: string, marker: string)
    requires Harmless(ToUpper(TrimSpace(marker)))
    requires TrimSpace(marker) != "" ==> !Occurs(text, TrimSpace(marker))
    ensures Normalized(ApplyToolMarker(text, marker), marker) == text
  {
    var t := TrimSpace(marker);
    var m := ToUpper(t);
    if t != "" {
      OccurrenceUpToCase(text, t, m);
      if m == KEYWORD {
        forall i | 0 <= i <= |text| ensures !WordAt(text, i, KEYWORD) {
          WordIsMatch(text, i, KEYWORD);
        }
      } else {
        NothingToReplace(text, 0, m, "");
        if ApplyToolMarker(text, marker) != text {
          NormalizeUndoes(text, 0, t, m, "");
        }
      }
    }
  }

  /** t and m differ at most in case, and m holds no lower-case letter. */
  predicate CaseVariant(t: string, m: string) {
    |t| == |m| && forall i | 0 <= i < |m| :: Lower(t[i]) == Lower(m[i]) && Upper(m[i]) == m[i]
  }

  lemma OccurrenceUpToCase(text: string, t: string, m: string)
    requires m == ToUpper(t)
    ensures CaseVariant(t, m) && (Occurs(text, m) <==> Occurs(text, t))
  {
    forall i: nat
      ensures MatchesAt(text, i, m) <==> MatchesAt(text, i, t)
    {
      MatchUpToCase(text, i, t, m);
      MatchUpToCase(text, i, m, t);
    }
  }

  lemma MatchUpToCase(text: string, i: nat, t: string, m: string)
    requires |t| == |m| && forall k | 0 <= k < |m| :: Lower(t[k]) == Lower(m[k])
    ensures MatchesAt(text, i, t) ==> MatchesAt(text, i, m)
  {
    if MatchesAt(text, i, t) {
      forall k | 0 <= k < |m| ensures Lower(text[i + k]) == Lower(m[k]) {
        assert Lower(text[i + k]) == Lower(t[k]);
      }
    }
  }

  /** Rewriting the keyword to t and every occurrence of t (up to case) back again restores the text. */
  lemma {:induction false} NormalizeUndoes(text: string, i: nat, t: string, m: string, out: string)
    requires m != "" && CaseVariant(t, m) && Harmless(m) && !Occurs(text, m) && i <= |text|
    ensures ReplaceFrom(ReplaceKeyword(text, i, t), 0, m, out) == out + text[i..]
    decreases |text| - i
  {
    if i == |text| {
    } else if WordAt(text, i, KEYWORD) {
      NormalizeUndoes(text, i + |KEYWORD|, t, m, out + KEYWORD);
      NormalizeInserted(t, ReplaceKeyword(text, i + |KEYWORD|, t), m, out);
      assert text[i..] == KEYWORD + text[i + |KEYWORD|..];
      Associates(out, KEYWORD, text[i + |KEYWORD|..]);
    } else {
      NormalizeUndoes(text, i + 1, t, m, out + [text[i]]);
      NoMatchAcrossInsertion(text, i, t, m);
      ScanOfSuffix([text[i]], ReplaceKeyword(text, i + 1, t), 0, m, out + [text[i]]);
      assert text[i..] == [text[i]] + text[i + 1..];
      Associates(out, [text[i]], text[i + 1..]);
    }
  }

  lemma NormalizeInserted(t: string, rest: string, m: string, out: string)
    requires m != "" && CaseVariant(t, m)
    ensures ReplaceFrom(t + rest, 0, m, out) == ReplaceFrom(rest, 0, m, out + KEYWORD)
  {
    MatchInPrefix(t, rest, 0, m);
    assert MatchesAt(t, 0, m);
    ScanOfSuffix(t, rest, 0, m, out + KEYWORD);
  }

  /** The first keyword at or after i, or the end of the text. */
  function NextKeyword(text: string, i: nat): (k: nat)
    requires i <= |text|
    ensures i <= k <= |text|
    ensures k < |text| ==> WordAt(text, k, KEYWORD)
    decreases |text| - i
  {
    if i == |text| || WordAt(text, i, KEYWORD) then i else NextKeyword(text, i + 1)
  }

  /** out begins with the text from i up to k, then with t unless k is the end of the text. */
  predicate KeptThenMarker(out: string, text: string, i: nat, k: nat, t: string) {
    i <= k <= |text| &&
    |out| >= k - i + (if k < |text| then |t| else 0) &&
    (forall q | 0 <= q < k - i :: out[q] == text[i + q]) &&
    (k == |text| ==> |out| == k - i) &&
    (k < |text| ==> forall q | 0 <= q < |t| :: out[k - i + q] == t[q])
  }

  lemma KeepOneMore(rest: string, text: string, i: nat, k: nat, t: string)
    requires i < |text| && KeptThenMarker(rest, text, i + 1, k, t)
    ensures KeptThenMarker([text[i]] + rest, text, i, k, t)
  {
    var out := [text[i]] + rest;
    forall q | 0 <= q < k - i ensures out[q] == text[i + q] {
      if q > 0 { assert rest[q - 1] == text[i + 1 + (q - 1)]; }
    }
    if k < |text| {
      forall q | 0 <= q < |t| ensures out[k - i + q] == t[q] {
        assert rest[k - (i + 1) + q] == t[q];
      }
    }
  }

  /** The rewritten text is kept up to the next keyword, where the marker stands. */
  lemma {:induction false} ReplaceKeywordShape(text: string, i: nat, t: string)
    requires i <= |text|
    ensures KeptThenMarker(ReplaceKeyword(text, i, t), text, i, NextKeyword(text, i), t)
    decreases |text| - i
  {
    if i < |text| && !WordAt(text, i, KEYWORD) {
      ReplaceKeywordShape(text, i + 1, t);
      KeepOneMore(ReplaceKeyword(text, i + 1, t), text, i, NextKeyword(text, i), t);
    }
  }

  /** No match can begin in kept text and end in an inserted marker. */
  lemma NoMatchAcrossInsertion(text: string, i: nat, t: string, m: string)
    requires m != "" && CaseVariant(t, m) && Harmless(m) && !Occurs(text, m)
    requires i < |text| && !WordAt(text, i, KEYWORD)
    ensures !MatchesAt(ReplaceKeyword(text, i, t), 0, m)
  {
    var out, k := ReplaceKeyword(text, i, t), NextKeyword(text, i);
    ReplaceKeywordShape(text, i, t);
    if MatchesAt(out, 0, m) {
      if k - i >= |m| || k == |text| {
        MatchInKeptText(out, text, i, k, t, m);
      } else {
        OverlapIsBorder(out, k - i, t, m);
        MatchUpToKeyword(out, text, i, k, m);
      }
    }
  }

  lemma MatchInKeptText(out: string, text: string, i: nat, k: nat, t: string, m: string)
    requires KeptThenMarker(out, text, i, k, t)
    requires k - i >= |m| || k == |text|
    ensures MatchesAt(out, 0, m) ==> MatchesAt(text, i, m)
  {
    if MatchesAt(out, 0, m) {
      forall q | 0 <= q < |m| ensures Lower(text[i + q]) == Lower(m[q]) {
        assert Lower(out[0 + q]) == Lower(m[q]);
      }
    }
  }

  /** An occurrence that overlaps an inserted marker makes the overlap a border. */
  lemma OverlapIsBorder(out: string, d: nat, t: string, m: string)
    requires 0 < d < |m| && CaseVariant(t, m) && MatchesAt(out, 0, m)
    requires |out| >= d + |t| && forall q | 0 <= q < |t| :: out[d + q] == t[q]
    ensures IsBorder(m, |m| - d)
  {
    forall q | 0 <= q < |m| - d
      ensures m[d + q] == m[q]
    {
      assert Lower(out[0 + (d + q)]) == Lower(m[d + q]);
      LowerIsInjective(m[d + q], m[q]);
    }
  }

  /** A harmless overlap was an occurrence already, with the keyword in place of the marker. */
  lemma MatchUpToKeyword(out: string, text: string, i: nat, k: nat, m: string)
    requires i < k < |text| && k - i < |m| && WordAt(text, k, KEYWORD) && MatchesAt(out, 0, m)
    requires forall q | 0 <= q < k - i :: q < |out| && out[q] == text[i + q]
    requires Harmless(m) && IsBorder(m, |m| - (k - i))
    ensures MatchesAt(text, i, m)
  {
    var d, b := k - i, |m| - (k - i);
    assert m[d..] == m[..b] == KEYWORD[..b];
    forall q | 0 <= q < |m|
      ensures Lower(text[i + q]) == Lower(m[q])
    {
      if q < d {
        assert Lower(out[0 + q]) == Lower(m[q]);
      } else {
        assert m[q] == m[d..][q - d] == KEYWORD[q - d] == text[k + (q - d)];
      }
    }
  }

  lemma LowerIsInjective(a: char, b: char)
    requires Upper(a) == a && Upper(b) == b && Lower(a) == Lower(b)
    ensures a == b
  {
  }

  // ---------------------------------------------------------------- why the condition is needed

  function LowerAll(s: string): (r: string)
    ensures |r| == |s|
  {
    seq(|s|, i requires 0 <= i < |s| => Lower(s[i]))
  }

  /** A text that rewriting does not restore: the marker up to its border, in lower case, and the keyword. */
  predicate IsBroken(text: string, m: string, b: nat) {
    IsBorder(m, b) && |text| == |m| - b + |KEYWORD| &&
    (forall q | 0 <= q < |m| - b :: text[q] == Lower(m[q])) &&
    (forall q | 0 <= q < |KEYWORD| :: text[|m| - b + q] == KEYWORD[q])
  }

  lemma BorderBreaks(marker: string, b: nat)
    requires IsBorder(ToUpper(TrimSpace(marker)), b)
    requires !(b <= |KEYWORD| && ToUpper(TrimSpace(marker))[..b] == KEYWORD[..b])
    ensures exists text :: !Occurs(text, TrimSpace(marker)) && Normalized(ApplyToolMarker(text, marker), marker) != text
  {
    var t := TrimSpace(marker);
    var m := ToUpper(t);
    var text := BrokenText(t, m, b);
    KeywordBordersAreHarmless(m, b);
    assert ApplyToolMarker(text, marker) == ReplaceKeyword(text, 0, t);
  }

  lemma BrokenText(t: string, m: string, b: nat) returns (text: string)
    requires m == ToUpper(t) && IsBorder(m, b) && !(b <= |KEYWORD| && m[..b] == KEYWORD[..b])
    ensures !Occurs(text, t) && text != "" && Contains(text, KEYWORD)
    ensures Replace(ReplaceKeyword(text, 0, t), m) != text
  {
    text := LowerAll(m[..|m| - b]) + KEYWORD;
    assert IsBroken(text, m, b);
    OccurrenceUpToCase(text, t, m);
    forall p | 0 <= p <= |text| ensures !MatchesAt(text, p, m) {
      BrokenIsFree(text, m, b, p);
    }
    BrokenIsRewritten(text, t, m, b);
  }

  lemma KeywordBordersAreHarmless(m: string, b: nat)
    requires IsBorder(m, b) && !(b <= |KEYWORD| && m[..b] == KEYWORD[..b])
    ensures m != KEYWORD
  {
    if m == KEYWORD {
      BorderLetters(m, b);
      assert false;
    }
  }

  lemma BorderLetters(m: string, b: nat)
    requires IsBorder(m, b)
    ensures forall q | 0 <= q < b :: m[|m| - b + q] == m[q]
  {
    forall q | 0 <= q < b ensures m[|m| - b + q] == m[q] {
      assert m[|m| - b..][q] == m[..b][q];
    }
  }

  /** The rewritten text begins with an occurrence, so that its first letter changes. */
  lemma BrokenIsRewritten(text: string, t: string, m: string, b: nat)
    requires m == ToUpper(t) && IsBroken(text, m, b)
    ensures Contains(text, KEYWORD) && Replace(ReplaceKeyword(text, 0, t), m) != text
  {
    assert WordAt(text, |m| - b, KEYWORD);
    BrokenMatches(text, t, m, b);
    BeginsWithKeyword(ReplaceKeyword(text, 0, t), m);
    assert text[0] != KEYWORD[0];
  }

  lemma BrokenMatches(text: string, t: string, m: string, b: nat)
    requires m == ToUpper(t) && IsBroken(text, m, b)
    ensures MatchesAt(ReplaceKeyword(text, 0, t), 0, m)
  {
    var d := |m| - b;
    assert WordAt(text, d, KEYWORD);
    NextKeywordIs(text, 0, d);
    ReplaceKeywordShape(text, 0, t);
    BorderLetters(m, b);
    RewrittenMatches(text, ReplaceKeyword(text, 0, t), t, m, d);
  }

  lemma BeginsWithKeyword(s: string, m: string)
    requires m != "" && MatchesAt(s, 0, m)
    ensures |Replace(s, m)| > 0 && Replace(s, m)[0] == KEYWORD[0]
  {
    assert "" + KEYWORD == KEYWORD;
    OutputIsAppended(s, |m|, m, KEYWORD);
    assert Replace(s, m) == KEYWORD + ReplaceFrom(s, |m|, m, "");
  }

  lemma RewrittenMatches(text: string, out: string, t: string, m: string, d: nat)
    requires 0 < d < |m| && d < |text| && CaseVariant(t, m) && KeptThenMarker(out, text, 0, d, t)
    requires forall q | 0 <= q < d :: text[q] == Lower(m[q])
    requires forall q | 0 <= q < |m| - d :: m[d + q] == m[q]
    ensures MatchesAt(out, 0, m)
  {
    forall k | 0 <= k < |m| ensures Lower(out[0 + k]) == Lower(m[k]) {
      if k < d {
        assert out[k] == text[0 + k];
      } else {
        assert out[d - 0 + (k - d)] == t[k - d] && m[d + (k - d)] == m[k - d];
      }
    }
  }

  lemma {:induction false} NextKeywordIs(text: string, i: nat, d: nat)
    requires i <= d < |text| && WordAt(text, d, KEYWORD)
    requires forall q | i <= q < d :: text[q] != KEYWORD[0]
    ensures NextKeyword(text, i) == d
    decreases d - i
  {
    if i < d {
      assert text[i + 0] != KEYWORD[0];
      NextKeywordIs(text, i + 1, d);
    }
  }

  /** The marker does not occur in that text: an occurrence would make the border a beginning of the keyword. */
  lemma BrokenIsFree(text: string, m: string, b: nat, p: nat)
    requires IsBroken(text, m, b) && !(b <= |KEYWORD| && m[..b] == KEYWORD[..b])
    requires forall i | 0 <= i < |m| :: Upper(m[i]) == m[i]
    ensures !MatchesAt(text, p, m)
  {
    if MatchesAt(text, p, m) {
      var d := |m| - b;
      OccurrenceLetters(text, m, b, d, p);
      BorderLetters(m, b);
      OccurrenceBorder(m, d, b, p);
    }
  }

  /** Letter k of m is the one an occurrence at p finds: a letter of m again, or one of the keyword. */
  predicate Recurs(m: string, d: nat, p: nat, k: nat)
    requires k < |m| && p + k - d < |KEYWORD| && d <= |m|
  {
    m[k] == if p + k < d then m[p + k] else KEYWORD[p + k - d]
  }

  lemma OccurrenceLetters(text: string, m: string, b: nat, d: nat, p: nat)
    requires IsBroken(text, m, b) && d == |m| - b && MatchesAt(text, p, m)
    requires forall i | 0 <= i < |m| :: Upper(m[i]) == m[i]
    ensures forall k | 0 <= k < |m| :: Recurs(m, d, p, k)
  {
    forall k | 0 <= k < |m| ensures Recurs(m, d, p, k) {
      assert Lower(text[p + k]) == Lower(m[k]);
      if p + k < d {
        LowerIsInjective(m[k], m[p + k]);
      } else {
        assert text[d + (p + k - d)] == KEYWORD[p + k - d];
        LowerIsInjective(m[k], KEYWORD[p + k - d]);
      }
    }
  }

  lemma OccurrenceBorder(m: string, d: nat, b: nat, p: nat)
    requires 0 < b && 0 < d && |m| == d + b && p + b <= |KEYWORD|
    requires forall k | 0 <= k < |m| :: Recurs(m, d, p, k)
    requires forall q | 0 <= q < b :: m[d + q] == m[q]
    ensures m[..b] == KEYWORD[..b]
  {
    forall q | 0 <= q < b ensures m[q] == KEYWORD[p + q] {
      assert Recurs(m, d, p, d + q) && m[d + q] == m[q];
    }
    if p > 0 {
      assert m[0] == KEYWORD[p + 0];
      if p < d {
        forall i: nat | i + p < d ensures m[i] == m[i + p] {
          assert Recurs(m, d, p, i);
        }
        var r := LastOfStride(m, d, p, 0);
        assert Recurs(m, d, p, r) && 0 <= p + r - d < p;
      } else {
        assert Recurs(m, d, p, 0) && m[0] == KEYWORD[p - d];
      }
      assert p == 3;
    }
  }

  /** When m repeats every p letters below d, each of those letters is among the last p of them. */
  lemma {:induction false} LastOfStride(m: string, d: nat, p: nat, q: nat) returns (r: nat)
    requires 0 < p <= d <= |m| && q < d && forall i: nat | i + p < d :: m[i] == m[i + p]
    ensures d - p <= r < d && m[q] == m[r]
    decreases d - q
  {
    r := q;
    if q + p < d {
      r := LastOfStride(m, d, p, q + p);
    }
  }

  /** Without upper-casing, a zero border is not enough: markerBorderLen compares exactly, matching folds. */
  lemma MixedCaseMarkerFails()
    ensures BorderLen("aXA") == 0 && BorderLen(ToUpper("aXA")) != 0
    ensures !Occurs("AXEPSE", "aXA")
    ensures Normalized(ApplyToolMarker("AXEPSE", "aXA"), "aXA") == "EPSEXA" != "AXEPSE"
  {
    MixedCaseBorders();
    MixedCaseText();
    MixedCaseScan();
  }

  lemma MixedCaseBorders()
    ensures ToUpper("aXA") == "AXA" == Canonical("aXA")
    ensures BorderLen("aXA") == 0 && BorderLen("AXA") != 0
  {
    assert ToUpper("aXA") == "AXA";
    assert "AXA"[3 - 1..] == "A" == "AXA"[..1];
    assert TrimRight("aXA") == "aXA" && TrimLeft("aXA") == "aXA";
  }

  lemma MixedCaseScan()
    ensures Replace("AXaXA", "AXA") == "EPSEXA"
  {
    var text, m := "AXaXA", "AXA";
    assert MatchesAt(text, 0, m);
    assert ReplaceFrom(text, 3, m, KEYWORD) == ReplaceFrom(text, 4, m, "EPSEX") == ReplaceFrom(text, 5, m, "EPSEXA");
  }

  lemma MixedCaseText()
    ensures !Occurs("AXEPSE", "aXA")
    ensures ApplyToolMarker("AXEPSE", "aXA") == "AXaXA"
  {
    var text := "AXEPSE";
    assert TrimRight("aXA") == "aXA" && TrimLeft("aXA") == "aXA";
    assert WordAt(text, 2, KEYWORD);
    assert ReplaceKeyword(text, 2, "aXA") == "aXA" + ReplaceKeyword(text, 6, "aXA") == "aXA";
    assert ReplaceKeyword(text, 1, "aXA") == "XaXA" by {
      assert text[1] == 'X' && KEYWORD[0] == 'E' && text[1 + 0] != KEYWORD[0];
    }
    assert ReplaceKeyword(text, 0, "aXA") == "AXaXA" by {
      assert text[0] == 'A' && KEYWORD[0] == 'E' && text[0 + 0] != KEYWORD[0];
    }
    forall i | 0 <= i <= |text|
      ensures !MatchesAt(text, i, "aXA")
    {
      if i + 3 <= |text| {
        assert Lower(text[i + 0]) != 'a' || Lower(text[i + 2]) != 'a';
      }
    }
  }

  // ---------------------------------------------------------------- deriving a marker

  const ALPHABET := "ABCDEFGHJKLMNPQRSTUVWXYZ23456789"
  const FALLBACK := "Z2Q7ZK"
  const MAX_ATTEMPTS: nat := 8

  /** Made of upper-case letters and digits only. */
  predicate IsPlain(marker: string) {
    forall i | 0 <= i < |marker| :: 'A' <= marker[i] <= 'Z' || '0' <= marker[i] <= '9'
  }

  lemma AlphabetIsPlain()
    ensures |ALPHABET| == 32 && IsPlain(ALPHABET)
  {
  }

  /** The six letters one attempt draws; digest stands for the keyed hash of the attempt. */
  function Attempt(digest: nat -> seq<nat>, attempt: nat): (m: string)
    requires |digest(attempt)| >= 6
    ensures |m| == 6 && IsPlain(m)
  {
    AlphabetIsPlain();
    seq(6, i requires 0 <= i < 6 => ALPHABET[digest(attempt)[i] % |ALPHABET|])
  }

  lemma NotABorder(m: string, k: nat, q: nat)
    requires q < k <= |m| && m[|m| - k + q] != m[q]
    ensures m[|m| - k..] != m[..k]
  {
    assert m[|m| - k..][q] != m[..k][q];
  }

  lemma FallbackIsGood()
    ensures BorderLen(FALLBACK) == 0 && !Contains(FALLBACK, KEYWORD) && IsPlain(FALLBACK) && |FALLBACK| == 6
  {
    var m := FALLBACK;
    assert m[0] == m[4] == 'Z' && m[1] == '2' && m[2] == 'Q' && m[3] == '7' && m[5] == 'K';
    var r := BorderFrom(m, 5);
    if r > 0 {
      NotABorder(m, r, if r == 2 then 1 else 0);
      assert false;
    }
    forall i | 0 <= i <= |m|
      ensures !WordAt(m, i, KEYWORD)
    {
      if i + 4 <= 6 {
        assert m[i + 0] != KEYWORD[0];
      }
    }
  }

  /** DeriveToolMarker: the first of eight draws that is unbordered and free of the keyword, else the fallback. */
  method DeriveToolMarker(digest: nat -> seq<nat>) returns (marker: string)
    requires forall a: nat :: |digest(a)| >= 6
    ensures BorderLen(marker) == 0 && !Contains(marker, KEYWORD) && IsPlain(marker) && |marker| == 6
    ensures forall i | 0 <= i < 6 :: marker[i] in "ABCDEFGHJKLMNPQRSTUVWXYZ23456789"
    ensures forall a: nat | a < 8 && BorderLen(Attempt(digest, a)) == 0 &&
      !Contains(Attempt(digest, a), KEYWORD) ::
      exists b: nat | b <= a :: marker == Attempt(digest, b)
  {
    for attempt := 0 to MAX_ATTEMPTS
      invariant forall a: nat | a < attempt ::
        Contains(Attempt(digest, a), KEYWORD) || BorderLen(Attempt(digest, a)) != 0
    {
      marker := Attempt(digest, attempt);
      forall i | 0 <= i < 6 ensures marker[i] in ALPHABET {
        AttemptLetters(digest, attempt, i);
      }
      if !Contains(marker, KEYWORD) && BorderLen(marker) == 0 {
        return;
      }
    }
    FallbackIsGood();
    marker := FALLBACK;
    FallbackLetters();
  }

  lemma AttemptLetters(digest: nat -> seq<nat>, attempt: nat, i: nat)
    requires |digest(attempt)| >= 6 && i < 6
    ensures Attempt(digest, attempt)[i] == "ABCDEFGHJKLMNPQRSTUVWXYZ23456789"[digest(attempt)[i] % 32]
  {
    AlphabetIsPlain();
  }

  lemma FallbackLetters()
    ensures FALLBACK == "Z2Q7ZK" && forall i | 0 <= i < 6 :: FALLBACK[i] in ALPHABET
  {
    assert ALPHABET[23] == 'Z' && ALPHABET[24] == '2' && ALPHABET[14] == 'Q' && ALPHABET[29] == '7' &&
      ALPHABET[9] == 'K';
  }

  /** Every marker DeriveToolMarker can return makes the prompt rewriting reversible. */
  lemma DerivedMarkersRoundTrip(text: string, marker: string)
    requires IsPlain(marker) && marker != "" && BorderLen(marker) == 0 && !Occurs(text, marker)
    ensures Normalized(ApplyToolMarker(text, marker), marker) == text
  {
    PlainIsCanonical(marker);
    UnborderedIsHarmless(marker);
    ApplyThenNormalize(text, marker);
  }

  lemma PlainIsCanonical(marker: string)
    requires IsPlain(marker)
    ensures TrimSpace(marker) == marker == ToUpper(marker)
  {
  }
}
