/** The two rewritings of internal/toolcall/marker.go, told by the pieces of a text between what they replace. */
module MarkerPieces {

  import opened Basics
  import opened FoldText
  import opened Marker

  /** The pieces of a text with seams between them. */
  function Weave(pieces: seq<string>, seams: seq<string>): string
    requires |pieces| == |seams| + 1
  {
    if seams == [] then pieces[0] else pieces[0] + (seams[0] + Weave(pieces[1..], seams[1..]))
  }

  /** The pieces with one word between them. */
  function Rejoin(pieces: seq<string>, word: string): string
    requires pieces != []
  {
    if |pieces| == 1 then pieces[0] else pieces[0] + (word + Rejoin(pieces[1..], word))
  }

  // ---------------------------------------------------------------- the prompt

  /** Before each seam the piece has no such word, not even one that runs into the seam, and the last piece has none. */
  predicate IsCut(pieces: seq<string>, word: string) {
    && pieces != [] && (forall k | 0 <= k < |pieces| - 1 :: NoneBeforeEnd(pieces[k], word))
    && Without(pieces[|pieces| - 1], word)
  }

  predicate NoneBeforeEnd(piece: string, word: string) {
    forall j | 0 <= j < |piece| :: !(word <= (piece + word)[j..])
  }

  predicate Without(piece: string, word: string) {
    forall j | 0 <= j <= |piece| :: !(word <= piece[j..])
  }

  lemma WordIsPrefix(text: string, i: nat, word: string)
    requires i <= |text|
    ensures WordAt(text, i, word) <==> word <= text[i..]
  {
    if WordAt(text, i, word) {
      forall k | 0 <= k < |word| ensures text[i..][k] == word[k] {
        assert text[i + k] == word[k];
      }
    }
    if word <= text[i..] {
      forall k | 0 <= k < |word| ensures text[i + k] == word[k] {
        assert text[i..][k] == word[k];
      }
    }
  }

  lemma {:induction false} KeepsUntil(text: string, i: nat, d: nat, m: string)
    requires i <= d <= |text| && forall j | i <= j < d :: !WordAt(text, j, KEYWORD)
    ensures ReplaceKeyword(text, i, m) == text[i..d] + ReplaceKeyword(text, d, m)
    decreases d - i
  {
    if i < d {
      KeepsUntil(text, i + 1, d, m);
      Associates([text[i]], text[i + 1..d], ReplaceKeyword(text, d, m));
      assert text[i..d] == [text[i]] + text[i + 1..d];
    }
  }

  lemma PrefixOfBoth(w: string, a: string, b: string)
    requires a <= b && |w| <= |a|
    ensures w <= b ==> w <= a
  {
  }

  lemma PrefixStays(a: string, b: string, j: nat)
    requires a <= b && j <= |a|
    ensures a[j..] <= b[j..]
  {
  }

  lemma NoneInPiece(text: string, i: nat, piece: string, word: string)
    requires i <= |text| && piece + word <= text[i..] && NoneBeforeEnd(piece, word)
    ensures forall j | i <= j < i + |piece| :: !WordAt(text, j, word)
  {
    forall j | i <= j < i + |piece| ensures !WordAt(text, j, word) {
      PrefixStays(piece + word, text[i..], j - i);
      assert text[i..][j - i..] == text[j..];
      WordIsPrefix(text, j, word);
      PrefixOfBoth(word, (piece + word)[j - i..], text[j..]);
    }
  }

  lemma NoneInLast(text: string, i: nat, word: string)
    requires i <= |text| && Without(text[i..], word)
    ensures forall j | i <= j <= |text| :: !WordAt(text, j, word)
  {
    forall j | i <= j <= |text| ensures !WordAt(text, j, word) {
      assert text[i..][j - i..] == text[j..];
      WordIsPrefix(text, j, word);
    }
  }

  lemma {:induction false} RewritesFrom(text: string, i: nat, pieces: seq<string>, word: string, m: string)
    requires word == KEYWORD && i <= |text| && IsCut(pieces, word)
    requires text[i..] == Rejoin(pieces, word)
    ensures ReplaceKeyword(text, i, m) == Rejoin(pieces, m)
    decreases |pieces|
  {
    if |pieces| == 1 {
      RewritesNone(text, i, word, m);
    } else {
      var e := RewritesOne(text, i, pieces[0], word, Rejoin(pieces[1..], word), m);
      RewritesFrom(text, e, pieces[1..], word, m);
      assert Rejoin(pieces, m) == pieces[0] + (m + Rejoin(pieces[1..], m));
    }
  }

  lemma RewritesNone(text: string, i: nat, word: string, m: string)
    requires word == KEYWORD && i <= |text| && Without(text[i..], word)
    ensures ReplaceKeyword(text, i, m) == text[i..]
  {
    NoneInLast(text, i, word);
    KeepsUntil(text, i, |text|, m);
    assert text[i..|text|] == text[i..] && text[i..] + "" == text[i..];
  }

  lemma RewritesOne(text: string, i: nat, piece: string, word: string, rest: string, m: string) returns (e: nat)
    requires word == KEYWORD && i <= |text| && NoneBeforeEnd(piece, word) && text[i..] == piece + (word + rest)
    ensures i < e <= |text| && text[e..] == rest
    ensures ReplaceKeyword(text, i, m) == piece + (m + ReplaceKeyword(text, e, m))
  {
    var d := i + |piece|;
    Sliced(text, i, piece, word, rest);
    NoneInPiece(text, i, piece, word);
    KeepsUntil(text, i, d, m);
    WordIsPrefix(text, d, word);
    e := d + |word|;
  }

  lemma Sliced(text: string, i: nat, piece: string, word: string, rest: string)
    requires i <= |text| && text[i..] == piece + (word + rest)
    ensures var d := i + |piece|;
      d + |word| <= |text| && text[i..d] == piece && text[d + |word|..] == rest && word <= text[d..]
    ensures piece + word <= text[i..]
  {
    Associates(piece, word, rest);
    var d := i + |piece|;
    assert text[d..] == text[i..][|piece|..] == word + rest;
    assert text[d + |word|..] == text[d..][|word|..];
    assert text[i..d] == text[i..][..|piece|];
  }

  /** Every keyword of a prompt becomes the marker, and nothing else changes. */
  lemma ApplyRewritesEvery(pieces: seq<string>, marker: string)
    requires IsCut(pieces, "EPSE") && TrimSpace(marker) != "" && TrimSpace(marker) != "EPSE"
    ensures ApplyToolMarker(Rejoin(pieces, "EPSE"), marker) ==
            Rejoin(pieces, TrimSpace(marker))
  {
    var text, m := Rejoin(pieces, "EPSE"), TrimSpace(marker);
    assert text[0..] == text;
    RewritesFrom(text, 0, pieces, KEYWORD, m);
    if !Contains(text, KEYWORD) {
      KeepsUntil(text, 0, |text|, m);
      assert text[0..|text|] == text && text + "" == text;
    }
  }

  lemma InactiveMarkerKeeps(text: string, marker: string)
    requires TrimSpace(marker) == "" || TrimSpace(marker) == "EPSE"
    ensures ApplyToolMarker(text, marker) == text
  {
  }

  /** The pieces of a text from b on, known to be free of the word up to i. */
  lemma {:induction false} CutFrom(text: string, b: nat, i: nat, word: string) returns (pieces: seq<string>)
    requires word != "" && b <= i <= |text| && forall j | b <= j < i :: !(word <= text[j..])
    ensures IsCut(pieces, word) && Rejoin(pieces, word) == text[b..]
    decreases |text| - i
  {
    if i == |text| {
      pieces := [text[b..]];
      forall j | 0 <= j <= |text| - b ensures !(word <= text[b..][j..]) {
        assert text[b..][j..] == text[b + j..];
      }
    } else if word <= text[i..] {
      var e := i + |word|;
      var rest := CutFrom(text, e, e, word);
      pieces := [text[b..i]] + rest;
      assert pieces[1..] == rest;
      assert text[i..] == word + text[e..] && text[b..] == text[b..i] + (word + text[e..]);
      NoneBefore(text, b, i, word);
    } else {
      pieces := CutFrom(text, b, i + 1, word);
    }
  }

  lemma NoneBefore(text: string, b: nat, i: nat, word: string)
    requires b <= i <= |text| && word <= text[i..] && forall j | b <= j < i :: !(word <= text[j..])
    ensures NoneBeforeEnd(text[b..i], word)
  {
    var head := text[b..i] + word;
    assert head <= text[b..];
    forall j | 0 <= j < i - b ensures !(word <= head[j..]) {
      PrefixStays(head, text[b..], j);
      assert text[b..][j..] == text[b + j..];
    }
  }

  /** Every text is such pieces with keywords between them. */
  lemma EveryPromptIsCut(text: string) returns (pieces: seq<string>)
    ensures IsCut(pieces, "EPSE") && Rejoin(pieces, "EPSE") == text
  {
    pieces := CutFrom(text, 0, 0, "EPSE");
    assert text[0..] == text;
  }

  // ---------------------------------------------------------------- the stream

  /** Each seam is the marker up to case, no piece has an occurrence that begins before its seam, and the last piece
      has none. */
  predicate IsCutBy(pieces: seq<string>, seams: seq<string>, m: string) {
    && |pieces| == |seams| + 1
    && (forall k | 0 <= k < |seams| :: EqualFold(seams[k], m) && NoMatchBefore(pieces[k] + seams[k], |pieces[k]|, m))
    && !Occurs(pieces[|seams|], m)
  }

  predicate NoMatchBefore(text: string, end: nat, m: string) {
    forall j | 0 <= j < end :: !MatchesAt(text, j, m)
  }

  lemma {:induction false} ScanKeeps(text: string, i: nat, d: nat, m: string, out: string)
    requires m != "" && i <= d <= |text| && forall j | i <= j < d :: !MatchesAt(text, j, m)
    ensures ReplaceFrom(text, i, m, out) == ReplaceFrom(text, d, m, out + text[i..d])
    decreases d - i
  {
    if i < d {
      ScanKeeps(text, i + 1, d, m, out + [text[i]]);
      assert out + [text[i]] + text[i + 1..d] == out + text[i..d];
    } else {
      assert out + text[i..d] == out;
    }
  }

  lemma {:induction false} ScanWeaves(pieces: seq<string>, seams: seq<string>, m: string)
    requires m != "" && IsCutBy(pieces, seams, m)
    ensures Replace(Weave(pieces, seams), m) == Rejoin(pieces, KEYWORD)
    decreases |seams|
  {
    if seams == [] {
      NothingToReplace(pieces[0], 0, m, "");
      assert "" + pieces[0][0..] == pieces[0];
    } else {
      assert IsCutBy(pieces[1..], seams[1..], m);
      ScanWeaves(pieces[1..], seams[1..], m);
      ScanOnePiece(pieces[0], seams[0], Weave(pieces[1..], seams[1..]), m);
    }
  }

  lemma FirstIsSeam(piece: string, seam: string, rest: string, m: string)
    requires EqualFold(seam, m) && NoMatchBefore(piece + seam, |piece|, m)
    ensures var text := piece + seam + rest;
      MatchesAt(text, |piece|, m) && forall j | 0 <= j < |piece| :: !MatchesAt(text, j, m)
  {
    var head := piece + seam;
    forall j | 0 <= j < |piece| ensures !MatchesAt(head + rest, j, m) {
      if j + |m| <= |head| {
        MatchInPrefix(head, rest, j, m);
      }
    }
    MatchInSuffix(piece, seam, 0, m);
    MatchInPrefix(head, rest, |piece|, m);
  }

  lemma ScanOnePiece(piece: string, seam: string, rest: string, m: string)
    requires m != "" && EqualFold(seam, m) && NoMatchBefore(piece + seam, |piece|, m)
    ensures Replace(piece + (seam + rest), m) == piece + (KEYWORD + Replace(rest, m))
  {
    Associates(piece, seam, rest);
    ScanToSeam(piece, seam, rest, m);
    ScanAfter(piece + seam, rest, m, piece + KEYWORD);
    Associates(piece, KEYWORD, Replace(rest, m));
  }

  lemma ScanToSeam(piece: string, seam: string, rest: string, m: string)
    requires m != "" && EqualFold(seam, m) && NoMatchBefore(piece + seam, |piece|, m)
    ensures var text := piece + seam + rest;
      Replace(text, m) == ReplaceFrom(text, |piece + seam|, m, piece + KEYWORD)
  {
    var text := piece + seam + rest;
    FirstIsSeam(piece, seam, rest, m);
    ScanKeeps(text, 0, |piece|, m, "");
    assert text[0..|piece|] == piece && "" + piece == piece;
  }

  lemma ScanAfter(head: string, rest: string, m: string, out: string)
    requires m != ""
    ensures ReplaceFrom(head + rest, |head|, m, out) == out + Replace(rest, m)
  {
    ScanOfSuffix(head, rest, 0, m, out);
    OutputIsAppended(rest, 0, m, out);
  }

  /** Every occurrence of the marker, in any case, becomes the keyword, and nothing else changes. */
  lemma NormalizeRewritesEvery(pieces: seq<string>, seams: seq<string>, marker: string)
    requires var m := ToUpper(TrimSpace(marker));
      m != "" && m != "EPSE" && IsCutBy(pieces, seams, m)
    ensures Normalized(Weave(pieces, seams), marker) == Rejoin(pieces, "EPSE")
  {
    ScanWeaves(pieces, seams, ToUpper(TrimSpace(marker)));
  }

  lemma {:induction false} CutByFrom(text: string, b: nat, i: nat, m: string)
    returns (pieces: seq<string>, seams: seq<string>)
    requires m != "" && b <= i <= |text| && forall j | b <= j < i :: !MatchesAt(text, j, m)
    ensures IsCutBy(pieces, seams, m) && Weave(pieces, seams) == text[b..]
    decreases |text| - i
  {
    if i == |text| {
      pieces, seams := [text[b..]], [];
      assert text[..b] + text[b..] == text;
      forall j | 0 <= j <= |text| - b ensures !MatchesAt(text[b..], j, m) {
        MatchInSuffix(text[..b], text[b..], j, m);
      }
    } else if MatchesAt(text, i, m) {
      var e := i + |m|;
      var ps, ss := CutByFrom(text, e, e, m);
      pieces, seams := [text[b..i]] + ps, [text[i..e]] + ss;
      assert pieces[1..] == ps && seams[1..] == ss;
      assert text[b..] == text[b..i] + (text[i..e] + text[e..]);
      WindowMatches(text, i, m);
      FirstPieceIsFree(text, b, i, e, m);
    } else {
      pieces, seams := CutByFrom(text, b, i + 1, m);
    }
  }

  lemma FirstPieceIsFree(text: string, b: nat, i: nat, e: nat, m: string)
    requires b <= i <= e <= |text| && forall j | b <= j < i :: !MatchesAt(text, j, m)
    ensures NoMatchBefore(text[b..i] + text[i..e], i - b, m)
  {
    var head := text[b..i] + text[i..e];
    assert text[..b] + (head + text[e..]) == text;
    forall j | 0 <= j < i - b ensures !MatchesAt(head, j, m) {
      MatchInSuffix(text[..b], head + text[e..], j, m);
      if j + |m| <= |head| {
        MatchInPrefix(head, text[e..], j, m);
      }
    }
  }

  /** Every text is such pieces with occurrences of the marker between them. */
  lemma EveryStreamIsCut(text: string, m: string) returns (pieces: seq<string>, seams: seq<string>)
    requires m != ""
    ensures IsCutBy(pieces, seams, m) && Weave(pieces, seams) == text
  {
    pieces, seams := CutByFrom(text, 0, 0, m);
    assert text[0..] == text;
  }
}
