/** The cut rules of internal/sse/content_policy.go on text written out: where the reply ends and why. */
module PolicyRuns {

  import opened FoldText
  import opened RepeatGuard
  import opened ToolRoleGuard
  import opened ContentPolicy
  import opened MarkerPieces
  import opened RepeatRuns
  import HtmlNames

  /** The cut for repeated tags in the text that is left to the reply, for every split. */
  lemma RepeatsAreCut(html: Names, limit: nat, fragments: seq<string>)
    requires limit > 0
    ensures var before, cut := BeforeMarker(Join(fragments)), CutAfter(html, limit, FORWARDING, fragments);
      && (Repeats(html, before, limit, 512) ==> cut == CutRepeatLoop)
      && (cut == CutRepeatLoop ==> Repeats(html, before, limit, 513))
  {
    var before := BeforeMarker(Join(fragments));
    CutBounds(html, limit, fragments);
    FewerCutsMoreLoops(html, before, limit, FreeCuts(before), Everywhere(before));
    if Repeats(html, before, limit, 512) {
      RepeatsIsLoop(html, before, limit, Everywhere(before), 512);
    }
    if HasLoop(html, before, limit, {}) {
      LoopIsRepeats(html, before, limit, {}, 513);
    }
  }

  lemma BeforeIs(before: string, marker: string, after: string)
    requires EqualFold(marker, TOOL_ROLE_MARKER) && NoMatchBefore(before + marker, |before|, TOOL_ROLE_MARKER)
    ensures var text := before + (marker + after);
      BeforeMarker(text) == before && Occurs(text, TOOL_ROLE_MARKER) && Safe(text, TOOL_ROLE_MARKER) == |before|
  {
    var text := before + (marker + after);
    assert text == before + marker + after;
    FirstIsSeam(before, marker, after, TOOL_ROLE_MARKER);
    FirstMatchIs(text, 0, |before|, TOOL_ROLE_MARKER);
  }

  /** A text with the role marker, in any case: the reply ends before its first occurrence, or earlier at a
      repetition. */
  lemma MarkerIsCut(html: Names, limit: nat, before: string, marker: string, after: string, fragments: seq<string>)
    requires limit > 0 && EqualFold(marker, "[Tool]:") && NoMatchBefore(before + marker, |before|, "[Tool]:")
    requires Join(fragments) == before + (marker + after)
    ensures var cut, out := CutAfter(html, limit, FORWARDING, fragments),
        Forwarded(html, limit, FORWARDING, fragments);
      && (Repeats(html, before, limit, 512) ==> cut == CutRepeatLoop)
      && (cut == CutRepeatLoop ==> Repeats(html, before, limit, 513) && out <= before)
      && (cut != CutRepeatLoop ==> cut == CutToolRoleMarker && out == before)
  {
    BeforeIs(before, marker, after);
    RepeatsAreCut(html, limit, fragments);
    PolicyVerdict(html, limit, fragments);
    assert (before + (marker + after))[..|before|] == before;
  }

  /** A text without it: nothing is cut but a repetition, and all is forwarded but a suffix that may yet become the
      marker, the longest such. */
  lemma NoMarkerNoCut(html: Names, limit: nat, fragments: seq<string>) returns (held: string)
    requires limit > 0 && !Occurs(Join(fragments), "[Tool]:")
    ensures var text, cut, out := Join(fragments), CutAfter(html, limit, FORWARDING, fragments),
        Forwarded(html, limit, FORWARDING, fragments);
      && (Repeats(html, text, limit, 512) ==> cut == CutRepeatLoop)
      && (cut == CutRepeatLoop ==> Repeats(html, text, limit, 513))
      && (cut != CutRepeatLoop ==> cut == CutNone && text == out + held)
      && |held| < 7 && EqualFold(held, "[Tool]:"[..|held|])
      && forall r | |held| < r < 7 && r <= |text| :: !EqualFold(text[|text| - r..], "[Tool]:"[..r])
  {
    var text := Join(fragments);
    FirstMatchIsFirst(text, 0, TOOL_ROLE_MARKER);
    assert FirstMatch(text, 0, TOOL_ROLE_MARKER) == |text| && text[..|text|] == text;
    RepeatsAreCut(html, limit, fragments);
    PolicyVerdict(html, limit, fragments);
    var h := HoldStart(text, 0, TOOL_ROLE_MARKER);
    held := text[h..];
    HeldWindow(text, |held|, TOOL_ROLE_MARKER);
    forall r | |held| < r < 7 && r <= |text| ensures !EqualFold(text[|text| - r..], "[Tool]:"[..r]) {
      HeldWindow(text, r, TOOL_ROLE_MARKER);
    }
  }

  // ---------------------------------------------------------------- with the threshold and names of the source

  lemma {:induction false} LowerNameIs(name: string, i: nat)
    requires i <= |name| && forall k | 0 <= k < |name| :: name[k] < '\U{80}'
    ensures |HtmlNames.LowerName(name, i)| == |name| - i
    ensures forall k | i <= k < |name| :: HtmlNames.LowerName(name, i)[k - i] == Lower(name[k])
    decreases |name| - i
  {
    if i < |name| {
      LowerOne(name, i);
      LowerNameIs(name, i + 1);
    }
  }

  lemma LowerOne(name: string, i: nat)
    requires i < |name| && name[i] < '\U{80}'
    ensures HtmlNames.LowerName(name, i) == [Lower(name[i])] + HtmlNames.LowerName(name, i + 1)
  {
    assert i + 3 <= |name| ==> name[i..i + 3][0] == name[i];
    assert i + 2 <= |name| ==> name[i..i + 2][0] == name[i];
  }

  lemma ParameterIsNotHtml()
    ensures !HtmlNames.IsHtmlName("parameter")
  {
    LowerNameIs("parameter", 0);
    var lower := HtmlNames.LowerName("parameter", 0);
    assert |lower| == 9 && lower[0] == 'p' && lower[2] == 'r';
    NoElementSpelledSo(lower);
  }

  lemma NoElementSpelledSo(name: string)
    requires |name| == 9 && name[0] == 'p' && name[2] == 'r'
    ensures !HtmlNames.IsHtmlElement(name)
  {
  }

  lemma {:induction false} TimesHasNoBracket(s: string, n: nat)
    requires NoBracket(s)
    ensures NoBracket(Times(s, n))
  {
    if n > 0 {
      TimesHasNoBracket(s, n - 1);
    }
  }

  /** A closing tag that is not HTML, as often as the threshold, is cut however the stream is split. */
  lemma RepeatedTagIsCut(html: Names, limit: nat, name: string, gap: string, fragments: seq<string>)
    requires limit > 0 && IsName(name) && |name| <= 509 && !html(name) && IsGap(gap) && NoBracket(name)
    requires Join(fragments) == Times("</" + name + ">" + gap, limit)
    ensures CutAfter(html, limit, FORWARDING, fragments) == CutRepeatLoop
  {
    GapHasNoBracket(gap);
    TimesRepeats(html, name, gap, limit);
    TimesHasNoBracket("</" + name + ">" + gap, limit);
    NothingHeldWithoutBracket(Join(fragments));
    RepeatsAreCut(html, limit, fragments);
  }

  lemma GapHasNoBracket(gap: string)
    requires IsGap(gap)
    ensures NoBracket(gap)
  {
    forall i | 0 <= i < |gap| ensures gap[i] != '[' {
      assert gap[i] in gap;
      SeparatorIsListed(gap[i]);
    }
  }

  /** Ten closing tags of a parameter, each on its own line. */
  lemma TenParameterTagsAreCut(fragments: seq<string>)
    requires Join(fragments) == Times("</parameter>\n", DEFAULT_THRESHOLD)
    ensures CutAfter(HtmlNames.IsHtmlName, DEFAULT_THRESHOLD, FORWARDING, fragments) == CutRepeatLoop
    ensures DEFAULT_THRESHOLD == 10
  {
    ParameterIsNotHtml();
    assert "</" + "parameter" + ">" + "\n" == "</parameter>\n";
    RepeatedTagIsCut(HtmlNames.IsHtmlName, DEFAULT_THRESHOLD, "parameter", "\n", fragments);
  }
}
