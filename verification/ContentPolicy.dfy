/** The ordered cut rules of internal/sse/content_policy.go: the repetition guard behind the role guard. */
module ContentPolicy {

  import opened FoldText
  import opened RepeatGuard
  import opened ToolRoleGuard
  import HtmlNames

  datatype CutReason = CutNone | CutRepeatLoop | CutToolRoleMarker

  datatype Policy = Policy(repeat: Guard, toolRole: Role, cut: CutReason)

  const FORWARDING := Policy(START, QUIET, CutNone)

  /** What one fragment releases and the policy it leaves. */
  function PolicyFeed(html: Names, limit: nat, p: Policy, text: string): (r: (string, Policy))
    requires limit > 0 && p.repeat.run < limit
    ensures r.1.repeat.run < limit
  {
    if p.cut != CutNone then ("", p)
    else
      var (kept, role) := RoleFeed(TOOL_ROLE_MARKER, p.toolRole, text);
      var repeat := FeedStep(html, limit, p.repeat, kept);
      (kept, Policy(repeat, role, if repeat.tripped then CutRepeatLoop
                                  else if role.tripped then CutToolRoleMarker
                                  else CutNone))
  }

  /** Everything forwarded for a stream of fragments. */
  function Forwarded(html: Names, limit: nat, p: Policy, fragments: seq<string>): string
    requires limit > 0 && p.repeat.run < limit
    decreases |fragments|
  {
    if fragments == [] then ""
    else
      var (kept, next) := PolicyFeed(html, limit, p, fragments[0]);
      kept + Forwarded(html, limit, next, fragments[1..])
  }

  /** The cut reported after the stream. */
  function CutAfter(html: Names, limit: nat, p: Policy, fragments: seq<string>): CutReason
    requires limit > 0 && p.repeat.run < limit
    decreases |fragments|
  {
    if fragments == [] then p.cut
    else CutAfter(html, limit, PolicyFeed(html, limit, p, fragments[0]).1, fragments[1..])
  }

  class ContentPolicy {
    const repeat: RepeatLoopGuard
    const toolRole: ToolRoleMarkerGuard
    var cut: CutReason

    ghost predicate Valid()
      reads this, repeat, toolRole
    {
      repeat.Valid()
    }

    ghost function State(): Policy
      reads this, repeat, toolRole
    {
      Policy(repeat.State(), toolRole.State(), cut)
    }

    constructor ()
      ensures Valid() && State() == FORWARDING && fresh(repeat) && fresh(toolRole)
      ensures repeat.html == HtmlNames.IsHtmlName && repeat.Limit() == DEFAULT_THRESHOLD
    {
      repeat := new RepeatLoopGuard(HtmlNames.IsHtmlName, 0);
      toolRole := new ToolRoleMarkerGuard();
      cut := CutNone;
    }

    method Feed(text: string) returns (kept: string)
      requires Valid()
      modifies this, repeat, toolRole
      ensures Valid()
      ensures (kept, State()) == PolicyFeed(repeat.html, repeat.Limit(), old(State()), text)
    {
      if cut != CutNone {
        return "";
      }
      kept := toolRole.Feed(text);
      var roleCut := toolRole.tripped;
      if kept != "" {
        var _ := repeat.Feed(kept);
      }
      if repeat.tripped {
        cut := CutRepeatLoop;
      } else if roleCut {
        cut := CutToolRoleMarker;
      }
    }
  }

  // ---------------------------------------------------------------- the two guards in sequence

  /** After the marker nothing is released. */
  lemma {:induction false} NothingAfterMarker(html: Names, limit: nat, g: Guard, role: Role, fragments: seq<string>)
    requires limit > 0 && g.run < limit && role.tripped
    ensures var pieces := Kept(TOOL_ROLE_MARKER, role, fragments);
      Join(pieces) == "" && FeedAll(html, limit, g, pieces) == g
    ensures RoleAfter(TOOL_ROLE_MARKER, role, fragments) == role
    decreases |fragments|
  {
    if fragments != [] {
      NothingAfterMarker(html, limit, g, role, fragments[1..]);
      assert Kept(TOOL_ROLE_MARKER, role, fragments)[1..] == Kept(TOOL_ROLE_MARKER, role, fragments[1..]);
    }
  }

  lemma {:induction false} CutStays(html: Names, limit: nat, p: Policy, fragments: seq<string>)
    requires limit > 0 && p.repeat.run < limit && p.cut != CutNone
    ensures CutAfter(html, limit, p, fragments) == p.cut && Forwarded(html, limit, p, fragments) == ""
    decreases |fragments|
  {
    if fragments != [] {
      CutStays(html, limit, p, fragments[1..]);
    }
  }

  function Verdict(repeat: Guard, role: Role): CutReason {
    if repeat.tripped then CutRepeatLoop else if role.tripped then CutToolRoleMarker else CutNone
  }

  /** The policy reports what the two guards would report run one after the other over the whole stream,
      the repetition guard reading what the role guard releases. */
  lemma {:induction false} PolicyIsPipeline(html: Names, limit: nat, p: Policy, fragments: seq<string>)
    requires limit > 0 && p.repeat.run < limit && p.cut == CutNone && !p.repeat.tripped && !p.toolRole.tripped
    ensures var pieces := Kept(TOOL_ROLE_MARKER, p.toolRole, fragments);
      var cut := CutAfter(html, limit, p, fragments);
      && cut == Verdict(FeedAll(html, limit, p.repeat, pieces), RoleAfter(TOOL_ROLE_MARKER, p.toolRole, fragments))
      && Forwarded(html, limit, p, fragments) <= Join(pieces)
      && (cut != CutRepeatLoop ==> Forwarded(html, limit, p, fragments) == Join(pieces))
    decreases |fragments|
  {
    if fragments != [] {
      var (kept, next) := PolicyFeed(html, limit, p, fragments[0]);
      var later := Kept(TOOL_ROLE_MARKER, next.toolRole, fragments[1..]);
      assert Kept(TOOL_ROLE_MARKER, p.toolRole, fragments) == [kept] + later;
      assert ([kept] + later)[1..] == later;
      if next.repeat.tripped {
        TrippedStays(html, limit, next.repeat, later);
        CutStays(html, limit, next, fragments[1..]);
      } else if next.toolRole.tripped {
        NothingAfterMarker(html, limit, next.repeat, next.toolRole, fragments[1..]);
        CutStays(html, limit, next, fragments[1..]);
      } else {
        PolicyIsPipeline(html, limit, next, fragments[1..]);
      }
    }
  }

  // ---------------------------------------------------------------- the held suffix holds no loop

  lemma {:induction false} FirstAngleInHead(s: string, h: nat, j: nat)
    requires j <= h <= |s|
    ensures FirstAngle(s[..h], j) == if FirstAngle(s, j) < h then FirstAngle(s, j) else h
    decreases h - j
  {
    if j < h {
      FirstAngleInHead(s, h, j + 1);
    }
  }

  lemma {:induction false} NameEndInHead(s: string, h: nat, j: nat, e: nat)
    requires j <= e <= h <= |s|
    ensures NameEnd(s[..h], j, e) == NameEnd(s, j, e)
    decreases e - j
  {
    if j < e {
      NameEndInHead(s, h, j + 1, e);
    }
  }

  predicate NoTagCloses(s: string, h: nat) {
    h <= |s| && forall k | h <= k < |s| :: s[k] != '>'
  }

  lemma TagInPrefix(html: Names, s: string, h: nat, i: nat, cuts: set<nat>)
    requires NoTagCloses(s, h)
    ensures TagAt(html, s, i, 0, cuts) <==> TagAt(html, s[..h], i, 0, cuts)
    ensures TagAt(html, s, i, 0, cuts) ==> TagEnd(s, i) == TagEnd(s[..h], i)
  {
    if OpensAt(s, i) && i + 2 < h {
      FirstAngleInHead(s, h, i + 3);
      var g := FirstAngle(s, i + 3);
      if g < h {
        NameEndInHead(s, h, i + 2, g);
        var n := NameEnd(s, i + 2, g);
        assert s[..h][i + 2..n] == s[i + 2..n];
      }
    }
  }

  lemma {:induction false} SkipInPrefix(s: string, h: nat, i: nat)
    requires i <= h <= |s|
    ensures SkipSeparators(s[..h], i) == if SkipSeparators(s, i) < h then SkipSeparators(s, i) else h
    decreases h - i
  {
    if i < h {
      SkipInPrefix(s, h, i + 1);
    }
  }

  lemma {:induction false} ChainInPrefix(html: Names, s: string, h: nat, i: nat, n: nat, cuts: set<nat>)
    requires NoTagCloses(s, h) && i <= h
    ensures Chain(html, s, i, n, 0, cuts) <==> Chain(html, s[..h], i, n, 0, cuts)
    decreases n
  {
    if n > 0 {
      SkipInPrefix(s, h, i);
      var p := SkipSeparators(s, i);
      TagInPrefix(html, s, h, p, cuts);
      TagInPrefix(html, s, h, SkipSeparators(s[..h], i), cuts);
      if TagAt(html, s, p, 0, cuts) {
        ChainInPrefix(html, s, h, TagEnd(s, p), n - 1, cuts);
      }
    }
  }

  lemma LoopInPrefix(html: Names, s: string, h: nat, limit: nat, cuts: set<nat>)
    requires NoTagCloses(s, h)
    ensures HasLoop(html, s, limit, cuts) <==> HasLoop(html, s[..h], limit, cuts)
  {
    forall p | 0 <= p < |s|
      ensures TagAt(html, s, p, 0, cuts) <==> TagAt(html, s[..h], p, 0, cuts)
      ensures p <= h ==> (Chain(html, s, p, limit, 0, cuts) <==> Chain(html, s[..h], p, limit, 0, cuts))
    {
      TagInPrefix(html, s, h, p, cuts);
      if p <= h {
        ChainInPrefix(html, s, h, p, limit, cuts);
      }
    }
    if HasLoop(html, s, limit, cuts) {
      var p :| 0 <= p < |s| && TagAt(html, s, p, 0, cuts) && Chain(html, s, p, limit, 0, cuts);
      assert TagAt(html, s[..h], p, 0, cuts) && p < h;
    }
  }

  /** The text the reply keeps: everything before the first role marker. */
  function BeforeMarker(text: string): string {
    text[..FirstMatch(text, 0, TOOL_ROLE_MARKER)]
  }

  lemma HeldSuffixClosesNothing(s: string)
    requires FirstMatch(s, 0, TOOL_ROLE_MARKER) == |s|
    ensures NoTagCloses(s, HoldStart(s, 0, TOOL_ROLE_MARKER))
  {
    var h := HoldStart(s, 0, TOOL_ROLE_MARKER);
    forall k | h <= k < |s| ensures s[k] != '>' {
      assert Lower(s[h + (k - h)]) == Lower(TOOL_ROLE_MARKER[k - h]);
    }
  }

  lemma ReleasedLoops(html: Names, text: string, limit: nat, cuts: set<nat>)
    ensures HasLoop(html, text[..Safe(text, TOOL_ROLE_MARKER)], limit, cuts) <==>
      HasLoop(html, BeforeMarker(text), limit, cuts)
  {
    if FirstMatch(text, 0, TOOL_ROLE_MARKER) == |text| {
      HeldSuffixClosesNothing(text);
      LoopInPrefix(html, text, HoldStart(text, 0, TOOL_ROLE_MARKER), limit, cuts);
      assert text[..|text|] == text;
    }
  }

  // ---------------------------------------------------------------- any fragmentation

  /** Where the pieces end that the role guard passes on to the repetition guard. */
  function PieceEnds(fragments: seq<string>): set<nat> {
    Boundaries(0, Kept(TOOL_ROLE_MARKER, QUIET, fragments))
  }

  /** However a text is split: the cut is the repetition exactly when the text before the first role marker has a
      loop, cut where the released pieces end, and otherwise the role marker exactly when it occurs. Without a
      repetition cut the reply is the text before the marker, or all but the longest suffix that could still
      become one. */
  lemma PolicyVerdict(html: Names, limit: nat, fragments: seq<string>)
    requires limit > 0
    ensures var text := Join(fragments);
      var cut := CutAfter(html, limit, FORWARDING, fragments);
      var out := Forwarded(html, limit, FORWARDING, fragments);
      var released := text[..Safe(text, TOOL_ROLE_MARKER)];
      && (cut == CutRepeatLoop <==> HasLoop(html, BeforeMarker(text), limit, PieceEnds(fragments)))
      && (cut != CutRepeatLoop ==> (cut == if Occurs(text, TOOL_ROLE_MARKER) then CutToolRoleMarker else CutNone))
      && out <= released && (cut != CutRepeatLoop ==> out == released)
  {
    var text := Join(fragments);
    var pieces := Kept(TOOL_ROLE_MARKER, QUIET, fragments);
    PolicyIsPipeline(html, limit, FORWARDING, fragments);
    RoleGuardIgnoresSplits(fragments, TOOL_ROLE_MARKER);
    VerdictIsExact(html, limit, pieces);
    ReleasedLoops(html, text, limit, PieceEnds(fragments));
  }

  /** A piece ends where some beginning of the text may be forwarded up to. */
  lemma {:induction false} PieceEndIsSafe(s: string, fragments: seq<string>, m: string, b: nat) returns (n: nat)
    requires m != "" && b in Boundaries(Safe(s, m), Kept(m, Reading(s, m), fragments))
    ensures |s| <= n <= |s + Join(fragments)| && b == Safe((s + Join(fragments))[..n], m)
    decreases |fragments|
  {
    var x, rest, text := fragments[0], fragments[1..], s + Join(fragments);
    FirstPieceEnd(s, fragments, m);
    assert text == (s + x) + Join(rest);
    if b == Safe(s + x, m) {
      n := |s + x|;
      assert text[..n] == s + x;
    } else {
      n := PieceEndIsSafe(s + x, rest, m, b);
    }
  }

  lemma PieceEndOf(fragments: seq<string>, m: string, b: nat) returns (n: nat)
    requires m != "" && b in Boundaries(0, Kept(m, QUIET, fragments))
    ensures n <= |Join(fragments)| && b == Safe(Join(fragments)[..n], m)
  {
    assert Reading("", m) == QUIET;
    n := PieceEndIsSafe("", fragments, m, b);
    assert "" + Join(fragments) == Join(fragments);
  }

  /** The first piece ends where s and the first fragment may be forwarded up to, the others as if read after it. */
  lemma FirstPieceEnd(s: string, fragments: seq<string>, m: string)
    requires m != "" && fragments != []
    ensures var next := s + fragments[0];
      Boundaries(Safe(s, m), Kept(m, Reading(s, m), fragments)) ==
      {Safe(next, m)} + Boundaries(Safe(next, m), Kept(m, Reading(next, m), fragments[1..]))
  {
    var next := s + fragments[0];
    var first := FirstKept(s, fragments, m);
    var pieces, later := Kept(m, Reading(s, m), fragments), Kept(m, Reading(next, m), fragments[1..]);
    FirstBoundary(Safe(s, m), Safe(next, m), pieces, first, later);
  }

  lemma FirstBoundary(at: nat, end: nat, pieces: seq<string>, first: string, later: seq<string>)
    requires pieces == [first] + later && at + |first| == end
    ensures Boundaries(at, pieces) == {end} + Boundaries(end, later)
  {
    assert pieces[1..] == later;
  }

  /** Fed one character at a time, a piece ends at every such place. */
  lemma {:induction false} SinglesEndEverywhere(s: string, t: string, m: string, n: nat)
    requires m != "" && |s| < n <= |s + t|
    ensures Safe((s + t)[..n], m) in Boundaries(Safe(s, m), Kept(m, Reading(s, m), Singles(t)))
    decreases |t|
  {
    var x, rest := [t[0]], t[1..];
    FirstPieceEnd(s, Singles(t), m);
    assert Singles(t)[1..] == Singles(rest) && s + t == (s + x) + rest;
    if n == |s + x| {
      assert (s + t)[..n] == s + x;
    } else {
      SinglesEndEverywhere(s + x, rest, m, n);
    }
  }

  /** The positions at which the role guard holds nothing back: it has then released all that it has read. */
  ghost function FreeCuts(s: string): set<nat> {
    set g | 0 < g < |s| && HoldStart(s[..g], 0, TOOL_ROLE_MARKER) == g
  }

  lemma HeldBeginsMarker(s: string)
    requires HoldStart(s, 0, TOOL_ROLE_MARKER) < |s|
    ensures Lower(s[HoldStart(s, 0, TOOL_ROLE_MARKER)]) == '['
  {
    var h := HoldStart(s, 0, TOOL_ROLE_MARKER);
    assert Lower(s[h + 0]) == Lower(TOOL_ROLE_MARKER[0]);
  }

  /** No split ends a piece just before a '>' while the role guard holds something back there. */
  lemma EndsBeforeCloseAreFree(fragments: seq<string>, b: nat)
    requires b in PieceEnds(fragments) && 0 < b < |BeforeMarker(Join(fragments))| && Join(fragments)[b] == '>'
    ensures b in FreeCuts(BeforeMarker(Join(fragments)))
  {
    var n := PieceEndOf(fragments, TOOL_ROLE_MARKER, b);
    SafeBeforeCloseIsFree(Join(fragments), n, b);
  }

  lemma SafeBeforeCloseIsFree(text: string, n: nat, b: nat)
    requires n <= |text| && b == Safe(text[..n], TOOL_ROLE_MARKER)
    requires 0 < b < FirstMatch(text, 0, TOOL_ROLE_MARKER) && text[b] == '>'
    ensures n == b && b in FreeCuts(BeforeMarker(text))
  {
    var u := text[..n];
    assert u + text[n..] == text;
    if FirstMatch(u, 0, TOOL_ROLE_MARKER) < |u| {
      FirstMatchStays(u, text[n..], TOOL_ROLE_MARKER);
      assert false;
    }
    if b < n {
      HeldBeginsMarker(u);
      assert false;
    }
    assert BeforeMarker(text)[..b] == u;
  }

  /** Fed one character at a time, every free position before the marker ends a piece. */
  lemma FreeCutsAreEnds(text: string, g: nat)
    requires g in FreeCuts(BeforeMarker(text))
    ensures g in PieceEnds(Singles(text))
  {
    var m, u := TOOL_ROLE_MARKER, text[..g];
    assert u == BeforeMarker(text)[..g] && u + text[g..] == text;
    if FirstMatch(u, 0, m) < |u| {
      FirstMatchStays(u, text[g..], m);
      assert false;
    }
    assert Reading("", m) == QUIET && "" + text == text;
    SinglesEndEverywhere("", text, m, g);
  }

  ghost predicate SameCutForAllSplits(html: Names, limit: nat, text: string)
    requires limit > 0
  {
    forall fragments, others | Join(fragments) == text && Join(others) == text ::
      CutAfter(html, limit, FORWARDING, fragments) == CutAfter(html, limit, FORWARDING, others)
  }

  /** All splits of a text get the same cut exactly when a loop before the marker is one also without the tags of
      513 characters before whose '>' the role guard holds nothing back. */
  lemma CutIgnoresSplitsIff(html: Names, limit: nat, text: string)
    requires limit > 0
    ensures SameCutForAllSplits(html, limit, text) <==>
            (HasLoop(html, BeforeMarker(text), limit, {}) ==>
              HasLoop(html, BeforeMarker(text), limit, FreeCuts(BeforeMarker(text))))
  {
    var before := BeforeMarker(text);
    forall fragments | Join(fragments) == text
      ensures HasLoop(html, before, limit, FreeCuts(before)) ==>
        CutAfter(html, limit, FORWARDING, fragments) == CutRepeatLoop
      ensures CutAfter(html, limit, FORWARDING, fragments) == CutRepeatLoop ==> HasLoop(html, before, limit, {})
    {
      CutBounds(html, limit, fragments);
    }
    forall fragments, others | Join(fragments) == text && Join(others) == text &&
        (HasLoop(html, before, limit, {}) ==> HasLoop(html, before, limit, FreeCuts(before)))
      ensures CutAfter(html, limit, FORWARDING, fragments) == CutAfter(html, limit, FORWARDING, others)
    {
      PolicyVerdict(html, limit, fragments);
      PolicyVerdict(html, limit, others);
    }
    WholeCut(html, limit, text);
    SinglesCut(html, limit, text);
    JoinSingles(text);
    assert Join([text]) == text;
  }

  /** Every split reports the loops that are certain, and none reports more than the possible ones. */
  lemma CutBounds(html: Names, limit: nat, fragments: seq<string>)
    requires limit > 0
    ensures var before, cut := BeforeMarker(Join(fragments)), CutAfter(html, limit, FORWARDING, fragments);
      && (HasLoop(html, before, limit, FreeCuts(before)) ==> cut == CutRepeatLoop)
      && (cut == CutRepeatLoop ==> HasLoop(html, before, limit, {}))
  {
    var before, ends := BeforeMarker(Join(fragments)), PieceEnds(fragments);
    PolicyVerdict(html, limit, fragments);
    forall g | g in ends && 0 < g < |before| && before[g] == '>' ensures g in FreeCuts(before) {
      EndsBeforeCloseAreFree(fragments, g);
    }
    FewerCutsMoreLoops(html, before, limit, ends, FreeCuts(before));
    FewerCutsMoreLoops(html, before, limit, {}, ends);
  }

  /** Fed whole, the text is judged with all tags up to 513 characters. */
  lemma WholeCut(html: Names, limit: nat, text: string)
    requires limit > 0
    ensures CutAfter(html, limit, FORWARDING, [text]) == CutRepeatLoop <==> HasLoop(html, BeforeMarker(text), limit, {})
  {
    assert Join([text]) == text;
    var pieces := Kept(TOOL_ROLE_MARKER, QUIET, [text]);
    PolicyIsPipeline(html, limit, FORWARDING, [text]);
    RoleGuardIgnoresSplits([text], TOOL_ROLE_MARKER);
    assert [text][1..] == [] && |pieces| == 1 && Join(pieces) == pieces[0] + "" == pieces[0] && pieces == [pieces[0]];
    WholeTextVerdict(html, limit, pieces[0]);
    ReleasedLoops(html, text, limit, {});
  }

  /** Fed one character at a time, without the tags before whose '>' nothing is held back. */
  lemma SinglesCut(html: Names, limit: nat, text: string)
    requires limit > 0
    ensures CutAfter(html, limit, FORWARDING, Singles(text)) == CutRepeatLoop <==>
            HasLoop(html, BeforeMarker(text), limit, FreeCuts(BeforeMarker(text)))
  {
    var before, ends := BeforeMarker(text), PieceEnds(Singles(text));
    JoinSingles(text);
    CutBounds(html, limit, Singles(text));
    PolicyVerdict(html, limit, Singles(text));
    forall g | g in FreeCuts(before) ensures g in ends {
      FreeCutsAreEnds(text, g);
    }
    FewerCutsMoreLoops(html, before, limit, FreeCuts(before), ends);
  }

  /** In particular all splits get the same cut when no tag before the marker has its '>' exactly 512 after
      its '<'. */
  lemma CutIgnoresSplits(html: Names, limit: nat, text: string)
    requires limit > 0
    requires var before := BeforeMarker(text);
      forall i | 0 <= i < |before| && TagAt(html, before, i, 0, {}) :: TagAt(html, before, i, 0, Everywhere(before))
    ensures SameCutForAllSplits(html, limit, text)
  {
    var before := BeforeMarker(text);
    NoLongTagNoDifference(html, limit, before);
    FragmentationIrrelevantIff(html, limit, before);
    FewerCutsMoreLoops(html, before, limit, FreeCuts(before), Everywhere(before));
    CutIgnoresSplitsIff(html, limit, text);
  }

  // ---------------------------------------------------------------- why the condition is needed

  predicate NoBracket(s: string) {
    forall i | 0 <= i < |s| :: s[i] != '['
  }

  lemma {:induction false} LongTagsHaveNoBracket(n: nat)
    ensures NoBracket(LongTags(n))
  {
    if n > 0 {
      LongTagsHaveNoBracket(n - 1);
      assert NoBracket(LONG_TAG);
    }
  }

  lemma NothingHeldWithoutBracket(s: string)
    requires NoBracket(s)
    ensures HoldStart(s, 0, TOOL_ROLE_MARKER) == |s| && BeforeMarker(s) == s
  {
    if HoldStart(s, 0, TOOL_ROLE_MARKER) < |s| {
      HeldBeginsMarker(s);
      assert false;
    }
    FirstMatchIsFirst(s, 0, TOOL_ROLE_MARKER);
    if FirstMatch(s, 0, TOOL_ROLE_MARKER) < |s| {
      MatchBeginsMarker(s, FirstMatch(s, 0, TOOL_ROLE_MARKER));
      assert false;
    }
  }

  lemma MatchBeginsMarker(s: string, i: nat)
    requires i < |s| && MatchesAt(s, i, TOOL_ROLE_MARKER)
    ensures Lower(s[i]) == '['
  {
    assert Lower(s[i + 0]) == Lower(TOOL_ROLE_MARKER[0]);
  }

  lemma FreeWithoutBracket(s: string)
    requires NoBracket(s)
    ensures forall g | 0 < g < |s| :: g in FreeCuts(s)
  {
    forall g | 0 < g < |s| ensures HoldStart(s[..g], 0, TOOL_ROLE_MARKER) == g {
      NothingHeldWithoutBracket(s[..g]);
    }
  }

  lemma LongTagsCutDependsOnSplit(html: Names, limit: nat)
    requires !html(Letters(510)) && limit > 0
    ensures !SameCutForAllSplits(html, limit, LongTags(limit))
  {
    var text := LongTags(limit);
    LongTagsDependOnSplit(html, limit);
    LongTagsHaveNoBracket(limit);
    NothingHeldWithoutBracket(text);
    FreeWithoutBracket(text);
    FewerCutsMoreLoops(html, text, limit, Everywhere(text), FreeCuts(text));
    CutIgnoresSplitsIff(html, limit, text);
  }

  /** The policy as the source sets it up, and ten tags of 513 characters: the cut depends on the split. */
  lemma TenLongTagsDependOnSplit()
    ensures !SameCutForAllSplits(HtmlNames.IsHtmlName, DEFAULT_THRESHOLD, LongTags(DEFAULT_THRESHOLD))
  {
    HtmlNames.LongNameIsNotHtml(Letters(510));
    LongTagsCutDependsOnSplit(HtmlNames.IsHtmlName, DEFAULT_THRESHOLD);
  }
}
