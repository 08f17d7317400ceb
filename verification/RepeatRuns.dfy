/** What the guard of internal/sse/repeat_guard.go looks for, written out as text: closing tags with nothing but
    space between them. */
module RepeatRuns {

  import opened Basics
  import opened FoldText
  import opened RepeatGuard

  const GAPS := " \t\n\r"

  predicate IsGap(gap: string) {
    forall c | c in gap :: c in GAPS
  }

  predicate IsName(name: string) {
    name != "" && forall c | c in name :: c !in GAPS && c != '<' && c != '>'
  }

  /** What may follow the name inside the tag. */
  predicate IsRest(rest: string) {
    (rest != "" ==> rest[0] in GAPS) && forall c | c in rest :: c != '<' && c != '>'
  }

  function TagText(name: string, rest: string): string {
    "</" + name + rest + ">"
  }

  datatype Closing = Closing(gap: string, name: string, rest: string)

  /** A closing tag of at most max characters, after a gap. */
  predicate IsClosing(html: Names, t: Closing, max: nat) {
    IsGap(t.gap) && IsName(t.name) && IsRest(t.rest) && !html(t.name) && |TagText(t.name, t.rest)| <= max
  }

  predicate IsRun(html: Names, run: seq<Closing>, max: nat) {
    run == [] || (IsClosing(html, run[0], max) && IsRun(html, run[1..], max))
  }

  function RunText(run: seq<Closing>): string {
    if run == [] then "" else run[0].gap + (TagText(run[0].name, run[0].rest) + RunText(run[1..]))
  }

  /** Somewhere in the text limit closing tags follow one another. */
  ghost predicate Repeats(html: Names, s: string, limit: nat, max: nat) {
    exists p, run | 0 <= p <= |s| && |run| == limit && IsRun(html, run, max) :: RunText(run) <= s[p..]
  }

  lemma SeparatorIsListed(c: char)
    ensures IsSeparator(c) <==> c in GAPS
  {
    assert GAPS[0] == ' ' && GAPS[1] == '\t' && GAPS[2] == '\n' && GAPS[3] == '\r';
  }

  // ---------------------------------------------------------------- one tag

  lemma {:induction false} FirstAngleIs(s: string, j: nat, g: nat)
    requires j <= g < |s| && (s[g] == '<' || s[g] == '>') && forall k | j <= k < g :: s[k] != '<' && s[k] != '>'
    ensures FirstAngle(s, j) == g
    decreases g - j
  {
    if j < g {
      FirstAngleIs(s, j + 1, g);
    }
  }

  lemma {:induction false} NameEndIs(s: string, j: nat, n: nat, e: nat)
    requires j <= n <= e <= |s| && (n < e ==> IsSeparator(s[n])) && forall k | j <= k < n :: !IsSeparator(s[k])
    ensures NameEnd(s, j, e) == n
    decreases n - j
  {
    if j < n {
      NameEndIs(s, j + 1, n, e);
    }
  }

  /** The letters of a tag that stands in a text. */
  lemma TagLetters(s: string, i: nat, name: string, rest: string)
    requires i <= |s| && TagText(name, rest) <= s[i..] && IsName(name) && IsRest(rest)
    ensures var e, n := i + |TagText(name, rest)|, i + 2 + |name|;
      && e <= |s| && n < e && s[i] == '<' && s[i + 1] == '/' && s[e - 1] == '>' && s[i + 2..n] == name
      && (forall k | i + 2 <= k < e - 1 :: s[k] != '<' && s[k] != '>')
      && (forall k | i + 2 <= k < n :: !IsSeparator(s[k])) && (n < e - 1 ==> IsSeparator(s[n]))
  {
    var t := TagText(name, rest);
    LettersOfTag(t, name, rest);
    assert s[i..i + |t|] == t && s[i + 2..i + 2 + |name|] == t[2..2 + |name|];
    forall k | i <= k < i + |t| ensures s[k] == t[k - i] {
      assert s[i..i + |t|][k - i] == t[k - i];
    }
  }

  lemma LettersOfTag(t: string, name: string, rest: string)
    requires t == TagText(name, rest) && IsName(name) && IsRest(rest)
    ensures t[0] == '<' && t[1] == '/' && t[|t| - 1] == '>' && t[2..2 + |name|] == name
    ensures forall k | 2 <= k < |t| - 1 :: t[k] != '<' && t[k] != '>'
    ensures forall k | 2 <= k < 2 + |name| :: !IsSeparator(t[k])
    ensures 2 + |name| < |t| - 1 ==> IsSeparator(t[2 + |name|])
  {
    forall k | 2 <= k < |t| - 1
      ensures t[k] != '<' && t[k] != '>' && (k < 2 + |name| ==> !IsSeparator(t[k]))
    {
      if k < 2 + |name| {
        assert t[k] == name[k - 2] && name[k - 2] in name;
      } else {
        assert t[k] == rest[k - 2 - |name|] && rest[k - 2 - |name|] in rest;
      }
      SeparatorIsListed(t[k]);
    }
    if rest != "" {
      assert t[2 + |name|] == rest[0];
      SeparatorIsListed(rest[0]);
    }
  }

  /** Such a text is a tag to the guard, unless the name is HTML or the tag too long. */
  lemma TextIsTag(html: Names, s: string, i: nat, name: string, rest: string, off: nat, cuts: set<nat>)
    requires i <= |s| && TagText(name, rest) <= s[i..] && IsName(name) && IsRest(rest)
    ensures var t := |TagText(name, rest)|;
      && OpensAt(s, i) && i + t <= |s| && FirstAngle(s, i + 3) == i + t - 1
      && (TagAt(html, s, i, off, cuts) <==> !html(name) && t <= 513 && (t == 513 ==> off + i + 512 !in cuts))
  {
    TagLetters(s, i, name, rest);
    var e, n := i + |TagText(name, rest)|, i + 2 + |name|;
    assert !IsSeparator(s[i + 2]);
    FirstAngleIs(s, i + 3, e - 1);
    NameEndIs(s, i + 2, n, e - 1);
  }

  /** And every tag is such a text. */
  lemma TagIsText(html: Names, s: string, i: nat, off: nat, cuts: set<nat>) returns (name: string, rest: string)
    requires TagAt(html, s, i, off, cuts)
    ensures IsName(name) && IsRest(rest) && TagText(name, rest) <= s[i..] && !html(name)
    ensures |TagText(name, rest)| == TagEnd(s, i) - i <= 513
    ensures |TagText(name, rest)| == 513 ==> off + i + 512 !in cuts
  {
    var g := FirstAngle(s, i + 3);
    var n := NameEnd(s, i + 2, g);
    name, rest := s[i + 2..n], s[n..g];
    NoAngleBefore(s, i + 3);
    NoSeparatorBefore(s, i + 2, g);
    forall c ensures IsSeparator(c) <==> c in GAPS {
      SeparatorIsListed(c);
    }
    assert "</" + name + rest + ">" == s[i..g + 1];
  }

  lemma {:induction false} NoSeparatorBefore(s: string, j: nat, e: nat)
    requires j <= e <= |s|
    ensures forall k | j <= k < NameEnd(s, j, e) :: !IsSeparator(s[k])
    decreases e - j
  {
    if j < e && !IsSeparator(s[j]) {
      NoSeparatorBefore(s, j + 1, e);
    }
  }

  // ---------------------------------------------------------------- runs

  lemma {:induction false} SkipsGap(s: string, i: nat, gap: string)
    requires i <= |s| && IsGap(gap) && gap <= s[i..] && (i + |gap| < |s| ==> s[i + |gap|] !in GAPS)
    ensures SkipSeparators(s, i) == i + |gap|
    decreases |gap|
  {
    if i < |s| {
      SeparatorIsListed(s[i]);
    }
    if gap != "" {
      assert s[i] == gap[0] && gap[1..] <= s[i + 1..];
      SkipsGap(s, i + 1, gap[1..]);
    }
  }

  lemma {:induction false} SkippedIsGap(s: string, i: nat)
    requires i <= |s|
    ensures IsGap(s[i..SkipSeparators(s, i)])
    decreases |s| - i
  {
    if i < |s| && IsSeparator(s[i]) {
      SeparatorIsListed(s[i]);
      SkippedIsGap(s, i + 1);
      assert s[i..SkipSeparators(s, i)] == [s[i]] + s[i + 1..SkipSeparators(s, i + 1)];
    }
  }

  /** Where the parts of a run stand. */
  lemma FirstOfRun(s: string, i: nat, gap: string, tag: string, rest: string)
    requires i <= |s| && gap + (tag + rest) <= s[i..] && IsGap(gap) && tag != "" && tag[0] == '<'
    ensures var p := i + |gap|;
      && p + |tag| <= |s| && tag <= s[p..] && SkipSeparators(s, i) == p && rest <= s[p + |tag|..]
  {
    var p := i + |gap|;
    assert tag + rest <= s[i..][|gap|..] == s[p..];
    assert rest <= s[p..][|tag|..] == s[p + |tag|..];
    assert s[p] == tag[0];
    SkipsGap(s, i, gap);
  }

  /** Which tags count for these cuts: up to 512 characters everywhere, up to 513 where there is no cut. */
  predicate Counts(max: nat, cuts: set<nat>) {
    max <= 512 || (max == 513 && cuts == {})
  }

  lemma ClosingIsTag(html: Names, s: string, p: nat, t: Closing, tag: string, off: nat, cuts: set<nat>, max: nat)
    requires p <= |s| && IsClosing(html, t, max) && Counts(max, cuts) && tag == TagText(t.name, t.rest) && tag <= s[p..]
    ensures TagAt(html, s, p, off, cuts) && TagEnd(s, p) == p + |tag|
  {
    TextIsTag(html, s, p, t.name, t.rest, off, cuts);
  }

  lemma {:induction false} RunIsChain(html: Names, s: string, i: nat, run: seq<Closing>, text: string, off: nat,
                                      cuts: set<nat>, max: nat)
    requires i <= |s| && IsRun(html, run, max) && text == RunText(run) && text <= s[i..] && Counts(max, cuts)
    ensures Chain(html, s, i, |run|, off, cuts)
    decreases |run|
  {
    if run != [] {
      var p, e, rest, later := RunStep(html, s, i, run, text, off, cuts, max);
      RunIsChain(html, s, e, rest, later, off, cuts, max);
      ChainOneMore(html, s, i, p, |run|, off, cuts);
    }
  }

  lemma RunStep(html: Names, s: string, i: nat, run: seq<Closing>, text: string, off: nat, cuts: set<nat>, max: nat)
    returns (p: nat, e: nat, rest: seq<Closing>, later: string)
    requires i <= |s| && run != [] && IsRun(html, run, max) && text == RunText(run) && text <= s[i..]
    requires Counts(max, cuts)
    ensures p == SkipSeparators(s, i) && TagAt(html, s, p, off, cuts) && e == TagEnd(s, p)
    ensures |rest| == |run| - 1 && IsRun(html, rest, max)
    ensures e <= |s| && later <= s[e..] && later == RunText(rest)
  {
    var t, tag := run[0], TagText(run[0].name, run[0].rest);
    rest, later := run[1..], RunText(run[1..]);
    LettersOfTag(tag, t.name, t.rest);
    p, e := FirstIsTag(html, s, i, t, tag, later, off, cuts, max);
  }

  lemma ChainOneMore(html: Names, s: string, i: nat, p: nat, n: nat, off: nat, cuts: set<nat>)
    requires i <= |s| && p == SkipSeparators(s, i) && n > 0 && TagAt(html, s, p, off, cuts)
    requires Chain(html, s, TagEnd(s, p), n - 1, off, cuts)
    ensures Chain(html, s, i, n, off, cuts)
  {
  }

  lemma FirstIsTag(html: Names, s: string, i: nat, t: Closing, tag: string, rest: string, off: nat, cuts: set<nat>,
                   max: nat) returns (p: nat, e: nat)
    requires i <= |s| && IsClosing(html, t, max) && Counts(max, cuts) && tag == TagText(t.name, t.rest)
    requires tag != "" && tag[0] == '<' && t.gap + (tag + rest) <= s[i..]
    ensures p == SkipSeparators(s, i) && TagAt(html, s, p, off, cuts) && e == TagEnd(s, p)
    ensures e <= |s| && rest <= s[e..]
  {
    FirstOfRun(s, i, t.gap, tag, rest);
    p := i + |t.gap|;
    ClosingIsTag(html, s, p, t, tag, off, cuts, max);
    e := p + |tag|;
  }

  lemma {:induction false} ChainIsRun(html: Names, s: string, i: nat, n: nat, off: nat, cuts: set<nat>, max: nat)
    returns (run: seq<Closing>)
    requires i <= |s| && Chain(html, s, i, n, off, cuts)
    requires max == 513 || (max == 512 && forall c | off <= c <= off + |s| :: c in cuts)
    ensures |run| == n && IsRun(html, run, max) && RunText(run) <= s[i..]
    decreases n
  {
    if n == 0 {
      run := [];
    } else {
      var p := SkipSeparators(s, i);
      var name, rest := TagIsText(html, s, p, off, cuts);
      var e := TagEnd(s, p);
      var later := ChainIsRun(html, s, e, n - 1, off, cuts, max);
      var t := Closing(s[i..p], name, rest);
      SkippedIsGap(s, i);
      run := [t] + later;
      assert run[1..] == later;
      RunJoins(s, i, p, e, TagText(name, rest), RunText(later));
    }
  }

  lemma RunJoins(s: string, i: nat, p: nat, e: nat, tag: string, later: string)
    requires i <= p <= e <= |s| && tag <= s[p..] && |tag| == e - p && later <= s[e..]
    ensures s[i..p] + (tag + later) <= s[i..]
  {
    assert s[i..] == s[i..p] + (s[p..e] + s[e..]);
    assert tag == s[p..e];
  }

  lemma LoopIsRepeats(html: Names, s: string, limit: nat, cuts: set<nat>, max: nat)
    requires limit > 0 && HasLoop(html, s, limit, cuts)
    requires max == 513 || (max == 512 && forall c | 0 <= c <= |s| :: c in cuts)
    ensures Repeats(html, s, limit, max)
  {
    var p :| 0 <= p < |s| && TagAt(html, s, p, 0, cuts) && Chain(html, s, p, limit, 0, cuts);
    var run := ChainIsRun(html, s, p, limit, 0, cuts, max);
  }

  lemma RepeatsIsLoop(html: Names, s: string, limit: nat, cuts: set<nat>, max: nat)
    requires limit > 0 && Repeats(html, s, limit, max) && Counts(max, cuts)
    ensures HasLoop(html, s, limit, cuts)
  {
    var p, run :| 0 <= p <= |s| && |run| == limit && IsRun(html, run, max) && RunText(run) <= s[p..];
    RunIsChain(html, s, p, run, RunText(run), 0, cuts, max);
    var q := SkipSeparators(s, p);
    ChainAtTag(html, s, q, limit, 0, cuts);
  }

  /** Fed whole, a text trips the guard exactly when somewhere in it that many closing tags of at most 513 characters,
      none of them HTML, follow one another with nothing but space, tab and line ends between them. */
  lemma WholeTextTripsIff(html: Names, limit: nat, text: string)
    requires limit > 0
    ensures Trips(html, limit, [text]) <==> Repeats(html, text, limit, 513)
  {
    WholeTextVerdict(html, limit, text);
    if HasLoop(html, text, limit, {}) {
      LoopIsRepeats(html, text, limit, {}, 513);
    }
    if Repeats(html, text, limit, 513) {
      RepeatsIsLoop(html, text, limit, {}, 513);
    }
  }

  /** Fed one character at a time, with tags of at most 512 characters. */
  lemma SinglesTripIff(html: Names, limit: nat, text: string)
    requires limit > 0
    ensures Trips(html, limit, Singles(text)) <==> Repeats(html, text, limit, 512)
  {
    SinglesVerdict(html, limit, text);
    if HasLoop(html, text, limit, Everywhere(text)) {
      LoopIsRepeats(html, text, limit, Everywhere(text), 512);
    }
    if Repeats(html, text, limit, 512) {
      RepeatsIsLoop(html, text, limit, Everywhere(text), 512);
    }
  }

  /** Any split lies between the two. */
  lemma SplitTripsBetween(html: Names, limit: nat, fragments: seq<string>)
    requires limit > 0
    ensures Repeats(html, Join(fragments), limit, 512) ==> Trips(html, limit, fragments)
    ensures Trips(html, limit, fragments) ==> Repeats(html, Join(fragments), limit, 513)
  {
    var text := Join(fragments);
    VerdictBounds(html, limit, fragments);
    if Repeats(html, text, limit, 512) {
      RepeatsIsLoop(html, text, limit, Everywhere(text), 512);
    }
    if HasLoop(html, text, limit, {}) {
      LoopIsRepeats(html, text, limit, {}, 513);
    }
  }

  // ---------------------------------------------------------------- one tag again and again

  function Times(s: string, n: nat): string {
    if n == 0 then "" else s + Times(s, n - 1)
  }

  lemma {:induction false} TimesIsRun(html: Names, name: string, gap: string, n: nat, first: string)
    returns (run: seq<Closing>)
    requires IsName(name) && !html(name) && |name| <= 509 && IsGap(gap) && IsGap(first) && n > 0
    ensures |run| == n && IsRun(html, run, 512) && RunText(run) + gap == first + Times("</" + name + ">" + gap, n)
  {
    var tag := TagText(name, "");
    assert tag == "</" + name + ">";
    var t := Closing(first, name, "");
    if n == 1 {
      run := [t];
      assert run[1..] == [] && RunText(run) == first + (tag + "") == first + tag;
      assert Times(tag + gap, 1) == (tag + gap) + Times(tag + gap, 0) == tag + gap;
    } else {
      var later := TimesIsRun(html, name, gap, n - 1, gap);
      run := [t] + later;
      assert run[1..] == later;
      var rest := Times(tag + gap, n - 1);
      assert first + (tag + RunText(later)) + gap == first + (tag + (RunText(later) + gap)) ==
        first + (tag + (gap + rest)) == first + ((tag + gap) + rest);
    }
  }

  lemma TimesRepeats(html: Names, name: string, gap: string, n: nat)
    requires IsName(name) && !html(name) && |name| <= 509 && IsGap(gap) && n > 0
    ensures Repeats(html, Times("</" + name + ">" + gap, n), n, 512)
  {
    var text := Times("</" + name + ">" + gap, n);
    var run := TimesIsRun(html, name, gap, n, "");
    assert text[0..] == text == "" + text;
    assert RunText(run) <= RunText(run) + gap;
  }

  /** A tag of an element that is not HTML, repeated as often as the threshold, trips the guard however the text is
      split, whatever space stands between the tags. */
  lemma RepeatedTagTrips(html: Names, limit: nat, name: string, gap: string, fragments: seq<string>)
    requires limit > 0 && IsName(name) && |name| <= 509 && !html(name) && IsGap(gap)
    requires Join(fragments) == Times("</" + name + ">" + gap, limit)
    ensures Trips(html, limit, fragments)
  {
    TimesRepeats(html, name, gap, limit);
    SplitTripsBetween(html, limit, fragments);
  }

  // ---------------------------------------------------------------- what does not trip

  lemma {:induction false} ReadsGap(html: Names, gap: string, x: string, run: nat, limit: nat, off: nat)
    requires IsGap(gap)
    ensures Reaches(html, gap + x, 0, run, limit, off, {}) <==> Reaches(html, x, 0, run, limit, off + |gap|, {})
    decreases |gap|
  {
    if gap == "" {
      assert gap + x == x;
    } else {
      var s := gap + x;
      SeparatorIsListed(gap[0]);
      assert s[0] == gap[0] && s == [gap[0]] + (gap[1..] + x);
      ReachesInSuffix(html, [gap[0]], gap[1..] + x, 0, run, limit, off, {});
      ReadsGap(html, gap[1..], x, run, limit, off + 1);
    }
  }

  lemma RunTextPlus(gap: string, tag: string, later: string, x: string)
    ensures gap + (tag + later) + x == gap + (tag + (later + x))
  {
    Associates(gap, tag + later, x);
    Associates(tag, later, x);
  }

  lemma ReadsTag(html: Names, name: string, rest: string, x: string, run: nat, limit: nat, off: nat)
    requires IsName(name) && IsRest(rest) && !html(name) && |TagText(name, rest)| <= 513 && run + 1 < limit
    ensures var t := TagText(name, rest);
      Reaches(html, t + x, 0, run, limit, off, {}) <==> Reaches(html, x, 0, run + 1, limit, off + |t|, {})
  {
    var t := TagText(name, rest);
    assert t <= (t + x)[0..];
    TextIsTag(html, t + x, 0, name, rest, off, {});
    ReachesInSuffix(html, t, x, 0, run + 1, limit, off, {});
  }

  lemma ReadsOne(html: Names, t: Closing, y: string, count: nat, limit: nat, off: nat)
    requires IsRun(html, [t], 513) && count + 1 < limit
    ensures var tag := TagText(t.name, t.rest);
      Reaches(html, t.gap + (tag + y), 0, count, limit, off, {}) <==>
      Reaches(html, y, 0, count + 1, limit, off + |t.gap| + |tag|, {})
  {
    assert [t][0] == t;
    ReadsGap(html, t.gap, TagText(t.name, t.rest) + y, count, limit, off);
    ReadsTag(html, t.name, t.rest, y, count, limit, off + |t.gap|);
  }

  /** Reading fewer tags than are missing. */
  lemma {:induction false} ReadsRun(html: Names, run: seq<Closing>, x: string, count: nat, limit: nat, off: nat)
    requires IsRun(html, run, 513) && count + |run| < limit
    ensures Reaches(html, RunText(run) + x, 0, count, limit, off, {}) <==>
            Reaches(html, x, 0, count + |run|, limit, off + |RunText(run)|, {})
    decreases |run|
  {
    if run == [] {
      assert RunText(run) + x == x;
    } else {
      var t, later := run[0], RunText(run[1..]);
      var tag := TagText(t.name, t.rest);
      RunTextPlus(t.gap, tag, later, x);
      ReadsOne(html, t, later + x, count, limit, off);
      ReadsRun(html, run[1..], x, count + 1, limit, off + |t.gap| + |tag|);
    }
  }

  /** Anything else between two tags ends the run: it may be any character, also a bracket. */
  lemma ReadsOther(html: Names, c: char, x: string, count: nat, limit: nat, off: nat)
    requires c !in GAPS && (x != "" ==> x[0] != '/')
    ensures Reaches(html, [c] + x, 0, count, limit, off, {}) <==> Reaches(html, x, 0, 0, limit, off + 1, {})
  {
    SeparatorIsListed(c);
    ReachesInSuffix(html, [c], x, 0, 0, limit, off, {});
  }

  /** Fewer tags than the threshold on either side of another character never trip the guard. */
  lemma InterruptedRunDoesNotTrip(html: Names, limit: nat, first: seq<Closing>, gap: string, c: char,
                                  second: seq<Closing>, last: string, fragments: seq<string>)
    requires IsRun(html, first, 513) && IsRun(html, second, 513) && |first| < limit && |second| < limit
    requires IsGap(gap) && IsGap(last) && c !in GAPS
    requires Join(fragments) == RunText(first) + (gap + ([c] + (RunText(second) + last)))
    ensures !Trips(html, limit, fragments)
  {
    InterruptedIsNotReached(html, limit, first, gap, c, second, last);
    HasLoopIsReached(html, Join(fragments), limit, {});
    VerdictBounds(html, limit, fragments);
  }

  lemma InterruptedIsNotReached(html: Names, limit: nat, first: seq<Closing>, gap: string, c: char,
                                second: seq<Closing>, last: string)
    requires IsRun(html, first, 513) && IsRun(html, second, 513) && |first| < limit && |second| < limit
    requires IsGap(gap) && IsGap(last) && c !in GAPS
    ensures !Reaches(html, RunText(first) + (gap + ([c] + (RunText(second) + last))), 0, 0, limit, 0, {})
  {
    ReadsShortRun(html, second, last, limit, |RunText(first)| + |gap| + 1);
    NoSlashFirst(html, second, last);
    ReadsUpToOther(html, first, gap, c, RunText(second) + last, limit);
  }

  lemma ReadsShortRun(html: Names, run: seq<Closing>, last: string, limit: nat, off: nat)
    requires IsRun(html, run, 513) && |run| < limit && IsGap(last)
    ensures !Reaches(html, RunText(run) + last, 0, 0, limit, off, {})
  {
    ReadsRun(html, run, last, 0, limit, off);
    assert last + "" == last;
    ReadsGap(html, last, "", |run|, limit, off + |RunText(run)|);
  }

  lemma ReadsUpToOther(html: Names, run: seq<Closing>, gap: string, c: char, x: string, limit: nat)
    requires IsRun(html, run, 513) && |run| < limit && IsGap(gap) && c !in GAPS && (x != "" ==> x[0] != '/')
    ensures Reaches(html, RunText(run) + (gap + ([c] + x)), 0, 0, limit, 0, {}) <==>
            Reaches(html, x, 0, 0, limit, |RunText(run)| + |gap| + 1, {})
  {
    var n := |RunText(run)|;
    ReadsRun(html, run, gap + ([c] + x), 0, limit, 0);
    ReadsGap(html, gap, [c] + x, |run|, limit, n);
    ReadsOther(html, c, x, |run|, limit, n + |gap|);
  }

  lemma NoSlashFirst(html: Names, run: seq<Closing>, last: string)
    requires IsRun(html, run, 513) && IsGap(last)
    ensures RunText(run) + last != "" ==> (RunText(run) + last)[0] != '/'
  {
    if run == [] {
      assert RunText(run) + last == last;
      GapHasNoSlash(last);
    } else {
      var t := run[0];
      var tail := TagText(t.name, t.rest) + RunText(run[1..]);
      assert RunText(run) + last == t.gap + (tail + last) && tail[0] == '<';
      GapHasNoSlash(t.gap);
    }
  }

  lemma GapHasNoSlash(gap: string)
    requires IsGap(gap)
    ensures gap != "" ==> gap[0] != '/'
  {
    if gap != "" {
      assert gap[0] in gap;
      SeparatorIsListed(gap[0]);
    }
  }

  predicate IsHtmlClosing(html: Names, t: Closing) {
    IsGap(t.gap) && IsName(t.name) && IsRest(t.rest) && html(t.name)
  }

  predicate IsHtmlRun(html: Names, run: seq<Closing>) {
    run == [] || (IsHtmlClosing(html, run[0]) && IsHtmlRun(html, run[1..]))
  }

  lemma ReadsHtmlTag(html: Names, name: string, rest: string, x: string, count: nat, limit: nat, off: nat)
    requires IsName(name) && IsRest(rest) && html(name)
    ensures var t := TagText(name, rest);
      Reaches(html, t + x, 0, count, limit, off, {}) <==> Reaches(html, x, 0, 0, limit, off + |t|, {})
  {
    var t := TagText(name, rest);
    var s := t + x;
    assert t <= s[0..];
    TagLetters(s, 0, name, rest);
    TextIsTag(html, s, 0, name, rest, off, {});
    SeparatorIsListed(s[0]);
    SkipTagless(html, s, 1, |t|, limit, off, {});
    ReachesInSuffix(html, t, x, 0, 0, limit, off, {});
  }

  lemma {:induction false} ReadsHtmlRun(html: Names, run: seq<Closing>, x: string, limit: nat, off: nat)
    requires IsHtmlRun(html, run)
    ensures Reaches(html, RunText(run) + x, 0, 0, limit, off, {}) <==>
            Reaches(html, x, 0, 0, limit, off + |RunText(run)|, {})
    decreases |run|
  {
    if run == [] {
      assert RunText(run) + x == x;
    } else {
      var t, later := run[0], RunText(run[1..]);
      var tag := TagText(t.name, t.rest);
      RunTextPlus(t.gap, tag, later, x);
      assert |RunText(run)| == |t.gap| + |tag| + |later|;
      ReadsGap(html, t.gap, tag + (later + x), 0, limit, off);
      ReadsHtmlTag(html, t.name, t.rest, later + x, 0, limit, off + |t.gap|);
      ReadsHtmlRun(html, run[1..], x, limit, off + |t.gap| + |tag|);
    }
  }

  /** Closing tags of HTML elements never trip the guard, however many there are. */
  lemma HtmlRunDoesNotTrip(html: Names, limit: nat, run: seq<Closing>, fragments: seq<string>)
    requires limit > 0 && IsHtmlRun(html, run) && Join(fragments) == RunText(run)
    ensures !Trips(html, limit, fragments)
  {
    HtmlRunIsNotReached(html, run, limit);
    HasLoopIsReached(html, Join(fragments), limit, {});
    VerdictBounds(html, limit, fragments);
  }

  lemma HtmlRunIsNotReached(html: Names, run: seq<Closing>, limit: nat)
    requires IsHtmlRun(html, run)
    ensures !Reaches(html, RunText(run), 0, 0, limit, 0, {})
  {
    assert RunText(run) + "" == RunText(run);
    ReadsHtmlRun(html, run, "", limit, 0);
  }
}
