/** The repetition-loop detector of internal/sse/repeat_guard.go: a run of closing tags, found in a stream
    of arbitrary fragments. */
module RepeatGuard {

  import opened FoldText

  const DEFAULT_THRESHOLD: nat := 10

  // The scan looks for the '>' of a closing tag at most this far after its '<', and gives up on a
  // tag once the buffer holds this much of it.
  const MAX_PENDING: nat := 512

  predicate IsSeparator(c: char) {
    c == ' ' || c == '\t' || c == '\n' || c == '\r'
  }

  predicate IsBodyStart(c: char) {
    !IsSeparator(c) && c != '<' && c != '>'
  }

  // ---------------------------------------------------------------- what counts as a tag

  // Which element names are ordinary HTML; the guard fixes it to IsHtmlName.
  type Names = string -> bool

  /** The end of the element name: the first separator in [j, e), else e. */
  function NameEnd(s: string, j: nat, e: nat): (n: nat)
    requires j <= e <= |s|
    ensures j <= n <= e && (n < e ==> IsSeparator(s[n]))
    decreases e - j
  {
    if j == e || IsSeparator(s[j]) then j else NameEnd(s, j + 1, e)
  }

  predicate NamesHtml(html: Names, s: string, start: nat, end: nat)
    requires start + 3 <= end <= |s|
  {
    var n := NameEnd(s, start + 2, end - 1);
    n != start + 2 && html(s[start + 2..n])
  }

  /** The first '<' or '>' at or after j, or the end of s. */
  function FirstAngle(s: string, j: nat): (g: nat)
    requires j <= |s|
    ensures j <= g <= |s|
    ensures g < |s| ==> s[g] == '<' || s[g] == '>'
    decreases |s| - j
  {
    if j == |s| || s[j] == '<' || s[j] == '>' then j else FirstAngle(s, j + 1)
  }

  lemma {:induction false} NoAngleBefore(s: string, j: nat)
    requires j <= |s|
    ensures forall k | j <= k < FirstAngle(s, j) :: s[k] != '<' && s[k] != '>'
    decreases |s| - j
  {
    if j < |s| && s[j] != '<' && s[j] != '>' {
      NoAngleBefore(s, j + 1);
    }
  }

  /** "</" and a body character at i. */
  predicate OpensAt(s: string, i: nat) {
    i + 2 < |s| && s[i] == '<' && s[i + 1] == '/' && IsBodyStart(s[i + 2])
  }

  /** A closing tag that is not HTML stands at i, its '>' at most 512 after its '<'. At exactly 512 it counts
      unless the text, of which s is what follows position off, is cut just before that '>'. */
  predicate TagAt(html: Names, s: string, i: nat, off: nat, cuts: set<nat>) {
    OpensAt(s, i) &&
    var g := FirstAngle(s, i + 3);
    && g < |s| && s[g] == '>' && g - i <= MAX_PENDING && (g - i == MAX_PENDING ==> off + g !in cuts)
    && !NamesHtml(html, s, i, g + 1)
  }

  function TagEnd(s: string, i: nat): (e: nat)
    requires OpensAt(s, i) && FirstAngle(s, i + 3) < |s|
    ensures i + 3 < e <= |s|
  {
    FirstAngle(s, i + 3) + 1
  }

  function SkipSeparators(s: string, i: nat): (j: nat)
    requires i <= |s|
    ensures i <= j <= |s|
    decreases |s| - i
  {
    if i < |s| && IsSeparator(s[i]) then SkipSeparators(s, i + 1) else i
  }

  /** After optional separators, n tags follow one another with only separators between them. */
  predicate Chain(html: Names, s: string, i: nat, n: nat, off: nat, cuts: set<nat>)
    requires i <= |s|
    decreases n
  {
    n == 0 ||
    var p := SkipSeparators(s, i);
    TagAt(html, s, p, off, cuts) && Chain(html, s, TagEnd(s, p), n - 1, off, cuts)
  }

  /** The loop the guard looks for: limit tags in a row somewhere in the text, which is cut at these positions. */
  ghost predicate HasLoop(html: Names, s: string, limit: nat, cuts: set<nat>) {
    exists p | 0 <= p < |s| :: TagAt(html, s, p, 0, cuts) && Chain(html, s, p, limit, 0, cuts)
  }

  // ---------------------------------------------------------------- a character-by-character reference

  /** Reading s from i with run tags already counted reaches the limit. */
  predicate Reaches(html: Names, s: string, i: nat, run: nat, limit: nat, off: nat, cuts: set<nat>)
    decreases |s| - i
  {
    i < |s| &&
    if TagAt(html, s, i, off, cuts) then run + 1 >= limit || Reaches(html, s, TagEnd(s, i), run + 1, limit, off, cuts)
    else Reaches(html, s, i + 1, if run > 0 && IsSeparator(s[i]) then run else 0, limit, off, cuts)
  }

  lemma {:induction false} SkipTagless(html: Names, s: string, i: nat, j: nat, limit: nat, off: nat, cuts: set<nat>)
    requires i <= j <= |s| && forall p | i <= p < j :: !TagAt(html, s, p, off, cuts)
    ensures Reaches(html, s, i, 0, limit, off, cuts) <==> Reaches(html, s, j, 0, limit, off, cuts)
    decreases j - i
  {
    if i < j {
      SkipTagless(html, s, i + 1, j, limit, off, cuts);
    }
  }

  lemma {:induction false} ShorterChain(html: Names, s: string, i: nat, n: nat, fewer: nat, off: nat, cuts: set<nat>)
    requires i <= |s| && fewer <= n && Chain(html, s, i, n, off, cuts)
    ensures Chain(html, s, i, fewer, off, cuts)
    decreases n
  {
    if fewer > 0 {
      ShorterChain(html, s, TagEnd(s, SkipSeparators(s, i)), n - 1, fewer - 1, off, cuts);
    }
  }

  /** Such a loop starts at or after i. */
  predicate LoopFrom(html: Names, s: string, i: nat, limit: nat, off: nat, cuts: set<nat>)
    decreases |s| - i
  {
    i < |s| && ((TagAt(html, s, i, off, cuts) && Chain(html, s, i, limit, off, cuts)) ||
      LoopFrom(html, s, i + 1, limit, off, cuts))
  }

  lemma {:induction false} LoopFromIsExists(html: Names, s: string, i: nat, limit: nat, off: nat, cuts: set<nat>)
    ensures LoopFrom(html, s, i, limit, off, cuts) <==>
            exists p | i <= p < |s| :: TagAt(html, s, p, off, cuts) && Chain(html, s, p, limit, off, cuts)
    decreases |s| - i
  {
    if i < |s| {
      LoopFromIsExists(html, s, i + 1, limit, off, cuts);
    }
  }

  lemma {:induction false} LoopPastTagless(html: Names, s: string, i: nat, j: nat, limit: nat, off: nat, cuts: set<nat>)
    requires i <= j <= |s| && forall p | i <= p < j :: !TagAt(html, s, p, off, cuts)
    ensures LoopFrom(html, s, i, limit, off, cuts) <==> LoopFrom(html, s, j, limit, off, cuts)
    decreases j - i
  {
    if i < j {
      LoopPastTagless(html, s, i + 1, j, limit, off, cuts);
    }
  }

  /** The reference reader finds exactly the chains. */
  lemma {:induction false} ReachesIsChain(html: Names, s: string, i: nat, run: nat, limit: nat, off: nat,
                                          cuts: set<nat>)
    requires i <= |s| && run < limit
    ensures Reaches(html, s, i, run, limit, off, cuts) <==>
            (run > 0 && Chain(html, s, i, limit - run, off, cuts)) || LoopFrom(html, s, i, limit, off, cuts)
    decreases |s| - i
  {
    if i < |s| {
      if TagAt(html, s, i, off, cuts) {
        if run + 1 < limit {
          ReachesIsChain(html, s, TagEnd(s, i), run + 1, limit, off, cuts);
        }
        ReachesAtTag(html, s, i, run, limit, off, cuts);
      } else {
        var kept := if run > 0 && IsSeparator(s[i]) then run else 0;
        ReachesIsChain(html, s, i + 1, kept, limit, off, cuts);
        ReachesPastNoTag(html, s, i, run, limit, off, cuts);
      }
    }
  }

  lemma ReachesPastNoTag(html: Names, s: string, i: nat, run: nat, limit: nat, off: nat, cuts: set<nat>)
    requires i < |s| && run < limit && !TagAt(html, s, i, off, cuts)
    ensures LoopFrom(html, s, i, limit, off, cuts) <==> LoopFrom(html, s, i + 1, limit, off, cuts)
    ensures IsSeparator(s[i]) ==>
      (Chain(html, s, i, limit - run, off, cuts) <==> Chain(html, s, i + 1, limit - run, off, cuts))
    ensures !IsSeparator(s[i]) ==> !Chain(html, s, i, limit - run, off, cuts)
  {
    assert !IsSeparator(s[i]) ==> SkipSeparators(s, i) == i;
  }

  lemma ReachesAtTag(html: Names, s: string, i: nat, run: nat, limit: nat, off: nat, cuts: set<nat>)
    requires i < |s| && run < limit && TagAt(html, s, i, off, cuts)
    requires var e := TagEnd(s, i);
      run + 1 < limit ==>
      (Reaches(html, s, e, run + 1, limit, off, cuts) <==>
        Chain(html, s, e, limit - run - 1, off, cuts) || LoopFrom(html, s, e, limit, off, cuts))
    ensures Reaches(html, s, i, run, limit, off, cuts) <==>
            (run > 0 && Chain(html, s, i, limit - run, off, cuts)) || LoopFrom(html, s, i, limit, off, cuts)
  {
    var e := TagEnd(s, i);
    ChainAtTag(html, s, i, limit - run, off, cuts);
    ChainAtTag(html, s, i, limit, off, cuts);
    LoopPastTag(html, s, i, limit, off, cuts);
    if run + 1 < limit && Chain(html, s, e, limit - 1, off, cuts) {
      ShorterChain(html, s, e, limit - 1, limit - run - 1, off, cuts);
    }
  }

  lemma TaglessInTag(html: Names, s: string, i: nat, off: nat, cuts: set<nat>)
    requires TagAt(html, s, i, off, cuts)
    ensures forall p | i < p < TagEnd(s, i) :: !TagAt(html, s, p, off, cuts)
  {
    NoAngleBefore(s, i + 3);
  }

  lemma LoopPastTag(html: Names, s: string, i: nat, limit: nat, off: nat, cuts: set<nat>)
    requires i < |s| && TagAt(html, s, i, off, cuts)
    ensures LoopFrom(html, s, i + 1, limit, off, cuts) <==> LoopFrom(html, s, TagEnd(s, i), limit, off, cuts)
  {
    TaglessInTag(html, s, i, off, cuts);
    LoopPastTagless(html, s, i + 1, TagEnd(s, i), limit, off, cuts);
  }

  lemma ChainAtTag(html: Names, s: string, i: nat, n: nat, off: nat, cuts: set<nat>)
    requires i < |s| && n > 0 && TagAt(html, s, i, off, cuts)
    ensures Chain(html, s, i, n, off, cuts) <==> Chain(html, s, TagEnd(s, i), n - 1, off, cuts)
  {
    assert SkipSeparators(s, i) == i;
  }

  // ---------------------------------------------------------------- the scanner

  datatype Status = NoTag | Tag | NeedMore

  /** The body loop of the scan, at j, for a tag opened at i. */
  function ScanBody(html: Names, s: string, i: nat, j: nat): (r: (nat, Status))
    requires i + 3 <= j <= |s|
    ensures i <= r.0 <= |s| && (r.1 == Tag ==> i < r.0) && (r.1 == NeedMore ==> r.0 == i && |s| - i < MAX_PENDING)
    decreases |s| - j
  {
    if j == |s| then (if |s| - i >= MAX_PENDING then (|s|, NoTag) else (i, NeedMore))
    else if s[j] == '>' then (j + 1, if NamesHtml(html, s, i, j + 1) then NoTag else Tag)
    else if s[j] == '<' then (j, NoTag)
    else if j - i >= MAX_PENDING then (j, NoTag)
    else ScanBody(html, s, i, j + 1)
  }

  /** Where to go on from position i, and what was found there. */
  function Scan(html: Names, s: string, i: nat): (r: (nat, Status))
    requires i < |s|
    ensures i <= r.0 <= |s| && (r.1 == Tag ==> i < r.0) && (r.1 == NeedMore ==> r.0 == i && |s| - i < MAX_PENDING)
  {
    if s[i] != '<' then (i, NoTag)
    else if i + 1 >= |s| then (i, NeedMore)
    else if s[i + 1] != '/' then (i, NoTag)
    else if i + 2 >= |s| then (i, NeedMore)
    else if !IsBodyStart(s[i + 2]) then (i, NoTag)
    else ScanBody(html, s, i, i + 3)
  }

  method IsHTMLClosingTag(html: Names, buf: string, start: nat, end: nat) returns (r: bool)
    requires start + 3 <= end <= |buf|
    ensures r <==> NamesHtml(html, buf, start, end)
  {
    var nameStart := start + 2;
    var nameEnd := nameStart;
    while nameEnd < end - 1 && !IsSeparator(buf[nameEnd])
      invariant nameStart <= nameEnd <= end - 1
      invariant NameEnd(buf, nameStart, end - 1) == NameEnd(buf, nameEnd, end - 1)
    {
      nameEnd := nameEnd + 1;
    }
    if nameEnd == nameStart {
      return false;
    }
    r := html(buf[nameStart..nameEnd]);
  }

  method ScanProtocolClosingTag(html: Names, buf: string, i: nat) returns (next: nat, status: Status)
    requires i < |buf|
    ensures (next, status) == Scan(html, buf, i)
  {
    if buf[i] != '<' {
      return i, NoTag;
    }
    if i + 1 >= |buf| {
      return i, NeedMore;
    }
    if buf[i + 1] != '/' {
      return i, NoTag;
    }
    if i + 2 >= |buf| {
      return i, NeedMore;
    }
    if !IsBodyStart(buf[i + 2]) {
      return i, NoTag;
    }
    var j := i + 3;
    while j < |buf|
      invariant i + 3 <= j <= |buf|
      invariant ScanBody(html, buf, i, i + 3) == ScanBody(html, buf, i, j)
    {
      if buf[j] == '>' {
        var isHtml := IsHTMLClosingTag(html, buf, i, j + 1);
        if isHtml {
          return j + 1, NoTag;
        }
        return j + 1, Tag;
      }
      if buf[j] == '<' {
        return j, NoTag;
      }
      if j - i >= MAX_PENDING {
        return j, NoTag;
      }
      j := j + 1;
    }
    if |buf| - i >= MAX_PENDING {
      return |buf|, NoTag;
    }
    return i, NeedMore;
  }

  /** The body loop in terms of the first angle bracket. */
  lemma {:induction false} ScanBodyMeaning(html: Names, s: string, i: nat, j: nat)
    requires i + 3 <= j <= |s| && j <= i + MAX_PENDING
    ensures var g := FirstAngle(s, j);
      ScanBody(html, s, i, j) ==
      if g < |s| && g - i <= MAX_PENDING then
        (if s[g] == '<' then (g, NoTag) else (g + 1, if NamesHtml(html, s, i, g + 1) then NoTag else Tag))
      else if |s| - i >= MAX_PENDING then (i + MAX_PENDING, NoTag)
      else (i, NeedMore)
    decreases |s| - j
  {
    if j < |s| && s[j] != '<' && s[j] != '>' && j < i + MAX_PENDING {
      ScanBodyMeaning(html, s, i, j + 1);
    }
  }

  // ---------------------------------------------------------------- reading on

  lemma {:induction false} FirstAngleInPrefix(s: string, x: string, j: nat)
    requires j <= |s|
    ensures FirstAngle(s, j) < |s| ==> FirstAngle(s + x, j) == FirstAngle(s, j)
    ensures FirstAngle(s, j) == |s| ==> FirstAngle(s + x, j) >= |s|
    decreases |s| - j
  {
    if j < |s| {
      assert (s + x)[j] == s[j];
      FirstAngleInPrefix(s, x, j + 1);
    }
  }

  lemma {:induction false} NameEndInPrefix(s: string, x: string, j: nat, e: nat)
    requires j <= e <= |s|
    ensures NameEnd(s + x, j, e) == NameEnd(s, j, e)
    decreases e - j
  {
    if j < e {
      assert (s + x)[j] == s[j];
      NameEndInPrefix(s, x, j + 1, e);
    }
  }

  lemma NamesHtmlInPrefix(html: Names, s: string, x: string, start: nat, end: nat)
    requires start + 3 <= end <= |s|
    ensures NamesHtml(html, s + x, start, end) <==> NamesHtml(html, s, start, end)
  {
    NameEndInPrefix(s, x, start + 2, end - 1);
    var n := NameEnd(s, start + 2, end - 1);
    assert (s + x)[start + 2..n] == s[start + 2..n];
  }

  /** The buffer s, which starts at position off, ends at a cut and has none in it from position 512 on: what
      is kept from earlier fragments is shorter than that. */
  predicate IsBuffer(s: string, off: nat, cuts: set<nat>) {
    off + |s| in cuts && forall c | off + MAX_PENDING <= c < off + |s| :: c !in cuts
  }

  /** A definite answer of the scan is right for every continuation x of the buffer: a tag is denied only if it
      is none, or if it is 513 characters long and the buffer ends just before its '>'. */
  lemma ScanAgainstText(html: Names, s: string, x: string, i: nat, off: nat, cuts: set<nat>)
    requires i < |s| && Scan(html, s, i).1 != NeedMore && IsBuffer(s, off, cuts)
    ensures var (next, status) := Scan(html, s, i);
      && i <= next <= |s| && (forall p | i < p < next :: (s + x)[p] != '<') && (next > i ==> s[i] == '<')
      && (status == Tag <==> TagAt(html, s + x, i, off, cuts))
      && (status == Tag ==> TagEnd(s + x, i) == next)
  {
    assert forall p | 0 <= p < |s| :: (s + x)[p] == s[p];
    if OpensAt(s, i) {
      OpenScanAgainstText(html, s, x, i, off, cuts);
    }
  }

  lemma OpenScanAgainstText(html: Names, s: string, x: string, i: nat, off: nat, cuts: set<nat>)
    requires OpensAt(s, i) && Scan(html, s, i).1 != NeedMore && IsBuffer(s, off, cuts)
    ensures var (next, status) := Scan(html, s, i);
      && i <= next <= |s| && (forall p | i < p < next :: (s + x)[p] != '<') && (next > i ==> s[i] == '<')
      && (status == Tag <==> TagAt(html, s + x, i, off, cuts))
      && (status == Tag ==> TagEnd(s + x, i) == next)
  {
    assert forall p | 0 <= p < |s| :: (s + x)[p] == s[p];
    NoAngleBefore(s, i + 3);
    ScanBodyMeaning(html, s, i, i + 3);
    OpenTagInBuffer(html, s, x, i, off, cuts);
  }

  /** A tag opened in the buffer is one of the text when its end is in the buffer and near enough. */
  lemma OpenTagInBuffer(html: Names, s: string, x: string, i: nat, off: nat, cuts: set<nat>)
    requires OpensAt(s, i) && IsBuffer(s, off, cuts)
    requires FirstAngle(s, i + 3) == |s| ==> |s| - i >= MAX_PENDING
    ensures var g := FirstAngle(s, i + 3);
      && (TagAt(html, s + x, i, off, cuts) <==>
          g < |s| && s[g] == '>' && g - i <= MAX_PENDING && !NamesHtml(html, s, i, g + 1))
      && (g < |s| ==> FirstAngle(s + x, i + 3) == g)
  {
    assert forall p | 0 <= p < |s| :: (s + x)[p] == s[p];
    var g := FirstAngle(s, i + 3);
    FirstAngleInPrefix(s, x, i + 3);
    if g < |s| {
      NamesHtmlInPrefix(html, s, x, i, g + 1);
    }
  }

  /** What the reading loop of Feed makes of a buffer from position i. */
  datatype Progress = Progress(tripped: bool, run: nat, kept: nat)

  function FeedFrom(html: Names, s: string, i: nat, run: nat, limit: nat): (p: Progress)
    requires i <= |s| && run < limit
    ensures p.kept <= |s| && p.run < limit
    decreases |s| - i
  {
    if i == |s| then Progress(false, run, |s|)
    else
      var (next, status) := Scan(html, s, i);
      match status
      case Tag => if run + 1 >= limit then Progress(true, 0, |s|) else FeedFrom(html, s, next, run + 1, limit)
      case NeedMore => Progress(false, run, i)
      case NoTag =>
        if run > 0 && IsSeparator(s[i]) then FeedFrom(html, s, i + 1, run, limit)
        else FeedFrom(html, s, if next > i then next else i + 1, 0, limit)
  }

  /** Reading on from where a definite scan without a tag leaves off. */
  lemma ReadPastNoTag(html: Names, s: string, x: string, i: nat, limit: nat, off: nat, cuts: set<nat>)
    requires i < |s| && Scan(html, s, i).1 == NoTag && IsBuffer(s, off, cuts)
    ensures var next := Scan(html, s, i).0;
      Reaches(html, s + x, i + 1, 0, limit, off, cuts) <==>
      Reaches(html, s + x, if next > i then next else i + 1, 0, limit, off, cuts)
  {
    ScanAgainstText(html, s, x, i, off, cuts);
    var next := Scan(html, s, i).0;
    if next > i {
      SkipTagless(html, s + x, i + 1, next, limit, off, cuts);
    }
  }

  /** What a feed reports, or leaves to be reported, is exactly what the cut text holds. */
  lemma {:induction false} FeedIsExact(html: Names, s: string, x: string, i: nat, run: nat, limit: nat, off: nat,
                                       cuts: set<nat>)
    requires i <= |s| && run < limit && IsBuffer(s, off, cuts)
    ensures var p := FeedFrom(html, s, i, run, limit);
      Reaches(html, s + x, i, run, limit, off, cuts) <==>
        p.tripped || Reaches(html, s + x, p.kept, p.run, limit, off, cuts)
    decreases |s| - i
  {
    if i < |s| && Scan(html, s, i).1 != NeedMore {
      ScanAgainstText(html, s, x, i, off, cuts);
      var (next, status) := Scan(html, s, i);
      if status == Tag {
        if run + 1 < limit {
          FeedIsExact(html, s, x, next, run + 1, limit, off, cuts);
        }
      } else if run > 0 && IsSeparator(s[i]) {
        FeedIsExact(html, s, x, i + 1, run, limit, off, cuts);
      } else {
        ReadPastNoTag(html, s, x, i, limit, off, cuts);
        FeedIsExact(html, s, x, if next > i then next else i + 1, 0, limit, off, cuts);
      }
    }
  }

  /** An unfinished tag at the end of the text never becomes one. */
  lemma NoTagPending(html: Names, s: string, i: nat, run: nat, limit: nat, off: nat, cuts: set<nat>)
    requires i < |s| && Scan(html, s, i).1 == NeedMore
    ensures !Reaches(html, s, i, run, limit, off, cuts)
  {
    if OpensAt(s, i) {
      ScanBodyMeaning(html, s, i, i + 3);
      NoAngleBefore(s, i + 3);
    }
    assert forall p | i <= p < |s| :: !TagAt(html, s, p, off, cuts);
    SkipTagless(html, s, i + 1, |s|, limit, off, cuts);
  }

  // ---------------------------------------------------------------- the guard

  datatype Guard = Guard(pending: string, run: nat, tripped: bool)

  const START := Guard("", 0, false)

  function FeedStep(html: Names, limit: nat, g: Guard, text: string): (r: Guard)
    requires limit > 0 && g.run < limit
    ensures r.run < limit
  {
    if g.tripped || text == "" then g
    else
      var buf := g.pending + text;
      var p := FeedFrom(html, buf, 0, g.run, limit);
      if p.tripped then Guard("", 0, true) else Guard(buf[p.kept..], p.run, false)
  }

  function FeedAll(html: Names, limit: nat, g: Guard, fragments: seq<string>): (r: Guard)
    requires limit > 0 && g.run < limit
    ensures r.run < limit
    decreases |fragments|
  {
    if fragments == [] then g else FeedAll(html, limit, FeedStep(html, limit, g, fragments[0]), fragments[1..])
  }

  class RepeatLoopGuard {
    const html: Names
    const threshold: int
    var pending: string
    var run: nat
    var tripped: bool

    ghost predicate Valid()
      reads this
    {
      run < Limit()
    }

    function Limit(): (n: nat)
      ensures n > 0
    {
      if threshold > 0 then threshold else DEFAULT_THRESHOLD
    }

    ghost function State(): Guard
      reads this
    {
      Guard(pending, run, tripped)
    }

    constructor (html: Names, threshold: int)
      ensures Valid() && State() == START && this.html == html && this.threshold == threshold
    {
      this.html := html;
      this.threshold := threshold;
      pending := "";
      run := 0;
      tripped := false;
    }

    method Feed(text: string) returns (r: bool)
      requires Valid()
      modifies this
      ensures Valid() && State() == FeedStep(html, Limit(), old(State()), text)
      ensures r == tripped
    {
      if tripped {
        return true;
      }
      if text == "" {
        return false;
      }
      var buf := pending + text;
      pending := "";
      var limit := Limit();
      ghost var start := run;
      var i := 0;
      while i < |buf|
        invariant i <= |buf| && run < limit && pending == "" && !tripped
        invariant FeedFrom(html, buf, 0, start, limit) == FeedFrom(html, buf, i, run, limit)
        decreases |buf| - i
      {
        var next, status := ScanProtocolClosingTag(html, buf, i);
        match status {
          case Tag =>
            run := run + 1;
            if run >= limit {
              tripped := true;
              run := 0;
              return true;
            }
            i := next;
            continue;
          case NeedMore =>
            pending := buf[i..];
            return false;
          case NoTag =>
        }
        if run > 0 && IsSeparator(buf[i]) {
          i := i + 1;
          continue;
        }
        run := 0;
        if next > i {
          i := next;
          continue;
        }
        i := i + 1;
      }
      return false;
    }
  }

  // ---------------------------------------------------------------- any fragmentation

  lemma {:induction false} FirstAngleOfSuffix(a: string, b: string, j: nat)
    requires j <= |b|
    ensures FirstAngle(a + b, |a| + j) == |a| + FirstAngle(b, j)
    decreases |b| - j
  {
    if j < |b| {
      assert (a + b)[|a| + j] == b[j];
      FirstAngleOfSuffix(a, b, j + 1);
    }
  }

  lemma {:induction false} NameEndOfSuffix(a: string, b: string, j: nat, e: nat)
    requires j <= e <= |b|
    ensures NameEnd(a + b, |a| + j, |a| + e) == |a| + NameEnd(b, j, e)
    decreases e - j
  {
    if j < e {
      assert (a + b)[|a| + j] == b[j];
      NameEndOfSuffix(a, b, j + 1, e);
    }
  }

  lemma SliceOfSuffix(a: string, b: string, i: nat, j: nat)
    requires i <= j <= |b|
    ensures (a + b)[|a| + i..|a| + j] == b[i..j]
  {
    forall k | i <= k < j ensures (a + b)[|a| + k] == b[k] {
    }
  }

  lemma OpenOfSuffix(a: string, b: string, j: nat)
    requires j < |b|
    ensures OpensAt(a + b, |a| + j) <==> OpensAt(b, j)
  {
    assert forall k | 0 <= k < |b| :: (a + b)[|a| + k] == b[k];
  }

  lemma TagEndOfSuffix(a: string, b: string, j: nat)
    requires j < |b|
    ensures OpensAt(b, j) && FirstAngle(b, j + 3) < |b| ==>
      OpensAt(a + b, |a| + j) && FirstAngle(a + b, |a| + j + 3) < |a + b| &&
        TagEnd(a + b, |a| + j) == |a| + TagEnd(b, j)
  {
    OpenOfSuffix(a, b, j);
    if OpensAt(b, j) {
      FirstAngleOfSuffix(a, b, j + 3);
    }
  }

  lemma TagOfSuffix(html: Names, a: string, b: string, j: nat, off: nat, cuts: set<nat>)
    requires j < |b|
    ensures TagAt(html, a + b, |a| + j, off, cuts) <==> TagAt(html, b, j, off + |a|, cuts)
  {
    OpenOfSuffix(a, b, j);
    if OpensAt(b, j) {
      FirstAngleOfSuffix(a, b, j + 3);
      var g := FirstAngle(b, j + 3);
      if g < |b| {
        NameEndOfSuffix(a, b, j + 2, g);
        var n := NameEnd(b, j + 2, g);
        SliceOfSuffix(a, b, j + 2, n);
      }
    }
  }

  /** Reading a suffix is reading it alone, from where it stands. */
  lemma {:induction false} ReachesInSuffix(html: Names, a: string, b: string, j: nat, run: nat, limit: nat, off: nat,
                                           cuts: set<nat>)
    requires j <= |b|
    ensures Reaches(html, a + b, |a| + j, run, limit, off, cuts) <==> Reaches(html, b, j, run, limit, off + |a|, cuts)
    decreases |b| - j
  {
    if j < |b| {
      TagOfSuffix(html, a, b, j, off, cuts);
      TagEndOfSuffix(a, b, j);
      assert (a + b)[|a| + j] == b[j];
      if TagAt(html, b, j, off + |a|, cuts) {
        ReachesInSuffix(html, a, b, TagEnd(b, j), run + 1, limit, off, cuts);
      } else {
        ReachesInSuffix(html, a, b, j + 1, if run > 0 && IsSeparator(b[j]) then run else 0, limit, off, cuts);
      }
    }
  }

  lemma KeptTailReads(html: Names, buf: string, k: nat, x: string, run: nat, limit: nat, off: nat, cuts: set<nat>)
    requires k <= |buf|
    ensures Reaches(html, buf + x, k, run, limit, off, cuts) <==>
      Reaches(html, buf[k..] + x, 0, run, limit, off + k, cuts)
  {
    assert buf + x == buf[..k] + (buf[k..] + x);
    ReachesInSuffix(html, buf[..k], buf[k..] + x, 0, run, limit, off, cuts);
  }

  /** Where the fragments end, the first one starting at position at. */
  function Boundaries(at: nat, fragments: seq<string>): (bs: set<nat>)
    ensures forall b | b in bs :: at <= b <= at + |Join(fragments)|
    decreases |fragments|
  {
    if fragments == [] then {}
    else {at + |fragments[0]|} + Boundaries(at + |fragments[0]|, fragments[1..])
  }

  /** From position at on, the text is cut where the fragments end and nowhere else. */
  ghost predicate CutsAre(cuts: set<nat>, at: nat, fragments: seq<string>) {
    forall c | c > at :: c in cuts <==> c in Boundaries(at, fragments)
  }

  /** A guard whose held text starts at position off and that will read the rest in the given fragments. */
  predicate WillReach(html: Names, limit: nat, g: Guard, fragments: seq<string>, off: nat, cuts: set<nat>) {
    g.tripped || Reaches(html, g.pending + Join(fragments), 0, g.run, limit, off, cuts)
  }

  /** What a guard holds back is short and never reaches the limit by itself. */
  predicate Waits(html: Names, limit: nat, g: Guard, off: nat, cuts: set<nat>) {
    |g.pending| < MAX_PENDING && !Reaches(html, g.pending, 0, g.run, limit, off, cuts)
  }

  /** Where the held text of the guard starts after one more fragment. */
  function NextOff(html: Names, limit: nat, g: Guard, off: nat, text: string): nat
    requires limit > 0 && g.run < limit
  {
    var held := FeedStep(html, limit, g, text).pending;
    if |held| <= |g.pending + text| then off + |g.pending + text| - |held| else off
  }

  lemma {:induction false} FeedLeavesNothing(html: Names, s: string, i: nat, run: nat, limit: nat, off: nat,
                                             cuts: set<nat>)
    requires i <= |s| && run < limit
    ensures var p := FeedFrom(html, s, i, run, limit);
      |s| - p.kept < MAX_PENDING && (p.tripped || !Reaches(html, s, p.kept, p.run, limit, off, cuts))
    decreases |s| - i
  {
    if i < |s| {
      var (next, status) := Scan(html, s, i);
      if status == NeedMore {
        NoTagPending(html, s, i, run, limit, off, cuts);
      } else if status == Tag {
        if run + 1 < limit {
          FeedLeavesNothing(html, s, next, run + 1, limit, off, cuts);
        }
      } else if run > 0 && IsSeparator(s[i]) {
        FeedLeavesNothing(html, s, i + 1, run, limit, off, cuts);
      } else {
        FeedLeavesNothing(html, s, if next > i then next else i + 1, 0, limit, off, cuts);
      }
    }
  }

  lemma StepLeavesWaiting(html: Names, limit: nat, g: Guard, text: string, off: nat, cuts: set<nat>)
    requires limit > 0 && g.run < limit && !g.tripped && text != ""
    ensures var next := FeedStep(html, limit, g, text);
      next.tripped || Waits(html, limit, next, NextOff(html, limit, g, off, text), cuts)
  {
    KeptWaits(html, limit, g.pending + text, g.run, off, cuts);
  }

  lemma KeptWaits(html: Names, limit: nat, buf: string, run: nat, off: nat, cuts: set<nat>)
    requires run < limit
    ensures var p := FeedFrom(html, buf, 0, run, limit);
      p.tripped || Waits(html, limit, Guard(buf[p.kept..], p.run, false), off + p.kept, cuts)
  {
    var p := FeedFrom(html, buf, 0, run, limit);
    FeedLeavesNothing(html, buf, 0, run, limit, off, cuts);
    KeptTailReads(html, buf, p.kept, "", p.run, limit, off, cuts);
    assert buf + "" == buf && buf[p.kept..] + "" == buf[p.kept..];
  }

  /** One fragment changes nothing about what will be reached. */
  lemma FeedKeepsVerdict(html: Names, limit: nat, g: Guard, fragments: seq<string>, off: nat, cuts: set<nat>)
    requires limit > 0 && g.run < limit && fragments != [] && !g.tripped && fragments[0] != ""
    requires IsBuffer(g.pending + fragments[0], off, cuts)
    ensures WillReach(html, limit, g, fragments, off, cuts) <==>
            WillReach(html, limit, FeedStep(html, limit, g, fragments[0]), fragments[1..],
                      NextOff(html, limit, g, off, fragments[0]), cuts)
  {
    var buf, x := g.pending + fragments[0], Join(fragments[1..]);
    assert buf + x == g.pending + Join(fragments);
    var p := FeedFrom(html, buf, 0, g.run, limit);
    FeedIsExact(html, buf, x, 0, g.run, limit, off, cuts);
    KeptTailReads(html, buf, p.kept, x, p.run, limit, off, cuts);
  }

  /** The fragments trip the guard exactly when the text, cut where they end, reaches the limit. */
  lemma {:induction false} VerdictFrom(html: Names, limit: nat, g: Guard, fragments: seq<string>, off: nat,
                                       cuts: set<nat>)
    requires limit > 0 && g.run < limit && (g.tripped || Waits(html, limit, g, off, cuts))
    requires CutsAre(cuts, off + |g.pending|, fragments)
    ensures FeedAll(html, limit, g, fragments).tripped <==> WillReach(html, limit, g, fragments, off, cuts)
    decreases |fragments|
  {
    if g.tripped {
      TrippedStays(html, limit, g, fragments);
    } else if fragments == [] {
      assert g.pending + "" == g.pending;
    } else if fragments[0] == "" {
      assert FeedStep(html, limit, g, "") == g && Join(fragments) == Join(fragments[1..]);
      VerdictFrom(html, limit, g, fragments[1..], off, cuts);
    } else {
      VerdictFromText(html, limit, g, fragments, off, cuts);
    }
  }

  lemma {:induction false} VerdictFromText(html: Names, limit: nat, g: Guard, fragments: seq<string>, off: nat,
                                           cuts: set<nat>)
    requires limit > 0 && g.run < limit && !g.tripped && |g.pending| < MAX_PENDING && fragments != [] &&
      fragments[0] != ""
    requires CutsAre(cuts, off + |g.pending|, fragments)
    ensures FeedAll(html, limit, g, fragments).tripped <==> WillReach(html, limit, g, fragments, off, cuts)
    decreases |fragments|, 0
  {
    var at, text, rest := off + |g.pending|, fragments[0], fragments[1..];
    var next, off' := FeedStep(html, limit, g, text), NextOff(html, limit, g, off, text);
    assert Boundaries(at, fragments) == {at + |text|} + Boundaries(at + |text|, rest);
    assert at + |text| in cuts;
    FeedKeepsVerdict(html, limit, g, fragments, off, cuts);
    StepLeavesWaiting(html, limit, g, text, off, cuts);
    if next.tripped {
      TrippedStays(html, limit, next, rest);
    } else {
      assert off' + |next.pending| == at + |text|;
      VerdictFrom(html, limit, next, rest, off', cuts);
    }
  }

  lemma {:induction false} TrippedStays(html: Names, limit: nat, g: Guard, fragments: seq<string>)
    requires limit > 0 && g.run < limit && g.tripped
    ensures FeedAll(html, limit, g, fragments) == g
    decreases |fragments|
  {
    if fragments != [] {
      TrippedStays(html, limit, g, fragments[1..]);
    }
  }

  // ---------------------------------------------------------------- the verdict on a whole text

  ghost predicate Trips(html: Names, limit: nat, fragments: seq<string>)
    requires limit > 0
  {
    FeedAll(html, limit, START, fragments).tripped
  }

  lemma HasLoopIsReached(html: Names, text: string, limit: nat, cuts: set<nat>)
    requires limit > 0
    ensures HasLoop(html, text, limit, cuts) <==> Reaches(html, text, 0, 0, limit, 0, cuts)
  {
    ReachesIsChain(html, text, 0, 0, limit, 0, cuts);
    LoopFromIsExists(html, text, 0, limit, 0, cuts);
  }

  /** For every split, the guard trips exactly when the text, cut where the fragments end, has a loop: all tags
      up to 512 characters count, and those of 513 that no fragment ends just before the '>' of. */
  lemma VerdictIsExact(html: Names, limit: nat, fragments: seq<string>)
    requires limit > 0
    ensures Trips(html, limit, fragments) <==> HasLoop(html, Join(fragments), limit, Boundaries(0, fragments))
  {
    var text, cuts := Join(fragments), Boundaries(0, fragments);
    assert "" + text == text;
    VerdictFrom(html, limit, START, fragments, 0, cuts);
    HasLoopIsReached(html, text, limit, cuts);
  }

  /** Only cuts just before a '>' matter, and fewer of them leave more loops. */
  lemma FewerCutsMoreLoops(html: Names, s: string, limit: nat, fewer: set<nat>, more: set<nat>)
    requires forall g | g in fewer && 0 < g < |s| && s[g] == '>' :: g in more
    ensures HasLoop(html, s, limit, more) ==> HasLoop(html, s, limit, fewer)
  {
    if HasLoop(html, s, limit, more) {
      var p :| 0 <= p < |s| && TagAt(html, s, p, 0, more) && Chain(html, s, p, limit, 0, more);
      FewerCutsLongerChains(html, s, p, limit, fewer, more);
      assert TagAt(html, s, p, 0, fewer);
    }
  }

  lemma {:induction false} FewerCutsLongerChains(html: Names, s: string, i: nat, n: nat, fewer: set<nat>,
                                                 more: set<nat>)
    requires i <= |s| && Chain(html, s, i, n, 0, more)
    requires forall g | g in fewer && 0 < g < |s| && s[g] == '>' :: g in more
    ensures Chain(html, s, i, n, 0, fewer)
    decreases n
  {
    if n > 0 {
      FewerCutsLongerChains(html, s, TagEnd(s, SkipSeparators(s, i)), n - 1, fewer, more);
    }
  }

  /** Every position of a text. */
  function Everywhere(s: string): (cuts: set<nat>)
    ensures forall c: nat :: c in cuts <==> c <= |s|
  {
    if s == "" then {0} else Everywhere(s[1..]) + {|s|}
  }

  /** However the text is split, a loop of tags up to 512 characters is always reported, and only loops
      of tags up to 513 characters ever are. */
  lemma VerdictBounds(html: Names, limit: nat, fragments: seq<string>)
    requires limit > 0
    ensures HasLoop(html, Join(fragments), limit, Everywhere(Join(fragments))) ==> Trips(html, limit, fragments)
    ensures Trips(html, limit, fragments) ==> HasLoop(html, Join(fragments), limit, {})
  {
    var text, cuts := Join(fragments), Boundaries(0, fragments);
    VerdictIsExact(html, limit, fragments);
    FewerCutsMoreLoops(html, text, limit, cuts, Everywhere(text));
    FewerCutsMoreLoops(html, text, limit, {}, cuts);
  }

  /** Fed whole, the text is judged with tags up to 513 characters. */
  lemma WholeTextVerdict(html: Names, limit: nat, text: string)
    requires limit > 0
    ensures Trips(html, limit, [text]) <==> HasLoop(html, text, limit, {})
  {
    assert Join([text]) == text;
    assert [text][1..] == [] && Boundaries(0, [text]) == {0 + |text|} + {} == {|text|};
    VerdictIsExact(html, limit, [text]);
    FewerCutsMoreLoops(html, text, limit, {|text|}, {});
    FewerCutsMoreLoops(html, text, limit, {}, {|text|});
  }

  function Singles(text: string): seq<string> {
    if text == "" then [] else [[text[0]]] + Singles(text[1..])
  }

  lemma {:induction false} JoinSingles(text: string)
    ensures Join(Singles(text)) == text
  {
    if text != "" {
      JoinSingles(text[1..]);
    }
  }

  lemma {:induction false} SinglesCutEverywhere(at: nat, text: string)
    ensures forall c :: c in Boundaries(at, Singles(text)) <==> at < c <= at + |text|
    decreases |text|
  {
    if text != "" {
      SinglesCutEverywhere(at + 1, text[1..]);
    }
  }

  /** Fed one character at a time, it is judged with tags up to 512 characters. */
  lemma SinglesVerdict(html: Names, limit: nat, text: string)
    requires limit > 0
    ensures Trips(html, limit, Singles(text)) <==> HasLoop(html, text, limit, Everywhere(text))
  {
    var cuts := Boundaries(0, Singles(text));
    JoinSingles(text);
    SinglesCutEverywhere(0, text);
    VerdictIsExact(html, limit, Singles(text));
    FewerCutsMoreLoops(html, text, limit, cuts, Everywhere(text));
    FewerCutsMoreLoops(html, text, limit, Everywhere(text), cuts);
  }

  ghost predicate SameForAllSplits(html: Names, limit: nat, text: string)
    requires limit > 0
  {
    forall fragments | Join(fragments) == text :: Trips(html, limit, fragments) <==> HasLoop(html, text, limit, {})
  }

  /** The verdict is independent of the fragmentation exactly when tags of 513 characters make no difference. */
  lemma FragmentationIrrelevantIff(html: Names, limit: nat, text: string)
    requires limit > 0
    ensures SameForAllSplits(html, limit, text) <==>
            (HasLoop(html, text, limit, {}) ==> HasLoop(html, text, limit, Everywhere(text)))
  {
    JoinSingles(text);
    SinglesVerdict(html, limit, text);
    forall fragments | Join(fragments) == text
      ensures Trips(html, limit, fragments) ==> HasLoop(html, text, limit, {})
      ensures HasLoop(html, text, limit, Everywhere(text)) ==> Trips(html, limit, fragments)
    {
      VerdictBounds(html, limit, fragments);
    }
  }

  /** In particular when no tag of the text has its '>' exactly 512 after its '<'. */
  lemma NoLongTagNoDifference(html: Names, limit: nat, text: string)
    requires limit > 0
    requires forall i | 0 <= i < |text| && TagAt(html, text, i, 0, {}) :: TagAt(html, text, i, 0, Everywhere(text))
    ensures SameForAllSplits(html, limit, text)
  {
    FragmentationIrrelevantIff(html, limit, text);
    if HasLoop(html, text, limit, {}) {
      var p :| 0 <= p < |text| && TagAt(html, text, p, 0, {}) && Chain(html, text, p, limit, 0, {});
      SameChain(html, text, p, limit);
    }
  }

  lemma {:induction false} SameChain(html: Names, text: string, i: nat, n: nat)
    requires i <= |text| && Chain(html, text, i, n, 0, {})
    requires forall k | 0 <= k < |text| && TagAt(html, text, k, 0, {}) :: TagAt(html, text, k, 0, Everywhere(text))
    ensures Chain(html, text, i, n, 0, Everywhere(text))
    decreases n
  {
    if n > 0 {
      SameChain(html, text, TagEnd(text, SkipSeparators(text, i)), n - 1);
    }
  }

  // ---------------------------------------------------------------- why the condition is needed

  function Letters(n: nat): (name: string)
    ensures |name| == n && forall i | 0 <= i < n :: name[i] == 'x'
  {
    seq(n, _ => 'x')
  }

  /** A tag of 513 characters. */
  const LONG_TAG: string := "</" + Letters(510) + ">"

  function LongTags(n: nat): string {
    if n == 0 then "" else LONG_TAG + LongTags(n - 1)
  }

  lemma LongTagIsTag(html: Names, x: string, off: nat, cuts: set<nat>)
    requires !html(Letters(510))
    ensures |LONG_TAG| == 513 && forall i | 0 < i < 513 :: LONG_TAG[i] != '<'
    ensures TagAt(html, LONG_TAG + x, 0, off, cuts) <==> off + MAX_PENDING !in cuts
    ensures OpensAt(LONG_TAG + x, 0) && FirstAngle(LONG_TAG + x, 3) == MAX_PENDING
  {
    var s := LONG_TAG;
    assert forall i | 2 <= i < 512 :: s[i] == Letters(510)[i - 2];
    NoAngleBefore(s, 3);
    assert s[512] == '>';
    FirstAngleInPrefix(s, x, 3);
    NamesHtmlInPrefix(html, s, x, 0, 513);
    assert NameEnd(s, 2, 512) == 512 && s[2..512] == Letters(510);
  }

  lemma {:induction false} LongTagsReach(html: Names, n: nat, run: nat, off: nat)
    requires !html(Letters(510)) && n > 0
    ensures Reaches(html, LongTags(n), 0, run, run + n, off, {})
    decreases n
  {
    var rest := LongTags(n - 1);
    LongTagIsTag(html, rest, off, {});
    if n > 1 {
      LongTagsReach(html, n - 1, run + 1, off + 513);
      ReachesInSuffix(html, LONG_TAG, rest, 0, run + 1, run + n, off, {});
    }
  }

  lemma {:induction false} NoneIsShorter(html: Names, n: nat, i: nat, off: nat, cuts: set<nat>)
    requires !html(Letters(510)) && i < |LongTags(n)| && forall c | off <= c <= off + |LongTags(n)| :: c in cuts
    ensures !TagAt(html, LongTags(n), i, off, cuts)
    decreases n
  {
    var rest := LongTags(n - 1);
    LongTagIsTag(html, rest, off, cuts);
    if i >= 513 {
      NoneIsShorter(html, n - 1, i - 513, off + 513, cuts);
      TagOfSuffix(html, LONG_TAG, rest, i - 513, off, cuts);
    } else if i > 0 {
      assert LongTags(n)[i] == LONG_TAG[i];
    }
  }

  /** As many of them as the threshold trip the guard when fed whole, and not when fed one character at a time. */
  lemma LongTagsDependOnSplit(html: Names, limit: nat)
    requires !html(Letters(510)) && limit > 0
    ensures Trips(html, limit, [LongTags(limit)]) && !Trips(html, limit, Singles(LongTags(limit)))
    ensures HasLoop(html, LongTags(limit), limit, {}) &&
      !HasLoop(html, LongTags(limit), limit, Everywhere(LongTags(limit)))
    ensures !SameForAllSplits(html, limit, LongTags(limit))
  {
    var s := LongTags(limit);
    LongTagsReach(html, limit, 0, 0);
    HasLoopIsReached(html, s, limit, {});
    WholeTextVerdict(html, limit, s);
    forall i | 0 <= i < |s| ensures !TagAt(html, s, i, 0, Everywhere(s)) {
      NoneIsShorter(html, limit, i, 0, Everywhere(s));
    }
    SinglesVerdict(html, limit, s);
    JoinSingles(s);
  }
}
