/** The streaming detector of the hallucinated "[Tool]:" role marker, internal/sse/tool_role_marker_guard.go. */
module ToolRoleGuard {

  import opened FoldText
  import opened RepeatGuard

  const TOOL_ROLE_MARKER := "[Tool]:"

  /** The first occurrence of m at or after j, or the end of s. */
  function FirstMatch(s: string, j: nat, m: string): (i: nat)
    requires m != "" && j <= |s|
    ensures j <= i <= |s|
    decreases |s| - j
  {
    if j == |s| || MatchesAt(s, j, m) then j else FirstMatch(s, j + 1, m)
  }

  lemma {:induction false} FirstMatchIsFirst(s: string, j: nat, m: string)
    requires m != "" && j <= |s|
    ensures forall k | j <= k < FirstMatch(s, j, m) :: !MatchesAt(s, k, m)
    ensures FirstMatch(s, j, m) < |s| ==> MatchesAt(s, FirstMatch(s, j, m), m)
    decreases |s| - j
  {
    if j < |s| && !MatchesAt(s, j, m) {
      FirstMatchIsFirst(s, j + 1, m);
    }
  }

  /** The only position with that property. */
  lemma {:induction false} FirstMatchIs(s: string, j: nat, i: nat, m: string)
    requires m != "" && j <= i <= |s| && (i == |s| || MatchesAt(s, i, m))
    requires forall k | j <= k < i :: !MatchesAt(s, k, m)
    ensures FirstMatch(s, j, m) == i
    decreases i - j
  {
    if j < i {
      FirstMatchIs(s, j + 1, i, m);
    }
  }

  /** How much of s may be forwarded: all before the first marker, or all but the longest suffix that
      could still grow into one. */
  function Safe(s: string, m: string): (k: nat)
    requires m != ""
    ensures k <= |s|
  {
    if FirstMatch(s, 0, m) < |s| then FirstMatch(s, 0, m) else HoldStart(s, 0, m)
  }

  // ---------------------------------------------------------------- the guard

  datatype Role = Role(pending: string, tripped: bool)

  const QUIET := Role("", false)

  function RoleFeed(m: string, g: Role, text: string): (string, Role)
    requires m != ""
  {
    if g.tripped then ("", g)
    else
      var data := g.pending + text;
      var i := FirstMatch(data, 0, m);
      if i < |data| then (data[..i], Role("", true))
      else (data[..HoldStart(data, 0, m)], Role(data[HoldStart(data, 0, m)..], false))
  }

  lemma RoleFeedIs(m: string, g: Role, text: string, data: string)
    requires m != "" && !g.tripped && data == g.pending + text
    ensures var i, h := FirstMatch(data, 0, m), HoldStart(data, 0, m);
      RoleFeed(m, g, text) ==
      if i < |data| then (data[..i], Role("", true)) else (data[..h], Role(data[h..], false))
  {
  }

  /** What each fragment releases. */
  function Kept(m: string, g: Role, fragments: seq<string>): (pieces: seq<string>)
    requires m != ""
    decreases |fragments|
  {
    if fragments == [] then []
    else
      var (out, rest) := RoleFeed(m, g, fragments[0]);
      [out] + Kept(m, rest, fragments[1..])
  }

  function RoleAfter(m: string, g: Role, fragments: seq<string>): Role
    requires m != ""
    decreases |fragments|
  {
    if fragments == [] then g else RoleAfter(m, RoleFeed(m, g, fragments[0]).1, fragments[1..])
  }

  method IndexToolRoleMarker(text: string) returns (idx: int)
    ensures idx == -1 || 0 <= idx < |text|
    ensures FirstMatch(text, 0, TOOL_ROLE_MARKER) == if idx == -1 then |text| else idx
  {
    if |text| < |TOOL_ROLE_MARKER| {
      FirstMatchIs(text, 0, |text|, TOOL_ROLE_MARKER);
      return -1;
    }
    var i := 0;
    while i + |TOOL_ROLE_MARKER| <= |text|
      invariant i <= |text|
      invariant forall k: nat | k < i :: !MatchesAt(text, k, TOOL_ROLE_MARKER)
    {
      WindowMatches(text, i, TOOL_ROLE_MARKER);
      if EqualFold(text[i..i + |TOOL_ROLE_MARKER|], TOOL_ROLE_MARKER) {
        FirstMatchIs(text, 0, i, TOOL_ROLE_MARKER);
        return i;
      }
      i := i + 1;
    }
    FirstMatchIs(text, 0, |text|, TOOL_ROLE_MARKER);
    return -1;
  }

  /** The whole-text counterpart. */
  method TrimToolRoleMarker(text: string) returns (kept: string, found: bool)
    ensures found <==> Occurs(text, TOOL_ROLE_MARKER)
    ensures kept == text[..FirstMatch(text, 0, TOOL_ROLE_MARKER)]
  {
    FirstMatchIsFirst(text, 0, TOOL_ROLE_MARKER);
    var idx := IndexToolRoleMarker(text);
    if idx < 0 {
      assert text[..|text|] == text;
      return text, false;
    }
    return text[..idx], true;
  }

  class ToolRoleMarkerGuard {
    var pending: string
    var tripped: bool

    ghost function State(): Role
      reads this
    {
      Role(pending, tripped)
    }

    constructor ()
      ensures State() == QUIET
    {
      pending := "";
      tripped := false;
    }

    method Feed(text: string) returns (kept: string)
      modifies this
      ensures (kept, State()) == RoleFeed(TOOL_ROLE_MARKER, old(State()), text)
    {
      if tripped {
        return "";
      }
      var data := pending + text;
      RoleFeedIs(TOOL_ROLE_MARKER, State(), text, data);
      pending := "";
      var idx := IndexToolRoleMarker(data);
      if idx >= 0 {
        tripped := true;
        return data[..idx];
      }
      var hold := TrailingPrefixLen(data, TOOL_ROLE_MARKER);
      pending := data[|data| - hold..];
      return data[..|data| - hold];
    }
  }

  // ---------------------------------------------------------------- any fragmentation

  /** A match of the longer text before the held suffix would already have been pending. */
  lemma NoMatchBeforeHold(s: string, x: string, k: nat, m: string)
    requires m != "" && FirstMatch(s, 0, m) == |s| && k < HoldStart(s, 0, m)
    ensures !MatchesAt(s + x, k, m) && !PendingAt(s + x, k, m)
  {
    FirstMatchIsFirst(s, 0, m);
    if MatchesAt(s + x, k, m) {
      if k + |m| <= |s| {
        MatchInPrefix(s, x, k, m);
      } else {
        MatchAcrossEnd(s, x, k, m);
      }
    }
    if PendingAt(s + x, k, m) {
      forall q | 0 <= q < |s| - k ensures Lower(s[k + q]) == Lower(m[q]) {
        assert (s + x)[k + q] == s[k + q];
      }
      assert PendingAt(s, k, m);
    }
  }

  lemma {:induction false} FirstMatchInSuffix(a: string, b: string, j: nat, m: string)
    requires m != "" && j <= |b|
    ensures FirstMatch(a + b, |a| + j, m) == |a| + FirstMatch(b, j, m)
    decreases |b| - j
  {
    MatchInSuffix(a, b, j, m);
    if j < |b| && !MatchesAt(b, j, m) {
      FirstMatchInSuffix(a, b, j + 1, m);
    }
  }

  lemma {:induction false} SkipUnmatched(s: string, j: nat, h: nat, m: string)
    requires m != "" && j <= h <= |s| && forall k | j <= k < h :: !MatchesAt(s, k, m) && !PendingAt(s, k, m)
    ensures FirstMatch(s, j, m) == FirstMatch(s, h, m) && HoldStart(s, j, m) == HoldStart(s, h, m)
    decreases h - j
  {
    if j < h {
      SkipUnmatched(s, j + 1, h, m);
    }
  }

  /** Searching the held suffix and the new fragment is searching the whole text. */
  lemma HeldSearchIsWhole(s: string, x: string, m: string)
    requires m != "" && FirstMatch(s, 0, m) == |s|
    ensures var h := HoldStart(s, 0, m);
      var data := s[h..] + x;
      FirstMatch(s + x, 0, m) == h + FirstMatch(data, 0, m) && HoldStart(s + x, 0, m) == h + HoldStart(data, 0, m)
  {
    var h := HoldStart(s, 0, m);
    var data := s[h..] + x;
    assert s[..h] + data == s + x;
    forall k | 0 <= k < h ensures !MatchesAt(s + x, k, m) && !PendingAt(s + x, k, m) {
      NoMatchBeforeHold(s, x, k, m);
    }
    SkipUnmatched(s + x, 0, h, m);
    FirstMatchInSuffix(s[..h], data, 0, m);
    assert (s + x)[h..] == data;
    HoldInSuffix(s + x, h, 0, m);
  }

  /** The guard's state after reading s. */
  function Reading(s: string, m: string): Role
    requires m != ""
  {
    if FirstMatch(s, 0, m) < |s| then Role("", true) else Role(s[HoldStart(s, 0, m)..], false)
  }

  lemma FirstMatchStays(s: string, x: string, m: string)
    requires m != "" && FirstMatch(s, 0, m) < |s|
    ensures FirstMatch(s + x, 0, m) == FirstMatch(s, 0, m)
  {
    FirstMatchIsFirst(s, 0, m);
    var i := FirstMatch(s, 0, m);
    forall k | 0 <= k < i ensures !MatchesAt(s + x, k, m) {
      MatchInPrefix(s, x, k, m);
    }
    MatchInPrefix(s, x, i, m);
    FirstMatchIs(s + x, 0, i, m);
  }

  /** A feed after reading s leaves the guard of the longer text, and releases what may now be forwarded of it. */
  lemma RoleFeedReadsOn(s: string, x: string, m: string)
    requires m != ""
    ensures Safe(s, m) <= Safe(s + x, m)
    ensures RoleFeed(m, Reading(s, m), x) == ((s + x)[Safe(s, m)..Safe(s + x, m)], Reading(s + x, m))
  {
    if FirstMatch(s, 0, m) < |s| {
      FirstMatchStays(s, x, m);
      var k := FirstMatch(s, 0, m);
      assert (s + x)[k..k] == "";
    } else {
      var h := HoldStart(s, 0, m);
      assert (s + x)[h..] == s[h..] + x;
      HeldSearchIsWhole(s, x, m);
      ReadingOfTail(s + x, s[h..] + x, h, m);
      RoleFeedIsReading(m, s[h..], x);
    }
  }

  /** A guard that holds p reads p and the new text as if it had read nothing before. */
  lemma RoleFeedIsReading(m: string, p: string, x: string)
    requires m != ""
    ensures RoleFeed(m, Role(p, false), x) == ((p + x)[..Safe(p + x, m)], Reading(p + x, m))
  {
  }

  /** Nothing before the tail matters to what the guard keeps and forwards. */
  lemma ReadingOfTail(text: string, data: string, h: nat, m: string)
    requires m != "" && h <= |text| && data == text[h..]
    requires FirstMatch(text, 0, m) == h + FirstMatch(data, 0, m) && HoldStart(text, 0, m) == h + HoldStart(data, 0, m)
    ensures Reading(text, m) == Reading(data, m) && Safe(text, m) == h + Safe(data, m)
    ensures data[..Safe(data, m)] == text[h..Safe(text, m)]
  {
    assert text[h + HoldStart(data, 0, m)..] == data[HoldStart(data, 0, m)..];
  }

  /** What the first fragment releases, and what the others release after it. */
  lemma FirstKept(s: string, fragments: seq<string>, m: string) returns (first: string)
    requires m != "" && fragments != []
    ensures var next := s + fragments[0];
      && Safe(s, m) + |first| == Safe(next, m) && first == next[Safe(s, m)..Safe(next, m)]
      && Kept(m, Reading(s, m), fragments) == [first] + Kept(m, Reading(next, m), fragments[1..])
  {
    RoleFeedReadsOn(s, fragments[0], m);
    first := RoleFeed(m, Reading(s, m), fragments[0]).0;
  }

  lemma {:induction false} KeptReadsOn(s: string, fragments: seq<string>, m: string)
    requires m != ""
    ensures var text := s + Join(fragments);
      && RoleAfter(m, Reading(s, m), fragments) == Reading(text, m)
      && Safe(s, m) <= Safe(text, m) && Join(Kept(m, Reading(s, m), fragments)) == text[Safe(s, m)..Safe(text, m)]
    decreases |fragments|
  {
    if fragments == [] {
      assert s + "" == s;
    } else {
      var x, rest := fragments[0], fragments[1..];
      assert s + (x + Join(rest)) == (s + x) + Join(rest);
      RoleFeedReadsOn(s, x, m);
      var _ := FirstKept(s, fragments, m);
      KeptReadsOn(s + x, rest, m);
      ReleasedInTwo(s + x, (s + x) + Join(rest), Safe(s, m), Safe(s + x, m), Safe((s + x) + Join(rest), m));
      JoinOfCons((s + x)[Safe(s, m)..Safe(s + x, m)], Kept(m, Reading(s + x, m), rest));
    }
  }

  lemma ReleasedInTwo(s: string, text: string, a: nat, b: nat, c: nat)
    requires s <= text && a <= b <= |s| && b <= c <= |text|
    ensures s[a..b] + text[b..c] == text[a..c]
  {
  }

  lemma JoinOfCons(first: string, rest: seq<string>)
    ensures Join([first] + rest) == first + Join(rest)
  {
    assert ([first] + rest)[1..] == rest;
  }

  /** However a text is split, the guard forwards exactly the text before the first marker, or all but the
      longest suffix that is a proper prefix of one, and trips exactly when the marker occurs. */
  lemma RoleGuardIgnoresSplits(fragments: seq<string>, m: string)
    requires m != ""
    ensures var text := Join(fragments);
      && Join(Kept(m, QUIET, fragments)) == text[..Safe(text, m)]
      && (RoleAfter(m, QUIET, fragments).tripped <==> Occurs(text, m))
  {
    var text := Join(fragments);
    assert Reading("", m) == QUIET;
    KeptReadsOn("", fragments, m);
    assert "" + text == text && text[0..Safe(text, m)] == text[..Safe(text, m)];
    FirstMatchIsFirst(text, 0, m);
  }
}
