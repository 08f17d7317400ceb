/** Text helpers shared by the streaming detectors and the JSON splitter: fragments, ASCII space, ASCII case
    folding and held-back prefixes. A Go string is a sequence of bytes; each byte is one char here. */
module FoldText {

  function Lower(c: char): char {
    if 'A' <= c <= 'Z' then c - 'A' + 'a' else c
  }

  /** The text that arrives in fragments. */
  function Join(fragments: seq<string>): string {
    if fragments == [] then "" else fragments[0] + Join(fragments[1..])
  }

  predicate IsSpace(c: char) {
    c == ' ' || c == '\t' || c == '\n' || c == '\r' || c == '\U{0B}' || c == '\U{0C}'
  }

  function TrimLeft(s: string): string {
    if s != "" && IsSpace(s[0]) then TrimLeft(s[1..]) else s
  }

  function TrimRight(s: string): string {
    if s != "" && IsSpace(s[|s| - 1]) then TrimRight(s[..|s| - 1]) else s
  }

  /** strings.TrimSpace, on ASCII space. */
  function TrimSpace(s: string): string {
    TrimRight(TrimLeft(s))
  }

  const CAPITALS := "ABCDEFGHIJKLMNOPQRSTUVWXYZ"
  const SMALL_LETTERS := "abcdefghijklmnopqrstuvwxyz"
  const SPACES := " \t\n\r\U{0B}\U{0C}"

  /** Folding maps the ASCII capitals to the small letters and keeps everything else. */
  lemma LowerIsAscii(c: char)
    ensures forall i | 0 <= i < 26 :: Lower(CAPITALS[i]) == SMALL_LETTERS[i]
    ensures c !in CAPITALS ==> Lower(c) == c
  {
    if 'A' <= c <= 'Z' {
      var i := c as int - 'A' as int;
      assert CAPITALS[i] == c;
    }
  }

  lemma SpaceIsListed(c: char)
    ensures IsSpace(c) <==> c in SPACES
  {
    assert SPACES[0] == ' ' && SPACES[1] == '\t' && SPACES[2] == '\n' && SPACES[3] == '\r' &&
      SPACES[4] == '\U{0B}' && SPACES[5] == '\U{0C}';
  }

  ghost predicate IsTight(s: string) {
    s != "" ==> s[0] !in SPACES && s[|s| - 1] !in SPACES
  }

  /** Space on either side goes, and nothing else. */
  lemma TrimIs(a: string, s: string, b: string)
    requires IsTight(s) && forall c | c in a || c in b :: c in SPACES
    ensures TrimSpace(a + s + b) == s
  {
    forall c ensures IsSpace(c) <==> c in SPACES {
      SpaceIsListed(c);
    }
    assert a + s + b == a + (s + b);
    if s == "" {
      assert a + s + b == a + b && a + b + "" == a + b;
      TrimsLeading(a + b, "");
    } else {
      assert (s + b)[0] == s[0];
      TrimsLeading(a, s + b);
      TrimsTrailing(s, b);
    }
  }

  lemma {:induction false} TrimsLeading(a: string, s: string)
    requires (forall c | c in a :: IsSpace(c)) && (s != "" ==> !IsSpace(s[0]))
    ensures TrimLeft(a + s) == s
  {
    if a == "" {
      assert a + s == s;
    } else {
      assert (a + s)[1..] == a[1..] + s;
      TrimsLeading(a[1..], s);
    }
  }

  lemma {:induction false} TrimsTrailing(s: string, b: string)
    requires (forall c | c in b :: IsSpace(c)) && s != "" && !IsSpace(s[|s| - 1])
    ensures TrimRight(s + b) == s
    decreases |b|
  {
    if b == "" {
      assert s + b == s;
    } else {
      var n := |b| - 1;
      assert (s + b)[..|s + b| - 1] == s + b[..n] && (s + b)[|s + b| - 1] == b[n];
      TrimsTrailing(s, b[..n]);
    }
  }

  /** m occurs in s at i, up to case. */
  predicate MatchesAt(s: string, i: nat, m: string) {
    i + |m| <= |s| && forall k | 0 <= k < |m| :: Lower(s[i + k]) == Lower(m[k])
  }

  predicate Occurs(s: string, m: string) {
    exists i | 0 <= i <= |s| :: MatchesAt(s, i, m)
  }

  /** What follows position j in s is a proper prefix of m, up to case. */
  predicate PendingAt(s: string, j: nat, m: string) {
    j <= |s| < j + |m| && forall k | 0 <= k < |s| - j :: Lower(s[j + k]) == Lower(m[k])
  }

  /** The first position from j on after which only a proper prefix of m remains. */
  function HoldStart(s: string, j: nat, m: string): (h: nat)
    requires m != "" && j <= |s|
    ensures j <= h <= |s| && PendingAt(s, h, m)
    ensures forall k | j <= k < h :: !PendingAt(s, k, m)
    decreases |s| - j
  {
    if PendingAt(s, j, m) then j else HoldStart(s, j + 1, m)
  }

  /** strings.EqualFold on slices, as the loops of the source use it. */
  predicate EqualFold(a: string, b: string) {
    |a| == |b| && MatchesAt(a, 0, b)
  }

  /** The countdown loop that measures the longest suffix of data that is a proper prefix of marker. */
  method TrailingPrefixLen(data: string, marker: string) returns (r: nat)
    requires marker != ""
    ensures r <= |data| && |data| - r == HoldStart(data, 0, marker)
  {
    var max := |marker| - 1;
    if max > |data| {
      max := |data|;
    }
    r := max;
    while r > 0
      invariant r <= max
      invariant forall j: nat | j < |data| - r :: !PendingAt(data, j, marker)
    {
      HeldWindow(data, r, marker);
      if EqualFold(data[|data| - r..], marker[..r]) {
        return;
      }
      r := r - 1;
    }
    assert PendingAt(data, |data|, marker);
  }

  lemma HeldWindow(s: string, r: nat, m: string)
    requires r < |m| && r <= |s|
    ensures EqualFold(s[|s| - r..], m[..r]) <==> PendingAt(s, |s| - r, m)
  {
    var t := s[|s| - r..];
    if EqualFold(t, m[..r]) {
      forall k | 0 <= k < r ensures Lower(s[|s| - r + k]) == Lower(m[k]) {
        assert Lower(t[0 + k]) == Lower(m[..r][k]);
      }
    }
    if PendingAt(s, |s| - r, m) {
      forall k | 0 <= k < r ensures Lower(t[0 + k]) == Lower(m[..r][k]) {
        assert Lower(s[|s| - r + k]) == Lower(m[k]);
      }
    }
  }

  /** The window test of the scanning loops. */
  lemma WindowMatches(s: string, i: nat, m: string)
    requires i + |m| <= |s|
    ensures EqualFold(s[i..i + |m|], m) <==> MatchesAt(s, i, m)
  {
    var t := s[i..i + |m|];
    if MatchesAt(s, i, m) {
      forall k | 0 <= k < |m| ensures Lower(t[0 + k]) == Lower(m[k]) {
        assert Lower(s[i + k]) == Lower(m[k]);
      }
    }
    if EqualFold(t, m) {
      forall k | 0 <= k < |m| ensures Lower(s[i + k]) == Lower(m[k]) {
        assert Lower(t[0 + k]) == Lower(m[k]);
      }
    }
  }

  lemma MatchInPrefix(s: string, x: string, i: nat, m: string)
    requires i + |m| <= |s|
    ensures MatchesAt(s + x, i, m) <==> MatchesAt(s, i, m)
  {
    assert forall q | 0 <= q < |s| :: (s + x)[q] == s[q];
  }

  lemma MatchInSuffix(a: string, b: string, j: nat, m: string)
    ensures MatchesAt(a + b, |a| + j, m) <==> MatchesAt(b, j, m)
  {
    if MatchesAt(a + b, |a| + j, m) {
      forall k | 0 <= k < |m| ensures Lower(b[j + k]) == Lower(m[k]) {
        assert (a + b)[|a| + j + k] == b[j + k];
      }
    }
    if MatchesAt(b, j, m) {
      forall k | 0 <= k < |m| ensures Lower((a + b)[|a| + j + k]) == Lower(m[k]) {
        assert (a + b)[|a| + j + k] == b[j + k];
      }
    }
  }

  /** A match that runs over the end of s leaves a proper prefix of m pending in s. */
  lemma MatchAcrossEnd(s: string, x: string, i: nat, m: string)
    requires i <= |s| < i + |m| && MatchesAt(s + x, i, m)
    ensures PendingAt(s, i, m)
  {
    forall k | 0 <= k < |s| - i ensures Lower(s[i + k]) == Lower(m[k]) {
      assert (s + x)[i + k] == s[i + k];
    }
  }

  /** A hold measured on a suffix of the text is a hold measured from there. */
  lemma {:induction false} HoldInSuffix(s: string, e: nat, j: nat, m: string)
    requires m != "" && e + j <= |s|
    ensures HoldStart(s, e + j, m) == e + HoldStart(s[e..], j, m)
    decreases |s| - j
  {
    var t := s[e..];
    assert PendingAt(t, j, m) <==> PendingAt(s, e + j, m) by {
      if PendingAt(t, j, m) {
        forall k | 0 <= k < |t| - j ensures Lower(s[e + j + k]) == Lower(m[k]) {
          assert t[j + k] == s[e + j + k];
        }
      }
      if PendingAt(s, e + j, m) {
        forall k | 0 <= k < |t| - j ensures Lower(t[j + k]) == Lower(m[k]) {
          assert t[j + k] == s[e + j + k];
        }
      }
    }
    if !PendingAt(t, j, m) {
      HoldInSuffix(s, e, j + 1, m);
    }
  }
}
