/**
 * The two URL shapes the TikTok parser recognises, modelled without a regular-expression engine.
 *
 *   CANONICAL_PATTERN  /(tiktok.com)\/(\S+)\/(video)\/(\d+)/
 *   SHORT_PATTERN      /((?:vt|vm)?\.?tiktok\.com)\/t\/([a-zA-Z0-9]+)/
 *
 * Each pattern has a ghost "decomposition" predicate (the string holds a substring of the
 * pattern's shape) that gives the meaning of `RegExp.test`, and a computable search that
 * gives what `RegExp.exec` returns: the leftmost match, with greedy quantifiers. The two are
 * proved to agree.
 */
module Patterns {
  import opened Wrappers

  // ---------------------------------------------------------------------------------------
  // Character classes, as ECMAScript regular expressions without the `u` or `s` flags read them
  // ---------------------------------------------------------------------------------------

  /** The ECMAScript WhiteSpace and LineTerminator characters: the complement of `\S`. */
  predicate IsWhitespace(c: char) {
    || c == '\t' || c == '\n' || c == '\U{000B}' || c == '\U{000C}' || c == '\r' || c == ' '
    || c == '\U{00A0}' || c == '\U{1680}' || ('\U{2000}' <= c <= '\U{200A}')
    || c == '\U{2028}' || c == '\U{2029}' || c == '\U{202F}' || c == '\U{205F}'
    || c == '\U{3000}' || c == '\U{FEFF}'
  }

  /** The ECMAScript line terminators: the characters an unescaped `.` does not match. */
  predicate IsLineTerminator(c: char) {
    c == '\n' || c == '\r' || c == '\U{2028}' || c == '\U{2029}'
  }

  /** `\d` */
  predicate IsDigit(c: char) {
    '0' <= c <= '9'
  }

  /** `[a-zA-Z0-9]` */
  predicate IsAsciiAlnum(c: char) {
    ('a' <= c <= 'z') || ('A' <= c <= 'Z') || ('0' <= c <= '9')
  }

  // ---------------------------------------------------------------------------------------
  // CANONICAL_PATTERN
  // ---------------------------------------------------------------------------------------

  /** `(tiktok.com)\/` at position i. The dot is unescaped, so any character but a line
      terminator stands between "tiktok" and "com". The handle starts at i + 11. */
  predicate HostAt(s: string, i: nat) {
    && i + 11 <= |s|
    && s[i..i + 6] == "tiktok"
    && !IsLineTerminator(s[i + 6])
    && s[i + 7..i + 10] == "com"
    && s[i + 10] == '/'
  }

  /** `\/(video)\/(\d+)` can start at position j: "/video/" followed by at least one digit. */
  predicate VideoMarkerAt(s: string, j: nat) {
    j + 8 <= |s| && s[j..j + 7] == "/video/" && IsDigit(s[j + 7])
  }

  /** s[i..e] is a match of CANONICAL_PATTERN whose handle group is s[i + 11..j] and whose id
      group is s[j + 7..e]. */
  ghost predicate CanonicalDecomposition(s: string, i: nat, j: nat, e: nat) {
    && HostAt(s, i)
    && i + 11 < j
    && j + 7 < e <= |s|
    && (forall p | i + 11 <= p < j :: !IsWhitespace(s[p]))
    && s[j..j + 7] == "/video/"
    && (forall p | j + 7 <= p < e :: IsDigit(s[p]))
  }

  /** What `CANONICAL_PATTERN.test(s)` answers: the unanchored pattern matches somewhere. */
  ghost predicate CanonicalMatches(s: string) {
    exists i: nat, j: nat, e: nat :: CanonicalDecomposition(s, i, j, e)
  }

  /** The groups of a CANONICAL_PATTERN match: where it starts, group 1 (host), group 2
      (handle) and group 4 (numeric id). Group 3 is always "video". */
  datatype CanonicalMatch = CanonicalMatch(start: nat, host: string, handle: string, id: string)
  {
    /** Where the handle ends and "/video/" begins. */
    function HandleEnd(): nat {
      start + 11 + |handle|
    }

    /** Where the match ends. */
    function End(): nat {
      HandleEnd() + 7 + |id|
    }
  }

  /** m is a match at m.start with the groups a backtracking matcher picks there: `\S+` as long
      as the rest can still match, then `\d+` as long as possible. */
  ghost predicate GreedyAt(s: string, m: CanonicalMatch) {
    && CanonicalDecomposition(s, m.start, m.HandleEnd(), m.End())
    && m.host == s[m.start..m.start + 10]
    && m.handle == s[m.start + 11..m.HandleEnd()]
    && m.id == s[m.HandleEnd() + 7..m.End()]
    && (forall j': nat, e': nat :: m.HandleEnd() < j' ==> !CanonicalDecomposition(s, m.start, j', e'))
    && (m.End() == |s| || !IsDigit(s[m.End()]))
  }

  /** m is what `CANONICAL_PATTERN.exec(s)` returns: the greedy match at the leftmost start. */
  ghost predicate IsCanonicalExec(s: string, m: CanonicalMatch) {
    && GreedyAt(s, m)
    && (forall i: nat, j: nat, e: nat :: i < m.start ==> !CanonicalDecomposition(s, i, j, e))
  }

  /** The end of the run of non-whitespace characters that starts at k. */
  function NonSpaceRunEnd(s: string, k: nat): (r: nat)
    requires k <= |s|
    ensures k <= r <= |s|
    ensures forall p | k <= p < r :: !IsWhitespace(s[p])
    ensures r == |s| || IsWhitespace(s[r])
    decreases |s| - k
  {
    if k == |s| || IsWhitespace(s[k]) then k else NonSpaceRunEnd(s, k + 1)
  }

  /** The end of the run of digits that starts at k. */
  function DigitRunEnd(s: string, k: nat): (r: nat)
    requires k <= |s|
    ensures k <= r <= |s|
    ensures forall p | k <= p < r :: IsDigit(s[p])
    ensures r == |s| || !IsDigit(s[r])
    decreases |s| - k
  {
    if k == |s| || !IsDigit(s[k]) then k else DigitRunEnd(s, k + 1)
  }

  /** The last position j with lo < j <= hi where "/video/<digit>" starts: the backtracking of
      a greedy `\S+` that first ran to hi. */
  function LastVideoMarker(s: string, lo: nat, hi: nat): (r: Option<nat>)
    requires lo <= hi
    ensures r.Some? ==> lo < r.value <= hi && VideoMarkerAt(s, r.value)
    ensures r.Some? ==> forall j | r.value < j <= hi :: !VideoMarkerAt(s, j)
    ensures r.None? ==> forall j | lo < j <= hi :: !VideoMarkerAt(s, j)
    decreases hi - lo
  {
    if hi == lo then None
    else if VideoMarkerAt(s, hi) then Some(hi)
    else LastVideoMarker(s, lo, hi - 1)
  }

  /** The match of CANONICAL_PATTERN that a backtracking matcher finds when it starts at i. */
  function ExecAt(s: string, i: nat): (r: Option<CanonicalMatch>)
    ensures r.Some? ==> r.value.start == i && GreedyAt(s, r.value)
    ensures r.None? ==> forall j: nat, e: nat :: !CanonicalDecomposition(s, i, j, e)
  {
    if !HostAt(s, i) then None
    else
      var hi := NonSpaceRunEnd(s, i + 11);
      match LastVideoMarker(s, i + 11, hi)
      case None =>
        NoMarkerNoMatch(s, i, hi);
        None
      case Some(j) =>
        var e := DigitRunEnd(s, j + 7);
        var m := CanonicalMatch(i, s[i..i + 10], s[i + 11..j], s[j + 7..e]);
        assert m.HandleEnd() == j && m.End() == e;
        LastMarkerIsGreedy(s, m, hi);
        Some(m)
  }

  /** Without "/video/<digit>" inside the non-whitespace run after the host at i, nothing
      matches at i. */
  lemma NoMarkerNoMatch(s: string, i: nat, hi: nat)
    requires HostAt(s, i) && i + 11 <= hi <= |s| && (hi == |s| || IsWhitespace(s[hi]))
    requires forall p | i + 11 <= p < hi :: !IsWhitespace(s[p])
    requires forall j | i + 11 < j <= hi :: !VideoMarkerAt(s, j)
    ensures forall j: nat, e: nat :: !CanonicalDecomposition(s, i, j, e)
  {
    forall j: nat, e: nat | CanonicalDecomposition(s, i, j, e) ensures false {
      HandleWithinRun(s, i + 11, j, e, hi);
    }
  }

  /** Taking the last "/video/<digit>" of the run as the handle's end and the whole digit run
      after it as the id gives the greedy match. */
  lemma LastMarkerIsGreedy(s: string, m: CanonicalMatch, hi: nat)
    requires HostAt(s, m.start) && m.start + 11 <= hi <= |s| && (hi == |s| || IsWhitespace(s[hi]))
    requires forall p | m.start + 11 <= p < hi :: !IsWhitespace(s[p])
    requires m.start + 11 < m.HandleEnd() <= hi && VideoMarkerAt(s, m.HandleEnd())
    requires forall j | m.HandleEnd() < j <= hi :: !VideoMarkerAt(s, j)
    requires m.End() <= |s| && (m.End() == |s| || !IsDigit(s[m.End()]))
    requires forall p | m.HandleEnd() + 7 <= p < m.End() :: IsDigit(s[p])
    requires m.host == s[m.start..m.start + 10]
    requires m.handle == s[m.start + 11..m.HandleEnd()]
    requires m.id == s[m.HandleEnd() + 7..m.End()]
    ensures GreedyAt(s, m)
  {
    forall j': nat, e': nat | m.HandleEnd() < j' && CanonicalDecomposition(s, m.start, j', e') ensures false {
      HandleWithinRun(s, m.start + 11, j', e', hi);
    }
  }

  /** A handle s[lo..j] followed by "/video/<digits>" lies inside the non-whitespace run from
      lo, and "/video/<digit>" starts where it ends. */
  lemma HandleWithinRun(s: string, lo: nat, j: nat, e: nat, hi: nat)
    requires lo <= hi <= |s| && (hi == |s| || IsWhitespace(s[hi]))
    requires lo < j && j + 7 < e <= |s|
    requires forall p | lo <= p < j :: !IsWhitespace(s[p])
    requires s[j..j + 7] == "/video/"
    requires forall p | j + 7 <= p < e :: IsDigit(s[p])
    ensures lo < j <= hi && VideoMarkerAt(s, j)
  {
    assert IsDigit(s[j + 7]);
  }

  /** The first match of CANONICAL_PATTERN that starts at or after i. */
  function ExecFrom(s: string, i: nat): (r: Option<CanonicalMatch>)
    requires i <= |s|
    ensures r.Some? ==> i <= r.value.start && GreedyAt(s, r.value)
    ensures r.Some? ==> forall i': nat, j: nat, e: nat :: i <= i' < r.value.start ==> !CanonicalDecomposition(s, i', j, e)
    ensures r.None? ==> forall i': nat, j: nat, e: nat :: i <= i' ==> !CanonicalDecomposition(s, i', j, e)
    decreases |s| - i
  {
    var m := ExecAt(s, i);
    if m.Some? then m
    else if i == |s| then None
    else ExecFrom(s, i + 1)
  }

  /** `CANONICAL_PATTERN.exec(s)`: None for JavaScript's `null`, otherwise the groups of the
      leftmost greedy match. */
  function CanonicalExec(s: string): (r: Option<CanonicalMatch>)
    ensures r.Some? <==> CanonicalMatches(s)
    ensures r.Some? ==> IsCanonicalExec(s, r.value)
  {
    ExecFrom(s, 0)
  }

  /** `CANONICAL_PATTERN.test(s)`. */
  function CanonicalTest(s: string): (b: bool)
    ensures b <==> CanonicalMatches(s)
  {
    CanonicalExec(s).Some?
  }

  /** What `exec` returns is a genuine decomposition: a non-empty handle without whitespace
      and a non-empty id made of digits, both read off the input at their positions. */
  lemma CanonicalGroupsWellFormed(s: string)
    requires CanonicalMatches(s)
    ensures var m := CanonicalExec(s).value;
      && |m.handle| > 0 && (forall k | 0 <= k < |m.handle| :: !IsWhitespace(m.handle[k]))
      && |m.id| > 0 && (forall k | 0 <= k < |m.id| :: IsDigit(m.id[k]))
      && m.End() <= |s| && s[m.start..m.End()] == m.host + "/" + m.handle + "/video/" + m.id
  {
    GroupsOfGreedyMatch(s, CanonicalExec(s).value);
  }

  lemma GroupsOfGreedyMatch(s: string, m: CanonicalMatch)
    requires GreedyAt(s, m)
    ensures |m.handle| > 0 && (forall k | 0 <= k < |m.handle| :: !IsWhitespace(m.handle[k]))
    ensures |m.id| > 0 && (forall k | 0 <= k < |m.id| :: IsDigit(m.id[k]))
    ensures m.End() <= |s| && s[m.start..m.End()] == m.host + "/" + m.handle + "/video/" + m.id
  {
    var i, j, e := m.start, m.HandleEnd(), m.End();
    assert CanonicalDecomposition(s, i, j, e);
    forall k | 0 <= k < |m.handle| ensures !IsWhitespace(m.handle[k]) {
      assert m.handle[k] == s[i + 11 + k];
    }
    forall k | 0 <= k < |m.id| ensures IsDigit(m.id[k]) {
      assert m.id[k] == s[j + 7 + k];
    }
    assert s[i..e] == s[i..j] + s[j..j + 7] + s[j + 7..e];
    assert s[i..j] == s[i..i + 10] + s[i + 10..i + 11] + s[i + 11..j];
  }

  /** The leftmost-greedy reading fixes the groups: at most one match satisfies it, so the
      result of `exec` is determined by the pattern alone. */
  lemma {:induction false} CanonicalExecUnique(s: string, m1: CanonicalMatch, m2: CanonicalMatch)
    requires IsCanonicalExec(s, m1) && IsCanonicalExec(s, m2)
    ensures m1 == m2
  {
    assert CanonicalDecomposition(s, m1.start, m1.HandleEnd(), m1.End());
    assert CanonicalDecomposition(s, m2.start, m2.HandleEnd(), m2.End());
    assert m1.start == m2.start;
    assert m1.HandleEnd() == m2.HandleEnd();
  }

  // ---------------------------------------------------------------------------------------
  // SHORT_PATTERN
  // ---------------------------------------------------------------------------------------

  /** `tiktok\.com\/t\/` at p followed by at least one `[a-zA-Z0-9]`: the token starts at p + 13. */
  predicate ShortCoreAt(s: string, p: nat) {
    p + 14 <= |s| && s[p..p + 13] == "tiktok.com/t/" && IsAsciiAlnum(s[p + 13])
  }

  /** What `(?:vt|vm)?\.?` can match. */
  predicate IsShortPrefix(t: string) {
    t in {"", ".", "vt", "vm", "vt.", "vm."}
  }

  /** s[q..e] is a match of SHORT_PATTERN with prefix s[q..p] and token group s[p + 13..e]. */
  ghost predicate ShortDecomposition(s: string, q: nat, p: nat, e: nat) {
    && q <= p
    && p + 13 < e <= |s|
    && IsShortPrefix(s[q..p])
    && s[p..p + 13] == "tiktok.com/t/"
    && (forall k | p + 13 <= k < e :: IsAsciiAlnum(s[k]))
  }

  /** What `SHORT_PATTERN.test(s)` answers. */
  ghost predicate ShortMatches(s: string) {
    exists q: nat, p: nat, e: nat :: ShortDecomposition(s, q, p, e)
  }

  /** The first position at or after p where `tiktok.com/t/<alnum>` starts. */
  function FirstShortCore(s: string, p: nat): (r: Option<nat>)
    requires p <= |s|
    ensures r.Some? ==> p <= r.value && ShortCoreAt(s, r.value)
    ensures r.Some? ==> forall k | p <= k < r.value :: !ShortCoreAt(s, k)
    ensures r.None? ==> forall k | p <= k :: !ShortCoreAt(s, k)
    decreases |s| - p
  {
    if ShortCoreAt(s, p) then Some(p)
    else if p == |s| then None
    else FirstShortCore(s, p + 1)
  }

  /** The end of the run of ASCII letters and digits that starts at k. */
  function AlnumRunEnd(s: string, k: nat): (r: nat)
    requires k <= |s|
    ensures k <= r <= |s|
    ensures forall p | k <= p < r :: IsAsciiAlnum(s[p])
    ensures r == |s| || !IsAsciiAlnum(s[r])
    decreases |s| - k
  {
    if k == |s| || !IsAsciiAlnum(s[k]) then k else AlnumRunEnd(s, k + 1)
  }

  /** The optional `vt`/`vm`/`.` prefix never decides whether SHORT_PATTERN matches: it
      matches exactly when `tiktok.com/t/<alnum>` occurs somewhere. */
  lemma ShortPrefixIrrelevant(s: string)
    ensures ShortMatches(s) <==> exists p: nat :: ShortCoreAt(s, p)
  {
    if ShortMatches(s) {
      var q: nat, p: nat, e: nat :| ShortDecomposition(s, q, p, e);
      assert ShortCoreAt(s, p);
    }
    if p: nat :| ShortCoreAt(s, p) {
      assert s[p..p] == "";
      assert ShortDecomposition(s, p, p, p + 14);
    }
  }

  /** `SHORT_PATTERN.test(s)`. */
  function ShortTest(s: string): (b: bool)
    ensures b <==> ShortMatches(s)
  {
    ShortPrefixIrrelevant(s);
    FirstShortCore(s, 0).Some?
  }

  /** The token group of a SHORT_PATTERN match, and where its `tiktok.com/t/` starts. */
  datatype ShortMatch = ShortMatch(core: nat, token: string)
  {
    /** Where the match ends. */
    function End(): nat {
      core + 13 + |token|
    }
  }

  /** m is the token group of the first SHORT_PATTERN match: the longest `[a-zA-Z0-9]+` after
      the leftmost `tiktok.com/t/` that is followed by one. */
  ghost predicate IsShortExec(s: string, m: ShortMatch) {
    && ShortDecomposition(s, m.core, m.core, m.End())
    && m.token == s[m.core + 13..m.End()]
    && (m.End() == |s| || !IsAsciiAlnum(s[m.End()]))
    && (forall q: nat, p: nat, e: nat :: ShortDecomposition(s, q, p, e) ==> m.core <= p)
  }

  /** The token group of the first SHORT_PATTERN match. None when there is no match. */
  function ShortExec(s: string): (r: Option<ShortMatch>)
    ensures r.Some? <==> ShortMatches(s)
    ensures r.Some? ==> IsShortExec(s, r.value)
  {
    ShortPrefixIrrelevant(s);
    match FirstShortCore(s, 0)
    case None => None
    case Some(p) =>
      var e := AlnumRunEnd(s, p + 13);
      var m := ShortMatch(p, s[p + 13..e]);
      assert m.End() == e;
      assert s[p..p] == "";
      assert forall q: nat, p': nat, e': nat :: ShortDecomposition(s, q, p', e') ==> p <= p' by {
        forall q: nat, p': nat, e': nat | ShortDecomposition(s, q, p', e') ensures p <= p' {
          assert ShortCoreAt(s, p');
        }
      }
      Some(m)
  }

  /** The token group is fixed by the pattern: two first matches with maximal tokens agree. */
  lemma ShortExecUnique(s: string, m1: ShortMatch, m2: ShortMatch)
    requires IsShortExec(s, m1) && IsShortExec(s, m2)
    ensures m1 == m2
  {
    assert m1.core <= m2.core && m2.core <= m1.core;
  }

  // ---------------------------------------------------------------------------------------
  // The two patterns as one tagged result
  // ---------------------------------------------------------------------------------------

  /** The shape of a candidate URL, canonical tried before short as the parser does. */
  datatype UrlShape = Canonical(handle: string, id: string) | ShortLink(token: string) | Unrecognized

  function Classify(s: string): (r: UrlShape)
    ensures r.Canonical? <==> CanonicalMatches(s)
    ensures r.ShortLink? <==> !CanonicalMatches(s) && ShortMatches(s)
    ensures r.Canonical? ==> exists m :: IsCanonicalExec(s, m) && r == Canonical(m.handle, m.id)
    ensures r.ShortLink? ==> exists m :: IsShortExec(s, m) && r == ShortLink(m.token)
    ensures r.ShortLink? ==> |r.token| > 0 && forall k | 0 <= k < |r.token| :: IsAsciiAlnum(r.token[k])
  {
    match CanonicalExec(s)
    case Some(m) => Canonical(m.handle, m.id)
    case None =>
      match ShortExec(s)
      case Some(m) =>
        assert forall k | 0 <= k < |m.token| :: m.token[k] == s[m.core + 13 + k];
        ShortLink(m.token)
      case None => Unrecognized
  }
}
