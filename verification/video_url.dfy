/**
 * extractVideoId (script.js): the video id is taken from a pasted YouTube URL
 * with the pattern `^.*(youtu.be\/|v\/|u\/\w\/|embed\/|watch\?v=|&v=)([^#&?]*).*`
 * (no flags). The greedy `^.*` makes the match use the RIGHTMOST marker it can
 * reach, and `.` never crosses a line terminator; the id is the maximal run of
 * characters other than '#', '&' and '?' after that marker, kept only when it is
 * exactly 11 characters long.
 */
module VideoUrl {

  import opened Common

  /** The characters `.` does not match without the `s` flag. */
  predicate IsLineTerminator(c: char)
  {
    c == '\n' || c == '\r' || c == '\U{2028}' || c == '\U{2029}'
  }

  /** `\w` */
  predicate IsWordChar(c: char)
  {
    ('a' <= c <= 'z') || ('A' <= c <= 'Z') || ('0' <= c <= '9') || c == '_'
  }

  /** The characters `[^#&?]` excludes: the id stops at a fragment or query separator. */
  predicate IsIdStop(c: char)
  {
    c == '#' || c == '&' || c == '?'
  }

  /** The literal w occurs in s at position p. */
  predicate LiteralAt(s: string, p: nat, w: string)
  {
    p + |w| <= |s| && s[p..p + |w|] == w
  }

  /** The "youtu.be/" alternative, whose `.` matches any character but a line terminator. */
  predicate ShortMarkerAt(s: string, p: nat)
  {
    LiteralAt(s, p, "youtu") && p + 9 <= |s| && !IsLineTerminator(s[p + 5]) && LiteralAt(s, p + 6, "be/")
  }

  /** The "u/\w/" alternative. */
  predicate UserMarkerAt(s: string, p: nat)
  {
    p + 4 <= |s| && s[p] == 'u' && s[p + 1] == '/' && IsWordChar(s[p + 2]) && s[p + 3] == '/'
  }

  /**
   * The length of the marker group when one of its alternatives matches at p.
   * The alternatives begin with different characters, so at most one can match
   * and the pattern's left-to-right preference is decided by s[p] alone.
   */
  function MarkerAt(s: string, p: nat): (r: Option<nat>)
    ensures r.Some? ==> 2 <= r.value && p + r.value <= |s|
    ensures r.Some? ==> s[p] in "yvuew&"
    ensures r.Some? ==> forall k :: p <= k < p + r.value ==> !IsLineTerminator(s[k])
  {
    if p >= |s| then None
    else if s[p] == 'y' then
      if ShortMarkerAt(s, p) then
        assert s[p..p + 5] == "youtu" && s[p + 6..p + 9] == "be/";
        assert forall k :: p <= k < p + 5 ==> s[k] == s[p..p + 5][k - p];
        assert forall k :: p + 6 <= k < p + 9 ==> s[k] == s[p + 6..p + 9][k - p - 6];
        Some(9)
      else None
    else if s[p] == 'v' then
      if LiteralAt(s, p, "v/") then
        assert s[p + 1] == s[p..p + 2][1];
        Some(2)
      else None
    else if s[p] == 'u' then
      if UserMarkerAt(s, p) then Some(4) else None
    else if s[p] == 'e' then
      if LiteralAt(s, p, "embed/") then
        assert forall k :: p <= k < p + 6 ==> s[k] == s[p..p + 6][k - p];
        Some(6)
      else None
    else if s[p] == 'w' then
      if LiteralAt(s, p, "watch?v=") then
        assert forall k :: p <= k < p + 8 ==> s[k] == s[p..p + 8][k - p];
        Some(8)
      else None
    else if s[p] == '&' then
      if LiteralAt(s, p, "&v=") then
        assert forall k :: p <= k < p + 3 ==> s[k] == s[p..p + 3][k - p];
        Some(3)
      else None
    else None
  }

  /** `^.*` can stop at p: no line terminator before it. */
  predicate Reachable(s: string, p: nat)
  {
    p <= |s| && forall k :: 0 <= k < p ==> !IsLineTerminator(s[k])
  }

  /** The length of the terminator-free prefix: the furthest `^.*` can reach. */
  function Reach(s: string): (n: nat)
    ensures Reachable(s, n)
    ensures forall p :: n < p <= |s| ==> !Reachable(s, p)
  {
    if |s| == 0 || IsLineTerminator(s[0]) then 0
    else
      var n := 1 + Reach(s[1..]);
      assert forall p :: n < p <= |s| && Reachable(s, p) ==> Reachable(s[1..], p - 1);
      n
  }

  /** The rightmost marker at or before p, where the backtracking of `.*` stops. */
  function LastMarker(s: string, p: nat): (r: Option<nat>)
    ensures r.Some? ==> r.value <= p && MarkerAt(s, r.value).Some?
    ensures r.Some? ==> forall q :: r.value < q <= p ==> MarkerAt(s, q).None?
    ensures r.None? ==> forall q :: 0 <= q <= p ==> MarkerAt(s, q).None?
  {
    if MarkerAt(s, p).Some? then Some(p)
    else if p == 0 then None
    else LastMarker(s, p - 1)
  }

  /** The length of the maximal run at the start of t that `[^#&?]*` consumes. */
  function IdLength(t: string): (n: nat)
    ensures n <= |t|
    ensures forall k :: 0 <= k < n ==> !IsIdStop(t[k])
    ensures n == |t| || IsIdStop(t[n])
  {
    if |t| == 0 || IsIdStop(t[0]) then 0 else 1 + IdLength(t[1..])
  }

  /** The run `[^#&?]*` matches from position b. */
  function IdFrom(s: string, b: nat): string
    requires b <= |s|
  {
    s[b..b + IdLength(s[b..])]
  }

  /** The second group when the marker at p is the one the match uses. */
  function IdAfter(s: string, p: nat): string
    requires MarkerAt(s, p).Some?
  {
    IdFrom(s, p + MarkerAt(s, p).value)
  }

  /** The id, or None where the source returns null. */
  function ExtractVideoId(url: string): (r: Option<string>)
    ensures r.Some? ==> |r.value| == 11
    ensures r.Some? ==> forall k :: 0 <= k < |r.value| ==> !IsIdStop(r.value[k])
  {
    match LastMarker(url, Reach(url))
    case None => None
    case Some(p) =>
      var id := IdAfter(url, p);
      if |id| == 11 then Some(id) else None
  }

  // ---------------------------------------------------------------------------
  // The match, stated as the regular expression defines it

  /** p is where the group starts in the match: a reachable marker with none reachable after it. */
  ghost predicate RightmostMarker(url: string, p: nat)
  {
    Reachable(url, p) && MarkerAt(url, p).Some?
    && forall q :: p < q <= |url| && Reachable(url, q) ==> MarkerAt(url, q).None?
  }

  /** The pattern does not match at all: no marker can be reached. */
  ghost predicate NoMarker(url: string)
  {
    forall q :: 0 <= q <= |url| && Reachable(url, q) ==> MarkerAt(url, q).None?
  }

  /** When the pattern matches, the id is the second group if 11 long, null otherwise. */
  lemma ExtractAtRightmostMarker(url: string, p: nat)
    requires RightmostMarker(url, p)
    ensures ExtractVideoId(url) == if |IdAfter(url, p)| == 11 then Some(IdAfter(url, p)) else None
  {
    var n := Reach(url);
    assert p <= n;
    var m := LastMarker(url, n);
    assert m.Some? && m.value >= p;
  }

  /** When the pattern does not match, the result is null. */
  lemma ExtractWithoutMarker(url: string)
    requires NoMarker(url)
    ensures ExtractVideoId(url).None?
  {
    var n := Reach(url);
    var m := LastMarker(url, n);
  }

  const ShortLinkUrl: string := "https://youtu.be/dQw4w9WgXcQ"

  lemma ShortLinkMarker()
    ensures MarkerAt(ShortLinkUrl, 8) == Some(9)
  {
    assert ShortLinkUrl[8..13] == "youtu" && ShortLinkUrl[14..17] == "be/";
  }

  /** The u, e and w letters after "youtu.be/" start no marker. */
  lemma ShortLinkNoLaterMarker()
    ensures forall q :: 8 < q <= |ShortLinkUrl| ==> MarkerAt(ShortLinkUrl, q).None?
  {
    assert ShortLinkUrl[15..21][1] != "embed/"[1];
    assert ShortLinkUrl[19..27][1] != "watch?v="[1];
    assert forall q :: q in {10, 12, 15, 19, 21} ==> MarkerAt(ShortLinkUrl, q).None?;
  }

  lemma ShortLinkId()
    ensures IdFrom(ShortLinkUrl, 17) == "dQw4w9WgXcQ"
  {
    assert ShortLinkUrl[17..] == "dQw4w9WgXcQ";
    assert forall k :: 17 <= k < |ShortLinkUrl| ==> !IsIdStop(ShortLinkUrl[k]);
    WholeRun(ShortLinkUrl, 17);
  }

  /** A tail free of '#', '&' and '?' is consumed whole by `[^#&?]*`. */
  lemma WholeRun(s: string, b: nat)
    requires b <= |s| && forall k :: b <= k < |s| ==> !IsIdStop(s[k])
    ensures IdFrom(s, b) == s[b..]
  {
    assert forall k :: 0 <= k < |s[b..]| ==> s[b..][k] == s[b + k];
  }

  /** The short link form. */
  lemma ShortLink()
    ensures ExtractVideoId(ShortLinkUrl) == Some("dQw4w9WgXcQ")
  {
    ShortLinkMarker();
    ShortLinkNoLaterMarker();
    assert Reachable(ShortLinkUrl, 8);
    ShortLinkId();
    ExtractAtRightmostMarker(ShortLinkUrl, 8);
  }

  const PlainUrl: string := "https://example.com/"

  /** Its two e's are followed by 'x' and '.', so neither starts "embed/". */
  lemma PlainUrlHasNoMarker()
    ensures NoMarker(PlainUrl)
  {
    forall q | 0 <= q <= |PlainUrl|
      ensures MarkerAt(PlainUrl, q).None?
    {
      if q == 8 {
        assert PlainUrl[8..14][1] != "embed/"[1];
      } else if q == 14 {
        assert PlainUrl[14..20][1] != "embed/"[1];
      } else if q < |PlainUrl| {
        assert PlainUrl[q] !in "yvuew&";
      }
    }
  }

  /** A URL that is not a video link gives null. */
  lemma PlainUrlHasNoId()
    ensures ExtractVideoId(PlainUrl).None?
  {
    PlainUrlHasNoMarker();
    ExtractWithoutMarker(PlainUrl);
  }

  /** Every marker starts with one of the letters y, v, u, e, w or '&': a URL without them gives null. */
  lemma WithoutMarkerLetters(url: string)
    requires forall k :: 0 <= k < |url| ==> url[k] !in "yvuew&"
    ensures ExtractVideoId(url).None?
  {
    ExtractWithoutMarker(url);
  }
}
