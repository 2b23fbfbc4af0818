/**
 * The duration decoding inside getVideoDuration (questionGenerator.js): the
 * time part of an ISO 8601 duration with designators (section 4.4.3.2 of
 * ISO 8601:2004), matched by the unanchored pattern `PT(\d+H)?(\d+M)?(\d+S)?`
 * and read with parseInt.
 */
module Duration {

  import opened Common

  predicate IsDigit(c: char)
  {
    '0' <= c <= '9'
  }

  predicate AllDigits(d: string)
  {
    forall k :: 0 <= k < |d| ==> IsDigit(d[k])
  }

  function DigitValue(c: char): nat
    requires IsDigit(c)
  {
    c as int - '0' as int
  }

  function DigitChar(n: nat): (c: char)
    requires n < 10
    ensures IsDigit(c) && DigitValue(c) == n
  {
    ('0' as int + n) as char
  }

  /** parseInt on a run of decimal digits. */
  function DigitsValue(d: string): nat
    requires AllDigits(d)
  {
    if |d| == 0 then 0 else DigitsValue(d[..|d| - 1]) * 10 + DigitValue(d[|d| - 1])
  }

  /** The decimal numeral of n, as a duration component is written. */
  function Decimal(n: nat): (d: string)
    ensures |d| > 0 && AllDigits(d)
    ensures DigitsValue(d) == n
  {
    if n < 10 then [DigitChar(n)]
    else
      var d := Decimal(n / 10) + [DigitChar(n % 10)];
      assert d[..|d| - 1] == Decimal(n / 10);
      d
  }

  /** Length of the maximal run of digits at the start of t (what `\d+` consumes greedily). */
  function LeadingDigits(t: string): (n: nat)
    ensures n <= |t| && AllDigits(t[..n])
    ensures n == |t| || !IsDigit(t[n])
  {
    if |t| > 0 && IsDigit(t[0]) then
      var n := 1 + LeadingDigits(t[1..]);
      assert forall k :: 1 <= k < n ==> t[..n][k] == t[1..][..n - 1][k - 1];
      n
    else 0
  }

  /** A matched group `(\d+X)`: its number and the text after the designator. */
  datatype Group = Group(value: nat, rest: string)

  /**
   * The optional group `(\d+X)?` at the start of t: it matches exactly when the
   * maximal digit run is non-empty and followed by the designator (a shorter
   * run would be followed by a digit, so backtracking cannot help).
   */
  function ReadGroup(t: string, designator: char): (r: Option<Group>)
    requires !IsDigit(designator)
    ensures r.Some? ==> |r.value.rest| < |t| && t[|t| - |r.value.rest| - 1] == designator
  {
    var n := LeadingDigits(t);
    if 0 < n < |t| && t[n] == designator then Some(Group(DigitsValue(t[..n]), t[n + 1..])) else None
  }

  function Value(g: Option<Group>): nat
  {
    if g.Some? then g.value.value else 0
  }

  /** The text left after an optional group. */
  function RestAfter(g: Option<Group>, t: string): string
  {
    if g.Some? then g.value.rest else t
  }

  predicate PTAt(s: string, p: nat)
  {
    p + 1 < |s| && s[p] == 'P' && s[p + 1] == 'T'
  }

  /** The leftmost occurrence of "PT" at or after p, where an unanchored match starts. */
  function FindPT(s: string, p: nat): (r: Option<nat>)
    ensures r.Some? ==> p <= r.value && PTAt(s, r.value)
    ensures r.Some? ==> forall q :: p <= q < r.value ==> !PTAt(s, q)
    ensures r.None? ==> forall q :: p <= q ==> !PTAt(s, q)
    decreases |s| - p
  {
    if p + 1 >= |s| then None
    else if PTAt(s, p) then Some(p)
    else FindPT(s, p + 1)
  }

  /**
   * The duration in seconds: hours * 3600 + minutes * 60 + seconds, an absent
   * component counting 0. None when "PT" does not occur: `match` is null there
   * and reading `match[1]` throws.
   */
  function ParseDuration(s: string): (r: Option<nat>)
    ensures r.None? <==> forall q :: 0 <= q ==> !PTAt(s, q)
  {
    match FindPT(s, 0)
    case None => None
    case Some(p) => Some(TimePart(s[p + 2..]))
  }

  /**
   * The three optional groups after "PT", read in order, and the seconds they
   * add up to: hours * 3600 + minutes * 60 + seconds.
   */
  function TimePart(t: string): nat
  {
    var h := ReadGroup(t, 'H');
    Value(h) * 3600 + MinutesPart(RestAfter(h, t))
  }

  /** What follows the hours group: the minutes group and the seconds group. */
  function MinutesPart(t: string): nat
  {
    var m := ReadGroup(t, 'M');
    Value(m) * 60 + SecondsPart(RestAfter(m, t))
  }

  function SecondsPart(t: string): nat
  {
    Value(ReadGroup(t, 'S'))
  }

  // ---------------------------------------------------------------------------
  // The encoding the video API sends, and the round trip

  /** One written component: the numeral and its designator, or nothing when absent. */
  function Part(c: Option<nat>, designator: char): string
  {
    if c.Some? then Decimal(c.value) + [designator] else ""
  }

  function FormatDuration(hours: Option<nat>, minutes: Option<nat>, seconds: Option<nat>): string
  {
    "PT" + (Part(hours, 'H') + (Part(minutes, 'M') + Part(seconds, 'S')))
  }

  function Get(c: Option<nat>): nat
  {
    if c.Some? then c.value else 0
  }

  /** The length in seconds of a written duration, an absent component counting 0. */
  function Seconds(hours: Option<nat>, minutes: Option<nat>, seconds: Option<nat>): nat
  {
    Get(hours) * 3600 + Get(minutes) * 60 + Get(seconds)
  }

  /** The digit run of a numeral followed by a non-digit is exactly the numeral. */
  lemma {:induction false} LeadingDigitsOfNumeral(d: string, x: char, rest: string)
    requires AllDigits(d) && !IsDigit(x)
    ensures LeadingDigits(d + [x] + rest) == |d|
    decreases |d|
  {
    var t := d + [x] + rest;
    if |d| == 0 {
      assert t[0] == x;
    } else {
      assert t[0] == d[0];
      assert t[1..] == d[1..] + [x] + rest;
      LeadingDigitsOfNumeral(d[1..], x, rest);
    }
  }

  /** Reading a numeral followed by a designator. */
  lemma ReadNumeral(v: nat, x: char, rest: string, y: char)
    requires !IsDigit(x) && !IsDigit(y)
    ensures ReadGroup(Decimal(v) + [x] + rest, y) == if x == y then Some(Group(v, rest)) else None
  {
    var d := Decimal(v);
    var t := d + [x] + rest;
    LeadingDigitsOfNumeral(d, x, rest);
    assert t[..|d|] == d;
    assert t[|d|] == x;
    assert t[|d| + 1..] == rest;
  }

  /**
   * The group for designator y over a written part for y followed by text in
   * which no group for y starts: the part's value when present, nothing otherwise.
   */
  lemma ReadPart(c: Option<nat>, y: char, rest: string)
    requires !IsDigit(y)
    requires ReadGroup(rest, y).None?
    ensures ReadGroup(Part(c, y) + rest, y) == if c.Some? then Some(Group(c.value, rest)) else None
    ensures RestAfter(ReadGroup(Part(c, y) + rest, y), Part(c, y) + rest) == rest
  {
    if c.Some? {
      ReadNumeral(c.value, y, rest, y);
    } else {
      assert Part(c, y) + rest == rest;
    }
  }

  /** No group for y starts where a part with another designator, or nothing, is written. */
  lemma NoGroupBefore(c: Option<nat>, x: char, rest: string, y: char)
    requires !IsDigit(x) && !IsDigit(y) && x != y
    requires ReadGroup(rest, y).None?
    ensures ReadGroup(Part(c, x) + rest, y).None?
  {
    if c.Some? {
      ReadNumeral(c.value, x, rest, y);
    } else {
      assert Part(c, x) + rest == rest;
    }
  }

  /** A string that starts with "PT" is decoded from the text right after it. */
  lemma ParseAtStart(t: string)
    ensures ParseDuration("PT" + t) == Some(TimePart(t))
  {
    var s := "PT" + t;
    assert PTAt(s, 0);
    assert FindPT(s, 0) == Some(0);
    assert s[2..] == t;
  }

  /** The seconds group reads back a written seconds component. */
  lemma SecondsOfPart(seconds: Option<nat>)
    ensures SecondsPart(Part(seconds, 'S')) == Get(seconds)
  {
    assert ReadGroup("", 'S').None?;
    assert Part(seconds, 'S') + "" == Part(seconds, 'S');
    ReadPart(seconds, 'S', "");
  }

  /** The minutes and seconds groups read back written components. */
  lemma MinutesOfParts(minutes: Option<nat>, seconds: Option<nat>)
    ensures MinutesPart(Part(minutes, 'M') + Part(seconds, 'S')) == Get(minutes) * 60 + Get(seconds)
  {
    var c := Part(seconds, 'S');
    assert ReadGroup("", 'M').None?;
    assert c + "" == c;
    NoGroupBefore(seconds, 'S', "", 'M');
    ReadPart(minutes, 'M', c);
    SecondsOfPart(seconds);
  }

  /** The groups after "PT" read back the written components. */
  lemma TimePartOfParts(hours: Option<nat>, minutes: Option<nat>, seconds: Option<nat>)
    ensures TimePart(Part(hours, 'H') + (Part(minutes, 'M') + Part(seconds, 'S')))
         == Seconds(hours, minutes, seconds)
  {
    var b, c := Part(minutes, 'M'), Part(seconds, 'S');
    assert ReadGroup("", 'H').None?;
    assert c + "" == c;
    NoGroupBefore(seconds, 'S', "", 'H');
    NoGroupBefore(minutes, 'M', c, 'H');
    ReadPart(hours, 'H', b + c);
    MinutesOfParts(minutes, seconds);
  }

  /**
   * Round trip: decoding a written duration gives hours * 3600 + minutes * 60 +
   * seconds, absent components counting 0.
   */
  lemma ParseFormatRoundTrip(hours: Option<nat>, minutes: Option<nat>, seconds: Option<nat>)
    ensures ParseDuration(FormatDuration(hours, minutes, seconds))
         == Some(Seconds(hours, minutes, seconds))
  {
    var t := Part(hours, 'H') + (Part(minutes, 'M') + Part(seconds, 'S'));
    assert FormatDuration(hours, minutes, seconds) == "PT" + t;
    ParseAtStart(t);
    TimePartOfParts(hours, minutes, seconds);
  }

  lemma WriteOneTwoThree()
    ensures FormatDuration(Some(1), Some(2), Some(3)) == "PT1H2M3S"
  {
    assert Decimal(1) == "1" && Decimal(2) == "2" && Decimal(3) == "3";
  }

  /** The example from the video API: "PT1H2M3S" is 3723 seconds. */
  lemma OneHourTwoMinutesThreeSeconds()
    ensures ParseDuration("PT1H2M3S") == Some(3723)
  {
    WriteOneTwoThree();
    ParseFormatRoundTrip(Some(1), Some(2), Some(3));
  }

  /** A string without "PT" (a day-length "P1DT2H", say) is not decoded. */
  lemma DaysAreNotDecoded()
    ensures ParseDuration("P1DT2H").None?
  {
  }
}
