/**
 * The sexagesimal parse in `createStarSystem`: the right ascension string
 * (`"14h 39m 36s"`) is matched by `/(\d+)h (\d+)m (\d+)s/` and the
 * declination (`"-60° 50' 02\""`) by `/([+-])(\d+)° (\d+)' (\d+)"/`; each
 * group goes through `parseInt`, and the parts are summed to hours and
 * degrees. The conversion of those totals to radians and to a Cartesian
 * position is trigonometry and is not modelled.
 */
module Coordinates {
  import opened Wrappers

  predicate IsDigit(c: char) {
    '0' <= c <= '9'
  }

  function DigitValue(c: char): nat
    requires IsDigit(c)
  {
    c as int - '0' as int
  }

  /** `parseInt` on a run of decimal digits (leading zeros allowed, as in "06h"). */
  function Value(d: string): nat
    requires forall k :: 0 <= k < |d| ==> IsDigit(d[k])
  {
    if |d| == 0 then 0 else Value(d[..|d| - 1]) * 10 + DigitValue(d[|d| - 1])
  }

  /** The length of the longest run of digits at the start of `t`: what a greedy `\d+` consumes. */
  function DigitRun(t: string): (n: nat)
    ensures n <= |t|
    ensures forall k :: 0 <= k < n ==> IsDigit(t[k])
    ensures n == |t| || !IsDigit(t[n])
  {
    if |t| > 0 && IsDigit(t[0]) then 1 + DigitRun(t[1..]) else 0
  }

  /** One `(\d+)` group followed by literal text: its value and the text left to match. */
  datatype Group = Group(value: nat, rest: string)

  /**
   * A non-empty digit run at the start of `t` followed by `suffix`.
   * Backtracking to a shorter run can never help, because the character
   * after a shorter run is a digit, and no suffix here starts with one.
   */
  function GroupOf(t: string, suffix: string): (r: Option<Group>)
    ensures r.Some? ==> |r.value.rest| + |suffix| < |t|
  {
    var n := DigitRun(t);
    if n > 0 && n + |suffix| <= |t| && t[n..n + |suffix|] == suffix then
      Some(Group(Value(t[..n]), t[n + |suffix|..]))
    else None
  }

  datatype RA = RA(hours: nat, minutes: nat, seconds: nat)
  datatype Dec = Dec(negative: bool, degrees: nat, minutes: nat, seconds: nat)

  /** `/(\d+)h (\d+)m (\d+)s/` matched at the start of `t`. */
  function RAFrom(t: string): Option<RA> {
    match GroupOf(t, "h ")
    case None => None
    case Some(h) =>
      match GroupOf(h.rest, "m ")
      case None => None
      case Some(m) =>
        match GroupOf(m.rest, "s")
        case None => None
        case Some(sec) => Some(RA(h.value, m.value, sec.value))
  }

  /** `/([+-])(\d+)° (\d+)' (\d+)"/` matched at the start of `t`. */
  function DecFrom(t: string): Option<Dec> {
    if |t| > 0 && (t[0] == '+' || t[0] == '-') then
      match GroupOf(t[1..], "° ")
      case None => None
      case Some(d) =>
        match GroupOf(d.rest, "' ")
        case None => None
        case Some(m) =>
          match GroupOf(m.rest, "\"")
          case None => None
          case Some(sec) => Some(Dec(t[0] == '-', d.value, m.value, sec.value))
    else None
  }

  datatype Pattern = RightAscension | Declination

  predicate MatchesAt(p: Pattern, s: string, i: nat)
    requires i <= |s|
  {
    match p
    case RightAscension => RAFrom(s[i..]).Some?
    case Declination => DecFrom(s[i..]).Some?
  }

  /** The first position from `i` whose flag is set: the left-to-right scan of `match`. */
  function FirstSet(flags: seq<bool>, i: nat): (r: Option<nat>)
    requires i <= |flags|
    ensures r.Some? ==> i <= r.value < |flags| && flags[r.value]
    ensures r.Some? ==> forall j :: i <= j < r.value ==> !flags[j]
    ensures r.None? ==> forall j :: i <= j < |flags| ==> !flags[j]
    decreases |flags| - i
  {
    if i == |flags| then None
    else if flags[i] then Some(i)
    else FirstSet(flags, i + 1)
  }

  /** `String.prototype.match` without the global flag: the scan over every start position, the end included. */
  function Leftmost(p: Pattern, s: string): Option<nat> {
    FirstSet(seq(|s| + 1, j requires 0 <= j <= |s| => MatchesAt(p, s, j)), 0)
  }

  /** A pattern that matches at the very start is found there. */
  lemma LeftmostAtStart(p: Pattern, s: string)
    requires MatchesAt(p, s, 0)
    ensures Leftmost(p, s) == Some(0)
  {
  }

  /** A pattern that matches nowhere is not found. */
  lemma LeftmostNowhere(p: Pattern, s: string)
    requires forall j :: 0 <= j <= |s| ==> !MatchesAt(p, s, j)
    ensures Leftmost(p, s) == None
  {
    var flags := seq(|s| + 1, j requires 0 <= j <= |s| => MatchesAt(p, s, j));
    assert forall j :: 0 <= j < |flags| ==> !flags[j];
  }

  /** The RA parts, or `None` where `match` returns `null` (the source then fails on `raParts[1]`). */
  function ParseRA(s: string): Option<RA> {
    match Leftmost(RightAscension, s)
    case None => None
    case Some(i) => RAFrom(s[i..])
  }

  function ParseDec(s: string): Option<Dec> {
    match Leftmost(Declination, s)
    case None => None
    case Some(i) => DecFrom(s[i..])
  }

  /** `parseInt(h) + parseInt(m)/60 + parseInt(s)/3600`, before the conversion to radians. */
  function TotalHours(ra: RA): real {
    ra.hours as real + ra.minutes as real / 60.0 + ra.seconds as real / 3600.0
  }

  /** The declination in degrees, with `decSign` -1 for '-' and 1 for '+'. */
  function TotalDegrees(dec: Dec): real {
    (if dec.negative then -1.0 else 1.0) * (dec.degrees as real + dec.minutes as real / 60.0 + dec.seconds as real / 3600.0)
  }

  /** Well-formed sexagesimal parts give a time of day in [0, 24) hours. */
  lemma HoursWithinDay(ra: RA)
    requires ra.hours < 24 && ra.minutes < 60 && ra.seconds < 60
    ensures 0.0 <= TotalHours(ra) < 24.0
  {
  }

  /** Well-formed parts with fewer than 90 whole degrees give a declination strictly between the poles, on the side the sign says. */
  lemma DegreesWithinSphere(dec: Dec)
    requires dec.degrees < 90 && dec.minutes < 60 && dec.seconds < 60
    ensures -90.0 < TotalDegrees(dec) < 90.0
    ensures dec.negative ==> TotalDegrees(dec) <= 0.0
    ensures !dec.negative ==> TotalDegrees(dec) >= 0.0
  {
  }

  // ---------------------------------------------------------------------
  // Writing coordinates back out, and the round trip

  function DigitChar(d: nat): (c: char)
    requires d < 10
    ensures IsDigit(c) && DigitValue(c) == d
  {
    ('0' as int + d) as char
  }

  /** The decimal digits of `n`, without leading zeros. */
  function Show(n: nat): (r: string)
    ensures |r| > 0
    ensures forall k :: 0 <= k < |r| ==> IsDigit(r[k])
  {
    if n < 10 then [DigitChar(n)] else Show(n / 10) + [DigitChar(n % 10)]
  }

  /** Two-digit fields as the catalogue writes them ("06h 45m 08s"). */
  function Pad(n: nat): (r: string)
    ensures |r| > 0
    ensures forall k :: 0 <= k < |r| ==> IsDigit(r[k])
  {
    if n < 10 then "0" + Show(n) else Show(n)
  }

  function FormatRA(ra: RA): string {
    Pad(ra.hours) + "h " + Pad(ra.minutes) + "m " + Pad(ra.seconds) + "s"
  }

  function FormatDec(dec: Dec): string {
    [if dec.negative then '-' else '+'] + Pad(dec.degrees) + "° " + Pad(dec.minutes) + "' " + Pad(dec.seconds) + "\""
  }

  lemma {:induction false} ValueShow(n: nat)
    ensures Value(Show(n)) == n
  {
    if n >= 10 {
      var r := Show(n);
      assert r[..|r| - 1] == Show(n / 10);
      ValueShow(n / 10);
    }
  }

  /** A leading zero does not change `parseInt`. */
  lemma {:induction false} ValueLeadingZero(d: string)
    requires forall k :: 0 <= k < |d| ==> IsDigit(d[k])
    ensures Value("0" + d) == Value(d)
  {
    if |d| > 0 {
      var z := "0" + d;
      assert z[..|z| - 1] == "0" + d[..|d| - 1];
      ValueLeadingZero(d[..|d| - 1]);
    }
  }

  lemma ValuePad(n: nat)
    ensures Value(Pad(n)) == n
  {
    ValueShow(n);
    if n < 10 {
      ValueLeadingZero(Show(n));
    }
  }

  predicate AllDigits(d: string) {
    |d| > 0 && forall k :: 0 <= k < |d| ==> IsDigit(d[k])
  }

  /** A run of `n` digits followed by a non-digit is exactly the greedy run. */
  lemma {:induction false} RunLength(t: string, n: nat)
    requires n < |t|
    requires forall k :: 0 <= k < n ==> IsDigit(t[k])
    requires !IsDigit(t[n])
    ensures DigitRun(t) == n
  {
    if n > 0 {
      RunLength(t[1..], n - 1);
    }
  }

  /** Digits followed by a suffix that does not start with a digit are read back as one group, leaving what follows. */
  lemma GroupReadsBack(d: string, suffix: string, post: string)
    requires AllDigits(d)
    requires |suffix| > 0 && !IsDigit(suffix[0])
    ensures GroupOf(d + suffix + post, suffix) == Some(Group(Value(d), post))
  {
    var t := d + suffix + post;
    assert t[|d|] == suffix[0];
    RunLength(t, |d|);
    assert t[..|d|] == d;
    assert t[|d|..|d| + |suffix|] == suffix;
    assert t[|d| + |suffix|..] == post;
  }

  /** The three RA groups read back from what FormatRA writes. */
  lemma RAFromFormat(ra: RA)
    ensures RAFrom(FormatRA(ra)) == Some(ra)
  {
    var h, m, sec := Pad(ra.hours), Pad(ra.minutes), Pad(ra.seconds);
    var rest2 := sec + "s" + [];
    var rest1 := m + "m " + rest2;
    assert FormatRA(ra) == h + "h " + rest1;
    GroupReadsBack(h, "h ", rest1);
    GroupReadsBack(m, "m ", rest2);
    GroupReadsBack(sec, "s", []);
    ValuePad(ra.hours);
    ValuePad(ra.minutes);
    ValuePad(ra.seconds);
  }

  /** Parsing what FormatRA writes gives back the same parts; this covers every catalogue entry. */
  lemma RoundTripRA(ra: RA)
    ensures ParseRA(FormatRA(ra)) == Some(ra)
  {
    var s := FormatRA(ra);
    RAFromFormat(ra);
    assert s[0..] == s;
    LeftmostAtStart(RightAscension, s);
  }

  /** What FormatDec writes: the sign character, then the degrees, minutes and seconds with their marks. */
  lemma DecShape(dec: Dec)
    ensures var s := FormatDec(dec);
      && s[0] == (if dec.negative then '-' else '+')
      && s[1..] == Pad(dec.degrees) + "° " + (Pad(dec.minutes) + "' " + (Pad(dec.seconds) + "\"" + []))
  {
    var body := Pad(dec.degrees) + "° " + (Pad(dec.minutes) + "' " + (Pad(dec.seconds) + "\"" + []));
    assert FormatDec(dec) == [if dec.negative then '-' else '+'] + body;
  }

  /** The sign and three groups read back from what FormatDec writes. */
  lemma DecFromFormat(dec: Dec)
    ensures DecFrom(FormatDec(dec)) == Some(dec)
  {
    var d, m, sec := Pad(dec.degrees), Pad(dec.minutes), Pad(dec.seconds);
    var rest2 := sec + "\"" + [];
    var rest1 := m + "' " + rest2;
    DecShape(dec);
    GroupReadsBack(d, "° ", rest1);
    GroupReadsBack(m, "' ", rest2);
    GroupReadsBack(sec, "\"", []);
    ValuePad(dec.degrees);
    ValuePad(dec.minutes);
    ValuePad(dec.seconds);
  }

  /** Parsing what FormatDec writes gives back the same sign and parts. */
  lemma RoundTripDec(dec: Dec)
    ensures ParseDec(FormatDec(dec)) == Some(dec)
  {
    var s := FormatDec(dec);
    DecFromFormat(dec);
    assert s[0..] == s;
    LeftmostAtStart(Declination, s);
  }

  /** Sirius A's right ascension "06h 45m 08s" reads as 6 h 45 m 8 s. */
  lemma SiriusRightAscension()
    ensures ParseRA("06h 45m 08s") == Some(RA(6, 45, 8))
  {
    assert Pad(6) == "06" && Pad(45) == "45" && Pad(8) == "08" by {
      assert Show(45) == Show(4) + [DigitChar(5)];
    }
    assert FormatRA(RA(6, 45, 8)) == "06h 45m 08s";
    RoundTripRA(RA(6, 45, 8));
  }

  /** Sirius A's declination "-16° 42' 58\"" reads as south, 16° 42' 58". */
  lemma SiriusDeclination()
    ensures ParseDec("-16° 42' 58\"") == Some(Dec(true, 16, 42, 58))
  {
    assert Pad(16) == "16" && Pad(42) == "42" && Pad(58) == "58" by {
      assert Show(16) == Show(1) + [DigitChar(6)];
      assert Show(42) == Show(4) + [DigitChar(2)];
      assert Show(58) == Show(5) + [DigitChar(8)];
    }
    assert FormatDec(Dec(true, 16, 42, 58)) == "-16° 42' 58\"";
    RoundTripDec(Dec(true, 16, 42, 58));
  }

  /** The shortest text the right ascension pattern can match, "0h 0m 0s", has eight characters. */
  lemma RAAtLeastEight(t: string)
    requires RAFrom(t).Some?
    ensures |t| >= 8
  {
    var h := GroupOf(t, "h ").value;
    var m := GroupOf(h.rest, "m ").value;
    assert GroupOf(m.rest, "s").Some?;
  }

  /** A string with no match yields `null` in the source: here `None`. */
  lemma NoMatchExample()
    ensures ParseRA("14h 39m") == None
  {
    var s := "14h 39m";
    forall j | 0 <= j <= |s|
      ensures !MatchesAt(RightAscension, s, j)
    {
      if RAFrom(s[j..]).Some? {
        RAAtLeastEight(s[j..]);
      }
    }
    LeftmostNowhere(RightAscension, s);
  }
}
