/** The two display helpers of the dashboard views: the compact Korean view
    count (회, 천회, 만회, 억회) and the relative publication time. */
module Views {
  import opened Wrappers
  import Strings

  const Thousand: nat := 1000
  const TenThousand: nat := 10000
  const HundredMillion: nat := 100000000

  /** The count in tenths of `unit`, rounded to the nearest tenth, ties upwards: the digits
      `(n / unit).toFixed(1)` shows. `d` is a tenth of the unit. */
  function RoundToTenths(n: nat, d: nat): (t: nat)
    requires d > 0
    ensures t * d <= n + d / 2 < t * d + d
  {
    (n + d / 2) / d
  }

  /** `toFixed(1)` of a value held as a count of tenths: integer part, a point, one digit. */
  function ToFixed1(t: nat): (s: string)
    ensures |s| >= 3 && s[|s| - 2] == '.' && Strings.IsDigit(s[|s| - 1])
    ensures '.' !in s[..|s| - 2]
  {
    Strings.NatToString(t / 10) + "." + [Strings.DigitChar(t % 10)]
  }

  predicate EndsWithPointZero(s: string)
  {
    |s| >= 2 && s[|s| - 2..] == ".0"
  }

  /** `s.replace(/\.0$/, '')`. */
  function StripPointZero(s: string): (r: string)
    ensures EndsWithPointZero(s) ==> r + ".0" == s
    ensures !EndsWithPointZero(s) ==> r == s
  {
    if EndsWithPointZero(s) then s[..|s| - 2] else s
  }

  /** A numeral has no superfluous leading zero: a '0' is followed by nothing or by the point. */
  predicate NoLeadingZero(s: string)
  {
    |s| >= 2 && s[0] == '0' ==> s[1] == '.'
  }

  /** Reads a numeral with at most one decimal digit ("12" or "12.5") as a count of tenths. */
  function ParseTenths(s: string): Option<nat>
  {
    match Strings.FirstIndexOf(s, '.')
    case None =>
      (match Strings.ParseNat(s)
       case Some(n) => Some(n * 10)
       case None => None)
    case Some(i) =>
      if i + 2 == |s| && Strings.IsDigit(s[i + 1]) then
        match Strings.ParseNat(s[..i])
        case Some(n) => Some(n * 10 + Strings.DigitValue(s[i + 1]))
        case None => None
      else None
  }

  /** The numeral shown for a count of tenths: `toFixed(1)` with a trailing ".0" removed. */
  function ShowTenths(t: nat): string
  {
    StripPointZero(ToFixed1(t))
  }

  /** The integer part of the shown numeral is the decimal numeral of the whole units. */
  lemma ToFixed1Parts(t: nat)
    ensures ToFixed1(t) == Strings.NatToString(t / 10) + ['.', Strings.DigitChar(t % 10)]
    ensures '.' !in Strings.NatToString(t / 10)
    ensures Strings.ParseNat(Strings.NatToString(t / 10)) == Some(t / 10)
  {
    var whole := Strings.NatToString(t / 10);
    assert forall k :: 0 <= k < |whole| ==> Strings.IsDigit(whole[k]);
    Strings.ParseNatToString(t / 10);
  }

  /** `toFixed(1)` of a count of tenths reads back as that count. */
  lemma ToFixed1ReadsBack(t: nat)
    ensures ParseTenths(ToFixed1(t)) == Some(t)
    ensures NoLeadingZero(ToFixed1(t))
  {
    ToFixed1Parts(t);
    var whole := Strings.NatToString(t / 10);
    var fixed := ToFixed1(t);
    assert Strings.DigitValue(Strings.DigitChar(t % 10)) == t % 10;
    Strings.FirstIndexAt(fixed, '.', |whole|);
    assert fixed[..|whole|] == whole;
  }

  /** A whole count of units is shown without a decimal point. */
  lemma ShowWholeUnits(t: nat)
    requires t % 10 == 0
    ensures ShowTenths(t) == Strings.NatToString(t / 10)
    ensures ParseTenths(ShowTenths(t)) == Some(t)
    ensures !EndsWithPointZero(ShowTenths(t))
    ensures NoLeadingZero(ShowTenths(t))
  {
    ToFixed1Parts(t);
    var whole := Strings.NatToString(t / 10);
    var fixed := ToFixed1(t);
    assert fixed == whole + ".0";
    assert fixed[..|fixed| - 2] == whole;
    assert ShowTenths(t) == whole;
    assert Strings.FirstIndexOf(whole, '.') == None;
    assert ParseTenths(whole) == Some(t / 10 * 10);
    if |whole| >= 2 {
      assert Strings.IsDigit(whole[|whole| - 2]);
    }
  }

  /** Any other count keeps its one decimal digit. */
  lemma ShowFractionalUnits(t: nat)
    requires t % 10 != 0
    ensures ShowTenths(t) == ToFixed1(t)
    ensures ParseTenths(ShowTenths(t)) == Some(t)
    ensures !EndsWithPointZero(ShowTenths(t))
    ensures NoLeadingZero(ShowTenths(t))
  {
    ToFixed1Parts(t);
    var fixed := ToFixed1(t);
    assert Strings.DigitValue(Strings.DigitChar(t % 10)) == t % 10;
    assert fixed[|fixed| - 1] != '0';
    ToFixed1ReadsBack(t);
  }

  /** The shown numeral never ends in ".0", has no superfluous leading zero, keeps the point exactly when the tenth is not zero, and
      reads back as the same count of tenths. */
  lemma {:induction false} ShowTenthsReadsBack(t: nat)
    ensures ParseTenths(ShowTenths(t)) == Some(t)
    ensures !EndsWithPointZero(ShowTenths(t))
    ensures NoLeadingZero(ShowTenths(t))
    ensures t % 10 == 0 <==> '.' !in ShowTenths(t)
  {
    ToFixed1Parts(t);
    if t % 10 == 0 {
      ShowWholeUnits(t);
    } else {
      ShowFractionalUnits(t);
      assert ShowTenths(t)[|Strings.NatToString(t / 10)|] == '.';
    }
  }

  /** The compact view count. The tier is chosen on the unrounded count: at least 1e8 shows tenths
      of 억 (1e8), at least 10000 tenths of 만 (1e4), at least 1000 tenths of 천 (1e3); each numeral
      reads back as the count rounded to the nearest tenth of its unit. Below 1000 the plain count. */
  function FormatViewCount(views: nat): (s: string)
    ensures views >= HundredMillion ==>
      |s| > 2 && s[|s| - 2..] == "억회" && ParseTenths(s[..|s| - 2]) == Some(RoundToTenths(views, HundredMillion / 10))
    ensures TenThousand <= views < HundredMillion ==>
      |s| > 2 && s[|s| - 2..] == "만회" && ParseTenths(s[..|s| - 2]) == Some(RoundToTenths(views, TenThousand / 10))
    ensures Thousand <= views < TenThousand ==>
      |s| > 2 && s[|s| - 2..] == "천회" && ParseTenths(s[..|s| - 2]) == Some(RoundToTenths(views, Thousand / 10))
    ensures views >= Thousand ==> !EndsWithPointZero(s[..|s| - 2]) && NoLeadingZero(s[..|s| - 2])
    ensures views < Thousand ==>
      |s| > 1 && s[|s| - 1..] == "회" && Strings.ParseNat(s[..|s| - 1]) == Some(views)
      && NoLeadingZero(s[..|s| - 1])
  {
    if views >= HundredMillion then
      var numeral := ShowTenths(RoundToTenths(views, HundredMillion / 10));
      ShowTenthsReadsBack(RoundToTenths(views, HundredMillion / 10));
      assert (numeral + "억회")[..|numeral|] == numeral;
      numeral + "억회"
    else if views >= TenThousand then
      var numeral := ShowTenths(RoundToTenths(views, TenThousand / 10));
      ShowTenthsReadsBack(RoundToTenths(views, TenThousand / 10));
      assert (numeral + "만회")[..|numeral|] == numeral;
      numeral + "만회"
    else if views >= Thousand then
      var numeral := ShowTenths(RoundToTenths(views, Thousand / 10));
      ShowTenthsReadsBack(RoundToTenths(views, Thousand / 10));
      assert (numeral + "천회")[..|numeral|] == numeral;
      numeral + "천회"
    else
      var numeral := Strings.NatToString(views);
      Strings.ParseNatToString(views);
      assert (numeral + "회")[..|numeral|] == numeral;
      numeral + "회"
  }

  /** A whole number of 만 drops the decimal: k · 10000 views read "k만회" (20000 views read "2만회"). */
  lemma WholeTenThousands(k: nat)
    requires 1 <= k < 10000
    ensures FormatViewCount(k * TenThousand) == Strings.NatToString(k) + "만회"
  {
    var t := RoundToTenths(k * TenThousand, TenThousand / 10);
    assert k * TenThousand + 500 == 1000 * (10 * k) + 500;
    assert t == 10 * k;
    ShowWholeUnits(t);
  }

  /** Any other count of tenths of 만 keeps its decimal: t · 1000 views read `toFixed(1)` of t tenths
      followed by 만회 (15000 views read "1.5만회"). */
  lemma FractionalTenThousands(t: nat)
    requires 10 <= t < 100000 && t % 10 != 0
    ensures FormatViewCount(t * 1000) == ToFixed1(t) + "만회"
  {
    assert RoundToTenths(t * 1000, TenThousand / 10) == t;
    ShowFractionalUnits(t);
  }

  /** The tier is chosen before rounding: from 9951 to 9999 views the count reads "10천회", not "1만회". */
  lemma TierChosenBeforeRounding(views: nat)
    requires 9951 <= views < TenThousand
    ensures FormatViewCount(views) == "10천회"
  {
    var t := RoundToTenths(views, Thousand / 10);
    assert t == 100;
    ShowWholeUnits(t);
    assert t / 10 == 10;
    assert Strings.NatToString(1) == "1";
  }

  datatype TimeLabel = Text(text: string) | LocaleDate(publishedMs: int)

  const MsPerHour: int := 1000 * 60 * 60
  const MsPerDay: int := 24 * MsPerHour
  const JustNow: string := "방금 전"
  const HoursAgo: string := "시간 전"
  const DaysAgo: string := "일 전"

  /** The relative publication time for instants in milliseconds. Less than an hour, including a
      publication time in the future, is "just now"; thirty days or more falls back to the date. */
  function FormatRelativeTime(nowMs: int, publishedMs: int): (shown: TimeLabel)
    ensures shown == Text(JustNow) <==> nowMs - publishedMs < MsPerHour
    ensures shown.LocaleDate? <==> nowMs - publishedMs >= 30 * MsPerDay
    ensures shown.LocaleDate? ==> shown.publishedMs == publishedMs
  {
    var diffInMs := nowMs - publishedMs;
    // Math.floor of the quotient: Dafny's division by a positive divisor rounds down.
    var diffInHours := diffInMs / MsPerHour;
    if diffInHours < 1 then Text(JustNow)
    else if diffInHours < 24 then
      var text := Strings.NatToString(diffInHours) + HoursAgo;
      assert text[0] != JustNow[0];
      Text(text)
    else
      var diffInDays := diffInHours / 24;
      if diffInDays < 30 then
        var text := Strings.NatToString(diffInDays) + DaysAgo;
        assert text[0] != JustNow[0];
        Text(text)
      else LocaleDate(publishedMs)
  }

  /** Between h and h + 1 hours ago, for h from 1 to 23, the label is "h시간 전". */
  lemma HoursAgoLabel(nowMs: int, publishedMs: int, h: nat)
    requires 1 <= h < 24
    requires h * MsPerHour <= nowMs - publishedMs < (h + 1) * MsPerHour
    ensures FormatRelativeTime(nowMs, publishedMs) == Text(Strings.NatToString(h) + HoursAgo)
  {
    assert (nowMs - publishedMs) / MsPerHour == h;
  }

  /** Between d and d + 1 days ago, for d from 1 to 29, the label is "d일 전". */
  lemma DaysAgoLabel(nowMs: int, publishedMs: int, d: nat)
    requires 1 <= d < 30
    requires d * MsPerDay <= nowMs - publishedMs < (d + 1) * MsPerDay
    ensures FormatRelativeTime(nowMs, publishedMs) == Text(Strings.NatToString(d) + DaysAgo)
  {
    var hours := (nowMs - publishedMs) / MsPerHour;
    assert 24 * d <= hours < 24 * d + 24;
    assert hours / 24 == d;
  }
}
