/**
 * The API rate-limit panel: four usage counters with a colour each, a
 * countdown to each reset, and a warning when requests near their limit.
 */
module RateLimits {
  import opened Wrappers
  import Decimal

  const MillisPerMinute: nat := 60000

  /** What `getTimeUntilReset` says. */
  datatype Countdown = ResetNow | HoursMinutes(hours: nat, minutes: nat) | Minutes(minutes: nat)

  /**
   * `getTimeUntilReset` for a difference of `diff` milliseconds between the
   * reset time and now (the clock read is a parameter here).
   */
  function TimeUntilReset(diff: int): (c: Countdown)
    ensures c.ResetNow? <==> diff <= 0
    ensures c.HoursMinutes? ==> c.hours > 0 && c.minutes < 60
    ensures c.Minutes? ==> c.minutes < 60
  {
    if diff <= 0 then ResetNow
    else
      var minutes := diff / MillisPerMinute;
      var hours := minutes / 60;
      if hours > 0 then HoursMinutes(hours, minutes % 60) else Minutes(minutes)
  }

  /** The whole minutes a countdown stands for. */
  function TotalMinutes(c: Countdown): nat {
    match c
    case ResetNow => 0
    case HoursMinutes(h, m) => 60 * h + m
    case Minutes(m) => m
  }

  /** A countdown is the remaining time rounded down to a whole minute. */
  lemma CountdownBracketsDiff(diff: int)
    requires diff > 0
    ensures TotalMinutes(TimeUntilReset(diff)) * MillisPerMinute <= diff
    ensures diff < (TotalMinutes(TimeUntilReset(diff)) + 1) * MillisPerMinute
  {
  }

  /** A later reset never shows a shorter countdown. */
  lemma CountdownMonotone(d1: int, d2: int)
    requires d1 <= d2
    ensures TotalMinutes(TimeUntilReset(d1)) <= TotalMinutes(TimeUntilReset(d2))
  {
    if d1 > 0 {
      CountdownBracketsDiff(d1);
      CountdownBracketsDiff(d2);
    }
  }

  /** The text shown: `Reset now`, `Hh Mm` or `Mm`. */
  function Render(c: Countdown): (s: string)
    ensures |s| >= 2
    ensures s[|s| - 1] == 'w' <==> c.ResetNow?
  {
    match c
    case ResetNow => "Reset now"
    case HoursMinutes(h, m) => Decimal.Show(h) + "h " + Decimal.Show(m) + "m"
    case Minutes(m) => Decimal.Show(m) + "m"
  }

  /**
   * Reading a countdown back from its text: `Reset now`, digits and `m`, or
   * digits, `h `, digits and `m`; anything else is not a countdown.
   */
  function ReadCountdown(s: string): Option<Countdown> {
    if s == "Reset now" then Some(ResetNow)
    else
      var k := Decimal.DigitRun(s);
      var t := s[k..];
      if k == 0 then None
      else if t == "m" then Some(Minutes(Decimal.Parse(s[..k])))
      else if |t| >= 4 && t[..2] == "h " && t[|t| - 1] == 'm' && Decimal.AllDigits(t[2..|t| - 1]) then
        Some(HoursMinutes(Decimal.Parse(s[..k]), Decimal.Parse(t[2..|t| - 1])))
      else None
  }

  /** The text gives the countdown back: hours and minutes are read off exactly as they were computed. */
  lemma ReadRender(c: Countdown)
    ensures ReadCountdown(Render(c)) == Some(c)
  {
    match c
    case ResetNow =>
    case Minutes(m) => ReadMinutes(m);
    case HoursMinutes(h, m) => ReadHoursMinutes(h, m);
  }

  lemma ReadMinutes(m: nat)
    ensures ReadCountdown(Decimal.Show(m) + "m") == Some(Minutes(m))
  {
    var d := Decimal.Show(m);
    var s := d + "m";
    NotResetNow(s);
    Decimal.DigitRunOf(d, "m");
    assert s[..|d|] == d && s[|d|..] == "m";
    Decimal.ParseShow(m);
  }

  lemma ReadHoursMinutes(h: nat, m: nat)
    ensures ReadCountdown(Decimal.Show(h) + "h " + Decimal.Show(m) + "m") == Some(HoursMinutes(h, m))
  {
    var dh := Decimal.Show(h);
    var dm := Decimal.Show(m);
    assert dh + "h " + dm + "m" == dh + ("h " + dm + "m");
    ReadHoursMinutesText(dh, dm);
    Decimal.ParseShow(h);
    Decimal.ParseShow(m);
  }

  lemma ReadHoursMinutesText(dh: string, dm: string)
    requires dh != [] && dm != [] && Decimal.AllDigits(dh) && Decimal.AllDigits(dm)
    ensures ReadCountdown(dh + ("h " + dm + "m")) == Some(HoursMinutes(Decimal.Parse(dh), Decimal.Parse(dm)))
  {
    var rest := "h " + dm + "m";
    var s := dh + rest;
    NotResetNow(s);
    Decimal.DigitRunOf(dh, rest);
    assert s[..|dh|] == dh && s[|dh|..] == rest;
    assert |rest| >= 4 && rest[..2] == "h " && rest[|rest| - 1] == 'm';
    assert rest[2..|rest| - 1] == dm;
  }

  /** A text that starts with a digit is not `Reset now`. */
  lemma NotResetNow(s: string)
    requires s != [] && Decimal.IsDigit(s[0])
    ensures s != "Reset now"
  {
    assert "Reset now"[0] == 'R';
  }

  /** Different countdowns never read the same. */
  lemma RenderInjective(c1: Countdown, c2: Countdown)
    requires Render(c1) == Render(c2)
    ensures c1 == c2
  {
    ReadRender(c1);
    ReadRender(c2);
  }

  /** The text reads `Reset now` exactly when the reset time has passed. */
  lemma ResetNowIff(diff: int)
    ensures Render(TimeUntilReset(diff)) == "Reset now" <==> diff <= 0
  {
  }

  // ---------------------------------------------------------------- colours

  datatype Color = Green | Yellow | Red

  function Severity(c: Color): nat {
    match c
    case Green => 0
    case Yellow => 1
    case Red => 2
  }

  /** `(used / limit) * 100`, the JavaScript percentage. */
  function Percentage(used: nat, limit: nat): real
    requires limit > 0
  {
    (used as real / limit as real) * 100.0
  }

  /** `getUsageColor`: red from 90%, yellow from 70%, green below. */
  function UsageColor(used: nat, limit: nat): Color
    requires limit > 0
  {
    var p := Percentage(used, limit);
    if p >= 90.0 then Red else if p >= 70.0 then Yellow else Green
  }

  lemma PercentageScaled(used: nat, limit: nat)
    requires limit > 0
    ensures Percentage(used, limit) * limit as real == used as real * 100.0
  {
  }

  /** The thresholds in whole numbers: red iff 10·used ≥ 9·limit, yellow iff 7·limit ≤ 10·used < 9·limit. */
  lemma UsageColorIff(used: nat, limit: nat)
    requires limit > 0
    ensures UsageColor(used, limit) == Red <==> 10 * used >= 9 * limit
    ensures UsageColor(used, limit) == Yellow <==> 7 * limit <= 10 * used < 9 * limit
    ensures UsageColor(used, limit) == Green <==> 10 * used < 7 * limit
  {
    PercentageScaled(used, limit);
    ScaledAtLeast(Percentage(used, limit), limit as real, used as real * 100.0, 90.0);
    ScaledAtLeast(Percentage(used, limit), limit as real, used as real * 100.0, 70.0);
  }

  /** With `p · l == v` and `l` positive, `p` reaches `t` exactly when `v` reaches `t · l`. */
  lemma ScaledAtLeast(p: real, l: real, v: real, t: real)
    requires l > 0.0 && p * l == v
    ensures p >= t <==> v >= t * l
  {
    if p >= t {
      assert p * l - t * l == (p - t) * l;
    } else {
      assert t * l - p * l == (t - p) * l;
    }
  }

  /** More usage against the same limit never shows a milder colour. */
  lemma UsageColorMonotone(u1: nat, u2: nat, limit: nat)
    requires limit > 0 && u1 <= u2
    ensures Severity(UsageColor(u1, limit)) <= Severity(UsageColor(u2, limit))
  {
    UsageColorIff(u1, limit);
    UsageColorIff(u2, limit);
  }

  /** The banner below the counters: requests past 80% of their limit. */
  predicate ApproachingLimit(used: nat, limit: nat)
    requires limit > 0
  {
    used as real / limit as real > 0.8
  }

  lemma ApproachingLimitIff(used: nat, limit: nat)
    requires limit > 0
    ensures ApproachingLimit(used, limit) <==> 5 * used > 4 * limit
  {
    var l := limit as real;
    var u := used as real;
    assert (u / l) * l == u;
    assert ApproachingLimit(used, limit) <==> u > 0.8 * l;
  }

  datatype Counter = Counter(used: nat, limit: nat)

  const Requests: Counter := Counter(1247, 5000)
  const CreditsPerMinute: Counter := Counter(24, 100)
  const CreditsPerHour: Counter := Counter(456, 2000)
  const CreditsPerDay: Counter := Counter(3421, 10000)

  /** The figures on display are all green, and the request banner stays hidden. */
  lemma ShownFiguresCalm()
    ensures UsageColor(Requests.used, Requests.limit) == Green
    ensures UsageColor(CreditsPerMinute.used, CreditsPerMinute.limit) == Green
    ensures UsageColor(CreditsPerHour.used, CreditsPerHour.limit) == Green
    ensures UsageColor(CreditsPerDay.used, CreditsPerDay.limit) == Green
    ensures !ApproachingLimit(Requests.used, Requests.limit)
  {
    UsageColorIff(Requests.used, Requests.limit);
    UsageColorIff(CreditsPerMinute.used, CreditsPerMinute.limit);
    UsageColorIff(CreditsPerHour.used, CreditsPerHour.limit);
    UsageColorIff(CreditsPerDay.used, CreditsPerDay.limit);
    ApproachingLimitIff(Requests.used, Requests.limit);
  }
}
