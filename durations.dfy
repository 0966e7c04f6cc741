/** Remaining wait before a claim, and its human-readable rendering. */
module Durations {
  import opened Wrappers
  import opened Js
  import opened Decimal
  import opened Strings

  function Max(a: int, b: int): int {
    if a < b then b else a
  }

  /**
   * calculateWaitTime with the clock reading `now` as a parameter: the
   * milliseconds from `now` until `next`, and 0 when `next` is absent, NaN,
   * 0 or not in the future.
   */
  function CalculateWaitTime(next: Option<Num>, now: int): (wait: nat)
    ensures !Present(next) ==> wait == 0
    ensures Present(next) ==> now + wait == Max(next.value.value, now)
  {
    if !Present(next) || next.value.value <= now then 0 else next.value.value - now
  }

  /** Waiting `wait` milliseconds from `now` reaches the next claim time, and not before. */
  lemma WaitReachesNext(next: Option<Num>, now: int)
    requires Present(next)
    ensures now + CalculateWaitTime(next, now) >= next.value.value
    ensures CalculateWaitTime(next, now) > 0 ==> now + CalculateWaitTime(next, now) == next.value.value
  {
  }

  /** Hours, minutes and seconds of a duration. */
  datatype Clock = Clock(hours: nat, minutes: nat, seconds: nat)

  /** The split of whole seconds that formatDuration computes. */
  function Split(total: nat): (c: Clock)
    ensures c.hours * 3600 + c.minutes * 60 + c.seconds == total
    ensures c.minutes < 60 && c.seconds < 60
  {
    var q := total / 60;
    assert total == 60 * q + total % 60;
    assert q == 60 * (q / 60) + q % 60;
    assert total / 3600 == q / 60;
    Clock(total / 3600, q % 60, total % 60)
  }

  /** The whole seconds formatDuration renders: 0 for a missing, NaN, zero or negative duration. */
  function WholeSeconds(ms: Option<Num>): nat {
    if Present(ms) && ms.value.value > 0 then ms.value.value / 1000 else 0
  }

  /** A number followed by its unit, as in the template literals of formatDuration. */
  function Part(n: nat, unit: string): string {
    NatToString(n) + unit
  }

  /**
   * formatDuration: "0秒" for a missing, NaN, zero or negative duration;
   * otherwise the whole seconds as "H小时M分S秒", "M分S秒" or "S秒".
   */
  function FormatDuration(ms: Option<Num>): string {
    if !Present(ms) || ms.value.value < 0 then "0秒"
    else Render(Split(ms.value.value / 1000))
  }

  /** The three shapes: "H小时M分S秒" when there are hours, "M分S秒" when there are minutes, "S秒" otherwise. */
  function Render(c: Clock): string {
    if c.hours > 0 then Part(c.hours, "小时") + Part(c.minutes, "分") + Part(c.seconds, "秒")
    else if c.minutes > 0 then Part(c.minutes, "分") + Part(c.seconds, "秒")
    else Part(c.seconds, "秒")
  }

  /** Reads a number followed by `unit`, returning the number and the text after the unit. */
  function ReadPart(t: string, unit: string): Option<(nat, string)> {
    match ReadNat(t)
    case None => None
    case Some((n, r)) => if StartsWith(r, unit) then Some((n, r[|unit|..])) else None
  }

  /** Reads "S秒" with fewer than 60 seconds. */
  function SecondsText(t: string): Option<nat> {
    match ReadPart(t, "秒")
    case Some((s, r)) => if r == [] && s < 60 then Some(s) else None
    case None => None
  }

  /** Reads "M分S秒" with fewer than 60 minutes, as seconds. */
  function MinutesText(t: string): Option<nat> {
    match ReadPart(t, "分")
    case Some((m, r)) =>
      (match SecondsText(r)
       case Some(s) => if m < 60 then Some(m * 60 + s) else None
       case None => None)
    case None => None
  }

  /** Reads the text of FormatDuration back as a number of seconds. */
  function ParseDuration(t: string): Option<nat> {
    match ReadPart(t, "小时")
    case Some((h, r)) =>
      (match MinutesText(r)
       case Some(x) => Some(h * 3600 + x)
       case None => None)
    case None =>
      if ReadPart(t, "分").Some? then MinutesText(t) else SecondsText(t)
  }

  /** A part followed by anything reads back as its number and what follows. */
  lemma ReadPartOf(n: nat, unit: string, rest: string)
    requires |unit| > 0 && !IsDigit(unit[0])
    ensures ReadPart(Part(n, unit) + rest, unit) == Some((n, rest))
  {
    assert Part(n, unit) + rest == NatToString(n) + (unit + rest);
    ReadNatOfNatToString(n, unit + rest);
    assert StartsWith(unit + rest, unit);
    assert (unit + rest)[|unit|..] == rest;
  }

  /** A part does not read as a part with a unit of another first character. */
  lemma ReadPartOther(n: nat, unit: string, other: string, rest: string)
    requires |unit| > 0 && !IsDigit(unit[0]) && |other| > 0 && other[0] != unit[0]
    ensures ReadPart(Part(n, unit) + rest, other) == None
  {
    assert Part(n, unit) + rest == NatToString(n) + (unit + rest);
    ReadNatOfNatToString(n, unit + rest);
    assert (unit + rest)[0] == unit[0];
  }

  lemma SecondsTextOf(s: nat)
    requires s < 60
    ensures SecondsText(Part(s, "秒")) == Some(s)
  {
    assert Part(s, "秒") + [] == Part(s, "秒");
    ReadPartOf(s, "秒", []);
  }

  lemma MinutesTextOf(m: nat, s: nat)
    requires m < 60 && s < 60
    ensures MinutesText(Part(m, "分") + Part(s, "秒")) == Some(m * 60 + s)
  {
    ReadPartOf(m, "分", Part(s, "秒"));
    SecondsTextOf(s);
  }

  lemma ParseSeconds(s: nat)
    requires s < 60
    ensures ParseDuration(Part(s, "秒")) == Some(s)
  {
    assert Part(s, "秒") + [] == Part(s, "秒");
    ReadPartOther(s, "秒", "小时", []);
    ReadPartOther(s, "秒", "分", []);
    SecondsTextOf(s);
  }

  lemma ParseMinutes(m: nat, s: nat)
    requires m < 60 && s < 60
    ensures ParseDuration(Part(m, "分") + Part(s, "秒")) == Some(m * 60 + s)
  {
    ReadPartOther(m, "分", "小时", Part(s, "秒"));
    ReadPartOf(m, "分", Part(s, "秒"));
    MinutesTextOf(m, s);
  }

  lemma ParseAfterHours(t: string, h: nat, rest: string, x: nat)
    requires ReadPart(t, "小时") == Some((h, rest)) && MinutesText(rest) == Some(x)
    ensures ParseDuration(t) == Some(h * 3600 + x)
  {
  }

  lemma ParseHours(h: nat, m: nat, s: nat)
    requires m < 60 && s < 60
    ensures ParseDuration(Part(h, "小时") + (Part(m, "分") + Part(s, "秒"))) == Some(h * 3600 + (m * 60 + s))
  {
    var rest := Part(m, "分") + Part(s, "秒");
    ReadPartOf(h, "小时", rest);
    MinutesTextOf(m, s);
    ParseAfterHours(Part(h, "小时") + rest, h, rest, m * 60 + s);
  }

  lemma RenderedHours(c: Clock)
    requires c.hours > 0
    ensures Render(c) == Part(c.hours, "小时") + (Part(c.minutes, "分") + Part(c.seconds, "秒"))
  {
  }

  /** The hours shape reads back as the seconds of its clock. */
  lemma RenderHoursRoundTrip(c: Clock)
    requires c.hours > 0 && c.minutes < 60 && c.seconds < 60
    ensures ParseDuration(Render(c)) == Some(c.hours * 3600 + c.minutes * 60 + c.seconds)
  {
    RenderedHours(c);
    ParseHours(c.hours, c.minutes, c.seconds);
  }

  /** The minutes shape reads back as the seconds of its clock. */
  lemma RenderMinutesRoundTrip(c: Clock)
    requires c.hours == 0 && 0 < c.minutes < 60 && c.seconds < 60
    ensures ParseDuration(Render(c)) == Some(c.minutes * 60 + c.seconds)
  {
    ParseMinutes(c.minutes, c.seconds);
  }

  /** The seconds shape reads back as the seconds of its clock. */
  lemma RenderSecondsRoundTrip(c: Clock)
    requires c.hours == 0 && c.minutes == 0 && c.seconds < 60
    ensures ParseDuration(Render(c)) == Some(c.seconds)
  {
    ParseSeconds(c.seconds);
  }

  /** Every shape reads back as the seconds of the clock it renders. */
  lemma RenderRoundTrip(c: Clock)
    requires c.minutes < 60 && c.seconds < 60
    ensures ParseDuration(Render(c)) == Some(c.hours * 3600 + c.minutes * 60 + c.seconds)
  {
    if c.hours > 0 {
      RenderHoursRoundTrip(c);
    } else if c.minutes > 0 {
      RenderMinutesRoundTrip(c);
    } else {
      RenderSecondsRoundTrip(c);
    }
  }

  /** A positive duration reads back as its whole seconds. */
  lemma PositiveRoundTrip(ms: Option<Num>)
    requires Present(ms) && ms.value.value > 0
    ensures ParseDuration(FormatDuration(ms)) == Some(ms.value.value / 1000)
  {
    SplitRoundTrip(ms.value.value / 1000);
  }

  /** Rendering the split of a number of seconds reads back as that number. */
  lemma SplitRoundTrip(total: nat)
    ensures ParseDuration(Render(Split(total))) == Some(total)
  {
    RenderRoundTrip(Split(total));
  }

  /** A missing, NaN, zero or negative duration is rendered "0秒" and reads back as 0. */
  lemma ZeroRoundTrip(ms: Option<Num>)
    requires !(Present(ms) && ms.value.value > 0)
    ensures ParseDuration(FormatDuration(ms)) == Some(0)
  {
    assert FormatDuration(ms) == Part(0, "秒");
    ParseSeconds(0);
  }

  /**
   * The text is exactly "0秒" when there is no whole second to show: for a
   * missing, NaN, zero or negative duration (the guard) and for one below
   * a second.
   */
  lemma ZeroDuration(ms: Option<Num>)
    ensures FormatDuration(ms) == "0秒" <==> WholeSeconds(ms) == 0
  {
    NoLeadingZero(0);
    assert Part(0, "秒") == "0秒";
    if WholeSeconds(ms) == 0 {
      assert FormatDuration(ms) == Part(0, "秒");
    } else {
      FormatDurationRoundTrip(ms);
      ParseSeconds(0);
    }
  }

  /** The rendered text determines the whole seconds it was made from. */
  lemma FormatDurationRoundTrip(ms: Option<Num>)
    ensures ParseDuration(FormatDuration(ms)) == Some(WholeSeconds(ms))
  {
    if Present(ms) && ms.value.value > 0 {
      PositiveRoundTrip(ms);
    } else {
      ZeroRoundTrip(ms);
    }
  }

  /** Every character of a rendered duration is a digit or one of the unit characters. */
  lemma DurationCharacters(ms: Option<Num>)
    ensures forall i :: 0 <= i < |FormatDuration(ms)| ==>
      IsDigit(FormatDuration(ms)[i]) || FormatDuration(ms)[i] in "小时分秒"
  {
  }

  /**
   * The hours are shown exactly when there is at least one hour, the minutes
   * exactly when there are hours or minutes, and the text ends in seconds.
   */
  lemma FormatDurationShape(ms: Option<Num>)
    ensures var c := Split(WholeSeconds(ms));
      && (Contains(FormatDuration(ms), "小时") <==> c.hours > 0)
      && (Contains(FormatDuration(ms), "分") <==> c.hours > 0 || c.minutes > 0)
      && FormatDuration(ms)[|FormatDuration(ms)| - 1] == '秒'
  {
    var c := Split(WholeSeconds(ms));
    var t := FormatDuration(ms);
    assert StartsWith("小时", "小时") && StartsWith("分", "分");
    if !Present(ms) || ms.value.value < 0 {
      assert t == "0秒";
      LacksHead(t, "小时");
      LacksHead(t, "分");
    } else if c.hours > 0 {
      ContainsAppend(NatToString(c.hours), "小时", "小时");
      ContainsAppend(Part(c.hours, "小时"), Part(c.minutes, "分"), "小时");
      ContainsAppend(Part(c.hours, "小时") + Part(c.minutes, "分"), Part(c.seconds, "秒"), "小时");
      ContainsAppend(NatToString(c.minutes), "分", "分");
      ContainsAppend(Part(c.hours, "小时"), Part(c.minutes, "分"), "分");
      ContainsAppend(Part(c.hours, "小时") + Part(c.minutes, "分"), Part(c.seconds, "秒"), "分");
    } else if c.minutes > 0 {
      DigitsLackUnits(NatToString(c.minutes));
      DigitsLackUnits(NatToString(c.seconds));
      assert '小' !in t;
      LacksHead(t, "小时");
      ContainsAppend(NatToString(c.minutes), "分", "分");
      ContainsAppend(Part(c.minutes, "分"), Part(c.seconds, "秒"), "分");
    } else {
      DigitsLackUnits(NatToString(c.seconds));
      assert '小' !in t && '分' !in t;
      LacksHead(t, "小时");
      LacksHead(t, "分");
    }
  }

  lemma DigitsLackUnits(s: string)
    requires AllDigits(s)
    ensures '小' !in s && '时' !in s && '分' !in s && '秒' !in s
  {
  }
}
