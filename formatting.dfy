/**
 * `formatDuration` (the summary's and history's session length) and
 * `formatInterval` (the per-image timer), with readers that take the text
 * back to a number of seconds.
 */
module Formatting {
  import opened Wrappers
  import opened Text
  import opened SwiftNumbers

  // ---- formatDuration ------------------------------------------------------------

  /** The hours, the minutes within the hour and the seconds within the minute, as `formatDuration` computes them. */
  function DurationParts(total: int): (int, int, int)
  {
    (Quot(total, 3600), Quot(Rem(total, 3600), 60), Rem(total, 60))
  }

  /** For a non-negative total the parts are a proper hours/minutes/seconds split. */
  lemma DurationPartsRecombine(total: int)
    requires total >= 0
    ensures var (hours, mins, secs) := DurationParts(total);
      && hours >= 0 && 0 <= mins < 60 && 0 <= secs < 60
      && hours * 3600 + mins * 60 + secs == total
  {
    var h, r := total / 3600, total % 3600;
    var m, s := r / 60, r % 60;
    assert DurationParts(total) == (h, m, total % 60) by {
      QuotRemNatural(total, 3600);
      QuotRemNatural(r, 60);
      QuotRemNatural(total, 60);
    }
    assert total == 3600 * h + r && 0 <= r < 3600;
    assert r == 60 * m + s && 0 <= s < 60;
    assert total % 60 == s by {
      DivisionBy60(60 * h + m, s);
    }
  }

  /** For a negative total no part is positive. */
  lemma DurationPartsOfNegative(total: int)
    requires total < 0
    ensures var (hours, mins, secs) := DurationParts(total); hours <= 0 && mins <= 0 && secs <= 0
  {
    QuotRem(total, 3600);
    QuotRem(Rem(total, 3600), 60);
    QuotRem(total, 60);
  }

  /**
   * `formatDuration`: whole seconds split into hours, minutes and seconds;
   * "Hh MMm" when there are hours (the seconds are not shown), "Mm SSs" when
   * there are minutes, else "Ns".
   */
  function FormatDuration(seconds: real): string
  {
    DurationText(Trunc(seconds))
  }

  /** `formatDuration` once the seconds are truncated to `total`. */
  function DurationText(total: int): string
  {
    var (hours, mins, secs) := DurationParts(total);
    if total < 0 then
      DurationPartsOfNegative(total);
      IntStr(secs) + "s"
    else
      DurationPartsRecombine(total);
      if hours > 0 then IntStr(hours) + ("h " + (Pad2(mins) + "m"))
      else if mins > 0 then IntStr(mins) + ("m " + (Pad2(secs) + "s"))
      else IntStr(secs) + "s"
  }

  /** Reads "Hh MMm", "Mm SSs" or "Ns" back to a number of seconds. */
  function ReadDuration(s: string): Option<int>
  {
    var (a, rest) := ReadNat(s);
    if |rest| == 1 && rest[0] == 's' then Some(a)
    else if |rest| >= 2 && rest[1] == ' ' && (rest[0] == 'h' || rest[0] == 'm') then
      var (b, tail) := ReadNat(rest[2..]);
      if rest[0] == 'h' && |tail| == 1 && tail[0] == 'm' then Some(a * 3600 + b * 60)
      else if rest[0] == 'm' && |tail| == 1 && tail[0] == 's' then Some(a * 60 + b)
      else None
    else None
  }

  /** The reader on a number, a two-character separator, a second number and a unit. */
  lemma ReadDurationFields(s: string, a: nat, sep: string, p: string, b: nat, unit: string)
    requires ReadNat(s) == (a, sep + p) && |sep| == 2 && ReadNat(p) == (b, unit)
    requires sep == "h " || sep == "m "
    ensures sep == "h " && unit == "m" ==> ReadDuration(s) == Some(a * 3600 + b * 60)
    ensures sep == "m " && unit == "s" ==> ReadDuration(s) == Some(a * 60 + b)
  {
    assert (sep + p)[..2] == sep && (sep + p)[2..] == p;
  }

  /** Two digit runs around "h " or "m " and before a unit read back as their numbers. */
  lemma ReadDurationDigits(d: string, sep: string, e: string, unit: string, a: nat, b: nat)
    requires AllDigits(d) && AllDigits(e) && a == Value(d) && b == Value(e)
    requires (sep == "h " && unit == "m") || (sep == "m " && unit == "s")
    ensures sep == "h " ==> ReadDuration(d + (sep + (e + unit))) == Some(a * 3600 + b * 60)
    ensures sep == "m " ==> ReadDuration(d + (sep + (e + unit))) == Some(a * 60 + b)
  {
    var p := e + unit;
    ReadNatOfDigits(d, sep + p);
    ReadNatOfDigits(e, unit);
    ReadDurationFields(d + (sep + p), a, sep, p, b, unit);
  }

  lemma ReadHoursMinutes(hours: nat, mins: nat)
    ensures ReadDuration(Dec(hours) + ("h " + (Pad2(mins) + "m"))) == Some(hours * 3600 + mins * 60)
  {
    ValueOfDec(hours);
    ValueOfPad2(mins);
    ReadDurationDigits(Dec(hours), "h ", Pad2(mins), "m", hours, mins);
  }

  lemma ReadMinutesSeconds(mins: nat, secs: nat)
    ensures ReadDuration(Dec(mins) + ("m " + (Pad2(secs) + "s"))) == Some(mins * 60 + secs)
  {
    ValueOfDec(mins);
    ValueOfPad2(secs);
    ReadDurationDigits(Dec(mins), "m ", Pad2(secs), "s", mins, secs);
  }

  /**
   * Reading a formatted duration gives back the whole seconds it was made
   * from, except that from an hour on the seconds within the minute are dropped.
   */
  lemma ReadFormatDuration(seconds: real)
    requires seconds >= 0.0
    ensures var total := Trunc(seconds);
      ReadDuration(FormatDuration(seconds)) == Some(if total >= 3600 then total - total % 60 else total)
  {
    ReadDurationText(Trunc(seconds));
  }

  lemma ReadDurationText(total: nat)
    ensures ReadDuration(DurationText(total)) == Some(if total >= 3600 then total - total % 60 else total)
  {
    var (hours, mins, secs) := DurationParts(total);
    DurationPartsRecombine(total);
    if hours > 0 {
      ReadHoursText(total, hours, mins);
      assert total % 60 == secs;
    } else if mins > 0 {
      ReadMinutesText(total, mins, secs);
    } else {
      ReadSecondsText(total);
    }
  }

  lemma ReadSecondsText(total: nat)
    requires DurationParts(total).0 == 0 && DurationParts(total).1 == 0 && DurationParts(total).2 == total
    ensures ReadDuration(DurationText(total)) == Some(total)
  {
    assert DurationText(total) == Dec(total) + "s";
    ReadNatOfDec(total, "s");
  }

  lemma ReadHoursText(total: nat, hours: nat, mins: nat)
    requires DurationParts(total).0 == hours && DurationParts(total).1 == mins && hours > 0
    ensures ReadDuration(DurationText(total)) == Some(hours * 3600 + mins * 60)
  {
    assert DurationText(total) == Dec(hours) + ("h " + (Pad2(mins) + "m"));
    ReadHoursMinutes(hours, mins);
  }

  lemma ReadMinutesText(total: nat, mins: nat, secs: nat)
    requires DurationParts(total) == (0, mins, secs) && mins > 0
    requires mins * 60 + secs == total && secs < 60 && total < 3600
    ensures ReadDuration(DurationText(total)) == Some(total)
  {
    assert DurationText(total) == Dec(mins) + ("m " + (Pad2(secs) + "s"));
    ReadMinutesSeconds(mins, secs);
  }

  /** The minutes are always two digits once there are hours. */
  lemma DurationMinutesPadded(seconds: real)
    requires Trunc(seconds) >= 3600
    ensures |FormatDuration(seconds)| == |Dec(Trunc(seconds) / 3600)| + 5
  {
    DurationPartsRecombine(Trunc(seconds));
  }

  // ---- formatInterval --------------------------------------------------------------

  /** `formatInterval`: "Mm Ss" or "Mm" from a minute on, else "Ns"; nothing is zero-padded. */
  function FormatInterval(seconds: real): string
  {
    IntervalText(Trunc(seconds))
  }

  /** `formatInterval` once the seconds are truncated to `total`. */
  function IntervalText(total: int): string
  {
    if total >= 60 then
      var mins, secs := Quot(total, 60), Rem(total, 60);
      if secs > 0 then Dec(mins) + ("m " + (Dec(secs) + "s")) else Dec(mins) + "m"
    else IntStr(total) + "s"
  }

  /** Reads "Mm Ss", "Mm" or "Ns" back to a number of seconds. */
  function ReadInterval(s: string): Option<int>
  {
    var (a, rest) := ReadNat(s);
    if |rest| == 1 && rest[0] == 's' then Some(a)
    else if |rest| == 1 && rest[0] == 'm' then Some(a * 60)
    else if |rest| >= 2 && rest[0] == 'm' && rest[1] == ' ' then
      var (b, tail) := ReadNat(rest[2..]);
      if |tail| == 1 && tail[0] == 's' then Some(a * 60 + b) else None
    else None
  }

  lemma ReadIntervalFields(s: string, a: nat, p: string, b: nat)
    requires ReadNat(s) == (a, "m " + p) && ReadNat(p) == (b, "s")
    ensures ReadInterval(s) == Some(a * 60 + b)
  {
    assert ("m " + p)[2..] == p;
  }

  lemma ReadIntervalDigits(d: string, e: string, a: nat, b: nat)
    requires AllDigits(d) && AllDigits(e) && a == Value(d) && b == Value(e)
    ensures ReadInterval(d + ("m " + (e + "s"))) == Some(a * 60 + b)
  {
    var p := e + "s";
    ReadNatOfDigits(d, "m " + p);
    ReadNatOfDigits(e, "s");
    ReadIntervalFields(d + ("m " + p), a, p, b);
  }

  lemma ReadMinutesAndSeconds(mins: nat, secs: nat)
    ensures ReadInterval(Dec(mins) + ("m " + (Dec(secs) + "s"))) == Some(mins * 60 + secs)
  {
    ValueOfDec(mins);
    ValueOfDec(secs);
    ReadIntervalDigits(Dec(mins), Dec(secs), mins, secs);
  }

  /** Reading a formatted interval gives back exactly its whole seconds. */
  lemma ReadFormatInterval(seconds: real)
    requires seconds >= 0.0
    ensures ReadInterval(FormatInterval(seconds)) == Some(Trunc(seconds))
  {
    var total := Trunc(seconds);
    if total >= 60 {
      var mins, secs := total / 60, total % 60;
      assert total == mins * 60 + secs;
      if secs > 0 {
        ReadMinutesAndSeconds(mins, secs);
      } else {
        ReadNatOfDec(mins, "m");
      }
    } else {
      ReadNatOfDec(total, "s");
    }
  }

  /** Hence distinct whole-second intervals never display alike. */
  lemma FormatIntervalInjective(x: real, y: real)
    requires x >= 0.0 && y >= 0.0 && FormatInterval(x) == FormatInterval(y)
    ensures Trunc(x) == Trunc(y)
  {
    ReadFormatInterval(x);
    ReadFormatInterval(y);
  }

  /** Seconds below ten after the minutes are one digit: no zero padding. */
  lemma IntervalSecondsUnpadded(seconds: real)
    requires Trunc(seconds) >= 60 && 0 < Trunc(seconds) % 60 < 10
    ensures |FormatInterval(seconds)| == |Dec(Trunc(seconds) / 60)| + 4
  {
  }

  // ---- Both formatters ------------------------------------------------------------

  /** Both formatters see only the whole seconds: the fraction is truncated away first. */
  lemma FormattersTruncate(seconds: real)
    ensures FormatDuration(seconds) == FormatDuration(Trunc(seconds) as real)
    ensures FormatInterval(seconds) == FormatInterval(Trunc(seconds) as real)
  {
    assert Trunc(Trunc(seconds) as real) == Trunc(seconds);
  }
}
