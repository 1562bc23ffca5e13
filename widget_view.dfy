/** The widget's countdown text (`timeString(until:)`), on whole seconds remaining. */
module WidgetView {
  import opened Wrappers
  import opened Text
  import Seqs

  /** `"now"` once the instant is reached, whole minutes under an hour, and
      hours and minutes beyond. */
  function TimeString(seconds: int): string {
    if seconds <= 0 then "now"
    else
      var mins := seconds / 60;
      if mins < 60 then NatToString(mins) + "m"
      else NatToString(mins / 60) + "h " + NatToString(mins % 60) + "m"
  }

  predicate AllDigits(s: string) {
    forall i :: 0 <= i < |s| ==> IsDigit(s[i])
  }

  function IsHourMark(c: char): bool {
    c == 'h'
  }

  /** Reads a countdown text back as a number of minutes: `"<m>m"` or `"<h>h <m>m"`. */
  function ParseMinutes(r: string): Option<nat> {
    if |r| < 2 || r[|r| - 1] != 'm' then None
    else
      var body := r[..|r| - 1];
      if AllDigits(body) then Some(ParseNat(body)) else ParseHours(body)
  }

  /** Reads `"<h>h <m>"` as `h * 60 + m` minutes. */
  function ParseHours(body: string): Option<nat> {
    match Seqs.FirstIndex(body, IsHourMark)
    case None => None
    case Some(k) => HoursAndMinutes(body[..k], body[k + 1..])
  }

  /** The text around the hour mark: digits before it, a space and digits after. */
  function HoursAndMinutes(hours: string, rest: string): Option<nat> {
    if hours != [] && AllDigits(hours) && |rest| >= 2 && rest[0] == ' ' && AllDigits(rest[1..])
    then Some(ParseNat(hours) * 60 + ParseNat(rest[1..]))
    else None
  }

  lemma ParseShort(m: nat)
    ensures ParseMinutes(NatToString(m) + "m") == Some(m)
  {
    var r := NatToString(m) + "m";
    assert r[..|r| - 1] == NatToString(m);
    ParseNatToString(m);
  }

  /** The first `'h'` of `"<h>h <m>"` is the one after the hour digits. */
  lemma HourMarkAt(hours: string, minutes: string)
    requires AllDigits(hours)
    ensures Seqs.FirstIndex(hours + "h " + minutes, IsHourMark) == Some(|hours|)
  {
    var body := hours + "h " + minutes;
    assert body[|hours|] == 'h';
    forall j | 0 <= j < |hours| ensures !IsHourMark(body[j]) {
      assert body[j] == hours[j];
    }
    Seqs.FirstIndexUnique(body, IsHourMark, |hours|);
  }

  lemma ParseHoursSplit(hours: string, minutes: string)
    requires hours != [] && AllDigits(hours) && minutes != [] && AllDigits(minutes)
    ensures ParseHours(hours + "h " + minutes) == Some(ParseNat(hours) * 60 + ParseNat(minutes))
  {
    var body := hours + "h " + minutes;
    HourMarkAt(hours, minutes);
    assert body[..|hours|] == hours;
    assert body[|hours| + 1..] == " " + minutes;
    assert ParseHours(body) == HoursAndMinutes(hours, " " + minutes);
    HoursAndMinutesSpaced(hours, minutes);
  }

  lemma HoursAndMinutesSpaced(hours: string, minutes: string)
    requires hours != [] && AllDigits(hours) && minutes != [] && AllDigits(minutes)
    ensures HoursAndMinutes(hours, " " + minutes) == Some(ParseNat(hours) * 60 + ParseNat(minutes))
  {
    assert (" " + minutes)[1..] == minutes;
  }

  /** A rendered number is a non-empty digit string that parses back to itself. */
  lemma DigitsOf(n: nat)
    ensures NatToString(n) != [] && AllDigits(NatToString(n)) && ParseNat(NatToString(n)) == n
  {
    ParseNatToString(n);
  }

  lemma ParseLong(hours: string, minutes: string)
    requires hours != [] && AllDigits(hours) && minutes != [] && AllDigits(minutes)
    ensures ParseMinutes(hours + "h " + minutes + "m") == Some(ParseNat(hours) * 60 + ParseNat(minutes))
  {
    var body := hours + "h " + minutes;
    var r := body + "m";
    assert hours + "h " + minutes + "m" == r;
    assert r[..|r| - 1] == body;
    assert body[|hours|] == 'h';
    ParseHoursSplit(hours, minutes);
  }

  /** A countdown of an hour or more reads back as its whole minutes. */
  lemma TimeStringLong(seconds: int)
    requires seconds / 60 >= 60
    ensures ParseMinutes(TimeString(seconds)) == Some(seconds / 60)
  {
    var mins := seconds / 60;
    var hours, minutes := NatToString(mins / 60), NatToString(mins % 60);
    DigitsOf(mins / 60);
    DigitsOf(mins % 60);
    assert TimeString(seconds) == hours + "h " + minutes + "m";
    ParseLong(hours, minutes);
  }

  /** The text of a positive countdown reads back as its whole minutes, and the
      text `"now"` is produced exactly when no time is left. */
  lemma TimeStringMinutes(seconds: int)
    ensures TimeString(seconds) == "now" <==> seconds <= 0
    ensures seconds > 0 ==> ParseMinutes(TimeString(seconds)) == Some(seconds / 60)
  {
    if seconds > 0 {
      var mins := seconds / 60;
      if mins < 60 {
        ParseShort(mins);
      } else {
        TimeStringLong(seconds);
      }
      assert ParseMinutes("now") == None;
    }
  }

  /** Two positive countdowns show the same text exactly when they have the same
      whole minutes: the text is determined by the minutes and loses none of them. */
  lemma TimeStringSameMinutes(s1: int, s2: int)
    requires s1 > 0 && s2 > 0
    ensures TimeString(s1) == TimeString(s2) <==> s1 / 60 == s2 / 60
  {
    TimeStringMinutes(s1);
    TimeStringMinutes(s2);
  }

  /** Under a minute shows `"0m"`; an hour and two minutes shows `"1h 2m"`. */
  lemma TimeStringExamples()
    ensures TimeString(45) == "0m"
    ensures TimeString(3725) == "1h 2m"
    ensures TimeString(0) == "now"
  {
  }
}
