/**
 * src/utils/dateUtils.ts: formatPublishedDate, the "how long ago" label of a
 * video. Times are integer millisecond timestamps: `date` is the parsed
 * publish time, `now` the clock reading, and `localeDate` the text
 * `toLocaleDateString` gives for `date`, which is used for old videos only.
 */
module DateUtils {
  import opened Text

  const MsPerHour: nat := 1000 * 60 * 60
  const MsPerDay: nat := 1000 * 60 * 60 * 24

  /** `Math.abs` on a time difference. */
  function Distance(date: int, now: int): (d: nat)
    ensures d == now - date || d == date - now
  {
    if now >= date then now - date else date - now
  }

  /** `Math.ceil(n / d)`: the least `q` with `q * d >= n`. */
  function CeilDiv(n: nat, d: nat): (q: nat)
    requires d > 0
  {
    (n + d - 1) / d
  }

  /** The ceiling is the least multiple count that reaches `n`. */
  lemma CeilDivBounds(n: nat, d: nat)
    requires d > 0
    ensures CeilDiv(n, d) * d >= n
    ensures CeilDiv(n, d) == 0 || (CeilDiv(n, d) - 1) * d < n
    ensures CeilDiv(n, d) == 0 <==> n == 0
  {
    var q, r := (n + d - 1) / d, (n + d - 1) % d;
    assert n + d - 1 == q * d + r;
    if q > 0 {
      assert (q - 1) * d == q * d - d;
    }
  }

  /** `diffDays`: whole days, rounded up, between the two times. */
  function DiffDays(date: int, now: int): nat {
    CeilDiv(Distance(date, now), MsPerDay)
  }

  /** `hours` of the first branch: whole hours, rounded up. */
  function DiffHours(date: int, now: int): nat {
    CeilDiv(Distance(date, now), MsPerHour)
  }

  /** `weeks` of the third branch: `Math.floor(diffDays / 7)`. */
  function Weeks(date: int, now: int): nat {
    DiffDays(date, now) / 7
  }

  /** formatPublishedDate on the two times and the locale text of `date`. */
  function FormatPublishedDate(date: int, now: int, localeDate: string): string {
    var diffDays := DiffDays(date, now);
    if diffDays == 1 then
      NatToString(DiffHours(date, now)) + " hours ago"
    else if diffDays < 7 then
      NatToString(diffDays) + " days ago"
    else if diffDays < 30 then
      var weeks := Weeks(date, now);
      NatToString(weeks) + " " + (if weeks == 1 then "week" else "weeks") + " ago"
    else
      localeDate
  }

  /** The day count is exactly the number of started 24-hour periods between the times. */
  lemma DiffDaysMeaning(date: int, now: int, days: nat)
    ensures DiffDays(date, now) == days <==>
      if days == 0 then date == now
      else (days - 1) * MsPerDay < Distance(date, now) <= days * MsPerDay
  {
    var n := Distance(date, now);
    CeilDivBounds(n, MsPerDay);
  }

  /** Only the distance between the times matters: a date in the future reads like one in the past. */
  lemma DependsOnDistance(date: int, now: int, date': int, now': int, localeDate: string)
    requires Distance(date, now) == Distance(date', now')
    ensures FormatPublishedDate(date, now, localeDate) == FormatPublishedDate(date', now', localeDate)
    ensures FormatPublishedDate(date, now, localeDate) == FormatPublishedDate(now, date, localeDate)
  {
  }

  /** Up to a day away: the rounded-up hours, between 1 and 24, always with the plural "hours". */
  lemma HoursBranch(date: int, now: int, localeDate: string)
    requires DiffDays(date, now) == 1
    ensures 1 <= DiffHours(date, now) <= 24
    ensures FormatPublishedDate(date, now, localeDate) == NatToString(DiffHours(date, now)) + " hours ago"
  {
    var n := Distance(date, now);
    CeilDivBounds(n, MsPerDay);
    CeilDivBounds(n, MsPerHour);
  }

  /** The same instant, or two to six days away: the day count. */
  lemma DaysBranch(date: int, now: int, localeDate: string)
    requires DiffDays(date, now) == 0 || 2 <= DiffDays(date, now) < 7
    ensures FormatPublishedDate(date, now, localeDate) == NatToString(DiffDays(date, now)) + " days ago"
  {
  }

  /** The same instant reads "0 days ago". */
  lemma SameInstant(date: int, localeDate: string)
    ensures FormatPublishedDate(date, date, localeDate) == "0 days ago"
  {
    assert DiffDays(date, date) == 0;
    assert NatToString(0) == "0";
  }

  /** Seven to 29 days away: one to four whole weeks, singular only for one. */
  lemma WeeksBranch(date: int, now: int, localeDate: string)
    requires 7 <= DiffDays(date, now) < 30
    ensures 1 <= Weeks(date, now) <= 4
    ensures FormatPublishedDate(date, now, localeDate) ==
      NatToString(Weeks(date, now)) + " " + (if Weeks(date, now) == 1 then "week" else "weeks") + " ago"
  {
  }

  /** The locale date is shown from 30 days on, and below that it has no influence on the label. */
  lemma LocaleOnlyWhenOld(date: int, now: int, localeDate: string, other: string)
    ensures DiffDays(date, now) >= 30 ==> FormatPublishedDate(date, now, localeDate) == localeDate
    ensures DiffDays(date, now) < 30 ==>
      FormatPublishedDate(date, now, localeDate) == FormatPublishedDate(date, now, other)
  {
  }

  /** The count in a relative label reads back as the number it was made from. */
  lemma CountReadsBack(date: int, now: int, localeDate: string)
    requires DiffDays(date, now) < 30
    ensures var r := FormatPublishedDate(date, now, localeDate);
      var n := if DiffDays(date, now) == 1 then DiffHours(date, now)
               else if DiffDays(date, now) < 7 then DiffDays(date, now)
               else Weeks(date, now);
      |NatToString(n)| < |r| && r[..|NatToString(n)|] == NatToString(n) && ParseNat(NatToString(n)) == n
  {
    var n := if DiffDays(date, now) == 1 then DiffHours(date, now)
             else if DiffDays(date, now) < 7 then DiffDays(date, now)
             else Weeks(date, now);
    ParseNatToString(n);
  }
}
