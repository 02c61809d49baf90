/** The two record sets the dashboard aggregates, reduced to the columns the
    aggregations read, and Python's `str` of an integer, which the monthly view
    uses to build its month labels. */
module Rental {

  /** One row of the daily record set (one calendar day). `holiday` is 0 on a
      working day; `cnt` is the day's total count. */
  datatype DayRecord = DayRecord(
    year: int, mnth: int, month: string,
    season: int, seasonStr: string,
    weekday: int, dayName: string,
    holiday: int,
    casual: int, registered: int, cnt: int)

  /** One row of the hourly record set (one hour of one day). */
  datatype HourRecord = HourRecord(hr: int, casual: int, registered: int, cnt: int)

  // The measured columns, as functions a group-by can aggregate.
  function DayCasual(r: DayRecord): int { r.casual }
  function DayRegistered(r: DayRecord): int { r.registered }
  function DayCnt(r: DayRecord): int { r.cnt }
  function HourCasual(r: HourRecord): int { r.casual }
  function HourRegistered(r: HourRecord): int { r.registered }
  function HourCnt(r: HourRecord): int { r.cnt }

  predicate IsDigit(c: char)
  {
    '0' <= c <= '9'
  }

  function DigitChar(d: int): (c: char)
    requires 0 <= d < 10
    ensures IsDigit(c)
  {
    ('0' as int + d) as char
  }

  /** The decimal digits of `n`, most significant first, without leading zeros. */
  function Digits(n: nat): (s: string)
    ensures s != []
    ensures forall i :: 0 <= i < |s| ==> IsDigit(s[i])
    ensures s[0] == '0' <==> n == 0
    ensures n < 10 <==> |s| == 1
  {
    if n < 10 then [DigitChar(n)] else Digits(n / 10) + [DigitChar(n % 10)]
  }

  /** Python's `str(i)` for an integer `i`. */
  function IntToStr(i: int): (s: string)
    ensures s != []
    ensures forall k :: 0 <= k < |s| ==> IsDigit(s[k]) || s[k] == '-'
    ensures forall k :: 0 < k < |s| ==> IsDigit(s[k])
    ensures s[0] == '-' <==> i < 0
    ensures i >= 0 ==> (s[0] != '0' || s == "0")
    ensures i < 0 ==> |s| >= 2 && s[1] != '0'
  {
    if i < 0 then "-" + Digits(-i) else Digits(i)
  }

  /** The number a string of decimal digits spells. */
  function DigitsValue(s: string): int
  {
    if s == [] then 0 else DigitsValue(s[..|s| - 1]) * 10 + (s[|s| - 1] as int - '0' as int)
  }

  /** Python's `int(s)` on what `IntToStr` produces. */
  function ParseInt(s: string): int
  {
    if s != [] && s[0] == '-' then -DigitsValue(s[1..]) else DigitsValue(s)
  }

  lemma {:induction false} DigitsRoundTrip(n: nat)
    ensures DigitsValue(Digits(n)) == n
  {
    if n >= 10 {
      DigitsRoundTrip(n / 10);
      var s := Digits(n);
      assert s[..|s| - 1] == Digits(n / 10);
    }
  }

  /** `str` loses nothing: `int(str(i)) == i`. */
  lemma IntToStrRoundTrip(i: int)
    ensures ParseInt(IntToStr(i)) == i
  {
    if i < 0 {
      DigitsRoundTrip(-i);
      assert IntToStr(i)[1..] == Digits(-i);
    } else {
      DigitsRoundTrip(i);
    }
  }
}
