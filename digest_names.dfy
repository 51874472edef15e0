/**
 * The names under which digests are saved. The packaged pipeline names a
 * digest by `datetime.today().strftime("%Y%m%d%H%M%S")`, the older one by
 * `strftime("%Y%m%d")`.
 */
module DigestNames {
  import opened Numerals

  /** The local wall-clock value `datetime.today()` returns, to the second. */
  datatype LocalTime = LocalTime(year: nat, month: nat, day: nat,
                                 hour: nat, minute: nat, second: nat)
  {
    /** Field ranges of a `datetime`, with a four-digit year. */
    predicate WellFormed() {
      && 1000 <= year <= 9999 && 1 <= month <= 12 && 1 <= day <= 31
      && hour < 24 && minute < 60 && second < 60
    }

    predicate SameDay(other: LocalTime) {
      year == other.year && month == other.month && day == other.day
    }
  }

  /** `strftime("%Y%m%d")`. */
  function DayStamp(t: LocalTime): (s: string)
    ensures |s| == 8
  {
    Pad(t.year, 4) + Pad(t.month, 2) + Pad(t.day, 2)
  }

  /** `strftime("%Y%m%d%H%M%S")`. */
  function SecondStamp(t: LocalTime): (s: string)
    ensures |s| == 14
  {
    DayStamp(t) + Pad(t.hour, 2) + Pad(t.minute, 2) + Pad(t.second, 2)
  }

  /** The leading `|a|` characters of `a + b` are `a`, the rest are `b`. */
  lemma SplitConcat(a: string, b: string, a': string, b': string)
    requires |a| == |a'| && a + b == a' + b'
    ensures a == a' && b == b'
  {
    assert a == (a + b)[..|a|] && a' == (a' + b')[..|a|];
    assert b == (a + b)[|a|..] && b' == (a' + b')[|a|..];
  }

  /** Two well-formed clock values share a day name exactly when they fall on the same day. */
  lemma DayStampIffSameDay(t: LocalTime, u: LocalTime)
    requires t.WellFormed() && u.WellFormed()
    ensures DayStamp(t) == DayStamp(u) <==> t.SameDay(u)
  {
    if DayStamp(t) == DayStamp(u) {
      SplitConcat(Pad(t.year, 4) + Pad(t.month, 2), Pad(t.day, 2),
                  Pad(u.year, 4) + Pad(u.month, 2), Pad(u.day, 2));
      SplitConcat(Pad(t.year, 4), Pad(t.month, 2), Pad(u.year, 4), Pad(u.month, 2));
      PadInjective(t.year, u.year, 4);
      PadInjective(t.month, u.month, 2);
      PadInjective(t.day, u.day, 2);
    }
  }

  /** Two well-formed clock values share a second name only when they are the same instant. */
  lemma SecondStampInjective(t: LocalTime, u: LocalTime)
    requires t.WellFormed() && u.WellFormed()
    requires SecondStamp(t) == SecondStamp(u)
    ensures t == u
  {
    var dt, du := DayStamp(t), DayStamp(u);
    SplitConcat(dt + Pad(t.hour, 2) + Pad(t.minute, 2), Pad(t.second, 2),
                du + Pad(u.hour, 2) + Pad(u.minute, 2), Pad(u.second, 2));
    SplitConcat(dt + Pad(t.hour, 2), Pad(t.minute, 2), du + Pad(u.hour, 2), Pad(u.minute, 2));
    SplitConcat(dt, Pad(t.hour, 2), du, Pad(u.hour, 2));
    DayStampIffSameDay(t, u);
    PadInjective(t.hour, u.hour, 2);
    PadInjective(t.minute, u.minute, 2);
    PadInjective(t.second, u.second, 2);
  }
}
