/**
 * Clock values and their text form. Every row the handlers insert carries
 * `created_at` written as "%Y-%m-%d %H:%M:%S", and "this month" is the
 * "%Y-%m" text of today, so the month test reduces to a 7-character prefix.
 */
module Timestamps {

  datatype DateTime = DateTime(year: nat, month: nat, day: nat, hour: nat, minute: nat, second: nat)

  /** The ranges strftime prints in fixed width (a four-digit year). */
  predicate ValidDateTime(dt: DateTime)
  {
    && dt.year < 10000
    && 1 <= dt.month <= 12
    && 1 <= dt.day <= 31
    && dt.hour < 24 && dt.minute < 60 && dt.second < 60
  }

  function Digit(n: nat): char
    requires n < 10
  {
    (48 + n) as char
  }

  /** Zero-padded two digits, as %m, %d, %H, %M and %S print. */
  function Pad2(n: nat): string
    requires n < 100
  {
    [Digit(n / 10), Digit(n % 10)]
  }

  /** Zero-padded four digits, as %Y prints. */
  function Pad4(n: nat): string
    requires n < 10000
  {
    Pad2(n / 100) + Pad2(n % 100)
  }

  /** "%Y-%m-%d %H:%M:%S" */
  function Stamp(dt: DateTime): (s: string)
    requires ValidDateTime(dt)
    ensures |s| == 19
  {
    Pad4(dt.year) + "-" + Pad2(dt.month) + "-" + Pad2(dt.day) + " "
      + Pad2(dt.hour) + ":" + Pad2(dt.minute) + ":" + Pad2(dt.second)
  }

  /** "%Y-%m" */
  function MonthKey(dt: DateTime): (s: string)
    requires ValidDateTime(dt)
    ensures |s| == 7
  {
    Pad4(dt.year) + "-" + Pad2(dt.month)
  }

  /** `strftime('%Y-%m', created_at) = month`, for timestamps in the format above. */
  predicate InMonth(createdAt: string, month: string)
    ensures InMonth(createdAt, month) ==> |month| == 7 && month <= createdAt
    ensures |month| == 7 && month <= createdAt ==> InMonth(createdAt, month)
  {
    |createdAt| >= 7 && createdAt[..7] == month
  }

  lemma DigitInjective(a: nat, b: nat)
    requires a < 10 && b < 10 && Digit(a) == Digit(b)
    ensures a == b
  {
    assert Digit(a) as int == 48 + a;
    assert Digit(b) as int == 48 + b;
  }

  lemma Pad2Injective(a: nat, b: nat)
    requires a < 100 && b < 100 && Pad2(a) == Pad2(b)
    ensures a == b
  {
    assert Pad2(a)[0] == Pad2(b)[0] && Pad2(a)[1] == Pad2(b)[1];
    DigitInjective(a / 10, b / 10);
    DigitInjective(a % 10, b % 10);
  }

  lemma Pad4Injective(a: nat, b: nat)
    requires a < 10000 && b < 10000 && Pad4(a) == Pad4(b)
    ensures a == b
  {
    assert Pad4(a)[..2] == Pad2(a / 100) && Pad4(b)[..2] == Pad2(b / 100);
    assert Pad4(a)[2..] == Pad2(a % 100) && Pad4(b)[2..] == Pad2(b % 100);
    Pad2Injective(a / 100, b / 100);
    Pad2Injective(a % 100, b % 100);
  }

  /** A stamp begins with the month key of the same instant. */
  lemma StampStartsWithMonth(dt: DateTime)
    requires ValidDateTime(dt)
    ensures Stamp(dt)[..7] == MonthKey(dt)
    ensures InMonth(Stamp(dt), MonthKey(dt))
  {
    var s := Stamp(dt);
    assert s == MonthKey(dt) + ("-" + Pad2(dt.day) + " " + Pad2(dt.hour) + ":" + Pad2(dt.minute) + ":" + Pad2(dt.second));
  }

  /**
   * An order stamped at `dt` falls in the month of `today` exactly when the
   * two instants share year and month.
   */
  lemma {:induction false} StampInMonthIff(dt: DateTime, today: DateTime)
    requires ValidDateTime(dt) && ValidDateTime(today)
    ensures InMonth(Stamp(dt), MonthKey(today)) <==> dt.year == today.year && dt.month == today.month
  {
    StampStartsWithMonth(dt);
    if InMonth(Stamp(dt), MonthKey(today)) {
      var m, n := MonthKey(dt), MonthKey(today);
      assert m == n;
      assert m[..4] == Pad4(dt.year) && n[..4] == Pad4(today.year);
      assert m[5..] == Pad2(dt.month) && n[5..] == Pad2(today.month);
      Pad4Injective(dt.year, today.year);
      Pad2Injective(dt.month, today.month);
    }
  }

  /**
   * A stamp written at `dt` is in month `m` exactly when `m` is the month key
   * of `dt`: the filter matches no other month.
   */
  lemma InMonthOfStamp(dt: DateTime, m: string)
    requires ValidDateTime(dt)
    ensures InMonth(Stamp(dt), m) <==> m == MonthKey(dt)
  {
    StampStartsWithMonth(dt);
  }
}
