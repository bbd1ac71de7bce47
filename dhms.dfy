/** The proxy's uptime display: a nanosecond count split into days, hours,
    minutes and seconds with the TimeUnit conversions (truncating long
    division), and printed as `<days>d<HH>:<MM>:<SS>`. */
module Uptime {
  import opened Wire

  const NANOS_PER_SECOND: int := 1_000_000_000
  const NANOS_PER_MINUTE: int := 60 * NANOS_PER_SECOND
  const NANOS_PER_HOUR: int := 60 * NANOS_PER_MINUTE
  const NANOS_PER_DAY: int := 24 * NANOS_PER_HOUR

  /** The four fields nanosToDHMS prints. */
  datatype Fields = Fields(days: int, hours: int, minutes: int, seconds: int)

  /** Each field is a TimeUnit conversion less the next coarser conversion
      brought back to the same unit. No product or difference here can leave
      the long range: a long holds fewer than 107000 days. */
  function Split(ns: int64): Fields
  {
    var days := JavaDiv(ns, NANOS_PER_DAY);
    var totalHours := JavaDiv(ns, NANOS_PER_HOUR);
    var totalMinutes := JavaDiv(ns, NANOS_PER_MINUTE);
    var totalSeconds := JavaDiv(ns, NANOS_PER_SECOND);
    Fields(days, totalHours - 24 * days, totalMinutes - 60 * totalHours, totalSeconds - 60 * totalMinutes)
  }

  /** Dividing by a then by b is dividing by a * b. */
  lemma DivDiv(n: nat, a: nat, b: nat)
    requires a > 0 && b > 0
    ensures n / a / b == n / (a * b)
  {
    var q, r := n / a, n % a;
    var q2, r2 := q / b, q % b;
    Euclid(n, a);
    Euclid(q, b);
    Regroup(a, b, q2, r2, r);
    DivUnique(n, a * b, q2, a * r2 + r);
  }

  /** n is a * (n / a) + n % a, the remainder in [0, a). */
  lemma Euclid(n: nat, a: nat)
    requires a > 0
    ensures n == a * (n / a) + n % a && 0 <= n % a < a
  {
  }

  /** a * (b * q + r2) + r regrouped around a * b, with the new remainder
      below a * b when r2 < b and r < a. */
  lemma Regroup(a: nat, b: nat, q: nat, r2: nat, r: nat)
    requires r2 < b && r < a
    ensures a * (b * q + r2) + r == (a * b) * q + (a * r2 + r)
    ensures a * r2 + r < a * b
  {
    assert a * (b * q) == (a * b) * q;
    MulNonnegative(a, b - 1 - r2);
    assert a * (b - 1 - r2) == a * b - a - a * r2;
  }

  lemma MulNonnegative(x: int, y: int)
    requires x >= 0 && y >= 0
    ensures x * y >= 0
  {
  }

  /** A positive multiple is at least the multiplier, in magnitude. */
  lemma MulSign(d: int, x: int)
    requires d > 0
    ensures x >= 1 ==> d * x >= d
    ensures x <= -1 ==> d * x <= -d
  {
    if x >= 1 {
      MulNonnegative(d, x - 1);
      assert d * x == d + d * (x - 1);
    }
    if x <= -1 {
      MulNonnegative(d, -x - 1);
      assert d * x == -d - d * (-x - 1);
    }
  }

  /** A quotient and remainder in range are the quotient and remainder. */
  lemma DivUnique(n: int, d: int, q: int, r: int)
    requires d > 0 && 0 <= r < d && n == d * q + r
    ensures n / d == q
  {
    var q', r' := n / d, n % d;
    assert n == d * q' + r' && 0 <= r' < d;
    assert d * (q' - q) == r - r';
    MulSign(d, q' - q);
  }

  /** For a non-negative count, each sub-field lies in its clock range. */
  lemma {:induction false} SplitInRange(ns: int64)
    requires ns >= 0
    ensures var f := Split(ns);
      f.days >= 0 && 0 <= f.hours < 24 && 0 <= f.minutes < 60 && 0 <= f.seconds < 60
  {
    var n: nat := ns;
    DivDiv(n, NANOS_PER_HOUR, 24);
    DivDiv(n, NANOS_PER_MINUTE, 60);
    DivDiv(n, NANOS_PER_SECOND, 60);
    Remainder(n / NANOS_PER_HOUR, 24);
    Remainder(n / NANOS_PER_MINUTE, 60);
    Remainder(n / NANOS_PER_SECOND, 60);
  }

  lemma Remainder(n: nat, d: nat)
    requires d > 0
    ensures 0 <= n - d * (n / d) < d
  {
    assert n == d * (n / d) + n % d;
  }

  /** For a negative count the conversions truncate toward zero, so each
      sub-field lies in the negative clock range. */
  lemma {:induction false} SplitInRangeNegative(ns: int64)
    requires ns < 0
    ensures var f := Split(ns);
      f.days <= 0 && -24 < f.hours <= 0 && -60 < f.minutes <= 0 && -60 < f.seconds <= 0
  {
    var n: nat := -(ns as int);
    DivDiv(n, NANOS_PER_HOUR, 24);
    DivDiv(n, NANOS_PER_MINUTE, 60);
    DivDiv(n, NANOS_PER_SECOND, 60);
    Remainder(n / NANOS_PER_HOUR, 24);
    Remainder(n / NANOS_PER_MINUTE, 60);
    Remainder(n / NANOS_PER_SECOND, 60);
  }

  /** The fields add back up to the whole seconds of the count, truncated
      toward zero. */
  lemma SplitTotal(ns: int64)
    ensures var f := Split(ns);
      f.days * 86400 + f.hours * 3600 + f.minutes * 60 + f.seconds == JavaDiv(ns, NANOS_PER_SECOND)
  {
  }

  /** The decimal digits of a natural number, most significant first. */
  function Digits(n: nat): (s: string)
    ensures |s| >= 1
    ensures forall i :: 0 <= i < |s| ==> '0' <= s[i] <= '9'
  {
    if n < 10 then [Digit(n)] else Digits(n / 10) + [Digit(n % 10)]
  }

  function Digit(d: nat): (c: char)
    requires d < 10
    ensures '0' <= c <= '9'
  {
    ('0' as int + d) as char
  }

  /** The number a string of decimal digits denotes. */
  function Value(s: string): int
  {
    if s == [] then 0 else Value(s[..|s| - 1]) * 10 + (s[|s| - 1] as int - '0' as int)
  }

  /** Reading the digits back gives the number. */
  lemma {:induction false} ValueDigits(n: nat)
    ensures Value(Digits(n)) == n
  {
    var s := Digits(n);
    if n >= 10 {
      ValueDigits(n / 10);
      assert s[..|s| - 1] == Digits(n / 10);
    }
  }

  /** `%d`: a minus sign before the digits of a negative number. */
  function Decimal(n: int): string
  {
    if n < 0 then "-" + Digits(-n) else Digits(n)
  }

  /** `%02d`: zero-padded to at least two characters. */
  function TwoDigits(n: int): string
  {
    if 0 <= n < 10 then "0" + Decimal(n) else Decimal(n)
  }

  /** Numbers 0..99 print as exactly two digits that read back as the number. */
  lemma TwoDigitsValue(n: int)
    requires 0 <= n < 100
    ensures |TwoDigits(n)| == 2 && Value(TwoDigits(n)) == n
    ensures forall i :: 0 <= i < 2 ==> '0' <= TwoDigits(n)[i] <= '9'
  {
    if n < 10 {
      assert TwoDigits(n) == ['0', Digit(n)];
    } else {
      assert Digits(n / 10) == [Digit(n / 10)];
      assert TwoDigits(n) == [Digit(n / 10), Digit(n % 10)];
    }
    var s := TwoDigits(n);
    assert s[..1][..0] == [];
    assert Value(s[..1]) == s[0] as int - '0' as int;
  }

  /** `String.format("%dd%02d:%02d:%02d", ...)` of the four fields. */
  function Format(f: Fields): string
  {
    Decimal(f.days) + "d" + TwoDigits(f.hours) + ":" + TwoDigits(f.minutes) + ":" + TwoDigits(f.seconds)
  }

  /** nanosToDHMS. */
  function NanosToDHMS(ns: int64): string
  {
    Format(Split(ns))
  }

  /** Fields in their clock ranges print as the day count, 'd', then
      HH:MM:SS in exactly eight characters, and each field reads back from
      its place. */
  lemma FormatLayout(f: Fields)
    requires f.days >= 0 && 0 <= f.hours < 24 && 0 <= f.minutes < 60 && 0 <= f.seconds < 60
    ensures var s := Format(f); var k := |s| - 9;
      k >= 1 && s[k] == 'd' && s[k + 3] == ':' && s[k + 6] == ':' &&
      Value(s[..k]) == f.days && Value(s[k + 1..k + 3]) == f.hours &&
      Value(s[k + 4..k + 6]) == f.minutes && Value(s[k + 7..]) == f.seconds
  {
    ValueDigits(f.days);
    TwoDigitsValue(f.hours);
    TwoDigitsValue(f.minutes);
    TwoDigitsValue(f.seconds);
    Pieces(Decimal(f.days), TwoDigits(f.hours), TwoDigits(f.minutes), TwoDigits(f.seconds));
  }

  /** For a non-negative count the text is `<days>d<HH>:<MM>:<SS>` with each
      field of the split in its place. */
  lemma DHMSLayout(ns: int64)
    requires ns >= 0
    ensures var s := NanosToDHMS(ns); var f := Split(ns); var k := |s| - 9;
      k >= 1 && s[k] == 'd' && s[k + 3] == ':' && s[k + 6] == ':' &&
      Value(s[..k]) == f.days && Value(s[k + 1..k + 3]) == f.hours &&
      Value(s[k + 4..k + 6]) == f.minutes && Value(s[k + 7..]) == f.seconds
  {
    SplitInRange(ns);
    FormatLayout(Split(ns));
  }

  /** Where each piece of `d + "d" + hh + ":" + mm + ":" + ss` lies when the
      last three pieces are two characters each. */
  lemma Pieces(d: string, hh: string, mm: string, ss: string)
    requires |hh| == 2 && |mm| == 2 && |ss| == 2
    ensures var s := d + "d" + hh + ":" + mm + ":" + ss; var k := |d|;
      |s| == k + 9 && s[k] == 'd' && s[k + 3] == ':' && s[k + 6] == ':' &&
      s[..k] == d && s[k + 1..k + 3] == hh && s[k + 4..k + 6] == mm && s[k + 7..] == ss
  {
  }
}
