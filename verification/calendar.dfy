/** Calendar dates as the DATE column stores them, the Gregorian month
    lengths the dashboard relies on for "end of month", and the YYYY-MM-DD
    text form in which dates travel between the application and the database. */
module Calendar {
  import opened Basics
  import opened Sorting

  datatype Date = Date(year: int, month: int, day: int)

  /** The Gregorian rule: every fourth year, except centuries not divisible
      by 400. */
  predicate IsLeapYear(year: int)
  {
    (year % 4 == 0 && year % 100 != 0) || year % 400 == 0
  }

  function DaysInMonth(year: int, month: int): (n: int)
    requires 1 <= month <= 12
    ensures 28 <= n <= 31
    ensures month == 2 ==> (n == 29 <==> IsLeapYear(year))
  {
    if month == 2 then (if IsLeapYear(year) then 29 else 28)
    else if month == 4 || month == 6 || month == 9 || month == 11 then 30
    else 31
  }

  /** The years a DATE accepts in the YYYY-MM-DD form: there is no year 0
      (earlier years need an era suffix the application never sends), and
      5874897 is the type's last year. */
  const MinYear: int := 1
  const MaxYear: int := 5_874_897

  predicate YearInRange(year: int)
  {
    MinYear <= year <= MaxYear
  }

  /** A value the DATE type accepts. */
  predicate ValidDate(d: Date)
  {
    YearInRange(d.year) && 1 <= d.month <= 12 && 1 <= d.day <= DaysInMonth(d.year, d.month)
  }

  /** `a` is on or before `b` (SQL `<=` on DATE). */
  predicate DateLe(a: Date, b: Date)
  {
    a.year < b.year || (a.year == b.year && (a.month < b.month || (a.month == b.month && a.day <= b.day)))
  }

  /** Sort key putting later dates first (ORDER BY date DESC). */
  function NewestFirstKey(d: Date): seq<int>
  {
    [-d.year, -d.month, -d.day]
  }

  lemma NewestFirstKeyOrder(a: Date, b: Date)
    ensures LexLe(NewestFirstKey(a), NewestFirstKey(b)) <==> DateLe(b, a)
  {
    LexLeOfTriples(-a.year, -a.month, -a.day, -b.year, -b.month, -b.day);
  }

  lemma LexLeOfTriples(a0: int, a1: int, a2: int, b0: int, b1: int, b2: int)
    ensures LexLe([a0, a1, a2], [b0, b1, b2])
        <==> a0 < b0 || (a0 == b0 && (a1 < b1 || (a1 == b1 && a2 <= b2)))
  {
    var ka, kb := [a0, a1, a2], [b0, b1, b2];
    assert ka[1..] == [a1, a2] && kb[1..] == [b1, b2];
    assert ka[1..][1..] == [a2] && kb[1..][1..] == [b2];
    assert ka[1..][1..][1..] == [] && kb[1..][1..][1..] == [];
    assert LexLe([a2], [b2]) <==> a2 <= b2;
    assert LexLe([a1, a2], [b1, b2]) <==> a1 < b1 || (a1 == b1 && a2 <= b2);
  }

  /** The first day of a month (the dashboard's `startDate`). */
  function MonthStart(year: int, month: int): (d: Date)
    requires 1 <= month <= 12
    ensures d.year == year && d.month == month && 1 <= d.day <= DaysInMonth(year, month)
    ensures YearInRange(year) ==> ValidDate(d)
    ensures forall day :: ValidDate(Date(year, month, day)) ==> d.day <= day
  {
    Date(year, month, 1)
  }

  /** The last day of a month (moment's `endOf('month')`). */
  function MonthEnd(year: int, month: int): (d: Date)
    requires 1 <= month <= 12
    ensures d.year == year && d.month == month && 1 <= d.day <= DaysInMonth(year, month)
    ensures YearInRange(year) ==> ValidDate(d)
    ensures forall day :: ValidDate(Date(year, month, day)) ==> day <= d.day
    ensures month == 2 ==> (d.day == 29 <==> IsLeapYear(year))
  {
    Date(year, month, DaysInMonth(year, month))
  }

  /** The inclusive range [MonthStart, MonthEnd] holds exactly the dates of
      that month: a BETWEEN over it selects one calendar month. */
  lemma MonthRangeIsMonth(year: int, month: int, d: Date)
    requires 1 <= month <= 12 && ValidDate(d)
    ensures DateLe(MonthStart(year, month), d) && DateLe(d, MonthEnd(year, month))
        <==> d.year == year && d.month == month
  {
  }

  // ---------------------------------------------------------------------
  // Text form

  function DigitChar(n: int): char
    requires 0 <= n < 10
  {
    ('0' as int + n) as char
  }

  predicate IsDigit(c: char)
  {
    '0' <= c <= '9'
  }

  predicate AllDigits(s: string)
  {
    forall i :: 0 <= i < |s| ==> IsDigit(s[i])
  }

  function Pow10(w: nat): (p: nat)
    ensures p >= 1
  {
    if w == 0 then 1 else 10 * Pow10(w - 1)
  }

  /** JavaScript's `String(n)` for a non-negative integer: no leading zeros. */
  function DecimalText(n: nat): (s: string)
    ensures |s| >= 1 && AllDigits(s)
  {
    if n < 10 then [DigitChar(n)] else DecimalText(n / 10) + [DigitChar(n % 10)]
  }

  /** `s.padStart(width, fill)`. */
  function PadStart(s: string, width: nat, fill: char): (r: string)
    ensures |r| == if |s| >= width then |s| else width
    ensures r[|r| - |s|..] == s
    ensures forall i :: 0 <= i < |r| - |s| ==> r[i] == fill
  {
    if |s| >= width then s else seq(width - |s|, _ => fill) + s
  }

  /** The last `width` decimal digits of `n`, zero-padded. */
  function Fixed(n: nat, width: nat): (s: string)
    ensures |s| == width && AllDigits(s)
  {
    if width == 0 then [] else Fixed(n / 10, width - 1) + [DigitChar(n % 10)]
  }

  /** The value of a string of decimal digits. */
  function DigitsValue(s: string): nat
    requires AllDigits(s)
  {
    if |s| == 0 then 0
    else DigitsValue(s[..|s| - 1]) * 10 + (s[|s| - 1] as int - '0' as int)
  }

  /** moment's `format('YYYY-MM-DD')`. */
  function FormatDate(d: Date): (s: string)
    requires 0 <= d.year && 0 <= d.month && 0 <= d.day
    ensures |s| == 10 && s[4] == '-' && s[7] == '-'
  {
    Fixed(d.year, 4) + "-" + Fixed(d.month, 2) + "-" + Fixed(d.day, 2)
  }

  /** Reads a YYYY-MM-DD text as a date; None for anything else. */
  function ParseDate(s: string): (r: Option<Date>)
    ensures r.Some? ==> ValidDate(r.value)
  {
    if |s| == 10 && s[4] == '-' && s[7] == '-'
       && AllDigits(s[..4]) && AllDigits(s[5..7]) && AllDigits(s[8..])
    then
      var d := Date(DigitsValue(s[..4]), DigitsValue(s[5..7]), DigitsValue(s[8..]));
      if ValidDate(d) then Some(d) else None
    else None
  }

  /** The template-string start date of the dashboard:
      `${year}-${String(month).padStart(2, '0')}-01`. */
  function MonthStartText(year: nat, month: int): string
    requires 1 <= month <= 12
  {
    DecimalText(year) + "-" + PadStart(DecimalText(month), 2, '0') + "-01"
  }

  lemma {:induction false} FixedValue(n: nat, width: nat)
    requires n < Pow10(width)
    ensures DigitsValue(Fixed(n, width)) == n
  {
    if width > 0 {
      var s := Fixed(n, width);
      var init := Fixed(n / 10, width - 1);
      assert s[..|s| - 1] == init;
      FixedValue(n / 10, width - 1);
    }
  }

  lemma {:induction false} FixedOfValue(s: string)
    requires AllDigits(s)
    ensures Fixed(DigitsValue(s), |s|) == s
  {
    if |s| > 0 {
      var init := s[..|s| - 1];
      FixedOfValue(init);
      var v := DigitsValue(s);
      assert v / 10 == DigitsValue(init);
      assert s == init + [s[|s| - 1]];
    }
  }

  lemma {:induction false} DecimalTextIsFixed(n: nat, width: nat)
    requires width >= 1 && Pow10(width - 1) <= n < Pow10(width)
    ensures DecimalText(n) == Fixed(n, width)
  {
    if width > 1 {
      DecimalTextIsFixed(n / 10, width - 1);
    }
  }

  /** Formatting then parsing gives the date back (for years of at most four
      digits, which is what the four-digit YYYY field can carry). */
  lemma ParseFormat(d: Date)
    requires ValidDate(d) && 0 <= d.year <= 9999
    ensures ParseDate(FormatDate(d)) == Some(d)
  {
    var s := FormatDate(d);
    assert s[..4] == Fixed(d.year, 4);
    assert s[5..7] == Fixed(d.month, 2);
    assert s[8..] == Fixed(d.day, 2);
    FixedValue(d.year, 4);
    FixedValue(d.month, 2);
    FixedValue(d.day, 2);
  }

  /** Parsing then formatting gives the text back: the accepted text form of a
      date is unique. */
  lemma FormatParse(s: string)
    requires ParseDate(s).Some?
    ensures FormatDate(ParseDate(s).value) == s
  {
    FixedOfValue(s[..4]);
    FixedOfValue(s[5..7]);
    FixedOfValue(s[8..]);
    assert s == s[..4] + "-" + s[5..7] + "-" + s[8..];
  }

  /** A four-digit year prints as its four-digit field. */
  lemma YearTextIsFixed(year: nat)
    requires 1000 <= year <= 9999
    ensures DecimalText(year) == Fixed(year, 4)
  {
    assert Pow10(4) == 10000 by {
      assert Pow10(3) == 1000 by {
        assert Pow10(2) == 100;
      }
    }
    DecimalTextIsFixed(year, 4);
  }

  /** A month padded to two characters is its two-digit field. */
  lemma MonthTextIsFixed(month: int)
    requires 1 <= month <= 12
    ensures PadStart(DecimalText(month), 2, '0') == Fixed(month, 2)
  {
    if month < 10 {
      assert DecimalText(month) == [DigitChar(month)];
      assert Fixed(month, 2) == Fixed(0, 1) + [DigitChar(month)];
    } else {
      DecimalTextIsFixed(month, 2);
    }
  }

  /** For a four-digit year, the dashboard's template-string start date is the
      YYYY-MM-DD text of the first of the month, so the database reads it as
      exactly that date. */
  lemma MonthStartTextIsFirstOfMonth(year: nat, month: int)
    requires 1000 <= year <= 9999 && 1 <= month <= 12
    ensures MonthStartText(year, month) == FormatDate(MonthStart(year, month))
    ensures ParseDate(MonthStartText(year, month)) == Some(MonthStart(year, month))
  {
    MonthStartTextIsFormatted(year, month);
    ParseFormat(MonthStart(year, month));
  }

  lemma MonthStartTextIsFormatted(year: nat, month: int)
    requires 1000 <= year <= 9999 && 1 <= month <= 12
    ensures MonthStartText(year, month) == FormatDate(MonthStart(year, month))
  {
    YearTextIsFixed(year);
    MonthTextIsFixed(month);
    FirstDayField();
    var y, m := DecimalText(year), PadStart(DecimalText(month), 2, '0');
    calc {
      MonthStartText(year, month);
      y + "-" + m + "-01";
      Fixed(year, 4) + "-" + Fixed(month, 2) + "-" + Fixed(1, 2);
      FormatDate(Date(year, month, 1));
    }
  }

  lemma FirstDayField()
    ensures Fixed(1, 2) == "01"
  {
    assert Fixed(0, 1) == "0";
  }
}
