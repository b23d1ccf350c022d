/**
 * `parse_date` of market_forecast.py: a sale date written `MonthName-Day-Year`
 * ("August-14-2024") becomes a calendar date, and every failure becomes `None`.
 * It splits on '-', looks the month up among the twelve English month names,
 * converts day and year with `int()`, and asks `datetime` for the date.
 */
module Dates {
  import opened Wrappers

  /** A `datetime` at midnight: only the calendar date is kept. */
  datatype Date = Date(year: int, month: int, day: int)

  const MonthNames: seq<string> := [
    "January", "February", "March", "April", "May", "June",
    "July", "August", "September", "October", "November", "December"]

  /** `months.get(name)`: the month's number, matched exactly and case-sensitively. */
  function MonthNumber(name: string): (r: Option<int>)
    ensures r.Some? <==> name in MonthNames
    ensures r.Some? ==> 1 <= r.value <= 12 && MonthNames[r.value - 1] == name
    ensures forall m :: 1 <= m <= 12 && MonthNames[m - 1] == name ==> r == Some(m)
  {
    if name == "January" then Some(1)
    else if name == "February" then Some(2)
    else if name == "March" then Some(3)
    else if name == "April" then Some(4)
    else if name == "May" then Some(5)
    else if name == "June" then Some(6)
    else if name == "July" then Some(7)
    else if name == "August" then Some(8)
    else if name == "September" then Some(9)
    else if name == "October" then Some(10)
    else if name == "November" then Some(11)
    else if name == "December" then Some(12)
    else None
  }

  // ---------------------------------------------------------------------------
  // str.split(sep) and its inverse, sep.join(parts)

  /** Python `s.split(sep)` for a one-character separator: the pieces between separators. */
  function Split(s: string, sep: char): (parts: seq<string>)
    ensures |parts| >= 1
    ensures forall i :: 0 <= i < |parts| ==> sep !in parts[i]
    decreases |s|
  {
    if s == [] then [""]
    else
      var rest := Split(s[1..], sep);
      if s[0] == sep then [""] + rest
      else [[s[0]] + rest[0]] + rest[1..]
  }

  /** Python `sep.join(parts)`. */
  function Join(parts: seq<string>, sep: char): string
    requires |parts| >= 1
  {
    if |parts| == 1 then parts[0] else parts[0] + [sep] + Join(parts[1..], sep)
  }

  /** Joining the pieces with the separator gives back the string that was split. */
  lemma {:induction false} JoinSplit(s: string, sep: char)
    ensures Join(Split(s, sep), sep) == s
    decreases |s|
  {
    if s != [] {
      var rest := Split(s[1..], sep);
      JoinSplit(s[1..], sep);
      if s[0] == sep {
        assert ([""] + rest)[1..] == rest;
      } else {
        var parts := [[s[0]] + rest[0]] + rest[1..];
        assert s == [s[0]] + s[1..];
        if |rest| == 1 {
          assert parts == [s];
        } else {
          assert parts[1..] == rest[1..];
          assert Join(rest, sep) == rest[0] + [sep] + Join(rest[1..], sep);
          assert Join(parts, sep) == [s[0]] + rest[0] + [sep] + Join(rest[1..], sep);
        }
      }
    }
  }

  /** A piece without separators followed by a separator splits off as the first part. */
  lemma {:induction false} SplitPiece(a: string, rest: string, sep: char)
    requires sep !in a
    ensures Split(a + [sep] + rest, sep) == [a] + Split(rest, sep)
    ensures Split(a, sep) == [a]
    decreases |a|
  {
    if a != [] {
      SplitPiece(a[1..], rest, sep);
      assert (a + [sep] + rest)[1..] == a[1..] + [sep] + rest;
      assert [a[0]] + a[1..] == a;
    } else {
      assert a + [sep] + rest == [sep] + rest;
    }
  }

  /** Splitting the join of separator-free pieces gives the pieces back. */
  lemma {:induction false} SplitJoin(parts: seq<string>, sep: char)
    requires |parts| >= 1
    requires forall i :: 0 <= i < |parts| ==> sep !in parts[i]
    ensures Split(Join(parts, sep), sep) == parts
  {
    SplitPiece(parts[0], [], sep);
    if |parts| > 1 {
      SplitJoin(parts[1..], sep);
      SplitPiece(parts[0], Join(parts[1..], sep), sep);
      assert parts == [parts[0]] + parts[1..];
    }
  }

  // ---------------------------------------------------------------------------
  // int() on a decimal numeral, and the numeral of a number

  predicate IsDigit(c: char)
  {
    '0' <= c <= '9'
  }

  predicate AllDigits(s: string)
  {
    forall i :: 0 <= i < |s| ==> IsDigit(s[i])
  }

  /** The value of a string of ASCII digits, read left to right. */
  function DigitsValue(s: string): nat
    requires AllDigits(s)
  {
    if s == [] then 0
    else DigitsValue(s[..|s| - 1]) * 10 + ((s[|s| - 1] as int) - ('0' as int))
  }

  /**
   * Python `int(s)` restricted to ASCII: an optional sign followed by one or
   * more ASCII digits (leading zeros allowed). Anything else raises ValueError,
   * written `None`.
   */
  function ParseInt(s: string): Option<int>
  {
    if |s| >= 1 && AllDigits(s) then Some(DigitsValue(s))
    else if |s| >= 2 && (s[0] == '+' || s[0] == '-') && AllDigits(s[1..]) then
      var magnitude: int := DigitsValue(s[1..]);
      Some(if s[0] == '-' then -magnitude else magnitude)
    else None
  }

  function DigitChar(d: nat): (c: char)
    requires d < 10
    ensures IsDigit(c) && (c as int) - ('0' as int) == d
  {
    (('0' as int) + d) as char
  }

  /** The decimal numeral of `n`, without leading zeros (Python `str(n)`). */
  function Decimal(n: nat): (s: string)
    ensures |s| >= 1 && AllDigits(s)
    ensures '-' !in s
  {
    if n < 10 then [DigitChar(n)] else Decimal(n / 10) + [DigitChar(n % 10)]
  }

  lemma {:induction false} DigitsValueOfDecimal(n: nat)
    ensures DigitsValue(Decimal(n)) == n
  {
    if n >= 10 {
      DigitsValueOfDecimal(n / 10);
      var s := Decimal(n);
      assert s[..|s| - 1] == Decimal(n / 10);
    }
  }

  /** Parsing the decimal text of a natural number gives the number back. */
  lemma ParseIntOfDecimal(n: nat)
    ensures ParseInt(Decimal(n)) == Some(n)
  {
    DigitsValueOfDecimal(n);
  }

  /** Whether a string of digits is a canonical numeral: a single digit, or no leading zero. */
  predicate Canonical(s: string)
  {
    |s| >= 1 && AllDigits(s) && (|s| == 1 || s[0] != '0')
  }

  lemma {:induction false} DecimalOfDigitsValue(s: string)
    requires Canonical(s)
    ensures Decimal(DigitsValue(s)) == s
    decreases |s|
  {
    if |s| > 1 {
      var init := s[..|s| - 1];
      assert init[0] == s[0];
      assert Canonical(init);
      DecimalOfDigitsValue(init);
      LeadingDigitBound(init);
      var d := (s[|s| - 1] as int) - ('0' as int);
      assert DigitsValue(s) / 10 == DigitsValue(init);
      assert DigitsValue(s) % 10 == d;
      assert s == init + [s[|s| - 1]];
    }
  }

  /** A numeral of two or more digits without a leading zero is at least 10. */
  lemma {:induction false} LeadingDigitBound(s: string)
    requires Canonical(s)
    ensures |s| == 1 ==> DigitsValue(s) < 10
    ensures |s| > 1 ==> DigitsValue(s) >= 10
    ensures DigitsValue(s) >= 1 || s == "0"
    decreases |s|
  {
    if |s| > 1 {
      var init := s[..|s| - 1];
      assert init[0] == s[0];
      LeadingDigitBound(init);
    } else {
      assert s == [s[0]];
      assert s[..0] == [];
    }
  }

  // ---------------------------------------------------------------------------
  // datetime(year, month, day)

  /** Gregorian leap years: divisible by 4, except centuries not divisible by 400. */
  predicate IsLeap(year: int)
  {
    year % 4 == 0 && (year % 100 != 0 || year % 400 == 0)
  }

  function DaysInMonth(year: int, month: int): (n: int)
    requires 1 <= month <= 12
    ensures 28 <= n <= 31
    ensures month == 2 ==> (n == 29 <==> IsLeap(year))
  {
    if month == 2 then (if IsLeap(year) then 29 else 28)
    else if month == 4 || month == 6 || month == 9 || month == 11 then 30
    else 31
  }

  /** What `datetime` accepts: years 1 to 9999 (MINYEAR, MAXYEAR) and a real calendar day. */
  predicate ValidDate(d: Date)
  {
    1 <= d.year <= 9999 && 1 <= d.month <= 12 && 1 <= d.day <= DaysInMonth(d.year, d.month)
  }

  // ---------------------------------------------------------------------------
  // parse_date

  /**
   * `parse_date(date_str)`. An empty or missing string gives `None`; so does a
   * string that does not split into exactly three parts, a first part that is not
   * a month name, a day or year that `int()` rejects, and a date `datetime`
   * rejects. The exception handler turns every ValueError into `None`.
   */
  function ParseDate(dateStr: Option<string>): (r: Option<Date>)
    ensures dateStr == None || dateStr == Some("") ==> r == None
    ensures r.Some? ==> ValidDate(r.value)
    ensures r.Some? ==>
      var parts := Split(dateStr.value, '-');
      |parts| == 3
      && MonthNames[r.value.month - 1] == parts[0]
      && ParseInt(parts[1]) == Some(r.value.day)
      && ParseInt(parts[2]) == Some(r.value.year)
  {
    if dateStr.None? || dateStr.value == "" then None
    else
      var parts := Split(dateStr.value, '-');
      if |parts| != 3 then None
      else
        var month := MonthNumber(parts[0]);
        var day := ParseInt(parts[1]);
        var year := ParseInt(parts[2]);
        if day.None? || year.None? then None
        else if month.None? then None
        else
          var d := Date(year.value, month.value, day.value);
          if ValidDate(d) then Some(d) else None
  }

  /** The string form the data set uses: `MonthName-Day-Year`, numbers without leading zeros. */
  function Format(d: Date): string
    requires ValidDate(d)
  {
    MonthNames[d.month - 1] + "-" + Decimal(d.day) + "-" + Decimal(d.year)
  }

  /** Every valid date written `MonthName-Day-Year` parses back to itself. */
  lemma ParseFormat(d: Date)
    requires ValidDate(d)
    ensures ParseDate(Some(Format(d))) == Some(d)
  {
    var name := MonthNames[d.month - 1];
    var parts := [name, Decimal(d.day), Decimal(d.year)];
    assert '-' !in name;
    JoinThree(parts, '-');
    SplitJoin(parts, '-');
    ParseIntOfDecimal(d.day);
    ParseIntOfDecimal(d.year);
  }

  /**
   * A parsed date written back out gives the input, when the input's day and
   * year were canonical numerals: parsing loses nothing else.
   */
  lemma FormatParse(s: string)
    requires ParseDate(Some(s)).Some?
    requires Canonical(Split(s, '-')[1]) && Canonical(Split(s, '-')[2])
    ensures Format(ParseDate(Some(s)).value) == s
  {
    var parts := Split(s, '-');
    var d := ParseDate(Some(s)).value;
    DecimalOfDigitsValue(parts[1]);
    DecimalOfDigitsValue(parts[2]);
    JoinSplit(s, '-');
    JoinThree(parts, '-');
  }

  lemma JoinThree(parts: seq<string>, sep: char)
    requires |parts| == 3
    ensures Join(parts, sep) == parts[0] + [sep] + parts[1] + [sep] + parts[2]
  {
    assert parts[1..][1..] == [parts[2]];
    assert Join(parts[1..], sep) == parts[1] + [sep] + parts[2];
  }
}
