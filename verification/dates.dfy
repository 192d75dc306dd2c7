/** The two ways the converters rewrite a `DD-MM-YYYY` cell.

    The voucher DATE field splits the text on "-" and glues the three parts
    back in reverse order (`f"{year}{month}{day}"`), checking nothing but
    the number of parts. The order due date goes through
    `datetime.strptime(text, "%d-%m-%Y").strftime("%d-%b-%Y").lstrip("0")`,
    which accepts only what the format's regular expressions match and
    only real calendar dates. */
module Dates {
  import opened Outcome
  import opened Rows
  import opened Text

  /** `day, month, year = s.split("-")` followed by `f"{year}{month}{day}"`;
      the unpacking raises unless there are exactly three parts. */
  function CompactDate(s: string): (r: Result<string>)
    ensures r.Ok? <==> Count(s, '-') == 2
    ensures r.Err? ==> r.error == UnpackError(s)
    ensures r.Ok? ==> var p := Split(s, '-');
      && |p| == 3
      && s == p[0] + "-" + p[1] + "-" + p[2]
      && r.value == p[2] + p[1] + p[0]
  {
    SplitLength(s, '-');
    var p := Split(s, '-');
    if |p| != 3 then Err(UnpackError(s))
    else
      JoinSplit(s, '-');
      assert Join(p, '-') == p[0] + "-" + Join(p[1..], '-');
      assert Join(p[1..], '-') == p[1] + "-" + p[2];
      Ok(p[2] + p[1] + p[0])
  }

  /** Three dash-free parts joined by dashes split back into those parts. */
  lemma SplitThree(a: string, b: string, c: string)
    requires '-' !in a && '-' !in b && '-' !in c
    ensures Split(a + "-" + b + "-" + c, '-') == [a, b, c]
  {
    SplitNoSep(c, '-');
    SplitAt(b, c, '-');
    assert b + "-" + c == b + ['-'] + c;
    SplitAt(a, b + "-" + c, '-');
    assert a + "-" + b + "-" + c == a + ['-'] + (b + "-" + c);
  }

  /** Three dash-free parts joined by dashes come back reversed and concatenated. */
  lemma CompactDateOf(day: string, month: string, year: string)
    requires '-' !in day && '-' !in month && '-' !in year
    ensures CompactDate(day + "-" + month + "-" + year) == Ok(year + month + day)
  {
    SplitThree(day, month, year);
  }

  /** The voucher DATE field, `if row[column]:` followed by `.split("-")`:
      a missing or false cell (the empty text, or the number zero) gives
      an empty field, any other number raises AttributeError because
      `.split` is a str method, and a text is rewritten `d-m-y` to `y+m+d`. */
  function CellDate(row: Row, column: string): (r: Result<string>)
    ensures column !in row || !Truthy(row[column]) ==> r == Ok("")
    ensures column in row && Truthy(row[column]) && NumberCell(row[column]) ==> r == Err(AttributeError(row[column]))
    ensures column in row && Truthy(row[column]) && !NumberCell(row[column]) ==> r == CompactDate(row[column])
  {
    if column !in row || !Truthy(row[column]) then Ok("")
    else if NumberCell(row[column]) then Err(AttributeError(row[column]))
    else CompactDate(row[column])
  }

  /** The payment converter's variant: a value that does not split into
      three parts gives "" instead of an error. */
  function LenientCompactDate(s: string): (r: string)
    ensures CompactDate(s).Ok? ==> r == CompactDate(s).value
    ensures CompactDate(s).Err? ==> r == ""
  {
    var p := Split(s, '-');
    if |p| == 3 then p[2] + p[1] + p[0] else ""
  }

  datatype Date = Date(year: int, month: int, day: int)

  predicate IsLeapYear(y: int) {
    y % 4 == 0 && (y % 100 != 0 || y % 400 == 0)
  }

  function DaysInMonth(y: int, m: int): int
    requires 1 <= m <= 12
  {
    if m == 2 then (if IsLeapYear(y) then 29 else 28)
    else if m == 4 || m == 6 || m == 9 || m == 11 then 30
    else 31
  }

  /** A date Python's datetime accepts. */
  predicate ValidDate(d: Date) {
    1 <= d.year <= 9999 && 1 <= d.month <= 12 && 1 <= d.day <= DaysInMonth(d.year, d.month)
  }

  /** Appending a digit shifts the value one decimal place. */
  lemma DigitsSnoc(s: string, c: char)
    requires AllDigits(s) && IsDigit(c)
    ensures AllDigits(s + [c])
    ensures DigitsValue(s + [c]) == 10 * DigitsValue(s) + DigitValue(c)
  {
    assert (s + [c])[..|s|] == s;
  }

  lemma Digits2(t: string)
    requires |t| == 2 && AllDigits(t)
    ensures DigitsValue(t) == 10 * DigitValue(t[0]) + DigitValue(t[1])
  {
    DigitsSnoc([], t[0]);
    DigitsSnoc([t[0]], t[1]);
    assert t == [] + [t[0]] + [t[1]];
  }

  lemma Digits4(t: string)
    requires |t| == 4 && AllDigits(t)
    ensures DigitsValue(t) == 100 * DigitsValue(t[..2]) + DigitsValue(t[2..])
    ensures DigitsValue(t) <= 9999
  {
    Digits2(t[..2]);
    Digits2(t[2..]);
    DigitsSnoc(t[..2], t[2]);
    assert t[..3] == t[..2] + [t[2]];
    DigitsSnoc(t[..3], t[3]);
    assert t == t[..3] + [t[3]];
  }

  predicate IsNonZeroDigit(c: char) { '1' <= c <= '9' }

  /** strptime's `%d`: `3[01]|[12]\d|0[1-9]|[1-9]| [1-9]`. */
  function DayField(t: string): (r: Option<int>)
    ensures r.Some? ==> 1 <= r.value <= 31
  {
    if |t| == 1 && IsNonZeroDigit(t[0]) then Some(DigitValue(t[0]))
    else if |t| == 2 && (t[0] == '0' || t[0] == ' ') && IsNonZeroDigit(t[1]) then Some(DigitValue(t[1]))
    else if |t| == 2 && (t[0] == '1' || t[0] == '2') && IsDigit(t[1]) then Some(10 * DigitValue(t[0]) + DigitValue(t[1]))
    else if |t| == 2 && t[0] == '3' && (t[1] == '0' || t[1] == '1') then Some(30 + DigitValue(t[1]))
    else None
  }

  /** strptime's `%m`: `1[0-2]|0[1-9]|[1-9]`. */
  function MonthField(t: string): (r: Option<int>)
    ensures r.Some? ==> 1 <= r.value <= 12
  {
    if |t| == 1 && IsNonZeroDigit(t[0]) then Some(DigitValue(t[0]))
    else if |t| == 2 && t[0] == '0' && IsNonZeroDigit(t[1]) then Some(DigitValue(t[1]))
    else if |t| == 2 && t[0] == '1' && '0' <= t[1] <= '2' then Some(10 + DigitValue(t[1]))
    else None
  }

  /** strptime's `%Y`: exactly four digits. */
  function YearField(t: string): (r: Option<int>)
    ensures r.Some? ==> 0 <= r.value <= 9999
  {
    if |t| == 4 && AllDigits(t) then
      Digits4(t);
      Some(DigitsValue(t))
    else None
  }

  /** `datetime.strptime(s, "%d-%m-%Y")`. None of the three field patterns
      contains "-", so the text matches the whole format exactly when it
      splits into three parts matching the fields in turn. */
  function ParseDmy(s: string): (r: Result<Date>)
    ensures r.Ok? ==> ValidDate(r.value)
    ensures r.Ok? ==> Count(s, '-') == 2
    ensures r.Err? ==> r.error == DateError(s)
  {
    SplitLength(s, '-');
    var p := Split(s, '-');
    if |p| != 3 then Err(DateError(s)) else
    match (DayField(p[0]), MonthField(p[1]), YearField(p[2]))
    case (Some(d), Some(m), Some(y)) =>
      var date := Date(y, m, d);
      if ValidDate(date) then Ok(date) else Err(DateError(s))
    case _ => Err(DateError(s))
  }

  /** Two digits, zero padded: strftime's `%d` and `%m`. */
  function Pad2(n: nat): (r: string)
    requires n < 100
    ensures |r| == 2 && AllDigits(r)
  {
    [DigitChar(n / 10), DigitChar(n % 10)]
  }

  /** Four digits, zero padded. */
  function Pad4(n: nat): (r: string)
    requires n < 10000
    ensures |r| == 4 && AllDigits(r)
  {
    Pad2(n / 100) + Pad2(n % 100)
  }

  /** strftime's `%b` in the C locale. */
  const MonthAbbrs: seq<string> := ["Jan", "Feb", "Mar", "Apr", "May", "Jun", "Jul", "Aug", "Sep", "Oct", "Nov", "Dec"]

  /** `date.strftime("%d-%b-%Y")` */
  function Strftime(d: Date): (r: string)
    requires ValidDate(d)
    ensures |r| == 11 && r[..2] == Pad2(d.day) && r[2] == '-' && r[6] == '-'
    ensures r[3..6] == MonthAbbrs[d.month - 1] && r[7..] == Pad4(d.year)
  {
    Pad2(d.day) + "-" + MonthAbbrs[d.month - 1] + "-" + Pad4(d.year)
  }

  /** The number of '0' characters s starts with. */
  function LeadingZeros(s: string): (n: nat)
    ensures n <= |s|
    ensures forall k :: 0 <= k < n ==> s[k] == '0'
    ensures n < |s| ==> s[n] != '0'
  {
    if |s| == 0 || s[0] != '0' then 0 else 1 + LeadingZeros(s[1..])
  }

  /** `s.lstrip("0")` */
  function LStripZeros(s: string): (r: string)
    ensures |r| <= |s| && r == s[|s| - |r|..]
    ensures forall i :: 0 <= i < |s| - |r| ==> s[i] == '0'
    ensures |r| > 0 ==> r[0] != '0'
  {
    s[LeadingZeros(s)..]
  }

  /** Stripping stops at the first character that is not '0'. */
  lemma LStripStopsAt(s: string, i: nat)
    requires i < |s| && s[i] != '0'
    ensures |LStripZeros(s)| >= |s| - i
  {
  }

  /** The ORDERDUEDATE text: strptime, strftime, then leading zeros stripped. */
  function DueDate(s: string): (r: Result<string>)
    ensures r.Ok? <==> ParseDmy(s).Ok?
    ensures r.Err? ==> r.error == DateError(s)
    ensures r.Ok? ==> |r.value| > 0 && r.value[0] != '0'
  {
    var d :- ParseDmy(s);
    var t := Strftime(d);
    LStripStopsAt(t, 2);
    Ok(LStripZeros(t))
  }

  /** The canonical zero-padded `DD-MM-YYYY` spelling of a date. */
  function DmyText(d: Date): string
    requires ValidDate(d)
  {
    Pad2(d.day) + "-" + Pad2(d.month) + "-" + Pad4(d.year)
  }

  /** A padded date cell is a str, not a number, and it is true. */
  lemma DmyTextIsText(d: Date)
    requires ValidDate(d)
    ensures !NumberCell(DmyText(d)) && Truthy(DmyText(d))
  {
    var t := DmyText(d);
    assert IsDigit(t[0]) && t[2] == '-';
    assert Unsigned(t) == t;
  }

  /** The `YYYYMMDD` spelling of a date. */
  function CompactText(d: Date): string
    requires ValidDate(d)
  {
    Pad4(d.year) + Pad2(d.month) + Pad2(d.day)
  }

  /** Reads a `YYYYMMDD` text back. */
  function ParseCompact(s: string): Option<Date> {
    if |s| == 8 && AllDigits(s) then
      assert AllDigits(s[..4]) && AllDigits(s[4..6]) && AllDigits(s[6..]);
      Some(Date(DigitsValue(s[..4]), DigitsValue(s[4..6]), DigitsValue(s[6..])))
    else None
  }

  lemma Pad2Value(n: nat)
    requires n < 100
    ensures DigitsValue(Pad2(n)) == n
  {
    Digits2(Pad2(n));
  }

  lemma Pad4Value(n: nat)
    requires n < 10000
    ensures DigitsValue(Pad4(n)) == n
  {
    var p := Pad4(n);
    Digits4(p);
    assert p[..2] == Pad2(n / 100) && p[2..] == Pad2(n % 100);
    Pad2Value(n / 100);
    Pad2Value(n % 100);
  }

  lemma DigitsNoDash(s: string)
    requires AllDigits(s)
    ensures '-' !in s
  {
  }

  /** Rewriting the padded spelling of a date to `YYYYMMDD` loses nothing:
      the compact text reads back as the same date. */
  lemma CompactRoundTrip(d: Date)
    requires ValidDate(d)
    ensures CompactDate(DmyText(d)) == Ok(CompactText(d))
    ensures ParseCompact(CompactText(d)) == Some(d)
  {
    DigitsNoDash(Pad2(d.day));
    DigitsNoDash(Pad2(d.month));
    DigitsNoDash(Pad4(d.year));
    CompactDateOf(Pad2(d.day), Pad2(d.month), Pad4(d.year));
    var c := CompactText(d);
    assert c[..4] == Pad4(d.year);
    assert c[4..6] == Pad2(d.month);
    assert c[6..] == Pad2(d.day);
    Pad4Value(d.year);
    Pad2Value(d.month);
    Pad2Value(d.day);
  }

  lemma DayFieldPadded(n: nat)
    requires 1 <= n <= 31
    ensures DayField(Pad2(n)) == Some(n)
  {
  }

  lemma MonthFieldPadded(n: nat)
    requires 1 <= n <= 12
    ensures MonthField(Pad2(n)) == Some(n)
  {
  }

  lemma YearFieldPadded(n: nat)
    requires n < 10000
    ensures YearField(Pad4(n)) == Some(n)
  {
    Pad4Value(n);
  }

  /** strptime reads the padded spelling of every valid date back as that date. */
  lemma ParseDmyRoundTrip(d: Date)
    requires ValidDate(d)
    ensures ParseDmy(DmyText(d)) == Ok(d)
  {
    DigitsNoDash(Pad2(d.day));
    DigitsNoDash(Pad2(d.month));
    DigitsNoDash(Pad4(d.year));
    SplitThree(Pad2(d.day), Pad2(d.month), Pad4(d.year));
    DayFieldPadded(d.day);
    MonthFieldPadded(d.month);
    YearFieldPadded(d.year);
  }

  /** `%d-%b-%Y` with its leading zero stripped: the day without padding,
      the month's abbreviation, the four-digit year. */
  lemma StrippedStrftime(d: Date)
    requires ValidDate(d)
    ensures LStripZeros(Strftime(d)) == NatToString(d.day) + "-" + MonthAbbrs[d.month - 1] + "-" + Pad4(d.year)
  {
    var n, m, p := NatToString(d.day), MonthAbbrs[d.month - 1], Pad4(d.year);
    var s := Strftime(d);
    assert s == Pad2(d.day) + "-" + m + "-" + p;
    if d.day < 10 {
      assert n == [DigitChar(d.day)];
      assert Pad2(d.day) == ['0'] + n;
      GlueZero(n, m, p);
      StripOneZero(n + "-" + m + "-" + p);
    } else {
      assert NatToString(d.day / 10) == [DigitChar(d.day / 10)];
      assert Pad2(d.day) == n;
      StripNoZero(s);
    }
  }

  lemma GlueZero(n: string, m: string, p: string)
    ensures ['0'] + n + "-" + m + "-" + p == ['0'] + (n + "-" + m + "-" + p)
  {
  }

  lemma StripOneZero(t: string)
    requires |t| > 0 && t[0] != '0'
    ensures LStripZeros(['0'] + t) == t
  {
    var s := ['0'] + t;
    assert s[1..] == t;
    assert LeadingZeros(t) == 0;
  }

  lemma StripNoZero(s: string)
    requires |s| > 0 && s[0] != '0'
    ensures LStripZeros(s) == s
  {
  }

  /** The due date of the padded spelling of a valid date. */
  lemma DueDateOf(d: Date)
    requires ValidDate(d)
    ensures DueDate(DmyText(d)) == Ok(NatToString(d.day) + "-" + MonthAbbrs[d.month - 1] + "-" + Pad4(d.year))
  {
    ParseDmyRoundTrip(d);
    StrippedStrftime(d);
  }

  /** Anything strptime accepts also splits into three parts, so a row
      whose due date renders never fails the DATE rewrite. */
  lemma DueDateImpliesCompact(s: string)
    requires DueDate(s).Ok?
    ensures CompactDate(s).Ok?
  {
  }

  /** Both rewrites of a padded date describe the same day. */
  lemma RewritesAgree(d: Date)
    requires ValidDate(d)
    ensures CompactDate(DmyText(d)).Ok? && DueDate(DmyText(d)).Ok?
    ensures ParseCompact(CompactDate(DmyText(d)).value) == Some(d)
    ensures ParseDmy(DmyText(d)) == Ok(d)
  {
    CompactRoundTrip(d);
    ParseDmyRoundTrip(d);
  }

  /** ParseDmy of three dash-free parts is decided by the three fields. */
  lemma ParseDmyOfParts(a: string, b: string, c: string)
    requires '-' !in a && '-' !in b && '-' !in c
    ensures ParseDmy(a + "-" + b + "-" + c) ==
      if DayField(a).Some? && MonthField(b).Some? && YearField(c).Some?
         && ValidDate(Date(YearField(c).value, MonthField(b).value, DayField(a).value))
      then Ok(Date(YearField(c).value, MonthField(b).value, DayField(a).value))
      else Err(DateError(a + "-" + b + "-" + c))
  {
    SplitThree(a, b, c);
  }

  /** strptime checks the calendar: a padded text whose fields are in
      range is accepted exactly when the year is not 0 and the month of
      that year has the day. */
  lemma CalendarChecked(day: nat, month: nat, year: nat)
    requires 1 <= day <= 31 && 1 <= month <= 12 && year <= 9999
    ensures ParseDmy(Pad2(day) + "-" + Pad2(month) + "-" + Pad4(year)).Ok?
      <==> 1 <= year && day <= DaysInMonth(year, month)
  {
    DigitsNoDash(Pad2(day));
    DigitsNoDash(Pad2(month));
    DigitsNoDash(Pad4(year));
    SplitThree(Pad2(day), Pad2(month), Pad4(year));
    DayFieldPadded(day);
    MonthFieldPadded(month);
    YearFieldPadded(year);
  }

  /** 29 February needs a leap year. */
  lemma LeapDayRejected(year: nat)
    requires year <= 9999 && !IsLeapYear(year)
    ensures ParseDmy(Pad2(29) + "-" + Pad2(2) + "-" + Pad4(year)).Err?
  {
    CalendarChecked(29, 2, year);
  }

  /** April, June, September and November have 30 days. */
  lemma MonthLengthChecked(month: nat, year: nat)
    requires month in {4, 6, 9, 11} && year <= 9999
    ensures ParseDmy(Pad2(31) + "-" + Pad2(month) + "-" + Pad4(year)).Err?
  {
    CalendarChecked(31, month, year);
  }

  /** An empty cell, pandas' "nan", or the "None" of a missing column is not a date. */
  lemma MissingDateRejected()
    ensures ParseDmy("").Err? && ParseDmy("nan").Err? && ParseDmy("None").Err?
    ensures CompactDate("").Err? && CompactDate("nan").Err?
    ensures LenientCompactDate("") == "" && LenientCompactDate("nan") == ""
  {
    SplitNoSep("", '-');
    SplitNoSep("nan", '-');
  }

  /** The split rewrite checks nothing: an unpadded date is glued as it
      is, giving a text too short to read as `YYYYMMDD`, while strptime
      reads it as the date it names. */
  lemma UnpaddedDate(d: Date)
    requires ValidDate(d) && d.day < 10 && d.month < 10
    ensures var t := NatToString(d.day) + "-" + NatToString(d.month) + "-" + Pad4(d.year);
      && ParseDmy(t) == Ok(d)
      && CompactDate(t) == Ok(Pad4(d.year) + NatToString(d.month) + NatToString(d.day))
      && ParseCompact(CompactDate(t).value).None?
  {
    var a, b := NatToString(d.day), NatToString(d.month);
    assert a == [DigitChar(d.day)] && b == [DigitChar(d.month)];
    DigitsNoDash(Pad4(d.year));
    CompactDateOf(a, b, Pad4(d.year));
    YearFieldPadded(d.year);
    ParseDmyOfParts(a, b, Pad4(d.year));
  }

  /** Text that is no date at all still passes the split rewrite: only the
      due date checks the fields. */
  lemma OnlyDueDateChecks(a: string, b: string, c: string)
    requires '-' !in a && '-' !in b && '-' !in c
    ensures CompactDate(a + "-" + b + "-" + c) == Ok(c + b + a)
    ensures DueDate(a + "-" + b + "-" + c).Ok? ==> |c| == 4 && AllDigits(c)
  {
    CompactDateOf(a, b, c);
    ParseDmyOfParts(a, b, c);
  }

  /** `DD-MM-YYYY` is at least ten characters long. */
  lemma DmyTextLength(d: Date)
    requires ValidDate(d)
    ensures |DmyText(d)| >= 10
  {
  }

  /** The padded spelling of a date holds no character XML escaping touches. */
  lemma DmyTextPlain(d: Date)
    requires ValidDate(d)
    ensures Escape(DmyText(d)) == DmyText(d)
  {
    var t := DmyText(d);
    assert forall i :: 0 <= i < |t| ==> t[i] == '-' || IsDigit(t[i]);
    EscapePlain(t);
  }
}
