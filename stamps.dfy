/**
 * The `last_sync` time stamps of the organization sync script: they are written
 * with the format '%Y-%m-%d %H:%M' (NOW_STR) and read back with the same format
 * (parse_datetime, which is Python's datetime.strptime), and only their dates are
 * compared. strptime reads more than strftime writes: it takes one-digit fields,
 * a day padded with a space, and any run of whitespace before the time.
 */
module Stamps {
  import opened Common

  datatype Date = Date(year: int, month: int, day: int)
  datatype DateTime = DateTime(date: Date, hour: int, minute: int)

  predicate IsLeapYear(y: int) {
    y % 4 == 0 && (y % 100 != 0 || y % 400 == 0)
  }

  function DaysInMonth(y: int, m: int): int {
    if m == 2 then (if IsLeapYear(y) then 29 else 28)
    else if m == 4 || m == 6 || m == 9 || m == 11 then 30
    else 31
  }

  /** A date and time that Python's datetime can hold, with a four-digit year. */
  predicate ValidDateTime(t: DateTime) {
    1 <= t.date.year <= 9999 && 1 <= t.date.month <= 12 &&
    1 <= t.date.day <= DaysInMonth(t.date.year, t.date.month) &&
    0 <= t.hour <= 23 && 0 <= t.minute <= 59
  }

  /** `a` is a strictly earlier calendar date than `b`. */
  predicate DateBefore(a: Date, b: Date) {
    a.year < b.year ||
    (a.year == b.year && (a.month < b.month || (a.month == b.month && a.day < b.day)))
  }

  function Pow10(w: nat): nat {
    if w == 0 then 1 else 10 * Pow10(w - 1)
  }

  predicate AllDigits(s: string) {
    forall i :: 0 <= i < |s| ==> IsDigit(s[i])
  }

  /** The last `w` decimal digits of `n`, zero-padded to width `w`. */
  function Pad(n: nat, w: nat): string {
    if w == 0 then [] else Pad(n / 10, w - 1) + [DigitChar(n % 10)]
  }

  /** The number a string of decimal digits denotes. */
  function DigitsValue(s: string): nat
    requires AllDigits(s)
  {
    if s == [] then 0 else 10 * DigitsValue(s[..|s| - 1]) + DigitValue(s[|s| - 1])
  }

  lemma {:induction false} PadDigits(n: nat, w: nat)
    ensures |Pad(n, w)| == w && AllDigits(Pad(n, w))
    ensures n < Pow10(w) ==> DigitsValue(Pad(n, w)) == n
  {
    if w > 0 {
      PadDigits(n / 10, w - 1);
      var p := Pad(n, w);
      assert p[..|p| - 1] == Pad(n / 10, w - 1);
    }
  }

  lemma {:induction false} PadOfValue(s: string)
    requires AllDigits(s)
    ensures Pad(DigitsValue(s), |s|) == s
  {
    if s != [] {
      var init := s[..|s| - 1];
      DivMod10(DigitsValue(init), DigitValue(s[|s| - 1]));
      PadOfValue(init);
      assert s == init + [s[|s| - 1]];
    }
  }

  /** The last decimal digit of 10 * x + d is d, and the rest is x. */
  lemma DivMod10(x: nat, d: nat)
    requires d < 10
    ensures (10 * x + d) / 10 == x && (10 * x + d) % 10 == d
  {
  }

  // ---------------------------------------------------------------------------
  // The text of a stamp, cut into its fields

  /** What `\s` matches in a Python 2 str pattern: space, \t, \n, \v, \f and \r. */
  predicate IsSpace(c: char) {
    c == ' ' || c == '\t' || c == '\n' || c == '\U{000B}' || c == '\U{000C}' || c == '\r'
  }

  predicate AllSpace(s: string) {
    forall i :: 0 <= i < |s| ==> IsSpace(s[i])
  }

  /**
   * A stamp cut at its separators: '-' after the year and the month, a run of
   * whitespace (`gap`) after the day, ':' after the hour.
   */
  datatype Fields = Fields(year: string, month: string, day: string, gap: string, hour: string, minute: string)

  /** The fields put back together with their separators. */
  function Layout(f: Fields): string {
    f.year + ("-" + (f.month + ("-" + (f.day + (f.gap + (f.hour + (":" + f.minute)))))))
  }

  /** One or two digits naming a number from `lo` to `hi`. */
  predicate NumberText(x: string, lo: nat, hi: nat) {
    1 <= |x| <= 2 && AllDigits(x) && lo <= DigitsValue(x) <= hi
  }

  /** %d: 3[01]|[12]\d|0[1-9]|[1-9]| [1-9] -- a number from 1 to 31, or a space and one digit 1-9. */
  predicate DayText(d: string) {
    NumberText(d, 1, 31) || (|d| == 2 && d[0] == ' ' && IsDigit(d[1]) && d[1] != '0')
  }

  function DayValue(d: string): nat
    requires DayText(d)
  {
    if d[0] == ' ' then DigitValue(d[1]) else DigitsValue(d)
  }

  /**
   * The fields match strptime's patterns: %Y four digits, %m 1[0-2]|0[1-9]|[1-9],
   * %d as DayText, the format's space one or more whitespace characters,
   * %H 2[0-3]|[0-1]\d|\d and %M [0-5]\d|\d.
   */
  predicate WellFormed(f: Fields) {
    |f.year| == 4 && AllDigits(f.year) && NumberText(f.month, 1, 12) && DayText(f.day) &&
    f.gap != [] && AllSpace(f.gap) && NumberText(f.hour, 0, 23) && NumberText(f.minute, 0, 59)
  }

  /** The date and time that well-formed fields name. */
  function Reading(f: Fields): DateTime
    requires WellFormed(f)
  {
    DateTime(Date(DigitsValue(f.year), DigitsValue(f.month), DayValue(f.day)),
             DigitsValue(f.hour), DigitsValue(f.minute))
  }

  /** The digits `s` starts with, and what follows them. */
  function CutDigits(s: string): (string, string) {
    if s != [] && IsDigit(s[0]) then ([s[0]] + CutDigits(s[1..]).0, CutDigits(s[1..]).1)
    else ([], s)
  }

  /** The whitespace `s` starts with, and what follows it. */
  function CutSpace(s: string): (string, string) {
    if s != [] && IsSpace(s[0]) then ([s[0]] + CutSpace(s[1..]).0, CutSpace(s[1..]).1)
    else ([], s)
  }

  /** The day: a space and the digits after it, or the leading digits. */
  function CutDay(s: string): (string, string) {
    if s != [] && s[0] == ' ' then ([' '] + CutDigits(s[1..]).0, CutDigits(s[1..]).1)
    else CutDigits(s)
  }

  /**
   * How strptime's pattern reads a string. Every field pattern is followed by a
   * separator that is no digit, so a field that matches is the whole run of
   * digits at its place; the match must also reach the end of the string
   * ("unconverted data remains" otherwise). None when a separator is missing, text
   * is left over, or a field is outside its pattern.
   */
  function Split(s: string): (r: Option<Fields>)
    ensures r.Some? ==> WellFormed(r.value)
  {
    var (year, r1) := CutDigits(s);
    if r1 == [] || r1[0] != '-' then None
    else
      var (month, r2) := CutDigits(r1[1..]);
      if r2 == [] || r2[0] != '-' then None
      else
        var (day, r3) := CutDay(r2[1..]);
        var (gap, r4) := CutSpace(r3);
        var (hour, r5) := CutDigits(r4);
        if r5 == [] || r5[0] != ':' then None
        else
          var (minute, r6) := CutDigits(r5[1..]);
          var f := Fields(year, month, day, gap, hour, minute);
          if r6 == [] && WellFormed(f) then Some(f) else None
  }

  /**
   * parse_datetime with the default format: None where strptime raises
   * ValueError (no match, unconverted data left, or fields that name no date,
   * such as a year 0000 or 30 February).
   */
  function ParseStamp(s: string): (r: Option<DateTime>)
    ensures r.Some? ==> ValidDateTime(r.value) && Split(s).Some? && r.value == Reading(Split(s).value)
  {
    match Split(s)
    case None => None
    case Some(f) => if ValidDateTime(Reading(f)) then Some(Reading(f)) else None
  }

  // ---------------------------------------------------------------------------
  // Cutting a laid-out stamp gives its fields back

  /** Cutting off the leading digits loses no text. */
  lemma {:induction false} CutDigitsWhole(s: string)
    ensures CutDigits(s).0 + CutDigits(s).1 == s
  {
    if s != [] && IsDigit(s[0]) {
      var rest := CutDigits(s[1..]);
      CutDigitsWhole(s[1..]);
      calc {
        CutDigits(s).0 + CutDigits(s).1;
        ([s[0]] + rest.0) + rest.1;
        [s[0]] + (rest.0 + rest.1);
        [s[0]] + s[1..];
        s;
      }
    }
  }

  /** Cutting off the leading whitespace loses no text. */
  lemma {:induction false} CutSpaceWhole(s: string)
    ensures CutSpace(s).0 + CutSpace(s).1 == s
  {
    if s != [] && IsSpace(s[0]) {
      var rest := CutSpace(s[1..]);
      CutSpaceWhole(s[1..]);
      calc {
        CutSpace(s).0 + CutSpace(s).1;
        ([s[0]] + rest.0) + rest.1;
        [s[0]] + (rest.0 + rest.1);
        [s[0]] + s[1..];
        s;
      }
    }
  }

  /** Digits followed by something that is no digit are cut right there. */
  lemma {:induction false} CutDigitsAt(a: string, b: string)
    requires AllDigits(a) && (b != [] ==> !IsDigit(b[0]))
    ensures CutDigits(a + b) == (a, b)
  {
    if a != [] {
      var s := a + b;
      assert s[0] == a[0] && IsDigit(s[0]);
      assert s[1..] == a[1..] + b;
      CutDigitsAt(a[1..], b);
      assert [a[0]] + a[1..] == a;
    } else {
      assert a + b == b;
    }
  }

  /** Whitespace followed by something that is no whitespace is cut right there. */
  lemma {:induction false} CutSpaceAt(a: string, b: string)
    requires AllSpace(a) && (b != [] ==> !IsSpace(b[0]))
    ensures CutSpace(a + b) == (a, b)
  {
    if a != [] {
      var s := a + b;
      assert s[0] == a[0] && IsSpace(s[0]);
      assert s[1..] == a[1..] + b;
      CutSpaceAt(a[1..], b);
      assert [a[0]] + a[1..] == a;
    } else {
      assert a + b == b;
    }
  }

  /** A day's text as CutDay can take it: digits, or a space and digits. */
  predicate DayLexed(d: string) {
    d != [] && (AllDigits(d) || (d[0] == ' ' && AllDigits(d[1..])))
  }

  lemma CutDayAt(d: string, b: string)
    requires DayLexed(d) && b != [] && IsSpace(b[0])
    ensures CutDay(d + b) == (d, b)
  {
    var s := d + b;
    if d[0] == ' ' {
      assert s[1..] == d[1..] + b;
      CutDigitsAt(d[1..], b);
      assert [' '] + d[1..] == d;
    } else {
      assert IsDigit(s[0]);
      CutDigitsAt(d, b);
    }
  }

  /** Fields whose text the cutting reproduces; well-formed fields are such. */
  predicate Lexed(f: Fields) {
    AllDigits(f.year) && AllDigits(f.month) && DayLexed(f.day) && f.gap != [] && AllSpace(f.gap) &&
    AllDigits(f.hour) && AllDigits(f.minute)
  }

  /**
   * Cutting laid-out fields gives the same fields back, so Split accepts them
   * exactly when they are well-formed.
   */
  lemma SplitLexed(f: Fields)
    requires Lexed(f)
    ensures Split(Layout(f)) == if WellFormed(f) then Some(f) else None
  {
    var tail5 := ":" + f.minute;
    var tail4 := f.hour + tail5;
    var tail3 := f.gap + tail4;
    var tail2 := f.day + tail3;
    var tail1 := f.month + ("-" + tail2);
    assert Layout(f) == f.year + ("-" + tail1);
    CutDigitsAt(f.year, "-" + tail1);
    assert ("-" + tail1)[1..] == tail1;
    CutDigitsAt(f.month, "-" + tail2);
    assert ("-" + tail2)[1..] == tail2;
    CutDayAt(f.day, tail3);
    assert tail4 != [] && !IsSpace(tail4[0]) by {
      if f.hour != [] {
        assert tail4[0] == f.hour[0];
      }
    }
    CutSpaceAt(f.gap, tail4);
    CutDigitsAt(f.hour, tail5);
    assert tail5[1..] == f.minute;
    CutDigitsAt(f.minute, []);
    assert f.minute + [] == f.minute;
  }

  /** Cutting off the day loses no text. */
  lemma CutDayWhole(s: string)
    ensures CutDay(s).0 + CutDay(s).1 == s
  {
    CutDigitsWhole(s);
    if s != [] && s[0] == ' ' {
      var rest := CutDigits(s[1..]);
      CutDigitsWhole(s[1..]);
      calc {
        CutDay(s).0 + CutDay(s).1;
        ([' '] + rest.0) + rest.1;
        [' '] + (rest.0 + rest.1);
        [s[0]] + s[1..];
        s;
      }
    }
  }

  /** A string that starts with `c` is `c` and the rest. */
  lemma Unhead(r: string, c: char)
    requires r != [] && r[0] == c
    ensures r == [c] + r[1..]
  {
  }

  /** Split keeps the text: its fields laid out again are the string it read. */
  lemma SplitSound(s: string)
    requires Split(s).Some?
    ensures Layout(Split(s).value) == s
  {
    var f := Split(s).value;
    var r1 := CutDigits(s).1;
    var r2 := CutDigits(r1[1..]).1;
    var r3 := CutDay(r2[1..]).1;
    var r4 := CutSpace(r3).1;
    var r5 := CutDigits(r4).1;
    assert f == Fields(CutDigits(s).0, CutDigits(r1[1..]).0, CutDay(r2[1..]).0, CutSpace(r3).0,
                       CutDigits(r4).0, CutDigits(r5[1..]).0);
    assert CutDigits(r5[1..]).1 == [];
    CutDigitsWhole(r5[1..]);
    Unhead(r5, ':');
    CutDigitsWhole(r4);
    CutSpaceWhole(r3);
    CutDayWhole(r2[1..]);
    Unhead(r2, '-');
    CutDigitsWhole(r1[1..]);
    Unhead(r1, '-');
    CutDigitsWhole(s);
    assert r5 == ":" + f.minute;
    assert r4 == f.hour + (":" + f.minute);
    assert r3 == f.gap + (f.hour + (":" + f.minute));
    assert r2 == "-" + (f.day + (f.gap + (f.hour + (":" + f.minute))));
    assert r1 == "-" + (f.month + ("-" + (f.day + (f.gap + (f.hour + (":" + f.minute))))));
  }

  /** Well-formed fields are ones the cutting reproduces. */
  lemma WellFormedLexed(f: Fields)
    requires WellFormed(f)
    ensures Lexed(f)
  {
    if f.day[0] == ' ' {
      assert f.day[1..] == [f.day[1]];
    }
  }

  /** Well-formed fields laid out are read back as themselves. */
  lemma SplitComplete(f: Fields)
    requires WellFormed(f)
    ensures Split(Layout(f)) == Some(f)
  {
    WellFormedLexed(f);
    SplitLexed(f);
  }

  /**
   * What parse_datetime accepts, stated without the cutting: the string is some
   * well-formed fields laid out, and they name a real date and time.
   */
  lemma ParseStampIff(s: string, t: DateTime)
    ensures ParseStamp(s) == Some(t) <==>
            ValidDateTime(t) && exists f :: WellFormed(f) && Layout(f) == s && Reading(f) == t
  {
    if ParseStamp(s) == Some(t) {
      SplitSound(s);
      var f := Split(s).value;
      assert WellFormed(f) && Layout(f) == s && Reading(f) == t;
    }
    if ValidDateTime(t) && exists f :: WellFormed(f) && Layout(f) == s && Reading(f) == t {
      var f :| WellFormed(f) && Layout(f) == s && Reading(f) == t;
      SplitComplete(f);
      assert Split(s) == Some(f);
    }
  }

  // ---------------------------------------------------------------------------
  // NOW_STR, and reading it back

  /** The fields NOW_STR writes: every one zero-padded, one space before the time. */
  function Canonical(t: DateTime): Fields
    requires ValidDateTime(t)
  {
    Fields(Pad(t.date.year, 4), Pad(t.date.month, 2), Pad(t.date.day, 2), " ", Pad(t.hour, 2), Pad(t.minute, 2))
  }

  /** NOW_STR: '%Y-%m-%d %H:%M' as strftime writes it. */
  function FormatStamp(t: DateTime): (s: string)
    requires ValidDateTime(t)
    ensures |s| == 16
  {
    PadDigits(t.date.year, 4);
    PadDigits(t.date.month, 2);
    PadDigits(t.date.day, 2);
    PadDigits(t.hour, 2);
    PadDigits(t.minute, 2);
    Layout(Canonical(t))
  }

  /** The fixed shape of NOW_STR's text, `YYYY-MM-DD HH:MM`. */
  predicate StampShape(s: string) {
    |s| == 16 && s[4] == '-' && s[7] == '-' && s[10] == ' ' && s[13] == ':' &&
    AllDigits(s[0..4]) && AllDigits(s[5..7]) && AllDigits(s[8..10]) &&
    AllDigits(s[11..13]) && AllDigits(s[14..16])
  }

  /** A number from `lo` to `hi`, zero-padded to two digits, is a field for that range. */
  lemma PadNumber(n: nat, lo: nat, hi: nat)
    requires lo <= n <= hi < 100
    ensures NumberText(Pad(n, 2), lo, hi) && DigitsValue(Pad(n, 2)) == n
  {
    PadDigits(n, 2);
  }

  /** The written fields are well-formed and name the reading they were written from. */
  lemma CanonicalFields(t: DateTime)
    requires ValidDateTime(t)
    ensures WellFormed(Canonical(t)) && Reading(Canonical(t)) == t
  {
    CanonicalWellFormed(t);
    CanonicalReading(t);
  }

  lemma CanonicalWellFormed(t: DateTime)
    requires ValidDateTime(t)
    ensures WellFormed(Canonical(t))
  {
    PadDigits(t.date.year, 4);
    PadNumber(t.date.month, 1, 12);
    PadNumber(t.date.day, 1, 31);
    PadNumber(t.hour, 0, 23);
    PadNumber(t.minute, 0, 59);
    NumbersWellFormed(Canonical(t));
  }

  /** Zero-padded or not, numbers in range with one space before the time are well-formed. */
  lemma NumbersWellFormed(f: Fields)
    requires |f.year| == 4 && AllDigits(f.year) && NumberText(f.month, 1, 12) && NumberText(f.day, 1, 31)
    requires f.gap == " " && NumberText(f.hour, 0, 23) && NumberText(f.minute, 0, 59)
    ensures WellFormed(f)
  {
    assert AllSpace(f.gap);
  }

  lemma CanonicalReading(t: DateTime)
    requires ValidDateTime(t)
    ensures WellFormed(Canonical(t)) ==> Reading(Canonical(t)) == t
  {
    PadDigits(t.date.year, 4);
    PadDigits(t.date.month, 2);
    PadDigits(t.date.day, 2);
    PadDigits(t.hour, 2);
    PadDigits(t.minute, 2);
    assert IsDigit(Pad(t.date.day, 2)[0]);
  }

  /** Reading back a stamp that NOW_STR wrote gives the same date and time. */
  lemma ParseFormatRoundTrip(t: DateTime)
    requires ValidDateTime(t)
    ensures ParseStamp(FormatStamp(t)) == Some(t)
  {
    CanonicalFields(t);
    SplitLexed(Canonical(t));
  }

  /** Where the fields of a laid-out stamp with NOW_STR's widths sit. */
  lemma LayoutPositions(f: Fields)
    requires |f.year| == 4 && |f.month| == 2 && |f.day| == 2 && f.gap == " " && |f.hour| == 2 && |f.minute| == 2
    ensures var s := Layout(f);
            && |s| == 16 && s[4] == '-' && s[7] == '-' && s[10] == ' ' && s[13] == ':'
            && s[0..4] == f.year && s[5..7] == f.month && s[8..10] == f.day
            && s[11..13] == f.hour && s[14..16] == f.minute
  {
  }

  /** Two adjacent slices of a string join into one. */
  lemma SliceConcat(s: string, i: nat, j: nat, k: nat)
    requires i <= j <= k <= |s|
    ensures s[i..j] + s[j..k] == s[i..k]
  {
    assert forall n :: 0 <= n < k - i ==> (s[i..j] + s[j..k])[n] == s[i..k][n];
  }

  /** A string of NOW_STR's shape is its five fields laid out. */
  lemma ShapeFields(s: string)
    requires StampShape(s)
    ensures s == Layout(Fields(s[0..4], s[5..7], s[8..10], " ", s[11..13], s[14..16]))
  {
    var f := Fields(s[0..4], s[5..7], s[8..10], " ", s[11..13], s[14..16]);
    LayoutPositions(f);
    var l := Layout(f);
    assert forall i :: 0 <= i < 16 ==> l[i] == s[i] by {
      forall i | 0 <= i < 16
        ensures l[i] == s[i]
      {
        if i < 4 { assert l[i] == l[0..4][i]; }
        else if 5 <= i < 7 { assert l[i] == l[5..7][i - 5]; }
        else if 8 <= i < 10 { assert l[i] == l[8..10][i - 8]; }
        else if 11 <= i < 13 { assert l[i] == l[11..13][i - 11]; }
        else if 14 <= i { assert l[i] == l[14..16][i - 14]; }
      }
    }
  }

  /** What NOW_STR writes has its fixed shape. */
  lemma FormatShape(t: DateTime)
    requires ValidDateTime(t)
    ensures StampShape(FormatStamp(t))
  {
    PadDigits(t.date.year, 4);
    PadDigits(t.date.month, 2);
    PadDigits(t.date.day, 2);
    PadDigits(t.hour, 2);
    PadDigits(t.minute, 2);
    ShapeOfLayout(Canonical(t));
  }

  /** Digit fields of NOW_STR's widths, one space before the time, lay out to its shape. */
  lemma ShapeOfLayout(f: Fields)
    requires |f.year| == 4 && |f.month| == 2 && |f.day| == 2 && f.gap == " " && |f.hour| == 2 && |f.minute| == 2
    requires AllDigits(f.year) && AllDigits(f.month) && AllDigits(f.day) && AllDigits(f.hour) && AllDigits(f.minute)
    ensures StampShape(Layout(f))
  {
    LayoutPositions(f);
  }

  /** Fields of NOW_STR's widths, read and written again, come back unchanged. */
  lemma CanonicalOfReading(f: Fields)
    requires WellFormed(f) && ValidDateTime(Reading(f))
    requires |f.year| == 4 && |f.month| == 2 && |f.day| == 2 && f.gap == " " && |f.hour| == 2 && |f.minute| == 2
    requires AllDigits(f.day)
    ensures Canonical(Reading(f)) == f
  {
    PadOfValue(f.year);
    PadOfValue(f.month);
    PadOfValue(f.day);
    PadOfValue(f.hour);
    PadOfValue(f.minute);
  }

  /** A stamp of NOW_STR's shape that parses is what NOW_STR writes for its reading. */
  lemma ShapedStampWritten(s: string)
    requires StampShape(s) && ParseStamp(s).Some?
    ensures FormatStamp(ParseStamp(s).value) == s
  {
    var f := Fields(s[0..4], s[5..7], s[8..10], " ", s[11..13], s[14..16]);
    ShapeFields(s);
    assert Lexed(f) by {
      assert AllSpace(" ");
    }
    SplitLexed(f);
    assert Split(s) == Some(f);
    CanonicalOfReading(f);
  }

  /**
   * A stamp that parses is exactly the text NOW_STR writes for its reading if and
   * only if it has NOW_STR's fixed shape; one-digit fields, a space-padded day or
   * a wider gap parse to the same reading but are not what NOW_STR writes.
   */
  lemma FormatParseRoundTrip(s: string)
    requires ParseStamp(s).Some?
    ensures FormatStamp(ParseStamp(s).value) == s <==> StampShape(s)
  {
    FormatShape(ParseStamp(s).value);
    if StampShape(s) {
      ShapedStampWritten(s);
    }
  }

  /** The fields of "2024-1-5 9:07". */
  const ShortFields := Fields("2024", "1", "5", " ", "9", "07")

  lemma ShortFieldsRead()
    ensures WellFormed(ShortFields) && Reading(ShortFields) == DateTime(Date(2024, 1, 5), 9, 7)
  {
    assert DigitsValue("2024") == 2024 by {
      assert "2024"[..3] == "202" && "202"[..2] == "20" && "20"[..1] == "2" && "2"[..0] == [];
    }
    assert DigitsValue("07") == 7 by {
      assert "07"[..1] == "0" && "0"[..0] == [];
    }
    assert DigitsValue("1") == 1 && DigitsValue("5") == 5 && DigitsValue("9") == 9 by {
      assert "1"[..0] == [] && "5"[..0] == [] && "9"[..0] == [];
    }
    assert AllSpace(" ");
  }

  /** strptime takes one-digit fields: "2024-1-5 9:07" is 5 January 2024, 09:07. */
  lemma ShortFieldsAccepted()
    ensures ParseStamp("2024-1-5 9:07") == Some(DateTime(Date(2024, 1, 5), 9, 7))
  {
    ShortFieldsRead();
    SplitComplete(ShortFields);
    assert Layout(ShortFields) == "2024-1-5 9:07";
  }
}
