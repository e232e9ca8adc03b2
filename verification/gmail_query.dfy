/**
 * The Gmail search query of a full scan: the category-exclusion filter, followed,
 * when the channel has a date floor, by `after:YYYY/MM/DD` (UTC, month 1-based,
 * month and day zero-padded to two digits), the whole trimmed.
 */
module GmailQuery {
  import opened Options

  /** A UTC calendar day as `getUTCFullYear`, `getUTCMonth() + 1` and `getUTCDate` report it. */
  datatype CalendarDate = CalendarDate(year: int, month: int, day: int)

  predicate ValidCalendarDate(d: CalendarDate)
  {
    1 <= d.month <= 12 && 1 <= d.day <= 31
  }

  predicate IsDigit(c: char)
  {
    '0' <= c <= '9'
  }

  function Digit(n: nat): (c: char)
    requires n < 10
    ensures IsDigit(c)
  {
    (48 + n) as char
  }

  function DigitValue(c: char): nat
  {
    if IsDigit(c) then (c as int) - 48 else 0
  }

  /** Decimal digits of a natural number, without leading zeros. */
  function NatToString(n: nat): (s: string)
    ensures |s| >= 1 && IsDigit(s[0]) && IsDigit(s[|s| - 1])
    decreases n
  {
    if n < 10 then [Digit(n)] else NatToString(n / 10) + [Digit(n % 10)]
  }

  /** `Number.prototype.toString()` of an integer. */
  function IntToString(i: int): (s: string)
    ensures |s| >= 1 && IsDigit(s[|s| - 1])
  {
    if i < 0 then "-" + NatToString(-i) else NatToString(i)
  }

  function Zeros(n: nat): (z: string)
    ensures |z| == n
    decreases n
  {
    if n == 0 then "" else "0" + Zeros(n - 1)
  }

  /** `s.padStart(2, '0')`. */
  function PadStart2(s: string): (r: string)
    ensures |r| == if |s| >= 2 then |s| else 2
    ensures r[|r| - |s|..] == s
    ensures forall i :: 0 <= i < |r| - |s| ==> r[i] == '0'
  {
    if |s| >= 2 then s else Zeros(2 - |s|) + s
  }

  /** The `Y/MM/DD` text of the date floor. */
  function FormatDate(d: CalendarDate): string
  {
    IntToString(d.year) + "/" + PadStart2(IntToString(d.month)) + "/" + PadStart2(IntToString(d.day))
  }

  /** Reads decimal digits back. */
  function ParseNat(s: string): nat
    decreases |s|
  {
    if s == [] then 0 else ParseNat(s[..|s| - 1]) * 10 + DigitValue(s[|s| - 1])
  }

  function ParseInt(s: string): int
  {
    if |s| > 0 && s[0] == '-' then -(ParseNat(s[1..]) as int) else ParseNat(s)
  }

  /** Reads a `Y/MM/DD` text back into a calendar day. */
  function ParseDate(s: string): Option<CalendarDate>
  {
    if |s| >= 7 && s[|s| - 3] == '/' && s[|s| - 6] == '/' then
      Some(CalendarDate(ParseInt(s[..|s| - 6]), ParseInt(s[|s| - 5..|s| - 3]), ParseInt(s[|s| - 2..])))
    else
      None
  }

  lemma {:induction false} NatRoundTrip(n: nat)
    ensures ParseNat(NatToString(n)) == n
    decreases n
  {
    if n >= 10 {
      var s := NatToString(n);
      assert s[..|s| - 1] == NatToString(n / 10);
      NatRoundTrip(n / 10);
    }
  }

  lemma IntRoundTrip(i: int)
    ensures ParseInt(IntToString(i)) == i
  {
    if i < 0 {
      assert IntToString(i)[1..] == NatToString(-i);
      NatRoundTrip(-i);
    } else {
      NatRoundTrip(i);
    }
  }

  /** A padded two-digit field reads back as the number it was made from. */
  lemma PaddedRoundTrip(n: int)
    requires 0 <= n < 100
    ensures |PadStart2(IntToString(n))| == 2
    ensures ParseInt(PadStart2(IntToString(n))) == n
  {
    var s := IntToString(n);
    if n < 10 {
      assert s == [Digit(n)];
      var p := PadStart2(s);
      assert p == ['0', Digit(n)];
      assert p[..1] == ['0'];
      assert ParseNat(p) == ParseNat(['0']) * 10 + n;
    } else {
      var q := n / 10;
      assert s == NatToString(q) + [Digit(n % 10)];
      assert NatToString(q) == [Digit(q)];
      IntRoundTrip(n);
    }
  }

  /** How `ParseDate` splits a text made of a year, two two-character fields and two slashes. */
  lemma ParseDateSplit(y: string, m: string, dd: string)
    requires |y| >= 1 && |m| == 2 && |dd| == 2
    ensures ParseDate(y + "/" + m + "/" + dd) == Some(CalendarDate(ParseInt(y), ParseInt(m), ParseInt(dd)))
  {
    var a := y + "/";
    var b := a + m;
    var c := b + "/";
    var s := c + dd;
    assert y + "/" + m + "/" + dd == s;
    assert s[..|c|] == c;
    assert s[|c|..] == dd;
    assert c[..|b|] == b;
    assert b[..|a|] == a;
    assert b[|a|..] == m;
    assert a[..|y|] == y;
    assert s[..|y|] == y;
    assert s[|a|..|b|] == m;
  }

  /** The `after:` date text reads back as the calendar day it was made from. */
  lemma DateRoundTrip(d: CalendarDate)
    requires ValidCalendarDate(d)
    ensures ParseDate(FormatDate(d)) == Some(d)
  {
    PaddedRoundTrip(d.month);
    PaddedRoundTrip(d.day);
    IntRoundTrip(d.year);
    ParseDateSplit(IntToString(d.year), PadStart2(IntToString(d.month)), PadStart2(IntToString(d.day)));
  }

  /** The characters `String.prototype.trim` removes: white space and line terminators. */
  predicate IsJsWhitespace(c: char)
  {
    var n := c as int;
    || 0x09 <= n <= 0x0D                  // tab, line feed, vertical tab, form feed, carriage return
    || n == 0x20 || n == 0xA0 || n == 0x1680
    || 0x2000 <= n <= 0x200A              // the typographic spaces
    || n == 0x2028 || n == 0x2029         // line and paragraph separators
    || n == 0x202F || n == 0x205F || n == 0x3000
    || n == 0xFEFF                        // zero-width no-break space
  }

  /** Drops leading white space: the result is a suffix of `s` that starts with no white space. */
  function TrimStart(s: string): (r: string)
    ensures |r| <= |s| && r == s[|s| - |r|..]
    ensures r == [] || !IsJsWhitespace(r[0])
    ensures forall i :: 0 <= i < |s| - |r| ==> IsJsWhitespace(s[i])
    decreases |s|
  {
    if s != [] && IsJsWhitespace(s[0]) then TrimStart(s[1..]) else s
  }

  /** Drops trailing white space: the result is a prefix of `s` that ends with no white space. */
  function TrimEnd(s: string): (r: string)
    ensures |r| <= |s| && r == s[..|r|]
    ensures r == [] || !IsJsWhitespace(r[|r| - 1])
    ensures forall i :: |r| <= i < |s| ==> IsJsWhitespace(s[i])
    decreases |s|
  {
    if s != [] && IsJsWhitespace(s[|s| - 1]) then TrimEnd(s[..|s| - 1]) else s
  }

  /** `String.prototype.trim`. */
  function Trim(s: string): (r: string)
    ensures var a := |s| - |TrimStart(s)|;
      && a + |r| <= |s| && r == s[a..a + |r|]
      && (r == [] || (!IsJsWhitespace(r[0]) && !IsJsWhitespace(r[|r| - 1])))
      && (forall i :: 0 <= i < a ==> IsJsWhitespace(s[i]))
      && (forall i :: a + |r| <= i < |s| ==> IsJsWhitespace(s[i]))
  {
    TrimEnd(TrimStart(s))
  }

  /** Leading white space of a concatenation is that of its first part, unless the first part is all white space. */
  lemma {:induction false} TrimStartAppend(a: string, b: string)
    ensures TrimStart(a + b) == if TrimStart(a) == [] then TrimStart(b) else TrimStart(a) + b
    decreases |a|
  {
    if a == [] {
      assert a + b == b;
    } else if IsJsWhitespace(a[0]) {
      assert (a + b)[1..] == a[1..] + b;
      TrimStartAppend(a[1..], b);
    }
  }

  /** `buildFinalQueryWithDateFilter`. */
  function BuildFinalQuery(
    categoryFilter: string, loadMessagesAfterDate: Option<string>, utcDay: string -> CalendarDate): (q: string)
    ensures !Truthy(loadMessagesAfterDate) ==> q == categoryFilter
  {
    if Truthy(loadMessagesAfterDate) then
      Trim(categoryFilter + " after:" + FormatDate(utcDay(loadMessagesAfterDate.value)))
    else
      categoryFilter
  }

  lemma TrimStartAfterClause(date: string)
    ensures TrimStart(" after:" + date) == "after:" + date
  {
    var tail := " after:" + date;
    assert tail[1..] == "after:" + date;
    assert tail[1] == 'a';
  }

  lemma ConcatAssoc<T>(a: seq<T>, b: seq<T>, c: seq<T>)
    ensures (a + b) + c == a + (b + c)
  {
  }

  /** Text ending in a digit has no trailing white space to trim. */
  lemma TrimEndBeforeDigit(p: string, date: string)
    requires |date| >= 1 && IsDigit(date[|date| - 1])
    ensures TrimEnd(p + date) == p + date
  {
    var t := p + date;
    assert t[|t| - 1] == date[|date| - 1];
  }

  /** Trimming `filter + " after:" + date` only strips the filter's leading white space. */
  lemma TrimAfterClause(categoryFilter: string, date: string)
    requires |date| >= 1 && IsDigit(date[|date| - 1])
    ensures Trim(categoryFilter + " after:" + date)
      == if TrimStart(categoryFilter) == [] then "after:" + date else TrimStart(categoryFilter) + " after:" + date
  {
    var tail := " after:" + date;
    ConcatAssoc(categoryFilter, " after:", date);
    TrimStartAppend(categoryFilter, tail);
    TrimStartAfterClause(date);
    if TrimStart(categoryFilter) == [] {
      assert TrimStart(categoryFilter + " after:" + date) == "after:" + date;
      TrimEndBeforeDigit("after:", date);
    } else {
      ConcatAssoc(TrimStart(categoryFilter), " after:", date);
      assert TrimStart(categoryFilter + " after:" + date) == (TrimStart(categoryFilter) + " after:") + date;
      TrimEndBeforeDigit(TrimStart(categoryFilter) + " after:", date);
    }
  }

  /**
   * With a date floor the query is the filter without its leading white space, then
   * ` after:` and the date text (no leading space when the filter is blank),
   * and the date text reads back as the channel's UTC day.
   */
  lemma QueryWithDate(categoryFilter: string, loadMessagesAfterDate: Option<string>, utcDay: string -> CalendarDate)
    requires Truthy(loadMessagesAfterDate)
    ensures var d := utcDay(loadMessagesAfterDate.value);
      var q := BuildFinalQuery(categoryFilter, loadMessagesAfterDate, utcDay);
      && q == (if TrimStart(categoryFilter) == [] then "after:" + FormatDate(d)
               else TrimStart(categoryFilter) + " after:" + FormatDate(d))
      && (ValidCalendarDate(d) ==> ParseDate(q[|q| - |FormatDate(d)|..]) == Some(d))
  {
    var d := utcDay(loadMessagesAfterDate.value);
    var date := FormatDate(d);
    TrimAfterClause(categoryFilter, date);
    var q := BuildFinalQuery(categoryFilter, loadMessagesAfterDate, utcDay);
    if TrimStart(categoryFilter) == [] {
      assert q[|q| - |date|..] == date;
    } else {
      assert q[|q| - |date|..] == date;
    }
    if ValidCalendarDate(d) {
      DateRoundTrip(d);
    }
  }
}
