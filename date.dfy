/**
 * The date codec: `Date` with its default, `format_date`, `is_set`, the `FromStr`
 * conversion, and `deserialize_date`, which turns a `YYYY-MM-DD` token into a `Date`.
 */
module Dates {
  import opened Wrappers
  import opened Text

  type uint16 = x: int | 0 <= x < 0x1_0000
  type uint8 = x: int | 0 <= x < 0x100

  /** `Date { year: u16, month: u8, day: u8 }`; `Date::new(y, m, d)` is the constructor itself. */
  datatype Date = Date(year: uint16, month: uint8, day: uint8)

  /** `Date::default()`. */
  function Default(): (d: Date)
    ensures !IsSet(d) && FormatDate(d) == ""
  {
    Date(0, 0, 0)
  }

  /** `Date::is_set`: every field is nonzero. */
  predicate IsSet(d: Date)
  {
    d.year != 0 && d.month != 0 && d.day != 0
  }

  /** The documentation example: `Date::new(2022, 1, 1)` is set, the default date is not. */
  lemma IsSetExample()
    ensures IsSet(Date(2022, 1, 1)) && !IsSet(Default())
  {
  }

  // ---------------------------------------------------------------
  //                        Decimal digits
  // ---------------------------------------------------------------

  predicate IsDigit(c: char)
  {
    '0' <= c <= '9'
  }

  predicate AllDigits(s: string)
  {
    forall i :: 0 <= i < |s| ==> IsDigit(s[i])
  }

  function DigitValue(c: char): nat
    requires IsDigit(c)
  {
    c as int - '0' as int
  }

  function DigitChar(n: nat): (c: char)
    requires n < 10
    ensures IsDigit(c) && DigitValue(c) == n
  {
    ('0' as int + n) as char
  }

  /** Ten to the power `n`: the bound on a number of `n` decimal digits. */
  function Pow10(n: nat): (r: nat)
    ensures r >= 1
  {
    if n == 0 then 1 else 10 * Pow10(n - 1)
  }

  /** The number a string of decimal digits denotes, most significant digit first. */
  function DigitsValue(s: string): nat
    requires AllDigits(s)
  {
    if s == [] then 0 else DigitsValue(s[..|s| - 1]) * 10 + DigitValue(s[|s| - 1])
  }

  /** A number written with `k` digits is below `10^k`. */
  lemma {:induction false} DigitsValueBound(s: string)
    requires AllDigits(s)
    ensures DigitsValue(s) < Pow10(|s|)
  {
    if s != [] {
      DigitsValueBound(s[..|s| - 1]);
    }
  }

  /**
   * `<uN as FromStr>::from_str` for the unsigned type whose largest value is `max`:
   * an optional `+` followed by one or more ASCII digits, with a value no larger than `max`.
   */
  function ParseUnsigned(s: string, max: nat): (r: Option<nat>)
    ensures r.Some? ==> r.value <= max
    ensures r.Some? ==> r.value < Pow10(|s|)
  {
    var digits := if |s| > 0 && s[0] == '+' then s[1..] else s;
    if |digits| > 0 && AllDigits(digits) && DigitsValue(digits) <= max then
      DigitsValueBound(digits);
      assert Pow10(|digits|) <= Pow10(|s|) by { if |digits| < |s| { assert |s| == |digits| + 1; } }
      Some(DigitsValue(digits))
    else
      None
  }

  /**
   * What `from_str` accepts: one or more ASCII digits, optionally after a single `+`, with
   * a value that fits; the value is that of the digits.
   */
  lemma ParsedGroupShape(s: string, max: nat)
    ensures ParseUnsigned(s, max).Some? <==>
      (|s| > 0 && AllDigits(s) && DigitsValue(s) <= max) ||
      (|s| > 1 && s[0] == '+' && AllDigits(s[1..]) && DigitsValue(s[1..]) <= max)
    ensures ParseUnsigned(s, max).Some? ==>
      if s[0] == '+' then AllDigits(s[1..]) && ParseUnsigned(s, max).value == DigitsValue(s[1..])
      else AllDigits(s) && ParseUnsigned(s, max).value == DigitsValue(s)
  {
  }

  /** `format!("{:0width$}", n)`: the decimal digits of `n`, zero-padded on the left to at least `width`. */
  function PadDecimal(n: nat, width: nat): (r: string)
    ensures |r| >= 1 && AllDigits(r)
    ensures r[0] != '+' && r[0] != '-'
    decreases n + width
  {
    if n < 10 && width <= 1 then [DigitChar(n)]
    else PadDecimal(n / 10, if width == 0 then 0 else width - 1) + [DigitChar(n % 10)]
  }

  lemma {:induction false} PadDecimalValue(n: nat, width: nat)
    ensures DigitsValue(PadDecimal(n, width)) == n
    decreases n + width
  {
    if !(n < 10 && width <= 1) {
      var w' := if width == 0 then 0 else width - 1;
      var p := PadDecimal(n / 10, w');
      PadDecimalValue(n / 10, w');
      var r := p + [DigitChar(n % 10)];
      assert r[..|r| - 1] == p;
    }
  }

  lemma {:induction false} PadDecimalLength(n: nat, width: nat)
    requires width >= 1 && n < Pow10(width)
    ensures |PadDecimal(n, width)| == width
    decreases width
  {
    if width > 1 {
      PadDecimalLength(n / 10, width - 1);
    }
  }

  /** `Date::format_date`: `YYYY-MM-DD` with zero padding when the year is nonzero, otherwise empty. */
  function FormatDate(d: Date): (r: string)
    ensures r == "" <==> d.year == 0
  {
    if d.year != 0 then
      PadDecimal(d.year, 4) + "-" + PadDecimal(d.month, 2) + "-" + PadDecimal(d.day, 2)
    else
      ""
  }

  /** `deserialize_date`: split on `-`; three groups of lengths 4, 2, 2 that all parse give the date, anything else the default. */
  function DeserializeDate(s: string): (d: Date)
    ensures d.year <= 9999 && d.month <= 99 && d.day <= 99
    ensures d != Default() ==> |s| == 10 && s[4] == '-' && s[7] == '-'
    ensures d != Default() ==>
      var g := Split(s, '-');
      |g| == 3 && |g[0]| == 4 && |g[1]| == 2 && |g[2]| == 2 &&
      ParseUnsigned(g[0], 0xFFFF) == Some(d.year as nat) &&
      ParseUnsigned(g[1], 0xFF) == Some(d.month as nat) &&
      ParseUnsigned(g[2], 0xFF) == Some(d.day as nat)
  {
    var groups := Split(s, '-');
    if |groups| == 3 && |groups[0]| == 4 && |groups[1]| == 2 && |groups[2]| == 2 then
      var year := ParseUnsigned(groups[0], 0xFFFF);
      var month := ParseUnsigned(groups[1], 0xFF);
      var day := ParseUnsigned(groups[2], 0xFF);
      if year.Some? && month.Some? && day.Some? then
        SplitPieces(s, '-', groups);
        assert s == groups[0] + "-" + groups[1] + "-" + groups[2];
        Date(year.value, month.value, day.value)
      else
        Default()
    else
      Default()
  }

  /** `<Date as FromStr>::from_str` (and `From<S>`): always succeeds, with the value `deserialize_date` gives. */
  function FromStr(s: string): (r: Result<Date, ()>)
    ensures r.Ok? && r.value == DeserializeDate(s)
  {
    Ok(DeserializeDate(s))
  }

  // ---------------------------------------------------------------
  //                 Splitting on the separator
  // ---------------------------------------------------------------

  /** The pieces `split` returns, put back together with the separator, give the input. */
  lemma {:induction false} SplitJoinPieces(s: string, sep: char)
    ensures Join(Split(s, sep), [sep]) == s
  {
    if |s| > 0 {
      SplitJoinPieces(s[1..], sep);
      var rest := Split(s[1..], sep);
      if s[0] == sep {
        JoinCons("", rest, [sep]);
      } else if |rest| == 1 {
      } else {
        JoinCons([s[0]] + rest[0], rest[1..], [sep]);
        JoinCons(rest[0], rest[1..], [sep]);
        assert [rest[0]] + rest[1..] == rest;
      }
    }
  }

  lemma SplitPieces(s: string, sep: char, groups: seq<string>)
    requires groups == Split(s, sep) && |groups| == 3
    ensures s == groups[0] + [sep] + groups[1] + [sep] + groups[2]
  {
    SplitJoinPieces(s, sep);
    JoinCons(groups[0], groups[1..], [sep]);
    JoinCons(groups[1], groups[2..], [sep]);
    assert [groups[0]] + groups[1..] == groups;
    assert [groups[1]] + groups[2..] == groups[1..];
  }

  lemma {:induction false} SplitNoSeparator(s: string, sep: char)
    requires sep !in s
    ensures Split(s, sep) == [s]
  {
    if |s| > 0 {
      SplitNoSeparator(s[1..], sep);
      assert [s[0]] + s[1..] == s;
    }
  }

  lemma {:induction false} SplitAtSeparator(a: string, sep: char, b: string)
    requires sep !in a
    ensures Split(a + [sep] + b, sep) == [a] + Split(b, sep)
  {
    var s := a + [sep] + b;
    if |a| == 0 {
      assert s[1..] == b;
    } else {
      assert s[1..] == a[1..] + [sep] + b;
      SplitAtSeparator(a[1..], sep, b);
      assert [a[0]] + a[1..] == a;
    }
  }

  lemma DigitsHaveNoHyphen(s: string)
    requires AllDigits(s)
    ensures '-' !in s
  {
    assert forall i :: 0 <= i < |s| ==> s[i] != '-';
  }

  // ---------------------------------------------------------------
  //                        Properties
  // ---------------------------------------------------------------

  /** A set date always formats to a non-empty string. */
  lemma IsSetFormatsNonEmpty(d: Date)
    requires IsSet(d)
    ensures FormatDate(d) != ""
  {
  }

  /** The converse fails: a zero month or day still formats, yet the date is not set. */
  lemma FormattedButUnset()
    ensures var d := Date(2022, 0, 1); FormatDate(d) != "" && !IsSet(d)
  {
  }

  /** For a four-digit year and two-digit month and day, the format is ten characters with hyphens at 4 and 7. */
  lemma {:induction false} FormatDateShape(d: Date)
    requires 1 <= d.year <= 9999 && d.month <= 99 && d.day <= 99
    ensures var f := FormatDate(d);
      |f| == 10 && f[4] == '-' && f[7] == '-' &&
      forall i :: 0 <= i < 10 && i != 4 && i != 7 ==> IsDigit(f[i])
  {
    PadDecimalLength(d.year, 4);
    PadDecimalLength(d.month, 2);
    PadDecimalLength(d.day, 2);
    var y, m, dd := PadDecimal(d.year, 4), PadDecimal(d.month, 2), PadDecimal(d.day, 2);
    var f := FormatDate(d);
    assert f == y + "-" + m + "-" + dd;
    assert forall i :: 0 <= i < 4 ==> f[i] == y[i];
    assert forall i :: 5 <= i < 7 ==> f[i] == m[i - 5];
    assert forall i :: 8 <= i < 10 ==> f[i] == dd[i - 8];
  }

  lemma ParsePadded(n: nat, width: nat, max: nat)
    requires width >= 1 && n < Pow10(width) && n <= max
    ensures ParseUnsigned(PadDecimal(n, width), max) == Some(n)
  {
    PadDecimalValue(n, width);
  }

  /** Round trip: a date with a four-digit nonzero year and two-digit month and day is read back from its format. */
  lemma {:induction false} FormatDeserializeRoundTrip(d: Date)
    requires 1 <= d.year <= 9999 && d.month <= 99 && d.day <= 99
    ensures DeserializeDate(FormatDate(d)) == d
  {
    var y, m, dd := PadDecimal(d.year, 4), PadDecimal(d.month, 2), PadDecimal(d.day, 2);
    PadDecimalLength(d.year, 4);
    PadDecimalLength(d.month, 2);
    PadDecimalLength(d.day, 2);
    DigitsHaveNoHyphen(y);
    DigitsHaveNoHyphen(m);
    DigitsHaveNoHyphen(dd);
    var f := FormatDate(d);
    assert f == y + ['-'] + (m + ['-'] + dd);
    SplitAtSeparator(y, '-', m + ['-'] + dd);
    SplitAtSeparator(m, '-', dd);
    SplitNoSeparator(dd, '-');
    assert Split(f, '-') == [y, m, dd];
    ParsePadded(d.year, 4, 0xFFFF);
    ParsePadded(d.month, 2, 0xFF);
    ParsePadded(d.day, 2, 0xFF);
  }

  /**
   * The accepting case for every input: three hyphen-free groups of lengths 4, 2 and 2
   * that all parse as unsigned numbers give the date of those numbers.
   */
  lemma GroupsGiveDate(y: string, m: string, d: string)
    requires '-' !in y && '-' !in m && '-' !in d
    requires |y| == 4 && |m| == 2 && |d| == 2
    requires ParseUnsigned(y, 0xFFFF).Some? && ParseUnsigned(m, 0xFF).Some? && ParseUnsigned(d, 0xFF).Some?
    ensures DeserializeDate(y + "-" + m + "-" + d)
         == Date(ParseUnsigned(y, 0xFFFF).value, ParseUnsigned(m, 0xFF).value, ParseUnsigned(d, 0xFF).value)
  {
    assert y + "-" + m + "-" + d == y + ['-'] + (m + ['-'] + d);
    SplitAtSeparator(y, '-', m + ['-'] + d);
    SplitAtSeparator(m, '-', d);
    SplitNoSeparator(d, '-');
  }

  /** Two digits denote ten times the first plus the second. */
  lemma DigitsValue2(s: string)
    requires |s| == 2 && AllDigits(s)
    ensures DigitsValue(s) == 10 * DigitValue(s[0]) + DigitValue(s[1])
  {
    var h := s[..1];
    assert h[..0] == [] && h[0] == s[0] && AllDigits(h);
    assert DigitsValue(h) == DigitValue(s[0]);
  }

  /** Four digits denote their positional value. */
  lemma DigitsValue4(s: string)
    requires |s| == 4 && AllDigits(s)
    ensures DigitsValue(s) == 1000 * DigitValue(s[0]) + 100 * DigitValue(s[1]) + 10 * DigitValue(s[2]) + DigitValue(s[3])
  {
    DigitsValue2(s[..2]);
    assert s[..3][..2] == s[..2];
  }

  /** A group of digits without a sign parses to the number it denotes, when that fits. */
  lemma ParseDigits(s: string, max: nat)
    requires |s| > 0 && AllDigits(s) && DigitsValue(s) <= max
    ensures ParseUnsigned(s, max) == Some(DigitsValue(s))
  {
  }

  /**
   * The accepting case on characters: a ten-character token `NNNN-NN-NN` of ASCII digits
   * reads as the date of its three digit groups.
   */
  lemma DigitToken(s: string)
    requires IsDigitToken(s)
    ensures DeserializeDate(s) == Date(
      1000 * DigitValue(s[0]) + 100 * DigitValue(s[1]) + 10 * DigitValue(s[2]) + DigitValue(s[3]),
      10 * DigitValue(s[5]) + DigitValue(s[6]),
      10 * DigitValue(s[8]) + DigitValue(s[9]))
  {
    var y, m, d := s[..4], s[5..7], s[8..];
    assert forall i :: 0 <= i < 4 ==> y[i] == s[i];
    assert forall i :: 0 <= i < 2 ==> m[i] == s[i + 5] && d[i] == s[i + 8];
    DigitsHaveNoHyphen(y);
    DigitsHaveNoHyphen(m);
    DigitsHaveNoHyphen(d);
    DigitsValue4(y);
    DigitsValue2(m);
    DigitsValue2(d);
    ParseDigits(y, 0xFFFF);
    ParseDigits(m, 0xFF);
    ParseDigits(d, 0xFF);
    assert s == y + "-" + m + "-" + d;
    GroupsGiveDate(y, m, d);
  }

  /** `DigitToken` with the three group values named by the caller. */
  lemma DigitTokenDate(s: string, year: nat, month: nat, day: nat)
    requires IsDigitToken(s)
    requires year == 1000 * DigitValue(s[0]) + 100 * DigitValue(s[1]) + 10 * DigitValue(s[2]) + DigitValue(s[3])
    requires month == 10 * DigitValue(s[5]) + DigitValue(s[6])
    requires day == 10 * DigitValue(s[8]) + DigitValue(s[9])
    ensures DeserializeDate(s) == Date(year, month, day)
  {
    DigitToken(s);
  }

  /** Equal digit values come from equal digits. */
  lemma DigitValueInjective(c: char, c': char)
    requires IsDigit(c) && IsDigit(c') && DigitValue(c) == DigitValue(c')
    ensures c == c'
  {
  }

  /** A ten-character digit token `NNNN-NN-NN`. */
  predicate IsDigitToken(s: string)
  {
    |s| == 10 && s[4] == '-' && s[7] == '-' &&
    forall i :: 0 <= i < 10 && i != 4 && i != 7 ==> IsDigit(s[i])
  }

  /** The last digit and the leading part of a number are determined by the number. */
  lemma LastDigit(x: int, d: int, x': int, d': int)
    requires 0 <= x && 0 <= x' && 0 <= d < 10 && 0 <= d' < 10
    requires 10 * x + d == 10 * x' + d'
    ensures x == x' && d == d'
  {
  }

  /** Four digits are determined by the number they denote. */
  lemma Positional4(a: int, b: int, c: int, d: int, a': int, b': int, c': int, d': int)
    requires 0 <= a < 10 && 0 <= b < 10 && 0 <= c < 10 && 0 <= d < 10
    requires 0 <= a' < 10 && 0 <= b' < 10 && 0 <= c' < 10 && 0 <= d' < 10
    requires 1000 * a + 100 * b + 10 * c + d == 1000 * a' + 100 * b' + 10 * c' + d'
    ensures a == a' && b == b' && c == c' && d == d'
  {
    LastDigit(100 * a + 10 * b + c, d, 100 * a' + 10 * b' + c', d');
    LastDigit(10 * a + b, c, 10 * a' + b', c');
    LastDigit(a, b, a', b');
  }

  /** Two digit tokens that read as the same date are the same token. */
  lemma DigitTokensInjective(s: string, s': string)
    requires IsDigitToken(s) && IsDigitToken(s') && DeserializeDate(s) == DeserializeDate(s')
    ensures s == s'
  {
    DigitToken(s);
    DigitToken(s');
    Positional4(DigitValue(s[0]), DigitValue(s[1]), DigitValue(s[2]), DigitValue(s[3]),
                DigitValue(s'[0]), DigitValue(s'[1]), DigitValue(s'[2]), DigitValue(s'[3]));
    LastDigit(DigitValue(s[5]), DigitValue(s[6]), DigitValue(s'[5]), DigitValue(s'[6]));
    LastDigit(DigitValue(s[8]), DigitValue(s[9]), DigitValue(s'[8]), DigitValue(s'[9]));
    DigitValueInjective(s[0], s'[0]);
    DigitValueInjective(s[1], s'[1]);
    DigitValueInjective(s[2], s'[2]);
    DigitValueInjective(s[3], s'[3]);
    DigitValueInjective(s[5], s'[5]);
    DigitValueInjective(s[6], s'[6]);
    DigitValueInjective(s[8], s'[8]);
    DigitValueInjective(s[9], s'[9]);
    assert forall i :: 0 <= i < 10 ==> s[i] == s'[i];
  }

  /**
   * The round trip from text: a digit token with a nonzero year is exactly the format of
   * the date it reads as.
   */
  lemma TokenRoundTrip(s: string)
    requires IsDigitToken(s) && DeserializeDate(s).year != 0
    ensures FormatDate(DeserializeDate(s)) == s
  {
    var d := DeserializeDate(s);
    FormatDeserializeRoundTrip(d);
    FormatDateShape(d);
    DigitTokensInjective(FormatDate(d), s);
  }

  lemma PlusOneParses()
    ensures ParseUnsigned("+1", 0xFF) == Some(1)
  {
    assert "+1"[1..] == "1";
    assert "1"[..0] == "";
  }

  /** Like Rust's unsigned parse, a group may carry a leading `+`: `"2022-+1-05"` is 2022-01-05. */
  lemma PlusSignAccepted()
    ensures DeserializeDate("2022-+1-05") == Date(2022, 1, 5)
  {
    assert "2022-+1-05" == "2022" + "-" + "+1" + "-" + "05";
    PlusSignGroups();
  }

  lemma PlusSignGroups()
    ensures DeserializeDate("2022" + "-" + "+1" + "-" + "05") == Date(2022, 1, 5)
  {
    DigitsValue4("2022");
    DigitsValue2("05");
    ParseDigits("2022", 0xFFFF);
    ParseDigits("05", 0xFF);
    PlusOneParses();
    GroupsGiveDate("2022", "+1", "05");
  }

  /**
   * `impl Display for Date`: writes the formatted date, so the text is empty exactly for a zero
   * year, and any date with a year from 1 to 9999 reads back from what it displays.
   */
  function Display(d: Date): (r: string)
    ensures r == "" <==> d.year == 0
    ensures 1 <= d.year <= 9999 && d.month <= 99 && d.day <= 99 ==> DeserializeDate(r) == d
  {
    if 1 <= d.year <= 9999 && d.month <= 99 && d.day <= 99 then
      FormatDeserializeRoundTrip(d);
      FormatDate(d)
    else
      FormatDate(d)
  }

  /** The round trip from text: formatting what was parsed from a formatted date gives the same text. */
  lemma FormatParseFormat(d: Date)
    requires 1 <= d.year <= 9999 && 1 <= d.month <= 12 && 1 <= d.day <= 31
    ensures FormatDate(DeserializeDate(FormatDate(d))) == FormatDate(d)
  {
    FormatDeserializeRoundTrip(d);
  }

  /** `"0000-00-00"` parses, and the value it gives is the default. */
  lemma AllZeroIsDefault()
    ensures DeserializeDate("0000-00-00") == Default()
  {
    DigitTokenDate("0000-00-00", 0, 0, 0);
  }

  /** Month and day are not range-checked: `"2010-15-35"` is the date 2010-15-35, not the default. */
  lemma NoRangeCheck()
    ensures DeserializeDate("2010-15-35") == Date(2010, 15, 35)
  {
    DigitTokenDate("2010-15-35", 2010, 15, 35);
  }

  /** `Date::new(2022, 1, 1) == Date::from("2022-01-01")`. */
  lemma NewEqualsFrom()
    ensures Date(2022, 1, 1) == DeserializeDate("2022-01-01")
  {
    DigitTokenDate("2022-01-01", 2022, 1, 1);
  }

  /** Malformed tokens give the default date: a token without three groups. */
  lemma TooFewGroupsGiveDefault()
    ensures DeserializeDate("") == Default()
    ensures DeserializeDate("2014.15.10") == Default()
  {
    SplitNoSeparator("2014.15.10", '-');
  }

  /** Malformed tokens give the default date: two groups. */
  lemma TwoGroupsGiveDefault()
    ensures DeserializeDate("asdf-xcv") == Default()
    ensures DeserializeDate("25-10") == Default()
  {
    assert "asdf-xcv" == "asdf" + "-" + "xcv";
    TwoGroups("asdf", "xcv");
    assert "25-10" == "25" + "-" + "10";
    TwoGroups("25", "10");
  }

  /** Two groups around one hyphen are too few for a date. */
  lemma TwoGroups(a: string, b: string)
    requires '-' !in a && '-' !in b
    ensures DeserializeDate(a + "-" + b) == Default()
  {
    assert a + "-" + b == a + ['-'] + b;
    SplitAtSeparator(a, '-', b);
    SplitNoSeparator(b, '-');
  }

  /** Three groups of the right lengths give the default date when the month is no number. */
  lemma MonthNotANumber(y: string, m: string, d: string)
    requires '-' !in y && '-' !in m && '-' !in d
    requires |y| == 4 && |m| == 2 && |d| == 2 && ParseUnsigned(m, 0xFF).None?
    ensures DeserializeDate(y + "-" + m + "-" + d) == Default()
  {
    UnparsableGroup(y, m, d);
  }

  /** The rejecting case for every input of the right shape: a group that does not parse gives the default. */
  lemma UnparsableGroup(y: string, m: string, d: string)
    requires '-' !in y && '-' !in m && '-' !in d
    requires |y| == 4 && |m| == 2 && |d| == 2
    requires ParseUnsigned(y, 0xFFFF).None? || ParseUnsigned(m, 0xFF).None? || ParseUnsigned(d, 0xFF).None?
    ensures DeserializeDate(y + "-" + m + "-" + d) == Default()
  {
    assert y + "-" + m + "-" + d == y + ['-'] + (m + ['-'] + d);
    SplitAtSeparator(y, '-', m + ['-'] + d);
    SplitAtSeparator(m, '-', d);
    SplitNoSeparator(d, '-');
  }

  /** `20x2-01-05`: the year does not parse, so the date is the default. */
  lemma YearNotANumber()
    ensures DeserializeDate("20x2-01-05") == Default()
  {
    assert "20x2-01-05" == "20x2" + "-" + "01" + "-" + "05";
    assert !IsDigit("20x2"[2]);
    UnparsableGroup("20x2", "01", "05");
  }

  /** Four hyphen-free groups are one too many: the date is the default. */
  lemma FourGroups(a: string, b: string, c: string, e: string)
    requires '-' !in a && '-' !in b && '-' !in c && '-' !in e
    ensures DeserializeDate(a + "-" + b + "-" + c + "-" + e) == Default()
  {
    assert a + "-" + b + "-" + c + "-" + e == a + ['-'] + (b + ['-'] + (c + ['-'] + e));
    SplitAtSeparator(a, '-', b + ['-'] + (c + ['-'] + e));
    SplitAtSeparator(b, '-', c + ['-'] + e);
    SplitAtSeparator(c, '-', e);
    SplitNoSeparator(e, '-');
  }

  /** `2022-01--1`: a negative day makes four groups, so the date is the default. */
  lemma NegativeDayGivesDefault()
    ensures DeserializeDate("2022-01--1") == Default()
  {
    assert "2022-01--1" == "2022" + "-" + "01" + "-" + "" + "-" + "1";
    FourGroups("2022", "01", "", "1");
  }

  /** Malformed tokens give the default date: three groups of the wrong lengths. */
  lemma WrongLengthsGiveDefault()
    ensures DeserializeDate("15-10-10") == Default()
    ensures DeserializeDate("2010-DEC-11") == Default()
  {
    assert "15-10-10" == "15" + ['-'] + ("10" + ['-'] + "10");
    SplitAtSeparator("15", '-', "10" + ['-'] + "10");
    SplitAtSeparator("10", '-', "10");
    SplitNoSeparator("10", '-');
    assert "2010-DEC-11" == "2010" + ['-'] + ("DEC" + ['-'] + "11");
    SplitAtSeparator("2010", '-', "DEC" + ['-'] + "11");
    SplitAtSeparator("DEC", '-', "11");
    SplitNoSeparator("11", '-');
  }

  /** Malformed tokens give the default date: the right shape, but the groups are not numbers. */
  lemma NonDigitsGiveDefault()
    ensures DeserializeDate("xxXx-yy-zz") == Default()
  {
    assert "xxXx-yy-zz" == "xxXx" + ['-'] + ("yy" + ['-'] + "zz");
    SplitAtSeparator("xxXx", '-', "yy" + ['-'] + "zz");
    SplitAtSeparator("yy", '-', "zz");
    SplitNoSeparator("zz", '-');
    assert Split("xxXx-yy-zz", '-')[0] == "xxXx";
    assert !AllDigits("xxXx") by { assert !IsDigit("xxXx"[0]); }
    assert ParseUnsigned("xxXx", 0xFFFF) == None;
  }
}
