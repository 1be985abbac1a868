/** The text primitives of the Java library that the booking system relies on:
    String.split (with the three limits it is called with), Integer.toString and
    Integer.parseInt, String.equalsIgnoreCase (ASCII only), LocalDate.toString and
    the two ways dates are parsed, and the syntax Double.parseDouble accepts. */
module Text {
  import opened Common

  // ---------------------------------------------------------------------------
  // Searching and splitting

  predicate OccursAt(s: string, sep: string, i: int)
  {
    0 <= i && i + |sep| <= |s| && s[i..i + |sep|] == sep
  }

  /** The first position at or after `from` where `sep` occurs in `s`. */
  function FindFrom(s: string, sep: string, from: nat): (r: Option<nat>)
    requires |sep| > 0
    ensures r.Some? ==> from <= r.value && OccursAt(s, sep, r.value)
    ensures forall j :: from <= j && (r.None? || j < r.value) ==> !OccursAt(s, sep, j)
    decreases |s| - from
  {
    if from + |sep| > |s| then None
    else if s[from..from + |sep|] == sep then Some(from)
    else FindFrom(s, sep, from + 1)
  }

  /** Joins parts with sep between consecutive parts (String.join). */
  function Join(parts: seq<string>, sep: string): string
  {
    if |parts| == 0 then ""
    else if |parts| == 1 then parts[0]
    else parts[0] + sep + Join(parts[1..], sep)
  }

  /** Every field followed by sep: the shape the data files are written in. */
  function Terminated(fields: seq<string>, sep: string): string
  {
    if fields == [] then "" else fields[0] + sep + Terminated(fields[1..], sep)
  }

  /** String.split(sep, -1): cut at every occurrence, left to right, keeping
      empty pieces; with no occurrence the whole string is the only piece. */
  function SplitAll(s: string, sep: string): (parts: seq<string>)
    requires |sep| > 0
    ensures |parts| >= 1
    ensures Join(parts, sep) == s
    decreases |s|
  {
    match FindFrom(s, sep, 0)
    case None => [s]
    case Some(i) =>
      var rest := SplitAll(s[i + |sep|..], sep);
      assert s == s[..i] + sep + s[i + |sep|..];
      assert ([s[..i]] + rest)[1..] == rest;
      [s[..i]] + rest
  }

  /** String.split(sep, limit) for a positive limit: at most `limit` pieces,
      the last one keeping the rest of the string, separators included. */
  function SplitAtMost(s: string, sep: string, limit: nat): (parts: seq<string>)
    requires |sep| > 0 && limit >= 1
    ensures 1 <= |parts| <= limit
    ensures Join(parts, sep) == s
    ensures forall k :: 0 <= k < |parts| - 1 ==> FindFrom(parts[k], sep, 0).None?
    decreases limit
  {
    if limit == 1 then [s]
    else match FindFrom(s, sep, 0)
      case None => [s]
      case Some(i) =>
        var rest := SplitAtMost(s[i + |sep|..], sep, limit - 1);
        assert s == s[..i] + sep + s[i + |sep|..];
        assert ([s[..i]] + rest)[1..] == rest;
        NoOccurrenceInPrefix(s, sep, i);
        [s[..i]] + rest
  }

  lemma NoOccurrenceInPrefix(s: string, sep: string, i: nat)
    requires |sep| > 0 && i <= |s|
    requires forall j :: 0 <= j < i ==> !OccursAt(s, sep, j)
    ensures FindFrom(s[..i], sep, 0).None?
  {
    var p := s[..i];
    forall j | 0 <= j
      ensures !OccursAt(p, sep, j)
    {
      if j + |sep| <= |p| {
        assert p[j..j + |sep|] == s[j..j + |sep|];
        assert !OccursAt(s, sep, j);
      }
    }
  }

  /** Removes the trailing empty strings, as String.split does for limit 0. */
  function DropTrailingEmpty(parts: seq<string>): (r: seq<string>)
    ensures |r| <= |parts| && r == parts[..|r|]
    ensures |r| > 0 ==> r[|r| - 1] != ""
    ensures forall k :: |r| <= k < |parts| ==> parts[k] == ""
  {
    if |parts| > 0 && parts[|parts| - 1] == "" then DropTrailingEmpty(parts[..|parts| - 1])
    else parts
  }

  /** String.split(sep) (limit 0): like SplitAll, then trailing empty pieces are
      dropped, except that a string without any occurrence comes back whole. */
  function SplitDroppingTrailing(s: string, sep: string): (parts: seq<string>)
    requires |sep| > 0
    ensures var all := SplitAll(s, sep);
      |parts| <= |all| && parts == all[..|parts|] && forall k :: |parts| <= k < |all| ==> all[k] == ""
    ensures FindFrom(s, sep, 0).Some? && |parts| > 0 ==> parts[|parts| - 1] != ""
  {
    if FindFrom(s, sep, 0).None? then [s] else DropTrailingEmpty(SplitAll(s, sep))
  }

  const Separator: string := "::"

  /** A field that survives the "::" line format: no ':' is followed by another
      ':' and the field does not end in ':' (which would fuse with the separator). */
  predicate NoSeparator(f: string)
  {
    forall j :: 0 <= j < |f| && f[j] == ':' ==> j + 1 < |f| && f[j + 1] != ':'
  }

  predicate NoColon(f: string)
  {
    forall j :: 0 <= j < |f| ==> f[j] != ':'
  }

  lemma NoColonIsNoSeparator(f: string)
    requires NoColon(f)
    ensures NoSeparator(f)
  {
  }

  /** The first piece split off f + "::" + rest is exactly f. */
  lemma SplitAllAfterField(f: string, rest: string)
    requires NoSeparator(f)
    ensures SplitAll(f + Separator + rest, Separator) == [f] + SplitAll(rest, Separator)
  {
    var s := f + Separator + rest;
    assert OccursAt(s, Separator, |f|) by {
      assert s[|f|..|f| + 2] == Separator;
    }
    forall j | 0 <= j < |f|
      ensures !OccursAt(s, Separator, j)
    {
      assert s[j] == f[j];
      if j + 1 < |f| {
        assert s[j + 1] == f[j + 1];
      }
    }
    var r := FindFrom(s, Separator, 0);
    assert r == Some(|f|);
    assert s[..|f|] == f;
    assert s[|f| + 2..] == rest;
  }

  /** Splitting a written line gives back its fields, plus one empty trailing piece. */
  lemma {:induction false} SplitTerminated(fields: seq<string>)
    requires forall k :: 0 <= k < |fields| ==> NoSeparator(fields[k])
    ensures SplitAll(Terminated(fields, Separator), Separator) == fields + [""]
  {
    if fields == [] {
      assert FindFrom("", Separator, 0) == None;
    } else {
      SplitTerminated(fields[1..]);
      SplitAllAfterField(fields[0], Terminated(fields[1..], Separator));
      assert fields == [fields[0]] + fields[1..];
    }
  }

  lemma TerminatedHasSeparator(fields: seq<string>)
    requires |fields| > 0
    ensures FindFrom(Terminated(fields, Separator), Separator, 0).Some?
  {
    var s := Terminated(fields, Separator);
    assert s == fields[0] + Separator + Terminated(fields[1..], Separator);
    assert s[|fields[0]|..|fields[0]| + 2] == Separator;
    assert OccursAt(s, Separator, |fields[0]|);
  }

  // ---------------------------------------------------------------------------
  // Integers: Integer.toString and Integer.parseInt (radix 10)

  const MinInt: int := -0x8000_0000
  const MaxInt: int := 0x7fff_ffff

  predicate IsInt32(n: int) { MinInt <= n <= MaxInt }

  /** Java's int addition: the exact sum brought back into the int range
      modulo 2^32, so that it wraps around past either end. */
  function AddInt(a: int, b: int): (r: int)
    ensures IsInt32(r)
    ensures IsInt32(a + b) ==> r == a + b
    ensures (r - (a + b)) % 0x1_0000_0000 == 0
  {
    (a + b - MinInt) % 0x1_0000_0000 + MinInt
  }

  /** One more than the largest int is the smallest. */
  lemma AddOneWraps()
    ensures AddInt(MaxInt, 1) == MinInt
  {
  }

  predicate IsDigit(c: char) { '0' <= c <= '9' }

  predicate AllDigits(s: string) { forall i :: 0 <= i < |s| ==> IsDigit(s[i]) }

  function DigitChar(d: nat): (c: char)
    requires d < 10
    ensures IsDigit(c)
  {
    ((('0' as int) + d) as char)
  }

  function DigitValue(c: char): nat
    requires IsDigit(c)
  {
    (c as int) - ('0' as int)
  }

  /** The decimal digits of n, most significant first, without leading zeros. */
  function NatToString(n: nat): (s: string)
    ensures |s| >= 1 && AllDigits(s)
    decreases n
  {
    if n < 10 then [DigitChar(n)] else NatToString(n / 10) + [DigitChar(n % 10)]
  }

  /** The value of a string of decimal digits. */
  function DigitsValue(s: string): nat
    requires AllDigits(s)
  {
    if s == [] then 0 else DigitsValue(s[..|s| - 1]) * 10 + DigitValue(s[|s| - 1])
  }

  lemma {:induction false} DigitsRoundTrip(n: nat)
    ensures DigitsValue(NatToString(n)) == n
  {
    if n >= 10 {
      DigitsRoundTrip(n / 10);
      var s := NatToString(n);
      assert s[..|s| - 1] == NatToString(n / 10);
    }
  }

  /** Integer.toString: decimal digits, led by a '-' exactly when n is negative. */
  function IntToString(n: int): (s: string)
    ensures |s| > 0 && Numeral(s) && (s[0] == '-' <==> n < 0)
  {
    if n < 0 then
      var digits := NatToString(-n);
      NumeralConcat("-", digits);
      "-" + digits
    else NatToString(n)
  }

  /** Integer.parseInt: an optional sign, then at least one decimal digit, and a
      value inside the 32-bit range; None stands for NumberFormatException. */
  function ParseInt(s: string): (r: Option<int>)
    ensures r.Some? ==> IsInt32(r.value)
    ensures r.Some? ==> |s| > 0 && (IsDigit(s[0]) || s[0] == '-' || s[0] == '+')
  {
    if |s| == 0 then None
    else
      var digits := if s[0] == '-' || s[0] == '+' then s[1..] else s;
      if |digits| == 0 || !AllDigits(digits) then None
      else
        var v: int := if s[0] == '-' then 0 - DigitsValue(digits) else DigitsValue(digits);
        if IsInt32(v) then Some(v) else None
  }

  /** Integer.parseInt(Integer.toString(n)) == n. */
  lemma IntRoundTrip(n: int)
    requires IsInt32(n)
    ensures ParseInt(IntToString(n)) == Some(n)
  {
    var m: nat := if n < 0 then -n else n;
    DigitsRoundTrip(m);
    var s := IntToString(n);
    if n < 0 {
      assert s[1..] == NatToString(m);
    } else {
      assert s[0] != '-' && s[0] != '+';
    }
  }

  /** Text made of digits and signs only, as numbers and dates are written. */
  predicate Numeral(s: string)
  {
    forall j :: 0 <= j < |s| ==> IsDigit(s[j]) || s[j] == '-' || s[j] == '+'
  }

  lemma NumeralConcat(a: string, b: string)
    requires Numeral(a) && Numeral(b)
    ensures Numeral(a + b)
  {
    forall j | 0 <= j < |a + b|
      ensures IsDigit((a + b)[j]) || (a + b)[j] == '-' || (a + b)[j] == '+'
    {
      if j < |a| {
        assert (a + b)[j] == a[j];
      } else {
        assert (a + b)[j] == b[j - |a|];
      }
    }
  }

  /** 10^k. */
  function Pow10(k: nat): (p: nat)
    ensures p >= 1
  {
    if k == 0 then 1 else 10 * Pow10(k - 1)
  }

  lemma Pow10Values()
    ensures Pow10(4) == 10000 && Pow10(9) == 1_000_000_000
  {
    assert Pow10(1) == 10 && Pow10(2) == 100 && Pow10(3) == 1000;
    assert Pow10(5) == 100000 && Pow10(6) == 1000000 && Pow10(7) == 10000000 && Pow10(8) == 100000000;
  }

  /** A number written with at most k digits is below 10^k, and a number below
      10^k takes at most k digits. */
  lemma {:induction false} NatToStringLength(n: nat, k: nat)
    ensures |NatToString(n)| <= k ==> n < Pow10(k)
    ensures 1 <= k && n < Pow10(k) ==> |NatToString(n)| <= k
    decreases n
  {
    if n >= 10 {
      assert n == 10 * (n / 10) + n % 10;
      assert |NatToString(n)| == |NatToString(n / 10)| + 1;
      if k >= 1 {
        NatToStringLength(n / 10, k - 1);
        assert Pow10(k) == 10 * Pow10(k - 1);
      }
    } else if k >= 1 {
      assert Pow10(k) == 10 * Pow10(k - 1);
    }
  }

  // ---------------------------------------------------------------------------
  // Case-insensitive comparison (ASCII letters only)

  function Lower(c: char): char
  {
    if 'A' <= c <= 'Z' then ((c as int) + 32) as char else c
  }

  function LowerCase(s: string): string
  {
    if s == [] then [] else [Lower(s[0])] + LowerCase(s[1..])
  }

  /** String.equalsIgnoreCase, restricted to ASCII case folding. */
  predicate EqualsIgnoreCase(a: string, b: string)
    ensures a == b ==> EqualsIgnoreCase(a, b)
    ensures EqualsIgnoreCase(a, b) ==> |a| == |b|
  {
    LowerCaseLetters(a);
    LowerCaseLetters(b);
    LowerCase(a) == LowerCase(b)
  }

  /** Two strings are equal ignoring case exactly when they have the same length
      and agree letter by letter after folding. */
  lemma {:induction false} EqualsIgnoreCaseByLetter(a: string, b: string)
    ensures EqualsIgnoreCase(a, b) <==>
              |a| == |b| && forall i :: 0 <= i < |a| ==> Lower(a[i]) == Lower(b[i])
  {
    LowerCaseLetters(a);
    LowerCaseLetters(b);
  }

  lemma {:induction false} LowerCaseLetters(s: string)
    ensures |LowerCase(s)| == |s|
    ensures forall i :: 0 <= i < |s| ==> LowerCase(s)[i] == Lower(s[i])
  {
    if s != [] {
      LowerCaseLetters(s[1..]);
    }
  }

  // ---------------------------------------------------------------------------
  // Calendar dates (java.time.LocalDate)

  datatype CalendarDate = CalendarDate(year: int, month: int, day: int)

  predicate IsLeapYear(y: int)
  {
    y % 4 == 0 && (y % 100 != 0 || y % 400 == 0)
  }

  function MonthLength(y: int, m: int): int
    requires 1 <= m <= 12
  {
    if m == 2 then (if IsLeapYear(y) then 29 else 28)
    else if m == 4 || m == 6 || m == 9 || m == 11 then 30
    else 31
  }

  predicate IsValidDate(d: CalendarDate)
  {
    1 <= d.month <= 12 && 1 <= d.day <= MonthLength(d.year, d.month)
  }

  /** A LocalDate: a valid day of the proleptic Gregorian calendar. */
  type Date = d: CalendarDate | IsValidDate(d) witness CalendarDate(2020, 11, 11)

  function Pad2(n: nat): (s: string)
    requires n < 100
    ensures |s| == 2 && AllDigits(s) && DigitsValue(s) == n
  {
    var s := [DigitChar(n / 10), DigitChar(n % 10)];
    assert s[..1] == [DigitChar(n / 10)] && s[..1][..0] == [];
    assert DigitValue(s[0]) == n / 10 && DigitValue(s[1]) == n % 10;
    assert DigitsValue(s[..1]) == n / 10;
    s
  }

  function Pad4(n: nat): (s: string)
    requires n < 10000
    ensures |s| == 4 && AllDigits(s) && DigitsValue(s) == n
  {
    var hi := Pad2(n / 100);
    var lo := Pad2(n % 100);
    var s := hi + lo;
    assert s[..3] == hi + [lo[0]] && s[..2] == hi;
    s
  }

  /** The year as LocalDate.toString writes it: four digits with leading zeros
      for years 0..9999, a '+' before longer positive years, a '-' before
      negative ones (padded to four digits when shorter). */
  function YearText(y: int): string
  {
    if 0 <= y <= 9999 then Pad4(y)
    else if y > 9999 then "+" + IntToString(y)
    else if y > -1000 then "-" + Pad4(-y)
    else IntToString(y)
  }

  /** LocalDate.toString (ISO-8601 yyyy-MM-dd): digits and signs only, ending
      in the "-MM-dd" both date parsers expect. */
  function FormatDate(d: Date): (s: string)
    ensures Numeral(s) && HasDateTail(s)
  {
    YearTextNumeral(d.year);
    DateTextShape(YearText(d.year), d);
    YearText(d.year) + "-" + Pad2(d.month) + "-" + Pad2(d.day)
  }

  /** The year as the pattern letters "yyyy" write it: the year of the era
      (1 - year before year 1), at least four digits, and a '+' once longer. */
  function YearOfEraText(y: int): string
  {
    var yoe: nat := if y >= 1 then y else 1 - y;
    if yoe <= 9999 then Pad4(yoe) else "+" + IntToString(yoe)
  }

  /** LocalDate.format(ofPattern("yyyy-MM-dd")), as the flight file is written:
      digits and signs only, ending in "-MM-dd". */
  function FormatPatternDate(d: Date): (s: string)
    ensures Numeral(s) && HasDateTail(s)
  {
    var yoe: int := if d.year >= 1 then d.year else 1 - d.year;
    assert YearOfEraText(d.year) == YearText(yoe);
    YearTextNumeral(yoe);
    DateTextShape(YearOfEraText(d.year), d);
    YearOfEraText(d.year) + "-" + Pad2(d.month) + "-" + Pad2(d.day)
  }

  /** The largest year a LocalDate holds; the smallest is its negation. */
  const MaxYear: int := 999_999_999

  /** The year field of both date formats as DateTimeFormatter reads a field
      of minimum width four with sign style EXCEEDS_PAD, strictly: four digits
      and no sign, or a '+' before more than four digits, or a '-' before at
      least four digits that are not all zero; at most maxDigits digits. */
  function ParseYearField(t: string, maxDigits: nat): (r: Option<int>)
    ensures r.Some? ==> |t| >= 4
    ensures r.Some? && |t| > 0 && t[0] == '-' ==> r.value < 0
    ensures r.Some? && (|t| == 0 || t[0] != '-') ==> r.value >= 0
  {
    if |t| > 0 && t[0] == '+' then
      var ds := t[1..];
      if 4 < |ds| <= maxDigits && AllDigits(ds) then Some(DigitsValue(ds)) else None
    else if |t| > 0 && t[0] == '-' then
      var ds := t[1..];
      if 4 <= |ds| <= maxDigits && AllDigits(ds) && DigitsValue(ds) != 0 then Some(0 - DigitsValue(ds))
      else None
    else if |t| == 4 && AllDigits(t) then Some(DigitsValue(t))
    else None
  }

  /** The text ends in "-MM-dd": a '-', two digits, a '-' and two digits. */
  predicate HasDateTail(s: string)
  {
    |s| >= 6 && s[|s| - 6] == '-' && s[|s| - 3] == '-'
    && AllDigits(s[|s| - 5..|s| - 3]) && AllDigits(s[|s| - 2..])
  }

  /** LocalDate.parse(s) with ISO_LOCAL_DATE (strict): a year field of up to ten
      digits, then "-MM-dd"; a year outside the LocalDate range or an impossible
      day such as 2021-02-30 is rejected. None stands for DateTimeParseException. */
  function ParseIsoDate(s: string): (r: Option<Date>)
    ensures r.Some? ==> HasDateTail(s) && -MaxYear <= r.value.year <= MaxYear
  {
    if !HasDateTail(s) then None
    else
      match ParseYearField(s[..|s| - 6], 10)
      case None => None
      case Some(y) =>
        var d := CalendarDate(y, DigitsValue(s[|s| - 5..|s| - 3]), DigitsValue(s[|s| - 2..]));
        if -MaxYear <= y <= MaxYear && IsValidDate(d) then Some(d) else None
  }

  /** LocalDate.parse(s, ofPattern("yyyy-MM-dd")) (smart resolution): a year of
      era field of up to nineteen digits, then "-MM-dd". A year of era outside
      1..999999999 (so any '-' year), a month outside 1..12 or a day outside
      1..31 is rejected, and a day past the end of its month is moved back to
      the month's last day. */
  function ParsePatternDate(s: string): (r: Option<Date>)
    ensures r.Some? ==> HasDateTail(s) && 1 <= r.value.year <= MaxYear
  {
    if !HasDateTail(s) then None
    else
      match ParseYearField(s[..|s| - 6], 19)
      case None => None
      case Some(y) =>
        var m, d := DigitsValue(s[|s| - 5..|s| - 3]), DigitsValue(s[|s| - 2..]);
        if 1 <= y <= MaxYear && 1 <= m <= 12 && 1 <= d <= 31 then
          var day := if d <= MonthLength(y, m) then d else MonthLength(y, m);
          Some(CalendarDate(y, m, day))
        else None
  }

  /** The year text LocalDate.toString writes reads back as that year, for
      every year a LocalDate holds. */
  lemma YearTextReads(y: int, maxDigits: nat)
    requires -MaxYear <= y <= MaxYear && maxDigits >= 10
    ensures ParseYearField(YearText(y), maxDigits) == Some(y)
  {
    Pow10Values();
    var t := YearText(y);
    if y > 9999 {
      var ds := NatToString(y);
      assert t == "+" + ds && t[1..] == ds;
      DigitsRoundTrip(y);
      NatToStringLength(y, 4);
      NatToStringLength(y, 9);
    } else if y < -999 {
      var ds := NatToString(-y);
      assert t == "-" + ds && t[1..] == ds;
      DigitsRoundTrip(-y);
      NatToStringLength(-y, 3);
      assert Pow10(3) == 1000;
      NatToStringLength(-y, 9);
    } else if y < 0 {
      assert t[1..] == Pad4(-y);
    }
  }

  lemma YearTextNumeral(y: int)
    ensures Numeral(YearText(y))
  {
    if y > 9999 {
      NumeralConcat("+", IntToString(y));
    } else if y < -999 {
    } else if y < 0 {
      NumeralConcat("-", Pad4(-y));
    }
  }

  /** A date text split into its year text and the "-MM-dd" tail. */
  lemma DateParts(year: string, d: Date)
    ensures var s := year + "-" + Pad2(d.month) + "-" + Pad2(d.day);
      HasDateTail(s) && s[..|s| - 6] == year
      && s[|s| - 5..|s| - 3] == Pad2(d.month) && s[|s| - 2..] == Pad2(d.day)
  {
  }

  /** LocalDate.parse reads back what LocalDate.toString writes. */
  lemma DateRoundTrip(d: Date)
    requires -MaxYear <= d.year <= MaxYear
    ensures ParseIsoDate(FormatDate(d)) == Some(d)
  {
    DateParts(YearText(d.year), d);
    YearTextReads(d.year, 10);
  }

  /** For years of the current era the "yyyy-MM-dd" pattern writes what
      LocalDate.toString writes, and reads it back. */
  lemma PatternDateRoundTrip(d: Date)
    requires 1 <= d.year <= MaxYear
    ensures FormatPatternDate(d) == FormatDate(d)
    ensures ParsePatternDate(FormatPatternDate(d)) == Some(d)
  {
    DateParts(YearText(d.year), d);
    YearTextReads(d.year, 19);
  }

  /** A year before year 1 loses its era: the pattern writes the year of era
      1 - year without a sign, which reads back as a year of the current era,
      with February 29 moved to the 28th when that year is not a leap year. */
  lemma PatternDateDropsEra(d: Date)
    requires 1 - MaxYear <= d.year <= 0
    ensures var y := 1 - d.year;
      ParsePatternDate(FormatPatternDate(d))
        == Some(CalendarDate(y, d.month, if d.day <= MonthLength(y, d.month) then d.day else MonthLength(y, d.month)))
  {
    var y := 1 - d.year;
    assert YearOfEraText(d.year) == YearText(y);
    DateParts(YearText(y), d);
    YearTextReads(y, 19);
  }

  /** A year text followed by "-MM-dd" is made of digits and signs. */
  lemma DateTextShape(year: string, d: Date)
    requires Numeral(year)
    ensures Numeral(year + "-" + Pad2(d.month) + "-" + Pad2(d.day))
    ensures HasDateTail(year + "-" + Pad2(d.month) + "-" + Pad2(d.day))
  {
    DateParts(year, d);
    var m := "-" + Pad2(d.month);
    var t := m + "-" + Pad2(d.day);
    NumeralConcat("-", Pad2(d.month));
    NumeralConcat(m, "-");
    NumeralConcat(m + "-", Pad2(d.day));
    NumeralConcat(year, t);
    assert year + "-" + Pad2(d.month) + "-" + Pad2(d.day) == year + t;
  }

  // ---------------------------------------------------------------------------
  // Prices (Java double)

  /** A price is a Java double; the model keeps it as its decimal text and
      does not model floating-point values or Double.toString normalisation. */
  datatype Price = Price(text: string)

  /** The default value of an unset double field, as Double.toString writes it. */
  const ZeroPrice: Price := Price("0.0")

  /** String.trim: drops leading and trailing characters at or below ' '. */
  function Trim(s: string): (t: string)
    ensures |t| <= |s| && exists i :: 0 <= i <= |s| - |t| && t == s[i..][..|t|]
    ensures |t| > 0 ==> ' ' < t[0] && ' ' < t[|t| - 1]
    ensures (|s| == 0 || (' ' < s[0] && ' ' < s[|s| - 1])) ==> t == s
    decreases |s|
  {
    if |s| > 0 && s[0] <= ' ' then
      var t := Trim(s[1..]);
      SliceOfRest(s, s[1..], t);
      t
    else if |s| > 0 && s[|s| - 1] <= ' ' then
      var t := Trim(s[..|s| - 1]);
      SliceOfFront(s, s[..|s| - 1], t);
      t
    else
      assert s == s[0..][..|s|];
      s
  }

  /** A slice of s[1..] is a slice of s. */
  lemma SliceOfRest(s: string, rest: string, t: string)
    requires |s| > 0 && rest == s[1..] && exists i :: 0 <= i <= |rest| - |t| && t == rest[i..][..|t|]
    ensures exists i :: 0 <= i <= |s| - |t| && t == s[i..][..|t|]
  {
    var i :| 0 <= i <= |rest| - |t| && t == rest[i..][..|t|];
    assert s[1..][i..] == s[i + 1..];
  }

  /** A slice of s without its last character is a slice of s. */
  lemma SliceOfFront(s: string, front: string, t: string)
    requires |s| > 0 && front == s[..|s| - 1] && exists i :: 0 <= i <= |front| - |t| && t == front[i..][..|t|]
    ensures exists i :: 0 <= i <= |s| - |t| && t == s[i..][..|t|]
  {
    var i :| 0 <= i <= |front| - |t| && t == front[i..][..|t|];
    assert s[..|s| - 1][i..][..|t|] == s[i..][..|t|];
  }



  /** Digits with at most one '.', and at least one digit. */
  predicate IsMantissa(m: string)
  {
    var k := IndexOf(m, '.');
    if k == |m| then |m| > 0 && AllDigits(m)
    else |m| > 1 && AllDigits(m[..k]) && AllDigits(m[k + 1..])
  }

  predicate IsExponent(e: string)
  {
    var ds := if |e| > 0 && (e[0] == '+' || e[0] == '-') then e[1..] else e;
    |ds| > 0 && AllDigits(ds)
  }

  predicate IsDecimal(b: string)
  {
    var k := if IndexOf(b, 'e') < IndexOf(b, 'E') then IndexOf(b, 'e') else IndexOf(b, 'E');
    if k == |b| then IsMantissa(b) else IsMantissa(b[..k]) && IsExponent(b[k + 1..])
  }

  /** The decimal forms Double.parseDouble accepts: surrounding white space, an
      optional sign, then NaN, Infinity, or a decimal literal with an optional
      exponent and an optional f/F/d/D suffix. */
  predicate IsJavaDouble(s: string)
  {
    var t := Trim(s);
    var u := if |t| > 0 && (t[0] == '+' || t[0] == '-') then t[1..] else t;
    u == "NaN" || u == "Infinity"
    || (|u| > 0 && var last := u[|u| - 1];
        if last == 'f' || last == 'F' || last == 'd' || last == 'D'
        then IsDecimal(u[..|u| - 1]) else IsDecimal(u))
  }

  /** Double.parseDouble: None stands for NumberFormatException. */
  function ParsePrice(s: string): (r: Option<Price>)
    ensures r.Some? <==> IsJavaDouble(s)
    ensures r.Some? ==> r.value.text == s
  {
    if IsJavaDouble(s) then Some(Price(s)) else None
  }
}
