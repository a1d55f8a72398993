/**
 * Date handling of the scraper: `_parse_date`, which tries nine `strptime`
 * formats in a fixed order and keeps the first that matches the whole
 * (stripped) text, and `_is_recent_post`, the inclusive cutoff test.
 *
 * A format is a list of directives. Each numeric directive accepts exactly
 * the alternatives of the regular expression `strptime` builds for it, tried
 * in the same order (two digits before one digit; for `%d` also a space
 * followed by a digit), with backtracking into later alternatives as the
 * regular expression engine does. A full match is then checked the way
 * `datetime` checks its arguments: year from 1, month 1..12, day within the
 * month (leap years included), hour up to 23, minute and second up to 59.
 */
module Dates {
  import opened Maybe
  import opened Strings

  /** A naive `datetime`. */
  datatype DateTime = DateTime(year: int, month: int, day: int, hour: int, minute: int,
                               second: int, microsecond: int)

  /** The tuple `datetime` compares on. */
  function Key(d: DateTime): seq<int> {
    [d.year, d.month, d.day, d.hour, d.minute, d.second, d.microsecond]
  }

  /** Lexicographic `<` on tuples of integers of equal length. */
  predicate LexLess(a: seq<int>, b: seq<int>)
    requires |a| == |b|
    decreases |a|
  {
    |a| > 0 && (a[0] < b[0] || (a[0] == b[0] && LexLess(a[1..], b[1..])))
  }

  /** `a < b` on datetimes. */
  predicate Before(a: DateTime, b: DateTime) {
    LexLess(Key(a), Key(b))
  }

  lemma {:induction false} LexLessIrreflexive(a: seq<int>)
    ensures !LexLess(a, a)
  {
    if |a| > 0 {
      LexLessIrreflexive(a[1..]);
    }
  }

  lemma {:induction false} LexLessTransitive(a: seq<int>, b: seq<int>, c: seq<int>)
    requires |a| == |b| == |c|
    requires LexLess(a, b) && LexLess(b, c)
    ensures LexLess(a, c)
  {
    if a[0] == b[0] == c[0] {
      LexLessTransitive(a[1..], b[1..], c[1..]);
    }
  }

  lemma {:induction false} LexLessTotal(a: seq<int>, b: seq<int>)
    requires |a| == |b|
    ensures a == b || LexLess(a, b) || LexLess(b, a)
  {
    if |a| > 0 && a[0] == b[0] {
      LexLessTotal(a[1..], b[1..]);
      assert a == [a[0]] + a[1..] && b == [b[0]] + b[1..];
    }
  }

  lemma {:induction false} LexLessAsymmetric(a: seq<int>, b: seq<int>)
    requires |a| == |b|
    ensures LexLess(a, b) ==> !LexLess(b, a)
  {
    if |a| > 0 && a[0] == b[0] {
      LexLessAsymmetric(a[1..], b[1..]);
    }
  }

  /** `<` on datetimes is a strict total order. */
  lemma BeforeIsStrictTotalOrder(a: DateTime, b: DateTime, c: DateTime)
    ensures !Before(a, a)
    ensures Before(a, b) ==> !Before(b, a)
    ensures Before(a, b) && Before(b, c) ==> Before(a, c)
    ensures a == b || Before(a, b) || Before(b, a)
  {
    LexLessIrreflexive(Key(a));
    LexLessAsymmetric(Key(a), Key(b));
    if Before(a, b) && Before(b, c) {
      LexLessTransitive(Key(a), Key(b), Key(c));
    }
    LexLessTotal(Key(a), Key(b));
  }

  /** `_is_recent_post`: an undated post is always recent; a dated one when
      `post_date >= cutoff_date`. */
  predicate IsRecent(postDate: Option<DateTime>, cutoff: DateTime) {
    match postDate
    case None => true
    case Some(d) => !Before(d, cutoff)
  }

  /** Undated posts pass whatever the cutoff; a dated post passes exactly when
      it is the cutoff instant or later, so the boundary is inclusive. */
  lemma RecencyRule(d: DateTime, cutoff: DateTime)
    ensures IsRecent(None, cutoff)
    ensures IsRecent(Some(d), cutoff) <==> d == cutoff || Before(cutoff, d)
    ensures IsRecent(Some(cutoff), cutoff)
  {
    BeforeIsStrictTotalOrder(d, cutoff, d);
    BeforeIsStrictTotalOrder(cutoff, d, d);
  }

  /** A post recent for some cutoff stays recent for any earlier cutoff. */
  lemma RecencyMonotone(postDate: Option<DateTime>, earlier: DateTime, later: DateTime)
    requires Before(earlier, later)
    requires IsRecent(postDate, later)
    ensures IsRecent(postDate, earlier)
  {
    if postDate.Some? {
      var d := postDate.value;
      BeforeIsStrictTotalOrder(d, later, earlier);
      BeforeIsStrictTotalOrder(earlier, later, d);
      if Before(d, earlier) {
        BeforeIsStrictTotalOrder(d, earlier, later);
      }
    }
  }

  // ---------------------------------------------------------------- strptime

  /** A `strptime` format directive, or a literal character. */
  datatype Directive =
    | Lit(c: char)
    | Year        // %Y: four digits
    | MonthNum    // %m: 1[0-2] | 0[1-9] | [1-9]
    | DayNum      // %d: 3[01] | [12]\d | 0[1-9] | [1-9] | ' '[1-9]
    | Hour        // %H: 2[0-3] | [0-1]\d | \d
    | Minute      // %M: [0-5]\d | \d
    | Second      // %S: 6[0-1] | [0-5]\d | \d
    | MonthName   // %B: January .. December
    | MonthAbbr   // %b: Jan .. Dec

  /** The fields a match has set; those no directive sets keep `strptime`'s defaults. */
  datatype Fields = Fields(year: int, month: int, day: int, hour: int, minute: int, second: int)

  const Defaults := Fields(1900, 1, 1, 0, 0, 0)

  const MonthNames: seq<string> := ["January", "February", "March", "April", "May", "June",
    "July", "August", "September", "October", "November", "December"]

  const MonthAbbrs: seq<string> := ["Jan", "Feb", "Mar", "Apr", "May", "Jun",
    "Jul", "Aug", "Sep", "Oct", "Nov", "Dec"]

  function Store(f: Fields, d: Directive, v: int): Fields {
    match d
    case Year => f.(year := v)
    case MonthNum => f.(month := v)
    case MonthName => f.(month := v)
    case MonthAbbr => f.(month := v)
    case DayNum => f.(day := v)
    case Hour => f.(hour := v)
    case Minute => f.(minute := v)
    case Second => f.(second := v)
    case Lit(_) => f
  }

  /** Whether `n` digits of value `v` are one of the alternatives of directive `d`:
      `%Y` takes four digits; the other numeric directives take two digits in
      the listed ranges, or one digit (`[1-9]` for `%m` and `%d`, `\d` otherwise). */
  predicate DigitsAllowed(d: Directive, n: nat, v: int) {
    match d
    case Year => n == 4
    case MonthNum => (n == 2 && 1 <= v <= 12) || (n == 1 && 1 <= v)
    case DayNum => (n == 2 && 1 <= v <= 31) || (n == 1 && 1 <= v)
    case Hour => (n == 2 && v <= 23) || n == 1
    case Minute => (n == 2 && v <= 59) || n == 1
    case Second => (n == 2 && v <= 61) || n == 1
    case _ => false
  }

  /** The match of `s` against `fmt` from the fields `f` on, or `None`. */
  function Match(fmt: seq<Directive>, s: string, f: Fields): Option<Fields>
    decreases |fmt|, 1, 0
  {
    if fmt == [] then (if s == [] then Some(f) else None)
    else match fmt[0]
      case Lit(c) => if s != [] && s[0] == c then Match(fmt[1..], s[1..], f) else None
      case Year => MatchDigits(fmt, s, f, 4)
      case MonthName => MatchName(fmt, s, f, MonthNames, 0)
      case MonthAbbr => MatchName(fmt, s, f, MonthAbbrs, 0)
      case _ => MatchNumber(fmt, s, f)
  }

  /** A month-name directive: the name at `names[k]` or a later one. */
  function MatchName(fmt: seq<Directive>, s: string, f: Fields, names: seq<string>, k: nat): Option<Fields>
    requires fmt != []
    decreases |fmt|, 0, |names| - k
  {
    if k >= |names| then None
    else
      var here := if names[k] <= s then Match(fmt[1..], s[|names[k]|..], Store(f, fmt[0], k + 1)) else None;
      if here.Some? then here else MatchName(fmt, s, f, names, k + 1)
  }

  /** The first `n` characters of `s` as the numeric directive `fmt[0]`, then the rest of the format. */
  function MatchDigits(fmt: seq<Directive>, s: string, f: Fields, n: nat): Option<Fields>
    requires fmt != []
    decreases |fmt|, 0, 0
  {
    if |s| >= n && AllDigits(s[..n]) && DigitsAllowed(fmt[0], n, DigitsValue(s[..n]))
    then Match(fmt[1..], s[n..], Store(f, fmt[0], DigitsValue(s[..n])))
    else None
  }

  /** A numeric directive other than `%Y`: two digits, else one digit, else
      (`%d` only) a space followed by one digit. */
  function MatchNumber(fmt: seq<Directive>, s: string, f: Fields): Option<Fields>
    requires fmt != []
    decreases |fmt|, 0, 1
  {
    var two := MatchDigits(fmt, s, f, 2);
    if two.Some? then two
    else
      var one := MatchDigits(fmt, s, f, 1);
      if one.Some? then one
      else if fmt[0].DayNum? && s != [] && s[0] == ' ' then MatchDigits(fmt, s[1..], f, 1)
      else None
  }

  predicate IsLeapYear(y: int) {
    y % 4 == 0 && (y % 100 != 0 || y % 400 == 0)
  }

  function DaysInMonth(y: int, m: int): int
    requires 1 <= m <= 12
  {
    if m == 2 then (if IsLeapYear(y) then 29 else 28)
    else if m == 4 || m == 6 || m == 9 || m == 11 then 30
    else 31
  }

  /** The arguments `datetime(...)` accepts. */
  predicate ValidFields(f: Fields) {
    && 1 <= f.year <= 9999
    && 1 <= f.month <= 12
    && 1 <= f.day <= DaysInMonth(f.year, f.month)
    && 0 <= f.hour <= 23
    && 0 <= f.minute <= 59
    && 0 <= f.second <= 59
  }

  /** A calendar-valid datetime with no fraction of a second, as `strptime` returns. */
  predicate ValidParsedDate(d: DateTime) {
    ValidFields(Fields(d.year, d.month, d.day, d.hour, d.minute, d.second)) && d.microsecond == 0
  }

  /** `datetime.strptime(s, fmt)`, with `None` for the `ValueError` it raises. */
  function ParseWith(fmt: seq<Directive>, s: string): Option<DateTime> {
    match Match(fmt, s, Defaults)
    case None => None
    case Some(f) =>
      if ValidFields(f) then Some(DateTime(f.year, f.month, f.day, f.hour, f.minute, f.second, 0))
      else None
  }

  const IsoDate: seq<Directive> := [Year, Lit('-'), MonthNum, Lit('-'), DayNum]
  const IsoDateTime: seq<Directive> := IsoDate + [Lit('T'), Hour, Lit(':'), Minute, Lit(':'), Second]

  /** The nine formats of `_parse_date`, in the order they are tried. */
  const Formats: seq<seq<Directive>> := [
    IsoDate,                                                           // %Y-%m-%d
    IsoDateTime,                                                       // %Y-%m-%dT%H:%M:%S
    IsoDateTime + [Lit('Z')],                                          // %Y-%m-%dT%H:%M:%SZ
    [MonthName, Lit(' '), DayNum, Lit(','), Lit(' '), Year],           // %B %d, %Y
    [MonthAbbr, Lit(' '), DayNum, Lit(','), Lit(' '), Year],           // %b %d, %Y
    [DayNum, Lit(' '), MonthName, Lit(' '), Year],                     // %d %B %Y
    [DayNum, Lit(' '), MonthAbbr, Lit(' '), Year],                     // %d %b %Y
    [MonthNum, Lit('/'), DayNum, Lit('/'), Year],                      // %m/%d/%Y
    [DayNum, Lit('/'), MonthNum, Lit('/'), Year]                       // %d/%m/%Y
  ]

  /** The result of the first format in `fmts` that parses `t`. */
  function FirstParse(t: string, fmts: seq<seq<Directive>>): Option<DateTime> {
    if fmts == [] then None
    else
      var d := ParseWith(fmts[0], t);
      if d.Some? then d else FirstParse(t, fmts[1..])
  }

  /** What `_parse_date(text)` returns. */
  function ParsedDate(text: string): Option<DateTime> {
    if text == [] then None else FirstParse(Strip(text), Formats)
  }

  /** `_parse_date`: empty text is unknown; otherwise the formats are tried in
      order on the stripped text and the first full match is the answer. */
  method ParseDate(text: string) returns (r: Option<DateTime>)
    ensures r == ParsedDate(text)
  {
    if text == [] {
      return None;
    }
    var t := Strip(text);
    var i := 0;
    while i < |Formats|
      invariant 0 <= i <= |Formats|
      invariant FirstParse(t, Formats) == FirstParse(t, Formats[i..])
    {
      assert Formats[i..][1..] == Formats[i + 1..];
      var d := ParseWith(Formats[i], t);
      if d.Some? {
        return d;
      }
      i := i + 1;
    }
    return None;
  }

  /** The first format that parses wins: earlier formats that fail do not matter,
      later ones are never consulted. */
  lemma {:induction false} FirstParseTakesEarliest(t: string, fmts: seq<seq<Directive>>, i: nat)
    requires i < |fmts| && ParseWith(fmts[i], t).Some?
    requires forall j :: 0 <= j < i ==> ParseWith(fmts[j], t).None?
    ensures FirstParse(t, fmts) == ParseWith(fmts[i], t)
  {
    if i > 0 {
      FirstParseTakesEarliest(t, fmts[1..], i - 1);
    }
  }

  /** Parsing fails (without an error) exactly when no format parses. */
  lemma {:induction false} FirstParseNone(t: string, fmts: seq<seq<Directive>>)
    ensures FirstParse(t, fmts).None? <==> forall j :: 0 <= j < |fmts| ==> ParseWith(fmts[j], t).None?
  {
    if fmts != [] {
      FirstParseNone(t, fmts[1..]);
      assert forall j :: 1 <= j < |fmts| ==> fmts[j] == fmts[1..][j - 1];
    }
  }

  /** Whatever format parses, the result is a real calendar date. */
  lemma {:induction false} FirstParseIsValid(t: string, fmts: seq<seq<Directive>>)
    ensures FirstParse(t, fmts).Some? ==> ValidParsedDate(FirstParse(t, fmts).value)
  {
    if fmts != [] && ParseWith(fmts[0], t).None? {
      FirstParseIsValid(t, fmts[1..]);
    }
  }

  /** `_parse_date` returns a calendar-valid date or `None`, and `None` for empty text. */
  lemma ParsedDateIsValid(text: string)
    ensures text == [] ==> ParsedDate(text) == None
    ensures ParsedDate(text).Some? ==> ValidParsedDate(ParsedDate(text).value)
  {
    if text != [] {
      FirstParseIsValid(Strip(text), Formats);
    }
  }

  /** No month name starts with a digit. */
  lemma {:induction false} NoNameBeforeDigit(fmt: seq<Directive>, s: string, f: Fields, names: seq<string>, k: nat)
    requires fmt != [] && s != [] && IsDigit(s[0])
    requires forall n :: n in names ==> n != [] && IsUpper(n[0])
    ensures MatchName(fmt, s, f, names, k) == None
    decreases |names| - k
  {
    if k < |names| {
      assert !(names[k] <= s) by { assert names[k] in names; }
      NoNameBeforeDigit(fmt, s, f, names, k + 1);
    }
  }

  /** A format that opens with a month name or abbreviation rejects text that opens with a digit. */
  lemma MonthNameBeforeDigitFails(fmt: seq<Directive>, s: string)
    requires fmt != [] && (fmt[0] == MonthName || fmt[0] == MonthAbbr)
    requires s != [] && IsDigit(s[0])
    ensures ParseWith(fmt, s) == None
  {
    assert forall n :: n in MonthNames ==> n != [] && IsUpper(n[0]);
    assert forall n :: n in MonthAbbrs ==> n != [] && IsUpper(n[0]);
    NoNameBeforeDigit(fmt, s, Defaults, MonthNames, 0);
    NoNameBeforeDigit(fmt, s, Defaults, MonthAbbrs, 0);
  }

  /** A format that opens with `%Y` rejects text whose third character is a slash. */
  lemma YearBeforeSlashFails(fmt: seq<Directive>, s: string)
    requires fmt != [] && fmt[0] == Year
    requires |s| >= 4 && s[2] == '/'
    ensures ParseWith(fmt, s) == None
  {
    assert !AllDigits(s[..4]) by { assert s[..4][2] == '/'; }
    assert Match(fmt, s, Defaults) == MatchDigits(fmt, s, Defaults, 4) == None;
  }

  /** A format that opens with `%d ` rejects text shaped `dd/`. */
  lemma DayBeforeSpaceFails(fmt: seq<Directive>, s: string)
    requires |fmt| >= 2 && fmt[0] == DayNum && fmt[1] == Lit(' ')
    requires |s| >= 3 && IsDigit(s[0]) && IsDigit(s[1]) && s[2] == '/'
    ensures ParseWith(fmt, s) == None
  {
    var f2 := Store(Defaults, DayNum, DigitsValue(s[..2]));
    var f1 := Store(Defaults, DayNum, DigitsValue(s[..1]));
    LiteralMismatch(fmt[1..], s[2..], f2);
    LiteralMismatch(fmt[1..], s[1..], f1);
    assert MatchDigits(fmt, s, Defaults, 2) == None;
    assert MatchDigits(fmt, s, Defaults, 1) == None;
    assert Match(fmt, s, Defaults) == MatchNumber(fmt, s, Defaults) == None;
  }

  /** Text shaped `dd/...` is never read by the first seven formats: only the
      two slash formats, month first and then day first, can accept it. */
  lemma SlashTextSkipsOtherFormats(s: string)
    requires |s| >= 4 && IsDigit(s[0]) && IsDigit(s[1]) && s[2] == '/'
    ensures forall j :: 0 <= j < 7 ==> ParseWith(Formats[j], s).None?
  {
    forall j | 0 <= j < 7
      ensures ParseWith(Formats[j], s).None?
    {
      var fmt := Formats[j];
      if j < 3 {
        YearBeforeSlashFails(fmt, s);
      } else if j < 5 {
        MonthNameBeforeDigitFails(fmt, s);
      } else {
        DayBeforeSpaceFails(fmt, s);
      }
    }
  }

  lemma LiteralMismatch(fmt: seq<Directive>, s: string, f: Fields)
    requires fmt != [] && fmt[0].Lit? && (s == [] || s[0] != fmt[0].c)
    ensures Match(fmt, s, f) == None
  {
  }

  lemma LiteralStep(fmt: seq<Directive>, s: string, f: Fields)
    requires fmt != [] && fmt[0].Lit? && s != [] && s[0] == fmt[0].c
    ensures Match(fmt, s, f) == Match(fmt[1..], s[1..], f)
  {
  }

  lemma YearStep(fmt: seq<Directive>, s: string, f: Fields)
    requires fmt != [] && fmt[0] == Year && |s| >= 4 && AllDigits(s[..4])
    ensures Match(fmt, s, f) == Match(fmt[1..], s[4..], f.(year := DigitsValue(s[..4])))
  {
  }

  /** A numeric directive takes two digits whenever the rest of the format then matches. */
  lemma TwoDigitStep(fmt: seq<Directive>, s: string, f: Fields)
    requires fmt != [] && (fmt[0].MonthNum? || fmt[0].DayNum? || fmt[0].Hour? || fmt[0].Minute? || fmt[0].Second?)
    requires |s| >= 2 && AllDigits(s[..2]) && DigitsAllowed(fmt[0], 2, DigitsValue(s[..2]))
    requires Match(fmt[1..], s[2..], Store(f, fmt[0], DigitsValue(s[..2]))).Some?
    ensures Match(fmt, s, f) == Match(fmt[1..], s[2..], Store(f, fmt[0], DigitsValue(s[..2])))
  {
    assert MatchDigits(fmt, s, f, 2) == Match(fmt[1..], s[2..], Store(f, fmt[0], DigitsValue(s[..2])));
    assert Match(fmt, s, f) == MatchNumber(fmt, s, f);
  }

  /** A ten-character `dd/dd/dddd` text whose two-digit fields are in range
      matches a slash format field by field. */
  lemma SlashDateMatch(fmt: seq<Directive>, a: Directive, b: Directive, s: string)
    requires fmt == [a, Lit('/'), b, Lit('/'), Year]
    requires a.MonthNum? || a.DayNum?
    requires b.MonthNum? || b.DayNum?
    requires |s| == 10 && s[2] == '/' && s[5] == '/'
    requires AllDigits(s[..2]) && AllDigits(s[3..5]) && AllDigits(s[6..])
    requires DigitsAllowed(a, 2, DigitsValue(s[..2])) && DigitsAllowed(b, 2, DigitsValue(s[3..5]))
    ensures Match(fmt, s, Defaults)
         == Some(Store(Store(Store(Defaults, a, DigitsValue(s[..2])), b, DigitsValue(s[3..5])), Year, DigitsValue(s[6..])))
  {
    var f1 := Store(Defaults, a, DigitsValue(s[..2]));
    var f2 := Store(f1, b, DigitsValue(s[3..5]));
    assert s[6..][..4] == s[6..] && s[6..][4..] == [] && fmt[4..][1..] == [];
    YearStep(fmt[4..], s[6..], f2);
    LiteralStep(fmt[3..], s[5..], f2);
    assert s[5..][1..] == s[6..] && fmt[3..][1..] == fmt[4..];
    assert s[3..][..2] == s[3..5] && s[3..][2..] == s[5..] && fmt[2..][1..] == fmt[3..];
    TwoDigitStep(fmt[2..], s[3..], f1);
    LiteralStep(fmt[1..], s[2..], f1);
    assert s[2..][1..] == s[3..] && fmt[1..][1..] == fmt[2..];
    TwoDigitStep(fmt, s, Defaults);
  }

  /** `%m` (or `%d`) followed by `/` rejects text whose first two digits are out of
      its two-digit range: one digit is then taken and the `/` after it is missing. */
  lemma TwoDigitFieldRejected(fmt: seq<Directive>, s: string)
    requires |fmt| >= 2 && (fmt[0] == MonthNum || fmt[0] == DayNum) && fmt[1] == Lit('/')
    requires |s| >= 3 && AllDigits(s[..2]) && s[2] == '/'
    requires !DigitsAllowed(fmt[0], 2, DigitsValue(s[..2]))
    ensures ParseWith(fmt, s) == None
  {
    assert s[..1] == s[..2][..1];
    assert AllDigits(s[..1]);
    assert s[0] != ' ';
    LiteralMismatch(fmt[1..], s[1..], Store(Defaults, fmt[0], DigitsValue(s[..1])));
    assert MatchDigits(fmt, s, Defaults, 2) == None;
    assert MatchDigits(fmt, s, Defaults, 1) == None;
    assert Match(fmt, s, Defaults) == MatchNumber(fmt, s, Defaults) == None;
  }

  /** The numbers of a `dd/dd/dddd` text: first field, second field, year. */
  function SlashFields(s: string): (int, int, int)
    requires |s| == 10 && AllDigits(s[..2]) && AllDigits(s[3..5]) && AllDigits(s[6..])
  {
    (DigitsValue(s[..2]), DigitsValue(s[3..5]), DigitsValue(s[6..]))
  }

  predicate SlashShaped(s: string) {
    |s| == 10 && s[2] == '/' && s[5] == '/' && AllDigits(s[..2]) && AllDigits(s[3..5]) && AllDigits(s[6..])
  }

  /** How `_parse_date` reads an all-numeric `dd/dd/dddd` date: month first whenever
      that is a real date; otherwise, when the first field cannot be a month, day first. */
  lemma SlashDateReading(s: string)
    requires SlashShaped(s)
    ensures var (a, b, y) := SlashFields(s);
      1 <= a <= 12 && 1 <= b <= 31 && 1 <= y && b <= DaysInMonth(y, a)
      ==> ParsedDate(s) == Some(DateTime(y, a, b, 0, 0, 0, 0))
    ensures var (a, b, y) := SlashFields(s);
      !(1 <= a <= 12) && 1 <= a <= 31 && 1 <= b <= 12 && 1 <= y && a <= DaysInMonth(y, b)
      ==> ParsedDate(s) == Some(DateTime(y, b, a, 0, 0, 0, 0))
  {
    var (a, b, y) := SlashFields(s);
    assert s[..2][0] == s[0] && s[6..][3] == s[9];
    StripTrimmed(s);
    DigitsValueOfFour(s[6..]);
    assert y <= 9999;
    SlashTextSkipsOtherFormats(s);
    if 1 <= a <= 12 && 1 <= b <= 31 && 1 <= y && b <= DaysInMonth(y, a) {
      SlashDateMatch(Formats[7], MonthNum, DayNum, s);
      FirstParseTakesEarliest(s, Formats, 7);
    }
    if !(1 <= a <= 12) && 1 <= a <= 31 && 1 <= b <= 12 && 1 <= y && a <= DaysInMonth(y, b) {
      TwoDigitFieldRejected(Formats[7], s);
      SlashDateMatch(Formats[8], DayNum, MonthNum, s);
      FirstParseTakesEarliest(s, Formats, 8);
    }
  }

  /** `"01/02/2024"` is read month first, as 2 January. */
  lemma MonthFirstWins(s: string)
    requires s == "01/02/2024"
    ensures ParsedDate(s) == Some(DateTime(2024, 1, 2, 0, 0, 0, 0))
  {
    assert s[..2] == "01" && s[3..5] == "02" && s[6..] == "2024";
    DigitsValueOfTwo("01");
    DigitsValueOfTwo("02");
    DigitsValueOfFour("2024");
    assert SlashShaped(s) && SlashFields(s) == (1, 2, 2024);
    SlashDateReading(s);
  }

  /** `"13/02/2024"` cannot be month first, so the day-first format gives 13 February. */
  lemma DayFirstFallback(s: string)
    requires s == "13/02/2024"
    ensures ParsedDate(s) == Some(DateTime(2024, 2, 13, 0, 0, 0, 0))
  {
    assert s[..2] == "13" && s[3..5] == "02" && s[6..] == "2024";
    DigitsValueOfTwo("13");
    DigitsValueOfTwo("02");
    DigitsValueOfFour("2024");
    assert SlashShaped(s) && SlashFields(s) == (13, 2, 2024);
    SlashDateReading(s);
  }
}
