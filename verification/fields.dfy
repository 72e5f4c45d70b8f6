/** Field-level rules of the Mongoose schemas (models/User.js, models/Doctor.js,
    models/Appointment.js): the patterns, enums, lengths and ranges each schema
    path declares, and the setters applied before they are checked. */
module Fields {
  import opened Text

  // ---------------------------------------------------------------------------
  // Decimal digit strings
  // ---------------------------------------------------------------------------

  function Pow10(n: nat): (p: nat)
    ensures p >= 1
  {
    if n == 0 then 1 else 10 * Pow10(n - 1)
  }

  function DigitChar(d: nat): (c: char)
    requires d < 10
    ensures IsDigit(c) && c as int - '0' as int == d
  {
    ('0' as int + d) as char
  }

  /** `n` written with exactly `width` decimal digits, zero-padded on the left. */
  function Digits(n: nat, width: nat): (s: string)
    requires n < Pow10(width)
    ensures |s| == width && AllDigits(s)
  {
    if width == 0 then [] else Digits(n / 10, width - 1) + [DigitChar(n % 10)]
  }

  /** The number a string of decimal digits denotes. */
  function Value(s: string): (n: nat)
    requires AllDigits(s)
    ensures n < Pow10(|s|)
  {
    if |s| == 0 then 0 else Value(s[..|s| - 1]) * 10 + (s[|s| - 1] as int - '0' as int)
  }

  lemma {:induction false} ValueOfDigits(n: nat, width: nat)
    requires n < Pow10(width)
    ensures Value(Digits(n, width)) == n
  {
    if width > 0 {
      var s := Digits(n, width);
      assert s[..|s| - 1] == Digits(n / 10, width - 1);
      ValueOfDigits(n / 10, width - 1);
    }
  }

  lemma {:induction false} DigitsOfValue(s: string)
    requires AllDigits(s)
    ensures Digits(Value(s), |s|) == s
  {
    if |s| > 0 {
      var init := s[..|s| - 1];
      DigitsOfValue(init);
      var n := Value(s);
      assert n / 10 == Value(init);
      assert [DigitChar(n % 10)] == [s[|s| - 1]];
      assert init + [s[|s| - 1]] == s;
    }
  }

  // ---------------------------------------------------------------------------
  // Appointment.date: /^\d{4}-\d{2}-\d{2}$/ (also checked by the doctor route)
  // ---------------------------------------------------------------------------

  /** The date pattern: four digits, '-', two digits, '-', two digits, and
      nothing else.  No calendar check is made. */
  predicate IsDatePattern(s: string) {
    |s| == 10 && AllDigits(s[..4]) && s[4] == '-' && AllDigits(s[5..7]) && s[7] == '-' && AllDigits(s[8..])
  }

  /** The three numbers a date string carries, as the pattern reads them. */
  datatype Date = Date(year: nat, month: nat, day: nat)

  predicate Writable(d: Date) {
    d.year < 10000 && d.month < 100 && d.day < 100
  }

  function ParseDate(s: string): Date
    requires IsDatePattern(s)
  {
    Date(Value(s[..4]), Value(s[5..7]), Value(s[8..]))
  }

  /** Every date whose fields fit their widths renders to a string the pattern
      accepts, and reading that string back gives the same date. */
  function FormatDate(d: Date): (s: string)
    requires Writable(d)
    ensures IsDatePattern(s)
    ensures ParseDate(s) == d
  {
    var y := Digits(d.year, 4);
    var m := Digits(d.month, 2);
    var dd := Digits(d.day, 2);
    var s := y + "-" + m + "-" + dd;
    assert s[..4] == y && s[5..7] == m && s[8..] == dd;
    ValueOfDigits(d.year, 4);
    ValueOfDigits(d.month, 2);
    ValueOfDigits(d.day, 2);
    s
  }

  /** Conversely, every string the pattern accepts is the rendering of the date it carries. */
  lemma ParsedDateFormatsBack(s: string)
    requires IsDatePattern(s)
    ensures Writable(ParseDate(s))
    ensures FormatDate(ParseDate(s)) == s
  {
    DigitsOfValue(s[..4]);
    DigitsOfValue(s[5..7]);
    DigitsOfValue(s[8..]);
    assert s == s[..4] + "-" + s[5..7] + "-" + s[8..];
  }

  /** The pattern is all there is: a month of 13 and a day of 45 pass. */
  lemma NoCalendarCheck()
    ensures IsDatePattern("2025-13-45")
    ensures ParseDate("2025-13-45") == Date(2025, 13, 45)
    ensures !IsDatePattern("2025-6-01") && !IsDatePattern("2025-06-01 ")
  {
    var s := "2025-13-45";
    assert s[..4] == "2025" && s[5..7] == "13" && s[8..] == "45";
    assert Value("2025"[..3]) == 202 by {
      assert Value("202"[..2]) == 20 by {
        assert Value("20"[..1]) == 2 by { assert "2"[..0] == []; }
      }
    }
    assert Value("13"[..1]) == 1 by { assert "1"[..0] == []; }
    assert Value("45"[..1]) == 4 by { assert "4"[..0] == []; }
  }

  // ---------------------------------------------------------------------------
  // User.phone: /^\d{10}$/
  // ---------------------------------------------------------------------------

  predicate IsPhone(s: string) {
    |s| == 10 && AllDigits(s)
  }

  /** The accepted phone strings are exactly the ten-digit zero-padded renderings of numbers below 10^10. */
  lemma PhoneIsTenDigitNumber(s: string)
    ensures IsPhone(s) ==> Value(s) < Pow10(10) && Digits(Value(s), 10) == s
    ensures forall n: nat :: n < Pow10(10) ==> IsPhone(Digits(n, 10))
  {
    if IsPhone(s) {
      DigitsOfValue(s);
    }
  }

  // ---------------------------------------------------------------------------
  // email: lowercase and trim setters, then match /\S+@\S+\.\S+/ (unanchored)
  // ---------------------------------------------------------------------------

  /** The value Mongoose stores (and queries with) for a path declared
      `lowercase: true, trim: true`. */
  function NormalizeEmail(s: string): (r: string)
    ensures forall i :: 0 <= i < |r| ==> !IsUpper(r[i])
    ensures r == [] || (!IsSpace(r[0]) && !IsSpace(r[|r| - 1]))
    ensures |r| <= |s|
    ensures IsTrimOf(r, ToLower(s))
  {
    var lower := ToLower(s);
    var r := Trim(lower);
    TrimKeepsNoUpper(r, lower);
    r
  }

  /** Normalizing twice is normalizing once. */
  lemma NormalizeEmailIdempotent(s: string)
    ensures NormalizeEmail(NormalizeEmail(s)) == NormalizeEmail(s)
  {
    var r := NormalizeEmail(s);
    ToLowerNoOp(r);
    TrimNoOp(r);
  }

  /** One match of the regular expression at the given cut points:
      s[a..at] is `\S+`, s[at] is '@', s[at+1..dot] is `\S+`, s[dot] is '.',
      s[dot+1..e] is `\S+`. */
  predicate EmailAt(s: string, a: nat, at: nat, dot: nat, e: nat) {
    a < at && at + 1 < dot && dot + 1 < e <= |s|
    && NoSpace(s[a..at]) && s[at] == '@' && NoSpace(s[at + 1..dot]) && s[dot] == '.' && NoSpace(s[dot + 1..e])
  }

  /** What `/\S+@\S+\.\S+/.test(s)` means: the pattern occurs somewhere in `s`. */
  ghost predicate EmailRegex(s: string) {
    exists a: nat, at: nat, dot: nat, e: nat :: EmailAt(s, a, at, dot, e)
  }

  /** A '.' at `dot`, after the '@' at `at`, with only non-space between the
      two and a non-space right after it. */
  predicate DotAt(s: string, at: nat, dot: nat) {
    at + 1 < dot < |s| - 1 && s[dot] == '.' && NoSpace(s[at + 1..dot]) && !IsSpace(s[dot + 1])
  }

  /** An '@' at `at` with a non-space before it. */
  predicate AtSignAt(s: string, at: nat) {
    0 < at < |s| && s[at] == '@' && !IsSpace(s[at - 1])
  }

  /** The check the schema performs, reduced to its decisive characters: an '@'
      with a non-space before it, then a '.' with only non-space between the two
      and a non-space after it. */
  predicate EmailMatches(s: string) {
    exists at: nat, dot: nat | at < dot < |s| :: AtSignAt(s, at) && DotAt(s, at, dot)
  }

  /** The reduced check accepts exactly the strings the regular expression matches. */
  lemma EmailMatchesIsRegex(s: string)
    ensures EmailMatches(s) <==> EmailRegex(s)
  {
    if EmailMatches(s) {
      var at: nat, dot: nat :| at < dot < |s| && AtSignAt(s, at) && DotAt(s, at, dot);
      assert EmailAt(s, at - 1, at, dot, dot + 2);
    }
    if EmailRegex(s) {
      var a: nat, at: nat, dot: nat, e: nat :| EmailAt(s, a, at, dot, e);
      assert s[at - 1] == s[a..at][at - 1 - a];
      assert s[dot + 1] == s[dot + 1..e][0];
      assert AtSignAt(s, at) && DotAt(s, at, dot);
    }
  }

  /** The pattern is unanchored and `\S` admits '@' and '.', so surrounding text
      and repeated separators still pass; white space inside the decisive part does not. */
  lemma EmailExamples()
    ensures EmailMatches("a@b.c")
    ensures EmailMatches("see: x@@y..z!")
    ensures !EmailMatches("a@b")
    ensures !EmailMatches("a @b.c")
  {
    assert AtSignAt("a@b.c", 1) && DotAt("a@b.c", 1, 3);
    assert AtSignAt("see: x@@y..z!", 6) && DotAt("see: x@@y..z!", 6, 9);
  }

  // ---------------------------------------------------------------------------
  // Lengths, enums, ranges and prefixes
  // ---------------------------------------------------------------------------

  /** `required: true` on a String path fails on the empty string as on a missing one. */
  predicate Required(s: string) {
    s != ""
  }

  /** `minlength: 2`, `maxlength: 50` (name in User.js and Doctor.js). */
  predicate ValidName(s: string) {
    2 <= |s| <= 50
  }

  /** `minlength: 6` (password in User.js and Doctor.js). */
  predicate ValidPassword(s: string) {
    |s| >= 6
  }

  /** `enum: ['male', 'female', 'other']`. */
  predicate ValidGender(s: string) {
    s == "male" || s == "female" || s == "other"
  }

  /** The `url.startsWith('http')` validators (Doctor.image_url, each Appointment document). */
  predicate IsHttpLink(s: string) {
    StartsWith(s, "http")
  }
}
