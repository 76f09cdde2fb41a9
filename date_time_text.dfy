/**
 * The date/time text parser of the scraper: the combined text of an event's
 * date container is searched twice, independently, for a long-form calendar
 * date and for a clock time.
 *
 *   date pattern  [A-Za-z]+,\s+[A-Za-z]+\s+\d{1,2},\s+\d{4}
 *   time pattern  \d{1,2}:\d{2}(?:\s*[AP]M)?
 *
 * Each pattern gets an explicit scanner (DateMatchEnd, TimeMatchEnd) and an
 * independent declarative reading of the regular expression (IsDateSpan,
 * IsTimeSpan: the cut points between the pattern's pieces). The lemmas prove that
 * the scanner finds exactly the match the regular expression engine reports at
 * a position (for the date pattern the only one, for the time pattern the
 * longer of at most two, since the optional AM/PM group is greedy), and the
 * search returns the leftmost such match.
 */
module DateTimeText {
  import opened Common

  // ---------------------------------------------------------------------------
  // Character classes
  // ---------------------------------------------------------------------------

  /** `[A-Za-z]` */
  predicate IsAsciiLetter(c: char) {
    'A' <= c <= 'Z' || 'a' <= c <= 'z'
  }

  /** `\d`, restricted to the ASCII digits */
  predicate IsAsciiDigit(c: char) {
    '0' <= c <= '9'
  }

  /**
   * Python's whitespace: what `\s` matches in a str pattern and what
   * `str.strip()` removes (the characters for which `str.isspace()` holds).
   */
  predicate IsSpace(c: char) {
    '\t' <= c <= '\r' || '\U{001C}' <= c <= ' ' || c == '\U{0085}' || c == '\U{00A0}'
    || c == '\U{1680}' || '\U{2000}' <= c <= '\U{200A}' || c == '\U{2028}' || c == '\U{2029}'
    || c == '\U{202F}' || c == '\U{205F}' || c == '\U{3000}'
  }

  datatype CharClass = Letter | Digit | Space

  predicate InClass(cls: CharClass, c: char) {
    match cls
    case Letter => IsAsciiLetter(c)
    case Digit => IsAsciiDigit(c)
    case Space => IsSpace(c)
  }

  /** Every character of `s[lo..hi]` is in `cls`. */
  predicate AllIn(s: string, lo: nat, hi: nat, cls: CharClass) {
    lo <= hi <= |s| && forall k :: lo <= k < hi ==> InClass(cls, s[k])
  }

  // ---------------------------------------------------------------------------
  // str.strip()
  // ---------------------------------------------------------------------------

  /** First position at or after `i` that does not hold whitespace (or `|s|`). */
  function SkipSpaceForward(s: string, i: nat): (k: nat)
    requires i <= |s|
    ensures i <= k <= |s| && (k < |s| ==> !IsSpace(s[k]))
    ensures forall j :: i <= j < k ==> IsSpace(s[j])
    decreases |s| - i
  {
    if i < |s| && IsSpace(s[i]) then SkipSpaceForward(s, i + 1) else i
  }

  /** Smallest `h` in `lo..hi` such that `s[h..hi]` is all whitespace. */
  function SkipSpaceBackward(s: string, lo: nat, hi: nat): (h: nat)
    requires lo <= hi <= |s|
    ensures lo <= h <= hi && (lo < h ==> !IsSpace(s[h - 1]))
    ensures forall j :: h <= j < hi ==> IsSpace(s[j])
    decreases hi
  {
    if lo < hi && IsSpace(s[hi - 1]) then SkipSpaceBackward(s, lo, hi - 1) else hi
  }

  /** `s[lo..hi]` is what is left of `s` once its whitespace ends are cut off. */
  ghost predicate StrippedAt(s: string, lo: nat, hi: nat) {
    lo <= hi <= |s|
    && (forall k :: 0 <= k < lo ==> IsSpace(s[k]))
    && (forall k :: hi <= k < |s| ==> IsSpace(s[k]))
    && (lo < hi ==> !IsSpace(s[lo]) && !IsSpace(s[hi - 1]))
  }

  /** Where the text `str.strip()` keeps begins. */
  function StripStart(s: string): (lo: nat)
    ensures lo <= |s|
  {
    SkipSpaceForward(s, 0)
  }

  /** Where the text `str.strip()` keeps ends. */
  function StripEnd(s: string): (hi: nat)
    ensures StripStart(s) <= hi <= |s|
  {
    SkipSpaceBackward(s, StripStart(s), |s|)
  }

  /** Python's `str.strip()` with no argument. */
  function Strip(s: string): string {
    s[StripStart(s)..StripEnd(s)]
  }

  /** `Strip` cuts off exactly the whitespace at both ends. */
  lemma StripCorrect(s: string)
    ensures StrippedAt(s, StripStart(s), StripEnd(s))
  {
  }

  /** Stripping a text that neither starts nor ends with whitespace does nothing. */
  lemma StripUnspaced(s: string)
    requires s == [] || (!IsSpace(s[0]) && !IsSpace(s[|s| - 1]))
    ensures Strip(s) == s
  {
    assert StripStart(s) == 0;
    assert StripEnd(s) == |s|;
  }

  // ---------------------------------------------------------------------------
  // Runs of one character class
  // ---------------------------------------------------------------------------

  /** Length of the longest run of `cls` characters starting at `s[i]`. */
  function RunLen(s: string, i: nat, cls: CharClass): (n: nat)
    requires i <= |s|
    ensures AllIn(s, i, i + n, cls)
    ensures i + n == |s| || !InClass(cls, s[i + n])
    decreases |s| - i
  {
    if i < |s| && InClass(cls, s[i]) then 1 + RunLen(s, i + 1, cls) else 0
  }

  /** A run that is followed by a character outside the class is the longest run. */
  lemma RunLenExact(s: string, i: nat, k: nat, cls: CharClass)
    requires AllIn(s, i, i + k, cls)
    requires i + k == |s| || !InClass(cls, s[i + k])
    ensures RunLen(s, i, cls) == k
  {
  }

  // ---------------------------------------------------------------------------
  // The date pattern  [A-Za-z]+,\s+[A-Za-z]+\s+\d{1,2},\s+\d{4}
  // ---------------------------------------------------------------------------

  /** End of the run of `cls` characters that starts at `s[k]`. */
  function RunEnd(s: string, k: nat, cls: CharClass): (e: nat)
    requires k <= |s|
    ensures k <= e <= |s| && AllIn(s, k, e, cls)
    ensures e == |s| || !InClass(cls, s[e])
  {
    k + RunLen(s, k, cls)
  }

  /*
   * The regular expression, read piece by piece from its end. Each predicate
   * says that `s[k..j]` matches a suffix of the pattern:
   *   YearSpan   ,\s+\d{4}
   *   DaySpan    \s+\d{1,2},\s+\d{4}
   *   MonthSpan  ,\s+[A-Za-z]+\s+\d{1,2},\s+\d{4}
   *   IsDateSpan [A-Za-z]+,\s+[A-Za-z]+\s+\d{1,2},\s+\d{4}
   */

  ghost predicate YearSpan(s: string, e: nat, j: nat) {
    exists f: nat :: e + 1 < f && f + 4 == j && AllIn(s, e + 1, f, Space) && AllIn(s, f, j, Digit) && s[e] == ','
  }

  ghost predicate DaySpan(s: string, c: nat, j: nat) {
    exists d: nat, e: nat :: c < d < e <= d + 2 && AllIn(s, c, d, Space) && AllIn(s, d, e, Digit) && YearSpan(s, e, j)
  }

  ghost predicate MonthSpan(s: string, a: nat, j: nat) {
    exists b: nat, c: nat :: a + 1 < b < c && AllIn(s, a + 1, b, Space) && AllIn(s, b, c, Letter) && s[a] == ','
                            && DaySpan(s, c, j)
  }

  /** `s[i..j]` matches the date pattern as a whole. */
  ghost predicate IsDateSpan(s: string, i: nat, j: nat) {
    exists a: nat :: i < a && AllIn(s, i, a, Letter) && MonthSpan(s, a, j)
  }

  /*
   * The scanner, piece by piece. Every quantifier of the pattern is followed
   * by a character outside its class, so the longest run is the only run that
   * can be followed by the rest of the pattern.
   */

  function YearEnd(s: string, e: nat): Option<nat>
    requires e <= |s|
  {
    if e == |s| || s[e] != ',' then None
    else
      var f := RunEnd(s, e + 1, Space);
      if f == e + 1 || f + 4 > |s| || !AllIn(s, f, f + 4, Digit) then None else Some(f + 4)
  }

  function DayEnd(s: string, c: nat): Option<nat>
    requires c <= |s|
  {
    var d := RunEnd(s, c, Space);
    if d == c then None
    else
      var e := RunEnd(s, d, Digit);
      if e == d || e > d + 2 then None else YearEnd(s, e)
  }

  function MonthEnd(s: string, a: nat): Option<nat>
    requires a <= |s|
  {
    if a == |s| || s[a] != ',' then None
    else
      var b := RunEnd(s, a + 1, Space);
      if b == a + 1 then None
      else
        var c := RunEnd(s, b, Letter);
        if c == b then None else DayEnd(s, c)
  }

  /** End of the match of the date pattern that starts at `s[i]`, if any. */
  function DateMatchEnd(s: string, i: nat): Option<nat>
    requires i <= |s|
  {
    var a := RunEnd(s, i, Letter);
    if a == i then None else MonthEnd(s, a)
  }

  // Each piece of the scanner reports exactly the matches of its piece of the
  // pattern: first the matches it reports are matches (Sound), then every
  // match is the one it reports (Complete).

  lemma YearEndSound(s: string, e: nat)
    requires e <= |s| && YearEnd(s, e).Some?
    ensures YearSpan(s, e, YearEnd(s, e).value)
  {
    var f := RunEnd(s, e + 1, Space);
    assert e + 1 < f && f + 4 == YearEnd(s, e).value;
  }

  lemma YearEndComplete(s: string, e: nat, j: nat)
    requires e <= |s| && YearSpan(s, e, j)
    ensures YearEnd(s, e) == Some(j)
  {
    var f: nat :| e + 1 < f && f + 4 == j && AllIn(s, e + 1, f, Space) && AllIn(s, f, j, Digit) && s[e] == ',';
    assert IsAsciiDigit(s[f]);
    RunLenExact(s, e + 1, f - e - 1, Space);
  }

  lemma DayEndSound(s: string, c: nat)
    requires c <= |s| && DayEnd(s, c).Some?
    ensures DaySpan(s, c, DayEnd(s, c).value)
  {
    var d := RunEnd(s, c, Space);
    var e := RunEnd(s, d, Digit);
    YearEndSound(s, e);
    assert c < d < e <= d + 2 && AllIn(s, c, d, Space) && AllIn(s, d, e, Digit) && YearSpan(s, e, DayEnd(s, c).value);
  }

  lemma DayEndComplete(s: string, c: nat, j: nat)
    requires c <= |s| && DaySpan(s, c, j)
    ensures DayEnd(s, c) == Some(j)
  {
    var d: nat, e: nat :| c < d < e <= d + 2 && AllIn(s, c, d, Space) && AllIn(s, d, e, Digit) && YearSpan(s, e, j);
    assert IsAsciiDigit(s[d]);
    RunLenExact(s, c, d - c, Space);
    assert s[e] == ',' by {
      var f: nat :| e + 1 < f && f + 4 == j && AllIn(s, e + 1, f, Space) && AllIn(s, f, j, Digit) && s[e] == ',';
    }
    RunLenExact(s, d, e - d, Digit);
    assert RunEnd(s, c, Space) == d && RunEnd(s, d, Digit) == e;
    YearEndComplete(s, e, j);
  }

  lemma MonthEndSound(s: string, a: nat)
    requires a <= |s| && MonthEnd(s, a).Some?
    ensures MonthSpan(s, a, MonthEnd(s, a).value)
  {
    var b := RunEnd(s, a + 1, Space);
    var c := RunEnd(s, b, Letter);
    DayEndSound(s, c);
    assert a + 1 < b < c && AllIn(s, a + 1, b, Space) && AllIn(s, b, c, Letter) && s[a] == ','
           && DaySpan(s, c, MonthEnd(s, a).value);
  }

  lemma MonthEndComplete(s: string, a: nat, j: nat)
    requires a <= |s| && MonthSpan(s, a, j)
    ensures MonthEnd(s, a) == Some(j)
  {
    var b: nat, c: nat :| a + 1 < b < c && AllIn(s, a + 1, b, Space) && AllIn(s, b, c, Letter) && s[a] == ','
                          && DaySpan(s, c, j);
    assert IsAsciiLetter(s[b]);
    RunLenExact(s, a + 1, b - a - 1, Space);
    assert IsSpace(s[c]) by {
      var d: nat, e: nat :| c < d < e <= d + 2 && AllIn(s, c, d, Space) && AllIn(s, d, e, Digit) && YearSpan(s, e, j);
    }
    RunLenExact(s, b, c - b, Letter);
    assert RunEnd(s, a + 1, Space) == b;
    assert RunEnd(s, b, Letter) == c;
    DayEndComplete(s, c, j);
  }

  lemma DateMatchEndSound(s: string, i: nat)
    requires i <= |s| && DateMatchEnd(s, i).Some?
    ensures IsDateSpan(s, i, DateMatchEnd(s, i).value)
  {
    var a := RunEnd(s, i, Letter);
    MonthEndSound(s, a);
    assert i < a && AllIn(s, i, a, Letter) && MonthSpan(s, a, DateMatchEnd(s, i).value);
  }

  lemma DateMatchEndComplete(s: string, i: nat, j: nat)
    requires i <= |s| && IsDateSpan(s, i, j)
    ensures DateMatchEnd(s, i) == Some(j)
  {
    var a: nat :| i < a && AllIn(s, i, a, Letter) && MonthSpan(s, a, j);
    assert s[a] == ',' by {
      var b: nat, c: nat :| a + 1 < b < c && AllIn(s, a + 1, b, Space) && AllIn(s, b, c, Letter) && s[a] == ','
                            && DaySpan(s, c, j);
    }
    RunLenExact(s, i, a - i, Letter);
    assert RunEnd(s, i, Letter) == a;
    MonthEndComplete(s, a, j);
  }

  /**
   * The date scanner reports a match ending at `j` exactly when `s[i..j]`
   * matches the date pattern: at any position there is at most one match.
   */
  lemma DateMatchEndCorrect(s: string, i: nat, j: nat)
    requires i <= |s|
    ensures DateMatchEnd(s, i) == Some(j) <==> IsDateSpan(s, i, j)
  {
    if IsDateSpan(s, i, j) {
      DateMatchEndComplete(s, i, j);
    }
    if DateMatchEnd(s, i) == Some(j) {
      DateMatchEndSound(s, i);
    }
  }

  // ---------------------------------------------------------------------------
  // The time pattern  \d{1,2}:\d{2}(?:\s*[AP]M)?
  // ---------------------------------------------------------------------------

  /**
   * `s[i..j]` matches the time pattern as a whole: s[i..a] hours of one or
   * two digits, s[a] ':', two digits of minutes, and either nothing more or
   * blanks s[a+3..b] followed by "AM" or "PM".
   */
  ghost predicate TimeCuts(s: string, i: nat, a: nat, b: nat, j: nat) {
    i + 1 <= a <= i + 2 && a + 3 <= j <= |s|
    && AllIn(s, i, a, Digit) && s[a] == ':' && AllIn(s, a + 1, a + 3, Digit)
    && (j == a + 3
        || (a + 3 <= b && b + 2 == j && AllIn(s, a + 3, b, Space)
            && (s[b] == 'A' || s[b] == 'P') && s[b + 1] == 'M'))
  }

  ghost predicate IsTimeSpan(s: string, i: nat, j: nat) {
    exists a: nat, b: nat :: TimeCuts(s, i, a, b, j)
  }

  /**
   * End of the match of the time pattern that starts at `s[i]`, if any.
   * The optional group is greedy: it is taken whenever it can match.
   */
  function TimeMatchEnd(s: string, i: nat): Option<nat>
    requires i <= |s|
  {
    var a := i + RunLen(s, i, Digit);
    if a == i || a > i + 2 || a + 3 > |s| || s[a] != ':' || !AllIn(s, a + 1, a + 3, Digit) then None
    else
      var b := a + 3 + RunLen(s, a + 3, Space);
      if b + 2 <= |s| && (s[b] == 'A' || s[b] == 'P') && s[b + 1] == 'M' then Some(b + 2)
      else Some(a + 3)
  }

  /** What the time scanner reports is a match of the time pattern. */
  lemma TimeMatchEndSound(s: string, i: nat)
    requires i <= |s| && TimeMatchEnd(s, i).Some?
    ensures IsTimeSpan(s, i, TimeMatchEnd(s, i).value)
  {
    var a := i + RunLen(s, i, Digit);
    var b := a + 3 + RunLen(s, a + 3, Space);
    assert TimeCuts(s, i, a, b, TimeMatchEnd(s, i).value);
  }

  /**
   * Every match of the time pattern at `s[i]` ends no later than the one the
   * scanner reports.
   */
  lemma TimeMatchEndComplete(s: string, i: nat, j: nat)
    requires IsTimeSpan(s, i, j)
    ensures TimeMatchEnd(s, i).Some? && j <= TimeMatchEnd(s, i).value
  {
    var a: nat, b: nat :| TimeCuts(s, i, a, b, j);
    RunLenExact(s, i, a - i, Digit);
    if j != a + 3 {
      RunLenExact(s, a + 3, b - a - 3, Space);
    }
  }

  // ---------------------------------------------------------------------------
  // Leftmost search
  // ---------------------------------------------------------------------------

  datatype Pattern = DatePattern | TimePattern

  /** The regular expression of `p` matches `s[i..j]` as a whole. */
  ghost predicate MatchesAt(p: Pattern, s: string, i: nat, j: nat) {
    match p
    case DatePattern => IsDateSpan(s, i, j)
    case TimePattern => IsTimeSpan(s, i, j)
  }

  /** End of the match `re.search` would report if it started at `s[i]`. */
  function MatchEnd(p: Pattern, s: string, i: nat): Option<nat>
    requires i <= |s|
  {
    match p
    case DatePattern => DateMatchEnd(s, i)
    case TimePattern => TimeMatchEnd(s, i)
  }

  /**
   * The scanner agrees with the regular expression: it reports the longest
   * match starting at `s[i]`, and reports none exactly when there is none.
   */
  lemma MatchEndCorrect(p: Pattern, s: string, i: nat)
    requires i <= |s|
    ensures MatchEnd(p, s, i).Some? ==>
              MatchesAt(p, s, i, MatchEnd(p, s, i).value)
              && forall j: nat :: MatchesAt(p, s, i, j) ==> j <= MatchEnd(p, s, i).value
    ensures MatchEnd(p, s, i).None? ==> forall j: nat :: !MatchesAt(p, s, i, j)
  {
    if MatchEnd(p, s, i).Some? {
      match p
      case DatePattern => DateMatchEndCorrect(s, i, MatchEnd(p, s, i).value);
      case TimePattern => TimeMatchEndSound(s, i);
    }
    forall j: nat | MatchesAt(p, s, i, j)
      ensures MatchEnd(p, s, i).Some? && j <= MatchEnd(p, s, i).value
    {
      match p
      case DatePattern => DateMatchEndCorrect(s, i, j);
      case TimePattern => TimeMatchEndComplete(s, i, j);
    }
  }

  /**
   * A match is not empty, lies inside `s`, and begins and ends with a
   * character that is not whitespace.
   */
  lemma MatchUnspaced(p: Pattern, s: string, i: nat, j: nat)
    requires MatchesAt(p, s, i, j)
    ensures i < j <= |s| && !IsSpace(s[i]) && !IsSpace(s[j - 1])
  {
    match p
    case DatePattern =>
      var a: nat :| i < a && AllIn(s, i, a, Letter) && MonthSpan(s, a, j);
      var b: nat, c: nat :| a + 1 < b < c && AllIn(s, a + 1, b, Space) && AllIn(s, b, c, Letter) && s[a] == ','
                            && DaySpan(s, c, j);
      var d: nat, e: nat :| c < d < e <= d + 2 && AllIn(s, c, d, Space) && AllIn(s, d, e, Digit) && YearSpan(s, e, j);
      var f: nat :| e + 1 < f && f + 4 == j && AllIn(s, e + 1, f, Space) && AllIn(s, f, j, Digit) && s[e] == ',';
      assert IsAsciiLetter(s[i]) && IsAsciiDigit(s[j - 1]);
    case TimePattern =>
      var a: nat, b: nat :| TimeCuts(s, i, a, b, j);
      assert IsAsciiDigit(s[i]);
      assert j == a + 3 ==> IsAsciiDigit(s[j - 1]);
  }

  /** What the scanner reports is non-empty and has no whitespace at its ends. */
  lemma MatchEndUnspaced(p: Pattern, s: string, i: nat)
    requires i <= |s| && MatchEnd(p, s, i).Some?
    ensures var j := MatchEnd(p, s, i).value;
      i < j <= |s| && !IsSpace(s[i]) && !IsSpace(s[j - 1])
  {
    MatchEndCorrect(p, s, i);
    MatchUnspaced(p, s, i, MatchEnd(p, s, i).value);
  }

  /** Position `k` of the result says whether the pattern matches starting at `s[k]`. */
  function Starts(p: Pattern, s: string): (b: seq<bool>)
    ensures |b| == |s| && forall k :: 0 <= k < |s| ==> b[k] == MatchEnd(p, s, k).Some?
  {
    seq(|s|, k requires 0 <= k < |s| => MatchEnd(p, s, k).Some?)
  }

  /** Leftmost index at or after `from` holding `true`, as a left-to-right scan finds it. */
  function FirstTrue(b: seq<bool>, from: nat): (r: Option<nat>)
    requires from <= |b|
    ensures r.Some? ==> from <= r.value < |b| && b[r.value]
    ensures forall k :: from <= k < |b| && (r.None? || k < r.value) ==> !b[k]
    decreases |b| - from
  {
    if from == |b| then None
    else if b[from] then Some(from)
    else FirstTrue(b, from + 1)
  }

  /** Leftmost start at or after `from` where the pattern matches (`re.search`). */
  function Search(p: Pattern, s: string, from: nat): (r: Option<nat>)
    requires from <= |s|
    ensures r.Some? ==> from <= r.value < |s|
  {
    FirstTrue(Starts(p, s), from)
  }

  /** What `Search` finds is a match. */
  lemma SearchFinds(p: Pattern, s: string, from: nat)
    requires from <= |s| && Search(p, s, from).Some?
    ensures MatchEnd(p, s, Search(p, s, from).value).Some?
  {
    assert Starts(p, s)[Search(p, s, from).value];
  }

  /** No match starts between `from` and what `Search` finds (or the end of `s`). */
  lemma SearchSkips(p: Pattern, s: string, from: nat, k: nat)
    requires from <= k < |s|
    requires Search(p, s, from).None? || k < Search(p, s, from).value
    ensures MatchEnd(p, s, k).None?
  {
    assert !Starts(p, s)[k];
  }

  /**
   * `r` is what `re.search(pattern, s)` followed by `.group(1).strip()`
   * yields, or "" when the search finds nothing: the match that starts
   * leftmost, and of the matches starting there, the one the greedy
   * quantifiers prefer, which is the longest.
   */
  ghost predicate IsFirstMatch(p: Pattern, s: string, r: string) {
    if r == [] then
      forall i: nat, j: nat :: !MatchesAt(p, s, i, j)
    else
      exists i: nat :: LeftmostLongestAt(p, s, i, r)
  }

  ghost predicate LeftmostLongestAt(p: Pattern, s: string, i: nat, r: string) {
    i + |r| <= |s| && s[i..i + |r|] == r && MatchesAt(p, s, i, i + |r|)
    && (forall k: nat, j: nat :: k < i ==> !MatchesAt(p, s, k, j))
    && (forall j: nat :: MatchesAt(p, s, i, j) ==> j <= i + |r|)
  }

  /** The group a successful `re.search` captures, stripped; "" when none. */
  function FirstMatch(p: Pattern, s: string): string {
    match Search(p, s, 0)
    case None => ""
    case Some(i) => SearchFinds(p, s, 0); Strip(s[i..MatchEnd(p, s, i).value])
  }

  /** When the search finds nothing, the pattern matches nowhere in `s`. */
  lemma SearchNoneCorrect(p: Pattern, s: string)
    requires Search(p, s, 0).None?
    ensures forall i: nat, j: nat :: !MatchesAt(p, s, i, j)
  {
    forall i: nat, j: nat | MatchesAt(p, s, i, j) ensures false {
      MatchUnspaced(p, s, i, j);
      SearchSkips(p, s, 0, i);
      MatchEndCorrect(p, s, i);
    }
  }

  /** The longest match at the leftmost start is the leftmost-longest match. */
  lemma LeftmostLongestFound(p: Pattern, s: string, i: nat, j: nat)
    requires MatchesAt(p, s, i, j) && i < j <= |s|
    requires forall j': nat :: MatchesAt(p, s, i, j') ==> j' <= j
    requires forall k: nat, j': nat :: k < i ==> !MatchesAt(p, s, k, j')
    ensures LeftmostLongestAt(p, s, i, s[i..j])
  {
    var r := s[i..j];
    assert i + |r| == j;
  }

  /** When the search finds `i`, the scanner's match there is the leftmost-longest one. */
  lemma SearchSomeCorrect(p: Pattern, s: string)
    requires Search(p, s, 0).Some?
    ensures var i := Search(p, s, 0).value;
      MatchEnd(p, s, i).Some? && LeftmostLongestAt(p, s, i, s[i..MatchEnd(p, s, i).value])
  {
    var i := Search(p, s, 0).value;
    SearchFinds(p, s, 0);
    var j := MatchEnd(p, s, i).value;
    forall k: nat, j': nat | k < i && MatchesAt(p, s, k, j') ensures false {
      SearchSkips(p, s, 0, k);
      MatchEndCorrect(p, s, k);
    }
    MatchEndCorrect(p, s, i);
    MatchUnspaced(p, s, i, j);
    LeftmostLongestFound(p, s, i, j);
  }

  /** The stripped group is the whole match: a match has no whitespace at its ends. */
  lemma FirstMatchIsMatch(p: Pattern, s: string)
    requires Search(p, s, 0).Some?
    ensures var i := Search(p, s, 0).value;
      MatchEnd(p, s, i).Some? && i < MatchEnd(p, s, i).value <= |s| && FirstMatch(p, s) == s[i..MatchEnd(p, s, i).value]
  {
    var i := Search(p, s, 0).value;
    SearchFinds(p, s, 0);
    var j := MatchEnd(p, s, i).value;
    MatchEndUnspaced(p, s, i);
    FirstMatchAt(p, s, i, j);
    StripUnspacedSlice(s, i, j);
  }

  lemma FirstMatchAt(p: Pattern, s: string, i: nat, j: nat)
    requires Search(p, s, 0) == Some(i) && MatchEnd(p, s, i) == Some(j) && i <= j <= |s|
    ensures FirstMatch(p, s) == Strip(s[i..j])
  {
  }

  lemma StripUnspacedSlice(s: string, i: nat, j: nat)
    requires i < j <= |s| && !IsSpace(s[i]) && !IsSpace(s[j - 1])
    ensures Strip(s[i..j]) == s[i..j]
  {
    var t := s[i..j];
    assert t[0] == s[i] && t[|t| - 1] == s[j - 1];
    StripUnspaced(t);
  }

  lemma FirstMatchFound(p: Pattern, s: string)
    requires Search(p, s, 0).Some?
    ensures IsFirstMatch(p, s, FirstMatch(p, s))
  {
    var i := Search(p, s, 0).value;
    SearchFinds(p, s, 0);
    var j := MatchEnd(p, s, i).value;
    FirstMatchIsMatch(p, s);
    SearchSomeCorrect(p, s);
    var r := FirstMatch(p, s);
    assert r == s[i..j] != [];
    assert LeftmostLongestAt(p, s, i, r);
  }

  lemma FirstMatchCorrect(p: Pattern, s: string)
    ensures IsFirstMatch(p, s, FirstMatch(p, s))
  {
    if Search(p, s, 0).None? {
      SearchNoneCorrect(p, s);
    } else {
      FirstMatchFound(p, s);
    }
  }

  /** The (date, time) pair of the parser. */
  datatype DateTime = DateTime(date: string, time: string)

  /**
   * Parses the combined date/time text of an event. Total: an absent pattern
   * gives "", never an error. The two searches are independent and each
   * looks at the whole text.
   */
  function ParseDateTime(text: string): (r: DateTime)
    ensures IsFirstMatch(DatePattern, text, r.date)
    ensures IsFirstMatch(TimePattern, text, r.time)
  {
    FirstMatchCorrect(DatePattern, text);
    FirstMatchCorrect(TimePattern, text);
    DateTime(FirstMatch(DatePattern, text), FirstMatch(TimePattern, text))
  }

  /** The result of a search is "" exactly when the pattern matches nowhere. */
  lemma FirstMatchEmptyIff(p: Pattern, s: string, r: string)
    requires IsFirstMatch(p, s, r)
    ensures r == "" <==> forall i: nat, j: nat :: !MatchesAt(p, s, i, j)
  {
    if r != "" {
      var i: nat :| LeftmostLongestAt(p, s, i, r);
      assert MatchesAt(p, s, i, i + |r|);
    }
  }

  /** A text with no date gets date "", and one with no time gets time "". */
  lemma ParseAbsent(text: string)
    ensures ParseDateTime(text).date == "" <==> forall i: nat, j: nat :: !MatchesAt(DatePattern, text, i, j)
    ensures ParseDateTime(text).time == "" <==> forall i: nat, j: nat :: !MatchesAt(TimePattern, text, i, j)
  {
    var r := ParseDateTime(text);
    FirstMatchEmptyIff(DatePattern, text, r.date);
    FirstMatchEmptyIff(TimePattern, text, r.time);
  }

  /** The missing date/time block of an item is parsed as "". */
  lemma ParseEmpty()
    ensures ParseDateTime("") == DateTime("", "")
  {
  }
}
