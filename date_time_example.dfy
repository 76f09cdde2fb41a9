/**
 * The worked example of a Quicket listing's date/time text,
 * "Friday, March 14, 2025 · 18:30", and what `ParseDateTime` gives for it.
 */
module DateTimeExample {
  import opened Common
  import opened DateTimeText

  /**
   * The date/time text of an example Quicket listing,
   * "Friday, March 14, 2025 · 18:30", six characters at a time: the solver
   * reads a 30-character literal off in small pieces far more cheaply than
   * in one 30-way conjunction.
   */
  ghost predicate ListingChars0(s: string) {
    |s| == 30 && s[0] == 'F' && s[1] == 'r' && s[2] == 'i' && s[3] == 'd' && s[4] == 'a' && s[5] == 'y'
  }

  ghost predicate ListingChars1(s: string) {
    |s| == 30 && s[6] == ',' && s[7] == ' ' && s[8] == 'M' && s[9] == 'a' && s[10] == 'r' && s[11] == 'c'
  }

  ghost predicate ListingChars2(s: string) {
    |s| == 30 && s[12] == 'h' && s[13] == ' ' && s[14] == '1' && s[15] == '4' && s[16] == ',' && s[17] == ' '
  }

  ghost predicate ListingChars3(s: string) {
    |s| == 30 && s[18] == '2' && s[19] == '0' && s[20] == '2' && s[21] == '5' && s[22] == ' ' && s[23] == '\U{00B7}'
  }

  ghost predicate ListingChars4(s: string) {
    |s| == 30 && s[24] == ' ' && s[25] == '1' && s[26] == '8' && s[27] == ':' && s[28] == '3' && s[29] == '0'
  }

  ghost predicate ListingChars(s: string) {
    ListingChars0(s) && ListingChars1(s) && ListingChars2(s) && ListingChars3(s) && ListingChars4(s)
  }

  lemma ListingChars0Of(s: string)
    requires s == "Friday, March 14, 2025 \U{00B7} 18:30"
    ensures ListingChars0(s)
  {
  }

  lemma ListingChars1Of(s: string)
    requires s == "Friday, March 14, 2025 \U{00B7} 18:30"
    ensures ListingChars1(s)
  {
  }

  lemma ListingChars2Of(s: string)
    requires s == "Friday, March 14, 2025 \U{00B7} 18:30"
    ensures ListingChars2(s)
  {
  }

  lemma ListingChars3Of(s: string)
    requires s == "Friday, March 14, 2025 \U{00B7} 18:30"
    ensures ListingChars3(s)
  {
  }

  lemma ListingChars4Of(s: string)
    requires s == "Friday, March 14, 2025 \U{00B7} 18:30"
    ensures ListingChars4(s)
  {
  }

  lemma ListingCharsOf(s: string)
    requires s == "Friday, March 14, 2025 \U{00B7} 18:30"
    ensures ListingChars(s)
  {
    ListingChars0Of(s);
    ListingChars1Of(s);
    ListingChars2Of(s);
    ListingChars3Of(s);
    ListingChars4Of(s);
  }

  lemma ListingExampleDateSpan(s: string)
    requires ListingChars(s)
    ensures IsDateSpan(s, 0, 22)
  {
    assert AllIn(s, 17, 18, Space) && AllIn(s, 18, 22, Digit);
    assert YearSpan(s, 16, 22);
    assert AllIn(s, 13, 14, Space) && AllIn(s, 14, 16, Digit);
    assert DaySpan(s, 13, 22);
    assert AllIn(s, 7, 8, Space) && AllIn(s, 8, 13, Letter);
    assert MonthSpan(s, 6, 22);
    assert AllIn(s, 0, 6, Letter);
  }

  lemma ListingExampleDate(s: string)
    requires ListingChars(s)
    ensures FirstMatch(DatePattern, s) == s[0..22]
  {
    ListingExampleDateSpan(s);
    DateMatchEndCorrect(s, 0, 22);
    assert Search(DatePattern, s, 0) == Some(0);
    StripUnspaced(s[0..22]);
  }

  /** The time pattern matches nowhere in the example before s[25]. */
  lemma ListingExampleNoEarlyTime(s: string, k: nat)
    requires ListingChars(s) && k < 25
    ensures TimeMatchEnd(s, k).None?
  {
    if k == 14 {
      RunLenExact(s, 14, 2, Digit);
    } else if k == 15 {
      RunLenExact(s, 15, 1, Digit);
    } else if k == 18 {
      RunLenExact(s, 18, 4, Digit);
    } else if k == 19 {
      RunLenExact(s, 19, 3, Digit);
    } else if k == 20 {
      RunLenExact(s, 20, 2, Digit);
    } else if k == 21 {
      RunLenExact(s, 21, 1, Digit);
    } else {
      RunLenExact(s, k, 0, Digit);
    }
  }

  /** The time of the example listing: s[25..30]. */
  lemma ListingExampleTime(s: string)
    requires ListingChars(s)
    ensures FirstMatch(TimePattern, s) == s[25..30]
  {
    RunLenExact(s, 25, 2, Digit);
    RunLenExact(s, 30, 0, Space);
    assert TimeMatchEnd(s, 25) == Some(30);
    var k := 25;
    while k > 0
      invariant 0 <= k <= 25 && Search(TimePattern, s, k) == Some(25)
    {
      k := k - 1;
      ListingExampleNoEarlyTime(s, k);
    }
    MatchUnspaced(TimePattern, s, 25, 30) by { MatchEndCorrect(TimePattern, s, 25); }
    StripUnspaced(s[25..30]);
  }

  lemma ListingDateText(s: string)
    requires ListingChars(s)
    ensures s[0..22] == "Friday, March 14, 2025"
  {
  }

  lemma ListingTimeText(s: string)
    requires ListingChars(s)
    ensures s[25..30] == "18:30"
  {
  }

  /** The example of a Quicket listing: "Friday, March 14, 2025 · 18:30". */
  lemma ParseListingExample(s: string)
    requires s == "Friday, March 14, 2025 \U{00B7} 18:30"
    ensures ParseDateTime(s) == DateTime("Friday, March 14, 2025", "18:30")
  {
    ListingCharsOf(s);
    ListingExampleDate(s);
    ListingExampleTime(s);
    ListingDateText(s);
    ListingTimeText(s);
  }
}
