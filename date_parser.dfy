/**
 * Utilities/DateParser.cs: the date a log file's name carries, the timestamp at the start of a
 * log line, and the display string of a date. The compiled regular expressions of the source
 * are written out as recognisers over the string; DateTime.Today is the parameter `today`.
 */
module DateParser {
  import opened Wrappers
  import opened Text
  import opened Dates

  // ----- the file name regex \.(txt|log)(\d{8})$ with IgnoreCase -----

  /** ".txt" or ".log", in any case. */
  predicate IsLogExtension(s: string) {
    EqualsIgnoreCase(s, ".txt") || EqualsIgnoreCase(s, ".log")
  }

  /** All of s matches `\.(txt|log)(\d{8})`. */
  predicate IsDatedExtension(s: string) {
    |s| == 12 && IsLogExtension(s[..4]) && AllDigits(s[4..])
  }

  /** Where `$` matches without RegexOptions.Multiline: the end, or just before a final '\n'. */
  predicate AtEnd(s: string, i: int) {
    i == |s| || (0 <= i == |s| - 1 && s[i] == '\n')
  }

  /** A match of `\.(txt|log)(\d{8})$` starts at p. */
  predicate DatedExtensionAt(name: string, p: int) {
    0 <= p && p + 12 <= |name| && IsDatedExtension(name[p..p + 12]) && AtEnd(name, p + 12)
  }

  /** The regex's group 2, the eight digits, when the name matches it. */
  function FileNameDateDigits(name: string): (r: Option<string>)
    ensures r.Some? <==> exists p :: DatedExtensionAt(name, p)
    ensures r.Some? ==> exists p :: DatedExtensionAt(name, p) && r.value == name[p + 4..p + 12]
  {
    var n := |name|;
    if n >= 13 && name[n - 1] == '\n' && IsDatedExtension(name[n - 13..n - 1]) then
      assert DatedExtensionAt(name, n - 13);
      Some(name[n - 9..n - 1])
    else if n >= 12 && IsDatedExtension(name[n - 12..]) then
      assert name[n - 12..n] == name[n - 12..];
      assert DatedExtensionAt(name, n - 12);
      Some(name[n - 8..])
    else
      NoDatedExtension(name);
      None
  }

  /** `$` leaves only two places for the match; when neither holds there is none. */
  lemma NoDatedExtension(name: string)
    requires !(|name| >= 13 && name[|name| - 1] == '\n' && IsDatedExtension(name[|name| - 13..|name| - 1]))
    requires !(|name| >= 12 && IsDatedExtension(name[|name| - 12..]))
    ensures forall p :: !DatedExtensionAt(name, p)
  {
    var n := |name|;
    if n >= 12 {
      assert name[n - 12..n] == name[n - 12..];
    }
  }

  /** The name ends in ".txt" or ".log", in any case. */
  predicate IsCurrentFileName(name: string) {
    EndsWithIgnoreCase(name, ".txt") || EndsWithIgnoreCase(name, ".log")
  }

  /**
   * ParseDateFromFileName: the date of a dated file ("app.log20251214"), `today` for a current
   * file ("app.log"), None otherwise. An 8-digit suffix that is no real date gives None, never today.
   */
  function ParseDateFromFileName(name: string, today: Day): Option<Day> {
    if name == "" then None
    else
      var digits := FileNameDateDigits(name);
      if digits.Some? && DateFields(digits.value).Some? then ToDay(DateFields(digits.value).value)
      else if IsCurrentFileName(name) then Some(today)
      else None
  }

  // ----- timestamps -----

  /** n ASCII digits at index i. */
  predicate DigitsAt(s: string, i: int, n: nat) {
    0 <= i && i + n <= |s| && AllDigits(s[i..i + n])
  }

  /** `\d{4}<sep>\d{2}<sep>\d{2}` at index i (ten characters). */
  predicate SeparatedDateAt(s: string, i: int, sep: char) {
    DigitsAt(s, i, 4) && i + 10 <= |s| && s[i + 4] == sep && DigitsAt(s, i + 5, 2)
    && s[i + 7] == sep && DigitsAt(s, i + 8, 2)
  }

  /** `\d{2}:\d{2}:\d{2}` at index i (eight characters). */
  predicate TimeAt(s: string, i: int) {
    DigitsAt(s, i, 2) && i + 8 <= |s| && s[i + 2] == ':' && DigitsAt(s, i + 3, 2)
    && s[i + 5] == ':' && DigitsAt(s, i + 6, 2)
  }

  /** Every character of s[i..j] is white space. */
  predicate WhiteBetween(s: string, i: int, j: int)
    requires 0 <= i <= j <= |s|
  {
    forall k :: i <= k < j ==> IsWhiteSpace(s[k])
  }

  /** The whole of t is `<date of width w>\s+\d{2}:\d{2}:\d{2}`, the date part checked by the caller. */
  predicate SpacedTime(t: string, w: int) {
    0 <= w && |t| >= w + 9 && WhiteBetween(t, w, |t| - 8) && TimeAt(t, |t| - 8)
  }

  /** The four shapes of the source, each as a predicate on the whole matched text. */
  predicate IsDashTimestamp(t: string) { SeparatedDateAt(t, 0, '-') && SpacedTime(t, 10) }
  predicate IsSlashTimestamp(t: string) { SeparatedDateAt(t, 0, '/') && SpacedTime(t, 10) }
  predicate IsCompactTimestamp(t: string) { DigitsAt(t, 0, 8) && SpacedTime(t, 8) }
  predicate IsIsoTimestamp(t: string) { |t| == 19 && SeparatedDateAt(t, 0, '-') && t[10] == 'T' && TimeAt(t, 11) }

  predicate IsTimestamp(t: string) {
    IsDashTimestamp(t) || IsSlashTimestamp(t) || IsCompactTimestamp(t) || IsIsoTimestamp(t)
  }

  /** The length of the run of white space starting at index i. */
  function WhiteRun(s: string, i: nat): (n: nat)
    requires i <= |s|
    ensures i + n <= |s|
    decreases |s| - i
  {
    if i < |s| && IsWhiteSpace(s[i]) then 1 + WhiteRun(s, i + 1) else 0
  }

  /** The greedy `\s+` takes the whole run of white space and stops at the first other character. */
  lemma {:induction false} WhiteRunSpec(s: string, i: nat)
    requires i <= |s|
    ensures i + WhiteRun(s, i) <= |s| && WhiteBetween(s, i, i + WhiteRun(s, i))
    ensures i + WhiteRun(s, i) < |s| ==> !IsWhiteSpace(s[i + WhiteRun(s, i)])
    decreases |s| - i
  {
    if i < |s| && IsWhiteSpace(s[i]) {
      WhiteRunSpec(s, i + 1);
    }
  }

  /** White space from i up to a character that is not white space is the whole run at i. */
  lemma {:induction false} WhiteRunEnds(s: string, i: nat, j: nat)
    requires i <= j < |s| && WhiteBetween(s, i, j) && !IsWhiteSpace(s[j])
    ensures WhiteRun(s, i) == j - i
    decreases j - i
  {
    if i < j {
      WhiteRunEnds(s, i + 1, j);
    }
  }

  /** `^(<date of width w>\s+\d{2}:\d{2}:\d{2})` after the date part matched: the greedy `\s+` takes the whole run. */
  function MatchSpacedTime(s: string, w: nat): Option<string>
    requires w <= |s|
  {
    var run := WhiteRun(s, w);
    if run >= 1 && TimeAt(s, w + run) then Some(s[..w + run + 8]) else None
  }

  /** TimestampRegex1: `^(\d{4}-\d{2}-\d{2}\s+\d{2}:\d{2}:\d{2})`. */
  function MatchDash(s: string): Option<string> {
    if SeparatedDateAt(s, 0, '-') then MatchSpacedTime(s, 10) else None
  }

  /** TimestampRegex2: `^(\d{4}/\d{2}/\d{2}\s+\d{2}:\d{2}:\d{2})`. */
  function MatchSlash(s: string): Option<string> {
    if SeparatedDateAt(s, 0, '/') then MatchSpacedTime(s, 10) else None
  }

  /** TimestampRegex3: `^(\d{8}\s+\d{2}:\d{2}:\d{2})`. */
  function MatchCompact(s: string): Option<string> {
    if DigitsAt(s, 0, 8) then MatchSpacedTime(s, 8) else None
  }

  /** TimestampRegex4: `^(\d{4}-\d{2}-\d{2}T\d{2}:\d{2}:\d{2})`. */
  function MatchIso(s: string): Option<string> {
    if SeparatedDateAt(s, 0, '-') && |s| >= 19 && s[10] == 'T' && TimeAt(s, 11) then Some(s[..19]) else None
  }

  /** The four regexes tried in the source's order; the first match wins. */
  function FirstTimestampMatch(line: string): Option<string> {
    var m1 := MatchDash(line);
    if m1.Some? then m1
    else
      var m2 := MatchSlash(line);
      if m2.Some? then m2
      else
        var m3 := MatchCompact(line);
        if m3.Some? then m3
        else MatchIso(line)
  }

  /** ExtractTimestampFromLog: the leading timestamp of a log line, after the quick rejection of short lines and lines not starting with a digit. */
  function ExtractTimestampFromLog(line: string): Option<string> {
    if line == "" then None
    else if |line| < 4 || !IsDigit(line[0]) then None
    else FirstTimestampMatch(line)
  }

  // ----- FormatDate -----

  /** FormatDate: "日期未知" for null, "今天" for today, "昨天" for the day before, else "yyyy-MM-dd". DateTime.Today.AddDays(-1) throws on 0001-01-01. */
  function FormatDate(date: Option<Day>, today: Day): Result<string, DateError> {
    match date
    case None => Ok("日期未知")
    case Some(d) =>
      if d == today then Ok("今天")
      else
        match AddDays(today, -1)
        case None => Err(ArgumentOutOfRange)
        case Some(yesterday) => if d == yesterday then Ok("昨天") else Ok(IsoDate(d))
  }

  // ===== properties =====

  /** A name that is a prefix, ".txt"/".log" in any case, then eight digits yields exactly the date the digits name if it is a real date, and null (never today) if not. */
  lemma DatedFileName(prefix: string, ext: string, digits: string, today: Day)
    requires IsLogExtension(ext) && |ext| == 4 && |digits| == 8 && AllDigits(digits)
    ensures ParseDateFromFileName(prefix + ext + digits, today)
         == ToDay(Date(DigitsValue(digits[..4]), DigitsValue(digits[4..6]), DigitsValue(digits[6..])))
  {
    var name := prefix + ext + digits;
    var n := |name|;
    assert name[n - 12..] == ext + digits;
    assert (ext + digits)[..4] == ext && (ext + digits)[4..] == digits;
    assert name[n - 1] != '\n' by { assert name[n - 1] == digits[7]; }
    assert name[n - 8..] == digits;
    DateFieldsOfDigits(digits);
  }

  /** The yyyyMMdd suffix the index writes for a day parses back to that day. */
  lemma DatedFileNameRoundTrip(prefix: string, ext: string, d: Day, today: Day)
    requires IsLogExtension(ext) && |ext| == 4
    ensures ParseDateFromFileName(prefix + ext + CompactDate(d), today) == Some(d)
  {
    DatedFileName(prefix, ext, CompactDate(d), today);
    CompactDateFields(d);
  }

  /** Eight digits that are no calendar date (month 13, February 30, year 0000) give null, not today. */
  lemma InvalidDateSuffix(prefix: string, ext: string, digits: string, today: Day)
    requires IsLogExtension(ext) && |ext| == 4 && |digits| == 8 && AllDigits(digits)
    requires !ValidDate(Date(DigitsValue(digits[..4]), DigitsValue(digits[4..6]), DigitsValue(digits[6..])))
    ensures ParseDateFromFileName(prefix + ext + digits, today) == None
  {
    DatedFileName(prefix, ext, digits, today);
  }

  /** A name ending exactly in ".txt" or ".log", in any case, is the current file: today. */
  lemma CurrentFileName(name: string, today: Day)
    requires IsCurrentFileName(name)
    ensures ParseDateFromFileName(name, today) == Some(today)
  {
    var n := |name|;
    assert FoldChar(name[n - 1]) == 'T' || FoldChar(name[n - 1]) == 'G' by {
      assert name[n - 4..][3] == name[n - 1];
    }
    assert !IsDigit(name[n - 1]) && name[n - 1] != '\n';
    assert FileNameDateDigits(name).None?;
  }

  /** The dotted form "x.txt.20251214" does not match the regex and does not end in ".txt": null. */
  lemma DottedDateSuffix(prefix: string, ext: string, digits: string, today: Day)
    requires IsLogExtension(ext) && |ext| == 4 && |digits| == 8 && AllDigits(digits)
    ensures ParseDateFromFileName(prefix + ext + "." + digits, today) == None
  {
    var name := prefix + ext + "." + digits;
    var n := |name|;
    assert name[n - 1] == digits[7];
    assert name[n - 12] == ext[1];
    assert FoldChar(ext[1]) == 'T' || FoldChar(ext[1]) == 'L';
    assert !IsDatedExtension(name[n - 12..]) by { assert name[n - 12..][0] == name[n - 12]; }
    assert !IsCurrentFileName(name) by {
      assert name[n - 4..][3] == name[n - 1];
      assert name[n - 4..][3] == digits[7];
    }
  }

  /** A digit run inside a prefix of s is the same run in s. */
  lemma DigitsAtPrefix(s: string, k: nat, i: nat, n: nat)
    requires i + n <= k <= |s|
    ensures DigitsAt(s[..k], i, n) <==> DigitsAt(s, i, n)
  {
    assert s[..k][i..i + n] == s[i..i + n];
  }

  /** The date part and the ISO time part of a long enough prefix are those of the line. */
  lemma ShapesOfPrefix(s: string, k: nat)
    requires k <= |s|
    ensures k >= 8 ==> (DigitsAt(s[..k], 0, 8) <==> DigitsAt(s, 0, 8))
    ensures k >= 10 ==> forall sep :: SeparatedDateAt(s[..k], 0, sep) <==> SeparatedDateAt(s, 0, sep)
    ensures k >= 19 ==> (TimeAt(s[..k], 11) <==> TimeAt(s, 11))
  {
    if k >= 8 { DigitsAtPrefix(s, k, 0, 8); }
    if k >= 10 { DigitsAtPrefix(s, k, 0, 4); DigitsAtPrefix(s, k, 5, 2); DigitsAtPrefix(s, k, 8, 2); }
    if k >= 19 { DigitsAtPrefix(s, k, 11, 2); DigitsAtPrefix(s, k, 14, 2); DigitsAtPrefix(s, k, 17, 2); }
  }

  /** The greedy `\s+` of the source: a whole-shape prefix of s after the date part is what the matcher returns. */
  lemma MatchSpacedTimeSpec(s: string, w: nat)
    requires w <= |s|
    ensures MatchSpacedTime(s, w).Some? ==>
      var t := MatchSpacedTime(s, w).value; |t| <= |s| && t == s[..|t|] && SpacedTime(t, w)
    ensures forall k :: 0 <= k <= |s| && SpacedTime(s[..k], w) ==> MatchSpacedTime(s, w) == Some(s[..k])
  {
    MatchSpacedTimeSound(s, w);
    forall k | 0 <= k <= |s| && SpacedTime(s[..k], w) ensures MatchSpacedTime(s, w) == Some(s[..k]) {
      MatchSpacedTimeGreedy(s, w, k);
    }
  }

  lemma MatchSpacedTimeSound(s: string, w: nat)
    requires w <= |s|
    ensures MatchSpacedTime(s, w).Some? ==>
      |MatchSpacedTime(s, w).value| <= |s| && MatchSpacedTime(s, w).value == s[..|MatchSpacedTime(s, w).value|]
      && SpacedTime(MatchSpacedTime(s, w).value, w)
  {
    var run := WhiteRun(s, w);
    WhiteRunSpec(s, w);
    if run >= 1 && TimeAt(s, w + run) {
      var t := s[..w + run + 8];
      assert t[|t| - 8..|t| - 6] == s[w + run..w + run + 2];
      assert t[|t| - 5..|t| - 3] == s[w + run + 3..w + run + 5];
      assert t[|t| - 2..|t|] == s[w + run + 6..w + run + 8];
      assert WhiteBetween(t, w, |t| - 8) by {
        forall i | w <= i < |t| - 8 ensures IsWhiteSpace(t[i]) { assert t[i] == s[i]; }
      }
    }
  }

  lemma MatchSpacedTimeGreedy(s: string, w: nat, k: nat)
    requires w <= |s| && k <= |s| && SpacedTime(s[..k], w)
    ensures MatchSpacedTime(s, w) == Some(s[..k])
  {
    var run := WhiteRun(s, w);
    WhiteRunSpec(s, w);
    var t := s[..k];
    assert IsDigit(s[k - 8]) by { assert t[k - 8..k - 6][0] == s[k - 8]; }
    assert !IsWhiteSpace(s[k - 8]);
    assert WhiteBetween(s, w, k - 8) by { forall i | w <= i < k - 8 ensures IsWhiteSpace(s[i]) { assert t[i] == s[i]; } }
    WhiteRunEnds(s, w, k - 8);
    assert s[k - 8..k - 6] == t[k - 8..k - 6];
    assert s[k - 5..k - 3] == t[k - 5..k - 3];
    assert s[k - 2..k] == t[k - 2..k];
  }

  /** Whatever the first match returns is a prefix of the line with one of the four shapes. */
  lemma FirstMatchIsTimestamp(line: string)
    ensures FirstTimestampMatch(line).Some? ==>
      var t := FirstTimestampMatch(line).value; |t| <= |line| && t == line[..|t|] && IsTimestamp(t)
  {
    if |line| >= 10 { MatchSpacedTimeSpec(line, 10); }
    if |line| >= 8 { MatchSpacedTimeSpec(line, 8); }
    var r := FirstTimestampMatch(line);
    if r.Some? {
      var t := r.value;
      ShapesOfPrefix(line, |t|);
      if MatchDash(line).Some? {
        assert t[..10] == line[..10];
        assert IsDashTimestamp(t);
      } else if MatchSlash(line).Some? {
        assert t[..10] == line[..10];
        assert IsSlashTimestamp(t);
      } else if MatchCompact(line).Some? {
        assert t[..8] == line[..8];
        assert IsCompactTimestamp(t);
      } else {
        assert t[..10] == line[..10] && t[11..19] == line[11..19];
        assert IsIsoTimestamp(t);
      }
    }
  }

  /** Any prefix of the line with one of the four shapes is exactly what the first match returns. */
  lemma TimestampPrefixIsFirstMatch(line: string, k: nat)
    requires k <= |line| && IsTimestamp(line[..k])
    ensures FirstTimestampMatch(line) == Some(line[..k])
  {
    var t := line[..k];
    ShapesOfPrefix(line, k);
    if IsDashTimestamp(t) {
      MatchSpacedTimeSpec(line, 10);
    } else if IsSlashTimestamp(t) {
      assert line[4] == '/';
      MatchSpacedTimeSpec(line, 10);
    } else if IsCompactTimestamp(t) {
      assert IsDigit(line[4]) by { assert t[4..6][0] == line[4]; }
      MatchSpacedTimeSpec(line, 8);
    } else {
      assert line[4] == '-' && line[10] == 'T';
      assert TimeAt(line, 11) by { assert t[11..19] == line[11..19]; }
      assert WhiteRun(line, 10) == 0;
    }
  }

  /** The quick rejection never changes the answer: every shape starts with four digits. */
  lemma QuickRejectionIsSound(line: string)
    ensures ExtractTimestampFromLog(line) == FirstTimestampMatch(line)
  {
    forall n | 1 <= n && DigitsAt(line, 0, n) ensures |line| >= n && IsDigit(line[0]) {
      assert line[0..n][0] == line[0];
    }
  }

  /**
   * ExtractTimestampFromLog returns a prefix of the line that has one of the four shapes, and
   * null exactly when no prefix of the line has one; the shapes are never ambiguous, so the order
   * in which the source tries them does not matter.
   */
  lemma ExtractTimestampSpec(line: string)
    ensures ExtractTimestampFromLog(line).Some? ==>
      var t := ExtractTimestampFromLog(line).value; |t| <= |line| && t == line[..|t|] && IsTimestamp(t)
    ensures ExtractTimestampFromLog(line).None? <==> forall k :: 0 <= k <= |line| ==> !IsTimestamp(line[..k])
    ensures forall j, k :: 0 <= j <= |line| && 0 <= k <= |line| && IsTimestamp(line[..j]) && IsTimestamp(line[..k]) ==> j == k
  {
    QuickRejectionIsSound(line);
    FirstMatchIsTimestamp(line);
    forall k | 0 <= k <= |line| && IsTimestamp(line[..k]) ensures FirstTimestampMatch(line) == Some(line[..k]) {
      TimestampPrefixIsFirstMatch(line, k);
    }
  }

  /** FormatDate: the three labels, the ten-character yyyy-MM-dd otherwise, and an error only when today is 0001-01-01. */
  lemma FormatDateSpec(date: Option<Day>, today: Day)
    ensures date.None? ==> FormatDate(date, today) == Ok("日期未知")
    ensures date == Some(today) ==> FormatDate(date, today) == Ok("今天")
    ensures (date.Some? && date.value != today && today != MinDay
             && DayNumber(date.value) == DayNumber(today) - 1) ==> FormatDate(date, today) == Ok("昨天")
    ensures (date.Some? && date.value != today && today != MinDay
             && DayNumber(date.value) != DayNumber(today) - 1) ==> FormatDate(date, today) == Ok(IsoDate(date.value))
    ensures FormatDate(date, today).Err? <==> date.Some? && date.value != today && today == MinDay
  {
    AddDaysNumber(today, -1);
    DayNumberRange(today);
    if date.Some? && today != MinDay {
      var y := AddDays(today, -1).value;
      if DayNumber(date.value) == DayNumber(today) - 1 {
        DayNumberInjective(date.value, y);
      }
    }
  }
}
