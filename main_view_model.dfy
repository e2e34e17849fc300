/**
 * ViewModels/MainViewModel.cs without the WPF parts: the bound properties are the fields of
 * the class, the commands are its methods. The services behind ISearchService and
 * IIndexService and the current culture's name order are function fields fixed at
 * construction; the file system and DateTime.Today are parameters of the commands that use
 * them. Message boxes are left out; a command that returns without doing anything is the
 * path where the source shows one.
 */
module ViewModels {
  import opened Wrappers
  import opened Text
  import opened Dates
  import opened Searching
  import opened Ordering

  /** The UISettings the view model reads from the configuration service. */
  datatype UISettings = UISettings(defaultLogPath: string, defaultFileFilter: string, fileFilterOptions: Option<seq<string>>)

  /** Directory.Exists, and the file names of Directory.GetFiles (None when it throws). */
  datatype FileSystem = FileSystem(directoryExists: string -> bool, getFiles: string -> Option<seq<string>>)

  /** The arguments of ISearchService.SearchAsync. */
  datatype SearchRequest = SearchRequest(keyword: string, limit: Option<int>, startDate: Option<Day>, endDate: Option<Day>)

  /** What ISearchService.SearchAsync returns: the results and the total number of hits. */
  datatype SearchResponse = SearchResponse(results: seq<SearchResult>, totalHits: int)

  const AllFilesOption: string := "全部"
  const SearchingText: string := "搜尋中..."
  const InitialCountText: string := "筆數: 0"
  const IndexingStarted: string := "Indexing started..."
  const IndexingCompleted: string := "Indexing completed successfully."

  // ----- the stem regex ^(?<name>.*?)(?:\.log|\.txt)?(?:\.?\d{8})?$ with IgnoreCase -----

  predicate IsStemExtension(r: string) { EqualsIgnoreCase(r, ".log") || EqualsIgnoreCase(r, ".txt") }

  /** `\.?\d{8}`. */
  predicate IsStemDate(r: string) {
    (|r| == 8 && AllDigits(r)) || (|r| == 9 && r[0] == '.' && AllDigits(r[1..]))
  }

  /** The whole of r is `(?:\.log|\.txt)?(?:\.?\d{8})?`. */
  predicate StemSuffix(r: string) {
    r == "" || IsStemDate(r) || (|r| >= 4 && IsStemExtension(r[..4]) && (|r| == 4 || IsStemDate(r[4..])))
  }

  /** The rest after the name group matches: the optional parts, then `$` (the end, or before a final '\n'). */
  predicate StemTail(r: string) {
    StemSuffix(r) || (|r| > 0 && r[|r| - 1] == '\n' && StemSuffix(r[..|r| - 1]))
  }

  predicate NoNewline(s: string) { forall k :: 0 <= k < |s| ==> s[k] != '\n' }

  /** The name group can be s[..i]: `.` matches anything but '\n'. */
  predicate StemAt(s: string, i: int) {
    0 <= i <= |s| && NoNewline(s[..i]) && StemTail(s[i..])
  }

  /** The lazy `.*?`: the shortest name for which the rest matches. */
  function StemFrom(s: string, i: nat): Option<string>
    requires i <= |s|
    decreases |s| - i
  {
    if StemTail(s[i..]) then Some(s[..i])
    else if i < |s| && s[i] != '\n' then StemFrom(s, i + 1)
    else None
  }

  /** m.Groups["name"].Value when the regex matches the file name. */
  function StemMatch(fileName: string): Option<string> {
    StemFrom(fileName, 0)
  }

  /** The index of the last c in s, or -1. */
  function LastIndexOf(s: string, c: char): (i: int)
    ensures -1 <= i < |s| && (i >= 0 ==> s[i] == c)
    ensures forall k :: i < k < |s| ==> s[k] != c
  {
    if s == [] then -1 else if s[|s| - 1] == c then |s| - 1 else LastIndexOf(s[..|s| - 1], c)
  }

  /** Path.GetFileNameWithoutExtension of a file name: everything before the last '.'. */
  function FileNameWithoutExtension(fileName: string): string {
    var i := LastIndexOf(fileName, '.');
    if i < 0 then fileName else fileName[..i]
  }

  /** The option a file contributes: its stem when the regex matches (unless blank), else its name without extension. */
  function FileCandidate(fileName: string): Option<string> {
    match StemMatch(fileName)
    case Some(n) => if IsBlank(n) then None else Some(n)
    case None => Some(FileNameWithoutExtension(fileName))
  }

  /** The HashSet with StringComparer.OrdinalIgnoreCase contains x. */
  predicate HasIgnoreCase(names: seq<string>, x: string) {
    exists i :: 0 <= i < |names| && EqualsIgnoreCase(names[i], x)
  }

  /** HashSet.Add: x is added only when no name equal to it ignoring case is there; enumeration keeps insertion order. */
  function AddIgnoreCase(names: seq<string>, x: string): seq<string> {
    if HasIgnoreCase(names, x) then names else names + [x]
  }

  /** The names collected from the files, in the order the loop adds them. */
  function CollectNames(files: seq<string>): seq<string> {
    if files == [] then []
    else
      var names := CollectNames(files[..|files| - 1]);
      match FileCandidate(files[|files| - 1])
      case Some(n) => AddIgnoreCase(names, n)
      case None => names
  }

  /** The key of names.OrderBy(s => s): the current culture's rank of a name, smallest first. */
  function AscendingBy(collation: string -> int): string -> int {
    (s: string) => -collation(s)
  }

  /** The file names of the folder when it is set and exists and can be listed, else none. */
  function ScannedFiles(fs: FileSystem, folderPath: string): seq<string> {
    if folderPath != "" && fs.directoryExists(folderPath) then fs.getFiles(folderPath).GetOr([]) else []
  }

  /** Steps 2 and 3: the settings' options when the folder gives none, then "全部" first if it is missing. */
  function FinishOptions(options: seq<string>, settingsOptions: Option<seq<string>>): seq<string> {
    var o := if |options| == 0 then settingsOptions.GetOr([]) else options;
    if AllFilesOption in o then o else [AllFilesOption] + o
  }

  /** The options RefreshFilters shows. */
  function FilterOptions(files: seq<string>, settingsOptions: Option<seq<string>>, collation: string -> int): seq<string> {
    FinishOptions(SortDescending(CollectNames(files), AscendingBy(collation)), settingsOptions)
  }

  /** Step 4: keep the selection when it is an option, else the default filter when it is one, else the first option. */
  function SelectFilter(current: string, options: seq<string>, defaultFilter: string): string {
    if current != "" && current in options then current
    else if defaultFilter != "" && defaultFilter in options then defaultFilter
    else if |options| > 0 then options[0]
    else current
  }

  /** The key of OrderByDescending(r => r.FileDate): null sorts below every date. */
  function DateSortKey(r: SearchResult): int {
    match r.fileDate
    case None => 0
    case Some(d) => d.year * 10000 + d.month * 100 + d.day
  }

  /** The results as the list shows them: newest file date first, ties in the service's order, when GroupByDate. */
  function Arrange(results: seq<SearchResult>, groupByDate: bool): seq<SearchResult> {
    if groupByDate then SortDescending(results, DateSortKey) else results
  }

  /** ResultCountText after a search. */
  function CountText(shown: nat, totalHits: int): string {
    if totalHits > shown then
      "顯示前 " + NatToString(shown) + " 筆資料 (共找到 " + IntToString(totalHits) + " 筆，請縮小搜尋範圍)"
    else "找到 " + NatToString(shown) + " 筆資料"
  }

  class MainViewModel {
    const settings: UISettings
    const searchService: SearchRequest -> Result<SearchResponse, string>
    /** IIndexService.CreateIndexAsync(folderPath, filter, progress): Pass, or the message of what it threw. */
    const indexService: (string, string) -> Outcome<string>
    const collation: string -> int

    var keyword: string
    var folderPath: string
    var fileFilterKeyword: string
    var searchResults: seq<SearchResult>
    var isIndexing: bool
    var indexProgressMessage: string
    var startDate: Option<Day>
    var endDate: Option<Day>
    var fileFilterOptions: seq<string>
    var groupByDate: bool
    var resultCountText: string
    var enableDateFilter: bool

    /** The constructor: the field initialisers, then LoadSettings. */
    constructor(settings: UISettings, searchService: SearchRequest -> Result<SearchResponse, string>,
                indexService: (string, string) -> Outcome<string>, collation: string -> int,
                fs: FileSystem, today: Day)
      requires AddDays(today, -7).Some?
      ensures this.settings == settings && this.searchService == searchService
      ensures this.indexService == indexService && this.collation == collation
      ensures keyword == "" && searchResults == [] && !isIndexing && indexProgressMessage == ""
      ensures groupByDate && resultCountText == InitialCountText && !enableDateFilter
      ensures folderPath == settings.defaultLogPath
      ensures endDate == Some(today) && startDate == AddDays(today, -7)
      ensures fileFilterOptions == FilterOptions(ScannedFiles(fs, settings.defaultLogPath), settings.fileFilterOptions, collation)
      ensures fileFilterKeyword == SelectFilter(settings.defaultFileFilter, fileFilterOptions, settings.defaultFileFilter)
    {
      this.settings := settings;
      this.searchService := searchService;
      this.indexService := indexService;
      this.collation := collation;
      keyword, folderPath, fileFilterKeyword := "", "", "";
      searchResults, isIndexing, indexProgressMessage := [], false, "";
      startDate, endDate, fileFilterOptions := None, None, [];
      groupByDate, resultCountText, enableDateFilter := true, InitialCountText, false;
      new;
      var loaded := LoadSettings(fs, today);
    }

    /** LoadSettings: the default folder and filter, the last seven days, then RefreshFilters. AddDays(-7) throws on the first week of 0001. */
    method LoadSettings(fs: FileSystem, today: Day) returns (r: Outcome<DateError>)
      modifies this
      ensures folderPath == settings.defaultLogPath && endDate == Some(today)
      ensures keyword == old(keyword) && searchResults == old(searchResults) && isIndexing == old(isIndexing)
      ensures indexProgressMessage == old(indexProgressMessage) && groupByDate == old(groupByDate)
      ensures resultCountText == old(resultCountText) && enableDateFilter == old(enableDateFilter)
      ensures AddDays(today, -7).None? ==>
        r == Fail(ArgumentOutOfRange) && startDate == old(startDate)
        && fileFilterKeyword == settings.defaultFileFilter && fileFilterOptions == old(fileFilterOptions)
      ensures AddDays(today, -7).Some? ==>
        r == Pass && startDate == AddDays(today, -7)
        && fileFilterOptions == FilterOptions(ScannedFiles(fs, settings.defaultLogPath), settings.fileFilterOptions, collation)
        && fileFilterKeyword == SelectFilter(settings.defaultFileFilter, fileFilterOptions, settings.defaultFileFilter)
    {
      folderPath := settings.defaultLogPath;
      fileFilterKeyword := settings.defaultFileFilter;
      endDate := Some(today);
      var start := AddDays(today, -7);
      if start.None? {
        return Fail(ArgumentOutOfRange);
      }
      startDate := start;
      RefreshFilters(fs);
      r := Pass;
    }

    /** The Search command. Returns the request made of the search service, if any, and what it threw. */
    method Search() returns (request: Option<SearchRequest>, r: Outcome<string>)
      modifies this
      ensures keyword == old(keyword) && folderPath == old(folderPath) && fileFilterKeyword == old(fileFilterKeyword)
      ensures isIndexing == old(isIndexing) && indexProgressMessage == old(indexProgressMessage)
      ensures startDate == old(startDate) && endDate == old(endDate) && fileFilterOptions == old(fileFilterOptions)
      ensures groupByDate == old(groupByDate) && enableDateFilter == old(enableDateFilter)
      ensures IsBlank(keyword) ==>
        request == None && r == Pass && searchResults == old(searchResults) && resultCountText == old(resultCountText)
      ensures !IsBlank(keyword) ==>
        request == Some(SearchRequest(keyword, None, if enableDateFilter then startDate else None,
                                      if enableDateFilter then endDate else None))
        && match searchService(request.value)
           case Err(e) => r == Fail(e) && searchResults == [] && resultCountText == SearchingText
           case Ok(response) =>
             r == Pass && searchResults == Arrange(response.results, groupByDate)
             && resultCountText == CountText(|searchResults|, response.totalHits)
    {
      if IsBlank(keyword) {
        return None, Pass;
      }
      searchResults := [];
      resultCountText := SearchingText;
      var searchStart := if enableDateFilter then startDate else None;
      var searchEnd := if enableDateFilter then endDate else None;
      request := Some(SearchRequest(keyword, None, searchStart, searchEnd));
      var response := searchService(request.value);
      if response.Err? {
        return request, Fail(response.error);
      }
      var sorted := Arrange(response.value.results, groupByDate);
      var i := 0;
      while i < |sorted|
        modifies this`searchResults
        invariant 0 <= i <= |sorted|
        invariant searchResults == sorted[..i]
        invariant resultCountText == SearchingText
      {
        searchResults := searchResults + [sorted[i]];
        i := i + 1;
      }
      assert sorted[..i] == sorted;
      resultCountText := CountText(|searchResults|, response.value.totalHits);
      r := Pass;
    }

    /** The CreateIndex command. Returns the folder and filter passed to the index service, if it was called. */
    method CreateIndex(fs: FileSystem) returns (call: Option<(string, string)>)
      modifies this
      ensures keyword == old(keyword) && folderPath == old(folderPath) && fileFilterKeyword == old(fileFilterKeyword)
      ensures searchResults == old(searchResults) && startDate == old(startDate) && endDate == old(endDate)
      ensures fileFilterOptions == old(fileFilterOptions) && groupByDate == old(groupByDate)
      ensures resultCountText == old(resultCountText) && enableDateFilter == old(enableDateFilter)
      ensures IsBlank(folderPath) || !fs.directoryExists(folderPath) ==>
        call == None && isIndexing == old(isIndexing) && indexProgressMessage == old(indexProgressMessage)
      ensures !IsBlank(folderPath) && fs.directoryExists(folderPath) ==>
        call == Some((folderPath, if fileFilterKeyword == AllFilesOption then "" else fileFilterKeyword))
        && !isIndexing
        && indexProgressMessage == match indexService(call.value.0, call.value.1)
                                   case Pass => IndexingCompleted
                                   case Fail(message) => "Indexing failed: " + message
    {
      if IsBlank(folderPath) || !fs.directoryExists(folderPath) {
        return None;
      }
      isIndexing := true;
      indexProgressMessage := IndexingStarted;
      var actualFilter := if fileFilterKeyword == AllFilesOption then "" else fileFilterKeyword;
      call := Some((folderPath, actualFilter));
      var outcome := indexService(folderPath, actualFilter);
      match outcome {
        case Pass => indexProgressMessage := IndexingCompleted;
        case Fail(message) => indexProgressMessage := "Indexing failed: " + message;
      }
      isIndexing := false;
    }

    /** The RefreshFilters command. */
    method RefreshFilters(fs: FileSystem)
      modifies this
      ensures keyword == old(keyword) && folderPath == old(folderPath) && searchResults == old(searchResults)
      ensures isIndexing == old(isIndexing) && indexProgressMessage == old(indexProgressMessage)
      ensures startDate == old(startDate) && endDate == old(endDate) && groupByDate == old(groupByDate)
      ensures resultCountText == old(resultCountText) && enableDateFilter == old(enableDateFilter)
      ensures fileFilterOptions == FilterOptions(ScannedFiles(fs, folderPath), settings.fileFilterOptions, collation)
      ensures fileFilterKeyword == SelectFilter(old(fileFilterKeyword), fileFilterOptions, settings.defaultFileFilter)
    {
      var files := ScannedFiles(fs, folderPath);
      var names: seq<string> := [];
      var i := 0;
      while i < |files|
        invariant 0 <= i <= |files|
        invariant names == CollectNames(files[..i])
      {
        var fileName := files[i];
        var m := StemMatch(fileName);
        if m.Some? {
          if !IsBlank(m.value) {
            names := AddIgnoreCase(names, m.value);
          }
        } else {
          names := AddIgnoreCase(names, FileNameWithoutExtension(fileName));
        }
        assert files[..i + 1][..i] == files[..i];
        i := i + 1;
      }
      assert files[..i] == files;
      var options := SortDescending(names, AscendingBy(collation));
      if |options| == 0 && settings.fileFilterOptions.Some? {
        options := settings.fileFilterOptions.value;
      }
      if AllFilesOption !in options {
        options := [AllFilesOption] + options;
      }
      fileFilterOptions := options;
      if fileFilterKeyword == "" || fileFilterKeyword !in fileFilterOptions {
        var defaultFilter := settings.defaultFileFilter;
        if defaultFilter != "" && defaultFilter in fileFilterOptions {
          fileFilterKeyword := defaultFilter;
        } else if |fileFilterOptions| > 0 {
          fileFilterKeyword := fileFilterOptions[0];
        }
      }
    }

    /** The SetDateRange command with its "days" argument: the last `days` days up to today. */
    method SetDateRange(daysStr: string, today: Day) returns (r: Outcome<DateError>)
      modifies this
      ensures keyword == old(keyword) && folderPath == old(folderPath) && fileFilterKeyword == old(fileFilterKeyword)
      ensures searchResults == old(searchResults) && isIndexing == old(isIndexing)
      ensures indexProgressMessage == old(indexProgressMessage) && fileFilterOptions == old(fileFilterOptions)
      ensures groupByDate == old(groupByDate) && resultCountText == old(resultCountText)
      ensures TryParseInt32(daysStr).None? ==>
        r == Pass && enableDateFilter == old(enableDateFilter) && startDate == old(startDate) && endDate == old(endDate)
      ensures TryParseInt32(daysStr).Some? ==>
        enableDateFilter && endDate == Some(today)
        && match RangeStart(TryParseInt32(daysStr).value, today)
           case None => r == Fail(ArgumentOutOfRange) && startDate == old(startDate)
           case Some(s) => r == Pass && startDate == Some(s)
    {
      var parsed := TryParseInt32(daysStr);
      if parsed.None? {
        return Pass;
      }
      enableDateFilter := true;
      endDate := Some(today);
      var start := RangeStart(parsed.value, today);
      if start.None? {
        return Fail(ArgumentOutOfRange);
      }
      startDate := start;
      r := Pass;
    }
  }

  /** DateTime.Today.AddDays(-days + 1). For days = int.MinValue the int negation wraps, but both the wrapped and the exact offset are out of range. */
  function RangeStart(days: int, today: Day): Option<Day> {
    AddDays(today, -days + 1)
  }

  // ===== properties =====

  /** The range SetDateRange sets spans exactly `days` days ending today, and exists exactly when that start is a DateTime. */
  lemma RangeStartSpec(days: int, today: Day)
    ensures RangeStart(days, today).Some? <==> 0 <= DayNumber(today) - days + 1 <= MaxDayNumber
    ensures RangeStart(days, today).Some? ==> DayNumber(today) - DayNumber(RangeStart(days, today).value) + 1 == days
  {
    AddDaysNumber(today, -days + 1);
  }

  lemma TailStartsWithDotDigitOrNewline(r: string)
    requires StemTail(r) && r != ""
    ensures r[0] == '.' || IsDigit(r[0]) || r[0] == '\n'
  {
    if !StemSuffix(r) {
      var t := r[..|r| - 1];
      if t == "" { assert r == ['\n']; }
      else if |t| >= 4 && IsStemExtension(t[..4]) { assert t[..4][0] == r[0]; }
      else { assert t[0] == r[0]; }
    } else if |r| >= 4 && IsStemExtension(r[..4]) {
      assert r[..4][0] == r[0];
    }
  }

  lemma {:induction false} StemFromSpec(s: string, j: nat)
    requires j <= |s| && NoNewline(s[..j]) && forall i :: 0 <= i < j ==> !StemAt(s, i)
    ensures StemFrom(s, j).Some? ==>
      var n := StemFrom(s, j).value; |n| <= |s| && n == s[..|n|] && StemAt(s, |n|) && forall i :: 0 <= i < |n| ==> !StemAt(s, i)
    ensures StemFrom(s, j).None? <==> forall i :: 0 <= i <= |s| ==> !StemAt(s, i)
    decreases |s| - j
  {
    if StemTail(s[j..]) {
      assert StemAt(s, j);
    } else if j < |s| && s[j] != '\n' {
      assert s[..j + 1] == s[..j] + [s[j]];
      StemFromSpec(s, j + 1);
    } else {
      forall i | j <= i <= |s| ensures !StemAt(s, i) {
        if i > j { assert s[..i][j] == s[j]; }
      }
    }
  }

  /**
   * The name group of the stem regex: the shortest prefix without '\n' after which the rest
   * is an optional .log/.txt and an optional 8-digit date with an optional dot; the regex fails
   * exactly when there is no such prefix, and then the name without extension is used.
   */
  lemma StemMatchSpec(s: string)
    ensures StemMatch(s).Some? ==>
      var n := StemMatch(s).value; |n| <= |s| && n == s[..|n|] && StemAt(s, |n|) && forall i :: 0 <= i < |n| ==> !StemAt(s, i)
    ensures StemMatch(s).None? <==> forall i :: 0 <= i <= |s| ==> !StemAt(s, i)
  {
    assert s[..0] == "";
    StemFromSpec(s, 0);
  }

  /** No '.', no digit and no '\n': text the optional parts of the stem regex cannot start in. */
  predicate PlainText(p: string) {
    forall k :: 0 <= k < |p| ==> p[k] != '.' && !IsDigit(p[k]) && p[k] != '\n'
  }

  /** A name with no '.', digit or '\n' in it is its own stem, whatever recognised suffix follows it. */
  lemma {:induction false} PlainStem(p: string, tail: string, j: nat)
    requires PlainText(p)
    requires StemTail(tail) && j <= |p|
    ensures StemFrom(p + tail, j) == Some(p)
    decreases |p| - j
  {
    var s := p + tail;
    if j == |p| {
      assert s[j..] == tail && s[..j] == p;
    } else {
      assert s[j..][0] == p[j];
      if StemTail(s[j..]) { TailStartsWithDotDigitOrNewline(s[j..]); }
      PlainStem(p, tail, j + 1);
    }
  }

  /** "app.log", "app.LOG20251214", "app.txt.20251214" and "app" all give the filter option "app". */
  lemma DatedAndCurrentFilesShareOption(p: string, ext: string, digits: string)
    requires PlainText(p)
    requires IsStemExtension(ext) && |digits| == 8 && AllDigits(digits)
    ensures StemMatch(p) == Some(p) && StemMatch(p + ext) == Some(p)
    ensures StemMatch(p + ext + digits) == Some(p) && StemMatch(p + ext + "." + digits) == Some(p)
  {
    ExtensionTails(ext, digits);
    PlainName(p, p, "");
    PlainName(p + ext, p, ext);
    DatedFilesShareOption(p, ext, digits);
  }

  lemma DatedFilesShareOption(p: string, ext: string, digits: string)
    requires PlainText(p)
    requires IsStemExtension(ext) && |digits| == 8 && AllDigits(digits)
    ensures StemMatch(p + ext + digits) == Some(p) && StemMatch(p + ext + "." + digits) == Some(p)
  {
    ExtensionTails(ext, digits);
    PlainName(p + ext + digits, p, ext + digits);
    PlainName(p + ext + "." + digits, p, ext + "." + digits);
  }

  lemma PlainName(s: string, p: string, tail: string)
    requires PlainText(p)
    requires StemTail(tail) && s == p + tail
    ensures StemMatch(s) == Some(p)
  {
    PlainStem(p, tail, 0);
  }

  /** Nothing, an extension, an extension with a date, and an extension with a dotted date all match the rest of the regex. */
  lemma ExtensionTails(ext: string, digits: string)
    requires IsStemExtension(ext) && |digits| == 8 && AllDigits(digits)
    ensures StemTail("") && StemTail(ext) && StemTail(ext + digits) && StemTail(ext + "." + digits)
  {
    assert ext[..4] == ext;
    assert (ext + digits)[..4] == ext && (ext + digits)[4..] == digits;
    var dotted := "." + digits;
    assert dotted[1..] == digits;
    assert ext + "." + digits == ext + dotted;
    assert (ext + dotted)[..4] == ext && (ext + dotted)[4..] == dotted;
  }

  /** No two names are equal ignoring case: the HashSet's invariant. */
  predicate DistinctIgnoreCase(names: seq<string>) {
    forall a, b :: 0 <= a < b < |names| ==> !EqualsIgnoreCase(names[a], names[b])
  }

  /** Every name is some file's candidate. */
  predicate FromFiles(names: seq<string>, files: seq<string>) {
    forall a :: 0 <= a < |names| ==> exists f :: f in files && FileCandidate(f) == Some(names[a])
  }

  /** Every file's candidate is represented by a name equal to it ignoring case. */
  predicate Covers(names: seq<string>, files: seq<string>) {
    forall f :: f in files && FileCandidate(f).Some? ==> HasIgnoreCase(names, FileCandidate(f).value)
  }

  /** The collected names: no two equal ignoring case, each a file's candidate, and every file's candidate represented. */
  lemma CollectNamesSpec(files: seq<string>)
    ensures DistinctIgnoreCase(CollectNames(files))
    ensures FromFiles(CollectNames(files), files)
    ensures Covers(CollectNames(files), files)
  {
    CollectNamesDistinct(files);
    CollectNamesFromFiles(files);
    CollectNamesCovers(files);
  }

  lemma {:induction false} CollectNamesDistinct(files: seq<string>)
    ensures DistinctIgnoreCase(CollectNames(files))
  {
    if files != [] {
      var p, last := files[..|files| - 1], files[|files| - 1];
      CollectNamesDistinct(p);
      var names := CollectNames(p);
      if FileCandidate(last).Some? && !HasIgnoreCase(names, FileCandidate(last).value) {
        var n := FileCandidate(last).value;
        var r := names + [n];
        forall a, b | 0 <= a < b < |r| ensures !EqualsIgnoreCase(r[a], r[b]) {
          if b == |names| {
            assert r[a] == names[a] && r[b] == n;
          }
        }
      }
    }
  }

  lemma {:induction false} CollectNamesFromFiles(files: seq<string>)
    ensures FromFiles(CollectNames(files), files)
  {
    if files != [] {
      var p, last := files[..|files| - 1], files[|files| - 1];
      assert files == p + [last];
      CollectNamesFromFiles(p);
      var names := CollectNames(p);
      var r := CollectNames(files);
      forall a | 0 <= a < |r| ensures exists f :: f in files && FileCandidate(f) == Some(r[a]) {
        if a < |names| {
          assert r[a] == names[a];
          var f :| f in p && FileCandidate(f) == Some(names[a]);
          assert f in files;
        } else {
          assert last in files && FileCandidate(last) == Some(r[a]);
        }
      }
    }
  }

  lemma {:induction false} CollectNamesCovers(files: seq<string>)
    ensures Covers(CollectNames(files), files)
  {
    if files != [] {
      var p, last := files[..|files| - 1], files[|files| - 1];
      assert files == p + [last];
      CollectNamesCovers(p);
      var names := CollectNames(p);
      var r := CollectNames(files);
      assert forall i :: 0 <= i < |names| ==> r[i] == names[i];
      forall f | f in files && FileCandidate(f).Some? ensures HasIgnoreCase(r, FileCandidate(f).value) {
        if f in p {
          var i :| 0 <= i < |names| && EqualsIgnoreCase(names[i], FileCandidate(f).value);
          assert r[i] == names[i];
        } else {
          var n := FileCandidate(last).value;
          assert f == last;
          assert EqualsIgnoreCase(n, n);
          if !HasIgnoreCase(names, n) { assert r[|names|] == n; }
        }
      }
    }
  }

  /**
   * Steps 2 and 3 of RefreshFilters. The folder's names are used when there are any. Otherwise
   * the settings' options are used, or nothing when the settings have none. "全部" is then put
   * first unless it is already there, so it is always an option.
   */
  lemma FinishOptionsSpec(options: seq<string>, settingsOptions: Option<seq<string>>)
    ensures AllFilesOption in FinishOptions(options, settingsOptions) && |FinishOptions(options, settingsOptions)| > 0
    ensures |options| > 0 && AllFilesOption in options ==> FinishOptions(options, settingsOptions) == options
    ensures |options| > 0 && AllFilesOption !in options ==> FinishOptions(options, settingsOptions) == [AllFilesOption] + options
    ensures |options| == 0 && settingsOptions.None? ==> FinishOptions(options, settingsOptions) == [AllFilesOption]
    ensures |options| == 0 && settingsOptions.Some? && AllFilesOption in settingsOptions.value ==>
      FinishOptions(options, settingsOptions) == settingsOptions.value
    ensures |options| == 0 && settingsOptions.Some? && AllFilesOption !in settingsOptions.value ==>
      FinishOptions(options, settingsOptions) == [AllFilesOption] + settingsOptions.value
  {
  }

  /**
   * The options RefreshFilters shows. The folder's names come in the culture's order, as a
   * permutation of the collected ones, with "全部" first unless the folder already gave it.
   * When the folder gives no names, which is when CollectNames is empty, the settings' options
   * are used in the same way.
   */
  lemma FilterOptionsSpec(files: seq<string>, settingsOptions: Option<seq<string>>, collation: string -> int)
    ensures var sorted := SortDescending(CollectNames(files), AscendingBy(collation));
      (forall a, b :: 0 <= a < b < |sorted| ==> collation(sorted[a]) <= collation(sorted[b]))
      && multiset(sorted) == multiset(CollectNames(files))
      && (|sorted| == 0 <==> CollectNames(files) == [])
      && FilterOptions(files, settingsOptions, collation) == FinishOptions(sorted, settingsOptions)
    ensures AllFilesOption in FilterOptions(files, settingsOptions, collation)
    ensures CollectNames(files) == [] && settingsOptions.None? ==>
      FilterOptions(files, settingsOptions, collation) == [AllFilesOption]
    ensures CollectNames(files) == [] && settingsOptions.Some? && AllFilesOption in settingsOptions.value ==>
      FilterOptions(files, settingsOptions, collation) == settingsOptions.value
    ensures CollectNames(files) == [] && settingsOptions.Some? && AllFilesOption !in settingsOptions.value ==>
      FilterOptions(files, settingsOptions, collation) == [AllFilesOption] + settingsOptions.value
    ensures var sorted := SortDescending(CollectNames(files), AscendingBy(collation));
      CollectNames(files) != [] ==>
        FilterOptions(files, settingsOptions, collation) == (if AllFilesOption in sorted then sorted else [AllFilesOption] + sorted)
  {
    SortDescendingSpec(CollectNames(files), AscendingBy(collation));
    FinishOptionsSpec(SortDescending(CollectNames(files), AscendingBy(collation)), settingsOptions);
  }

  /** After RefreshFilters the selected filter is always one of the options, and a selection that is still an option stays. */
  lemma SelectFilterSpec(current: string, options: seq<string>, defaultFilter: string)
    requires |options| > 0
    ensures SelectFilter(current, options, defaultFilter) in options
    ensures current != "" && current in options ==> SelectFilter(current, options, defaultFilter) == current
    ensures (current == "" || current !in options) && defaultFilter != "" && defaultFilter in options ==>
      SelectFilter(current, options, defaultFilter) == defaultFilter
    ensures (current == "" || current !in options) && (defaultFilter == "" || defaultFilter !in options) ==>
      SelectFilter(current, options, defaultFilter) == options[0]
  {
  }

  /** The date sort key orders results as their file dates, and puts undated results after all dated ones. */
  lemma DateSortKeyOrder(a: SearchResult, b: SearchResult)
    ensures a.fileDate.Some? && b.fileDate.Some? ==>
      (DateSortKey(a) <= DateSortKey(b) <==> DayLe(a.fileDate.value, b.fileDate.value))
    ensures a.fileDate.Some? && b.fileDate.None? ==> DateSortKey(a) > DateSortKey(b)
  {
  }

  /** Newest file date first; a result without a date never comes before one with a date. */
  predicate NewestFirst(r: seq<SearchResult>) {
    forall i, j :: 0 <= i < j < |r| ==>
      (r[j].fileDate.Some? ==> r[i].fileDate.Some? && DayLe(r[j].fileDate.value, r[i].fileDate.value))
  }

  /**
   * With GroupByDate the results are newest first, undated ones last, and results of the same
   * date keep the service's order; they are always the service's results, rearranged.
   */
  lemma ArrangeSpec(results: seq<SearchResult>, groupByDate: bool)
    ensures multiset(Arrange(results, groupByDate)) == multiset(results)
    ensures groupByDate ==> NewestFirst(Arrange(results, groupByDate))
    ensures groupByDate ==> forall k :: WithKey(Arrange(results, groupByDate), DateSortKey, k) == WithKey(results, DateSortKey, k)
  {
    SortDescendingSpec(results, DateSortKey);
    var r := Arrange(results, groupByDate);
    if groupByDate {
      forall i, j | 0 <= i < j < |r| && r[j].fileDate.Some?
        ensures r[i].fileDate.Some? && DayLe(r[j].fileDate.value, r[i].fileDate.value)
      {
        DateSortKeyOrder(r[j], r[i]);
      }
    }
  }

  /** The count text tells the totals apart: it names the total exactly when the service found more than the list shows. */
  lemma CountTextSpec(shown: nat, totalHits: int)
    ensures totalHits > shown ==> CountText(shown, totalHits)[..4] == "顯示前 "
    ensures totalHits <= shown ==> CountText(shown, totalHits)[..3] == "找到 "
    ensures CountText(shown, totalHits)[0] == '顯' <==> totalHits > shown
  {
  }
}
