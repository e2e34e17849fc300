# LuceneSearchWPF: a verified model of the log indexer and search core

LuceneSearchWPF is a WPF desktop tool. It indexes the text log files of a folder into a local
Lucene index, one document per non-blank line. It then searches that index by keyword, and
optionally by the date carried in the log file's name. This project models the core of the tool
in Dafny:

- **DateParser** (`date_parser.dfy`) has three parts, written out as recognisers with a
  declarative reference definition beside each:
  - the file-name date regex `\.(txt|log)(\d{8})$`;
  - the four log-line timestamp regexes;
  - `FormatDate`.
- **IndexService** (`index_service.dfy`):
  - `CreateIndexAsync` is a method with the source's nested loops, over three classes: the
    on-disk index (`IndexStore`), the `IndexWriter` and the service.
  - It is proved against the functions `FilesDocs` and `SelectFiles`, whose own properties are
    lemmas: one document per non-blank line, line numbers counted over blank lines, every
    stored document well formed.
- **SearchService** (`search_service.dfy`):
  - a class holding the cached reader;
  - `SearchAsync`, proved against `RunQuery`;
  - lemmas on the meaning of the `FileDate` range query in calendar terms, on the top-hits
    selection, and on the round trip from the `FileDate` stored at index time to the
    `FileDate` read back at search time.
- **MainViewModel** (`main_view_model.dfy`): a class whose fields are the bound properties and
  whose methods are the constructor, `LoadSettings`, `Search`, `CreateIndex`, `RefreshFilters`
  and `SetDateRange`. This includes an exact recogniser of the file-stem regex
  `^(?<name>.*?)(?:\.log|\.txt)?(?:\.?\d{8})?$`, with its lazy group and .NET's `$`.
- Supporting modules:
  - `text.dfy`: the .NET string primitives the code relies on (`char.IsWhiteSpace` / `\s`,
    ordinal case-insensitive comparison, `int.TryParse`, `int.ToString`, ordinal term order);
  - `dates.dfy`: `DateTime`'s calendar as day numbers (days since 0001-01-01), `AddDays` as
    moving the day number with a range check (as `DateTime` moves its ticks), and the
    `yyyyMMdd` and `yyyy-MM-dd` formats;
  - `ordering.dfy`: a stable sort by descending key. It is the order of LINQ's
    `OrderByDescending` and of Lucene's top hits (higher score first, then the earlier
    document).

`DateTime.Today`, the file system, Lucene's query parser, analyser and scorer, and the services
behind the view model's interfaces are parameters. A C# `null` string is `""`; the core only
ever tests strings with `IsNullOrEmpty` or `IsNullOrWhiteSpace` or compares them with a
non-empty literal such as "全部", and every `Contains` on the filter sits behind such a test,
so the two never behave differently.

Six exceptions are modelled, each as an `Err`/`Fail` result:

- `DateTime.AddDays` leaving 0001-01-01..9999-12-31 (`ArgumentOutOfRangeException`), in
  `FormatDate`'s `AddDays(-1)`, `LoadSettings`' `AddDays(-7)` and `SetDateRange`'s
  `AddDays(-days + 1)`;
- a missing log folder in `CreateIndexAsync`;
- a keyword `QueryParser.Parse` rejects;
- a hit count `<= 0` passed to `IndexSearcher.Search`;
- an index directory without a commit when the reader is opened;
- a file whose reading throws part way through, which is caught and logged.

The view model catches an indexing failure and shows "Indexing failed: " and the message. It
does not catch a search failure: the exception escapes the `Search` command after the list has
been cleared and the count text set to "搜尋中..." (the model's `Fail(e)`). The services behind
the view model's interfaces are parameters, so any exception they throw reaches these paths. The
other failures of the file system and of Lucene are listed under "## Left out".

Some facts about the code that the model reflects:

- The view model calls `ISearchService.SearchAsync`, which returns the results together with a
  total hit count. The concrete `SearchService.SearchAsync` returns only the result list.
- `IIndexService.CreateIndexAsync` declares a start and an end date. The concrete
  `IndexService.CreateIndexAsync` has no such parameters, and the view model calls it with the
  folder, the filter and a progress callback.
- The keyword goes through the classic `QueryParser` with its default OR operator. It searches
  `TokenizedContent` by default, and field syntax such as `FileDate:20251214` reaches the other
  indexed fields.
- Indexing a folder twice adds its lines twice, because the writer uses
  `OpenMode.CREATE_OR_APPEND` and `AddDocument`. The postcondition of `CreateIndexAsync` says so:
  the committed documents are the old ones followed by the new ones.

## Model

| member | source | states |
|---|---|---|
| DateParser.ParseDateFromFileName | Utilities/DateParser.cs:28-65 | `ParseDateFromFileName`. Its properties are stated by `DatedFileName`, `DatedFileNameRoundTrip`, `InvalidDateSuffix`, `CurrentFileName` and `DottedDateSuffix`. |
| DateParser.ExtractTimestampFromLog | Utilities/DateParser.cs:74-99 | `ExtractTimestampFromLog`. Its properties are stated by `ExtractTimestampSpec` and `QuickRejectionIsSound`. |
| DateParser.FormatDate | Utilities/DateParser.cs:104-116 | `FormatDate`. Its properties are stated by `FormatDateSpec`. |
| DateParser.FileNameDateDigits | Utilities/DateParser.cs:34-37 | The regex `\.(txt|log)(\d{8})$` matches exactly when some position holds `.txt`/`.log` in any case, then eight digits, then the end of the name or a final '\n'. The group returned is those eight digits. |
| DateParser.NoDatedExtension | Utilities/DateParser.cs:13 | Because of `$`, a match can only end at the end of the name or before a final '\n'. When neither place holds `.txt`/`.log` and eight digits, the regex fails. |
| DateParser.DatedFileName | Utilities/DateParser.cs:28-54 | A name ending in `.txt`/`.log` and eight digits gives exactly the `DateTime` those digits denote, or null if they are no date. It never falls back to today. |
| DateParser.DatedFileNameRoundTrip | Utilities/DateParser.cs:34-46 | Appending a day's `yyyyMMdd` to a log extension gives a name that parses back to that day. |
| DateParser.InvalidDateSuffix | Utilities/DateParser.cs:44-52 | Eight digits that are no real date (month 13, February 30, year 0) make the result null, even though the name is a log file. |
| DateParser.CurrentFileName | Utilities/DateParser.cs:56-62 | A name ending in `.txt` or `.log`, in any case, is today's file. |
| DateParser.DottedDateSuffix | Utilities/DateParser.cs:57-64 | The dotted form `name.txt.20251214` gives null: it matches neither the date regex nor the extension test. |
| DateParser.WhiteRunSpec | Utilities/DateParser.cs:16-18 | The greedy `\s+` takes the whole run of Unicode white space and stops at the first other character. |
| DateParser.WhiteRunEnds | Utilities/DateParser.cs:16-18 | White space from a position up to a character that is not white space is exactly the run `\s+` takes there. |
| DateParser.MatchSpacedTimeSpec | Utilities/DateParser.cs:16-18 | After the date part, the matcher returns a prefix of the line whose rest is white space then `HH:MM:SS`. Any such prefix is exactly what it returns. |
| DateParser.MatchSpacedTimeSound | Utilities/DateParser.cs:16-18 | What the `\s+\d{2}:\d{2}:\d{2}` part returns is a prefix of the line: the date part, white space, then `HH:MM:SS`. |
| DateParser.MatchSpacedTimeGreedy | Utilities/DateParser.cs:16-18 | Any prefix of that shape is the one the regex returns. Backtracking into `\s+` never yields a different match. |
| DateParser.FirstMatchIsTimestamp | Utilities/DateParser.cs:86-98 | What the first successful regex returns is a prefix of the line with one of the four timestamp shapes. |
| DateParser.TimestampPrefixIsFirstMatch | Utilities/DateParser.cs:83-96 | Any prefix of the line with one of the four shapes is exactly what the regexes, tried in order, return. |
| DateParser.QuickRejectionIsSound | Utilities/DateParser.cs:79-81 | The early return for lines shorter than 4 or not starting with a digit never changes the result. |
| DateParser.ExtractTimestampSpec | Utilities/DateParser.cs:74-99 | The result is a timestamp-shaped prefix of the line. It is null exactly when no prefix has a timestamp shape. At most one prefix has one, so the order of the regexes does not matter. |
| DateParser.FormatDateSpec | Utilities/DateParser.cs:104-116 | null gives "日期未知", today gives "今天", the day before gives "昨天", anything else gives `yyyy-MM-dd`. `AddDays(-1)` throws exactly when today is 0001-01-01 and the date is not today. |
| Dates.ToDaySpec | Services/SearchService.cs:134-138 | `new DateTime(year, month, day)` succeeds for years 1..9999 and months 1..12 exactly when the day fits the month table: 1..28 always, 29 and 30 outside February, 31 in the seven long months, and February 29 in Gregorian leap years only. It gives those fields. |
| Dates.AddDays | ViewModels/MainViewModel.cs:515 | `DateTime.AddDays` for whole days. Its properties are stated by `AddDaysNumber`, `AddDaysTo`, `AddOneDay`, `SubtractOneDay` and `AddDaysCompose`. |
| Dates.AddDaysNumber | Utilities/DateParser.cs:112 | `AddDays(n)` succeeds exactly when the result stays within 0001-01-01..9999-12-31, and it moves the day number by n. |
| Dates.AddDaysTo | ViewModels/MainViewModel.cs:515 | `AddDays(n)` gives the day whose number is n more, and no other day. |
| Dates.AddOneDay | Utilities/DateParser.cs:112 | Adding one day gives the calendar's next day (month and year ends included). It fails only on 9999-12-31. |
| Dates.SubtractOneDay | Utilities/DateParser.cs:112 | `AddDays(-1)` gives the calendar's previous day. It fails exactly on 0001-01-01. |
| Dates.AddDaysCompose | ViewModels/MainViewModel.cs:117 | Moving by m days and then by n is moving by m + n, when the first move stays in range. |
| Dates.DayNumberInjective | Utilities/DateParser.cs:112 | Days with the same day number are the same day, so "昨天" names exactly one day: the day before today. |
| Dates.FromDayNumberRoundTrip | ViewModels/MainViewModel.cs:515 | Every `DateTime` day has a day number in 0..3652058, and converting that number back gives the same day. |
| Dates.DayNumberRange | ViewModels/MainViewModel.cs:515 | Day numbers of valid days lie in 0..3652058. 0 is exactly 0001-01-01 and 3652058 is exactly 9999-12-31. |
| Dates.MaxDayNumberValue | ViewModels/MainViewModel.cs:515 | 9999-12-31, the last day `DateTime` holds, has day number 3652058. |
| Dates.DayOfYearRange | Utilities/DateParser.cs:112 | A day of the year is 0..364, or 0..365 in a leap year. It is 0 exactly on January 1 and is largest exactly on December 31. |
| Dates.DayNumberYearOrder | Utilities/DateParser.cs:112 | Every day of an earlier year has a smaller day number than every day of a later year. |
| Dates.YearStartStep | Utilities/DateParser.cs:112 | A Gregorian year has 366 days when it is divisible by 4 and not by 100, or when it is divisible by 400. Otherwise it has 365. |
| Dates.NextDayNumber | Utilities/DateParser.cs:112 | The calendar's next day has the next day number. |
| Dates.PrevDayNumber | Utilities/DateParser.cs:112 | The calendar's previous day has the previous day number. |
| Dates.CompactDate | Services/IndexService.cs:66 | `ToString("yyyyMMdd")`. Its properties are stated by `CompactDateFields`, `CompactDateOrder`, `CompactDateInjective` and `CompactDateRoundTrip`. |
| Dates.CompactDateFields | Services/IndexService.cs:66 | `ToString("yyyyMMdd")` is eight digits spelling the year, the month and the day. |
| Dates.CompactDateOrder | Services/SearchService.cs:104-113 | Ordinal order of two `yyyyMMdd` strings is calendar order of the days, which is what makes the `FileDate` term range a date range. |
| Dates.CompactDateInjective | Services/IndexService.cs:66 | Different days get different `FileDate` strings. |
| Dates.CompactDateRoundTrip | Services/SearchService.cs:128-136 | Reading year, month and day back from a `yyyyMMdd` string with `int.TryParse` gives the day it was written from. |
| Dates.IsoDateShape | Utilities/DateParser.cs:115 | `ToString("yyyy-MM-dd")` is ten characters: the year, '-', the month, '-', the day. |
| Dates.DateFieldsOfDigits | Utilities/DateParser.cs:39-42 | For eight digits, the three `int.TryParse` calls give the numbers the digit groups denote. |
| Text.TryParseInt32Spec | ViewModels/MainViewModel.cs:507 | `int.TryParse` succeeds exactly when the text is white space, an optionally signed run of digits, then white space, and the number is within the range of `int`. It then gives that number. Any such split of the text gives the same answer. |
| Text.NatToStringInjective | Services/IndexService.cs:94 | Different line indices give different `LineNumber` strings. |
| Text.IntToStringRoundTrip | Services/IndexService.cs:94 | `int.TryParse` reads back the line number `ToString` wrote. |
| Indexing.LineDoc | Services/IndexService.cs:83-108 | The document of one line. Its fields are stated by `LineDocsSpec`, and its well-formedness by `LineDocWellFormed`. |
| Indexing.FileDocs | Services/IndexService.cs:62-112 | The documents of one file. They are stated by `LineDocsSpec` and `LineNumbersDistinct`. |
| Indexing.FilesDocs | Services/IndexService.cs:55-112 | The documents of a run, file after file. `CreateIndexAsync` commits them after the old ones, and `FilesDocsWellFormed` covers them. |
| Indexing.SelectFiles | Services/IndexService.cs:50-53 | The files a run indexes. How it selects them is stated by `SelectFilesSpec` and `SelectFilesOrder`. |
| Indexing.FileDateString | Services/IndexService.cs:65-66 | The `FileDate` field is empty exactly when the name carries no date. |
| Indexing.Names | Services/IndexService.cs:57-58 | The progress reports are the file names of the indexed files, in order. |
| Indexing.IndexStore.constructor | Services/IndexService.cs:36-37 | Before the first run there is no index directory and no commit. |
| Indexing.IndexStore.EnsureExists | Services/IndexService.cs:36-37 | The index directory is created if missing; the committed documents are untouched. |
| Indexing.IndexWriter.constructor | Services/IndexService.cs:43-49 | A writer opened with CREATE_OR_APPEND starts with no pending documents and keeps the old ones. |
| Indexing.IndexWriter.AddDocument | Services/IndexService.cs:110 | Appends one document to the pending ones. |
| Indexing.IndexWriter.Commit | Services/IndexService.cs:120 | The committed documents become the old ones followed by the pending ones. |
| Indexing.IndexService.constructor | Services/IndexService.cs:21-24 | The service works on the index at the configured path. |
| Indexing.IndexService.AddFileDocuments | Services/IndexService.cs:62-112 | The loop over a file's lines adds exactly that file's documents, skipping blank lines but counting them in `lineIndex`. |
| Indexing.IndexService.CreateIndexAsync | Services/IndexService.cs:26-124 | A missing folder throws "Directory not found: " + path and leaves the index alone. Otherwise it commits the old documents followed by those of the selected files in listing order, and reports every selected file. A file whose reading throws keeps the documents of the lines read before, and is logged. The index stays well formed. |
| Indexing.NonBlankIndicesSpec | Services/IndexService.cs:74-80 | The line numbers that get a document are increasing, in range, and exactly those of the non-blank lines. |
| Indexing.LineDocsSpec | Services/IndexService.cs:74-112 | The i-th document of a file is the one for its i-th non-blank line. It carries that line's text, its zero-based index with blank lines counted, the file's date and the line's timestamp. |
| Indexing.LineNumbersDistinct | Services/IndexService.cs:94 | No two documents of one file share a `LineNumber`. |
| Indexing.FileDateOfDatedName | Services/IndexService.cs:65-66 | A dated file's documents carry the `yyyyMMdd` of the date in its name. |
| Indexing.FileDateOfCurrentName | Services/IndexService.cs:65-66 | A current file's documents (`app.log`, `app.TXT`) carry today's `yyyyMMdd`. |
| Indexing.SelectFilesSpec | Services/IndexService.cs:50-53 | A file is indexed exactly when the filter is empty or its name contains the filter, ignoring case. |
| Indexing.SelectFilesOrder | Services/IndexService.cs:50-53 | The selected files are the listing's files at an increasing sequence of positions, each once. Those positions are exactly the ones whose name passes the filter. An empty filter selects the whole listing unchanged. |
| Indexing.LineDocWellFormed | Services/IndexService.cs:83-108 | One line's document has a decimal `LineNumber`, and a `LogTimestamp` that is empty or a timestamp-shaped prefix of its `Content`. |
| Indexing.LineDocsWellFormed | Services/IndexService.cs:83-108 | Each document has a `yyyyMMdd` or empty `FileDate`, a decimal `LineNumber`, and a `LogTimestamp` that is empty or a timestamp-shaped prefix of `Content`. |
| Indexing.FilesDocsWellFormed | Services/IndexService.cs:55-112 | Every document a run adds is well formed. |
| Searching.SearchService.constructor | Services/SearchService.cs:28-31 | A new service has no cached reader. |
| Searching.SearchService.EnsureSearcherInitialized | Services/SearchService.cs:36-61 | With no reader and no directory nothing is opened. Opening a directory without a commit throws. Otherwise the reader sees the last commit, whether it was kept or reopened. |
| Searching.SearchService.SearchAsync | Services/SearchService.cs:63-162 | A blank keyword or a missing index gives an empty list. Otherwise the result is `RunQuery` on the committed documents, with `limit` defaulting to the configured maximum. The exceptions are rethrown. |
| Searching.ComposeQuery | Services/SearchService.cs:94-117 | The keyword query and the optional `FileDate` range. What the range means is stated by `RangeOfDay` and `RangeMeansCalendarDates`. |
| Searching.TopHits | Services/SearchService.cs:119 | `IndexSearcher.Search(q, n)`. Its properties are stated by `TopHitsSpec` and `TopHitsInRange`. |
| Searching.HydrateDate | Services/SearchService.cs:126-140 | Reading `FileDate` back. Its properties are stated by `HydrateCompactDate` and `HydrateIndexedDate`. |
| Searching.RunQuery | Services/SearchService.cs:88-151 | The search once the reader is ready. Its properties are stated by `SearchResultsSpec`, and `SearchAsync` is proved against it. |
| Searching.MatchingIdsSpec | Services/SearchService.cs:119 | The candidate hits are exactly the documents matching the keyword and, if present, the date range, each once, in index order. |
| Searching.TopHitsInRange | Services/SearchService.cs:121-123 | Every hit names a document of the index. |
| Searching.TopHitsSpec | Services/SearchService.cs:119-121 | `Search(q, n)` returns min(n, matches) distinct matching documents, higher scores first, and all of them when there are at most n. |
| Searching.TopHitsOutrank | Services/SearchService.cs:119-121 | The hits are the top-scoring matches: no matching document left out of the hits scores above any document kept. |
| Searching.HydrateAll | Services/SearchService.cs:121-151 | One result per hit, in hit order, each built from that hit's stored fields. |
| Searching.HydrateHits | Services/SearchService.cs:121-151 | The loop over `topDocs.ScoreDocs` yields `HydrateAll` of the hits: one result per hit, in hit order. |
| Searching.HydrateCompactDate | Services/SearchService.cs:126-140 | A stored `yyyyMMdd` hydrates to the day it was written from. |
| Searching.HydrateIndexedDate | Services/SearchService.cs:126-140 | A result's `FileDate` is the date `ParseDateFromFileName` gave its file when it was indexed, and null exactly when it gave none. |
| Searching.RangeMeansCalendarDates | Services/SearchService.cs:94-117 | An indexed line is in the range exactly when its file has a date, on or after the start date if given and on or before the end date if given. Undated files never match a range. |
| Searching.RangeOfDay | Services/SearchService.cs:104-113 | A day's `yyyyMMdd` lies in the term range exactly when the day is on or after the start date and on or before the end date, for each date given. A missing bound is the open end "00000000" or "99999999". |
| Searching.SearchResultsSpec | Services/SearchService.cs:88-151 | A search returns at most `maxResults` results. With a date range, every result has a file date inside it. It fails exactly when the keyword does not parse or `maxResults <= 0`. |
| Ordering.SortDescendingSpec | ViewModels/MainViewModel.cs:167-171 | The sort is a permutation, puts larger keys first, and keeps the input order among equal keys. |
| ViewModels.MainViewModel.constructor | ViewModels/MainViewModel.cs:79-97 | The initial property values, then `LoadSettings`: default folder and filter, the last seven days, and the refreshed options. |
| ViewModels.MainViewModel.LoadSettings | ViewModels/MainViewModel.cs:101-125 | Sets the default folder, the default filter, today as end date, and today-7 as start date, then refreshes the filters. If `AddDays(-7)` throws, the end date is already set and no refresh happens. |
| ViewModels.MainViewModel.Search | ViewModels/MainViewModel.cs:133-219 | A blank keyword changes nothing. Otherwise the search is called with the dates only when the date filter is on. The list becomes the results, newest first when `GroupByDate`, and the count text is set from shown and total. If the service throws, the list stays cleared with "搜尋中...". |
| ViewModels.MainViewModel.CreateIndex | ViewModels/MainViewModel.cs:225-293 | A blank or missing folder changes nothing. Otherwise the index service is called with "" for "全部", the message reports success or "Indexing failed: " + message, and `IsIndexing` ends false. |
| ViewModels.MainViewModel.RefreshFilters | ViewModels/MainViewModel.cs:353-497 | The options are: the folder's file stems, deduplicated ignoring case and sorted; or the settings' options when there are none; with "全部" in front when missing. The selection is then set as `SelectFilter` says. |
| ViewModels.MainViewModel.SetDateRange | ViewModels/MainViewModel.cs:503-521 | Text that is no `int` changes nothing. Otherwise the date filter is enabled and the range runs from today-(days-1) to today. If that start is out of range, the filter and end date are set and the start is kept. |
| ViewModels.RangeStart | ViewModels/MainViewModel.cs:515 | The start of a `days`-day range. Its properties are stated by `RangeStartSpec`. |
| ViewModels.StemMatch | ViewModels/MainViewModel.cs:375-385 | The name group of the stem regex. Its properties are stated by `StemMatchSpec`, `PlainStem` and `DatedAndCurrentFilesShareOption`. |
| ViewModels.FileCandidate | ViewModels/MainViewModel.cs:383-405 | The option one file gives: its stem unless blank, or its name without extension when the regex fails. `CollectNamesSpec` builds on it. |
| ViewModels.CollectNames | ViewModels/MainViewModel.cs:371-407 | The HashSet of names. Its properties are stated by `CollectNamesSpec`. |
| ViewModels.FilterOptions | ViewModels/MainViewModel.cs:361-453 | The options list. Its properties are stated by `FilterOptionsSpec` and `FinishOptionsSpec`. |
| ViewModels.SelectFilter | ViewModels/MainViewModel.cs:473-495 | Step 4, the selected filter. Its properties are stated by `SelectFilterSpec`. |
| ViewModels.Arrange | ViewModels/MainViewModel.cs:167-181 | The list as shown. Its properties are stated by `ArrangeSpec`. |
| ViewModels.CountText | ViewModels/MainViewModel.cs:189-217 | The count text. Its properties are stated by `CountTextSpec`. |
| ViewModels.RangeStartSpec | ViewModels/MainViewModel.cs:515 | The range spans exactly `days` days ending today, and exists exactly when its start is a valid `DateTime`. |
| ViewModels.StemMatchSpec | ViewModels/MainViewModel.cs:375-385 | The name group is the shortest prefix without '\n' after which the optional extension, the optional date and `$` match. The regex fails exactly when no such prefix exists. |
| ViewModels.StemFromSpec | ViewModels/MainViewModel.cs:375 | The lazy group tries names from shortest to longest and stops at the first '\n'. |
| ViewModels.PlainStem | ViewModels/MainViewModel.cs:375-397 | A name without '.', digits or '\n' is its own stem, whatever recognised suffix follows. |
| ViewModels.DatedAndCurrentFilesShareOption | ViewModels/MainViewModel.cs:375-397 | `app`, `app.log`, `app.LOG20251214` and `app.log.20251214` all give the option `app`. |
| ViewModels.DatedFilesShareOption | ViewModels/MainViewModel.cs:375-385 | `app.LOG20251214` and `app.log.20251214` both give the stem `app`. |
| ViewModels.PlainName | ViewModels/MainViewModel.cs:375-385 | A plain name followed by a suffix the rest of the regex accepts matches, and its name group is that plain name. |
| ViewModels.ExtensionTails | ViewModels/MainViewModel.cs:375 | The optional groups accept nothing, an extension, an extension and eight digits, or an extension, '.' and eight digits. |
| ViewModels.LastIndexOf | ViewModels/MainViewModel.cs:403 | `GetFileNameWithoutExtension` cuts at the last '.', if there is one. |
| ViewModels.CollectNamesSpec | ViewModels/MainViewModel.cs:373-407 | The collected names contain no two equal ignoring case. Each is some file's candidate, and every file's candidate is represented. |
| ViewModels.CollectNamesDistinct | ViewModels/MainViewModel.cs:373-405 | The `OrdinalIgnoreCase` HashSet never holds two names that are equal ignoring case. |
| ViewModels.CollectNamesFromFiles | ViewModels/MainViewModel.cs:373-405 | Every collected name is the candidate of some file in the folder. |
| ViewModels.CollectNamesCovers | ViewModels/MainViewModel.cs:373-405 | Every file's candidate is in the set, up to case. |
| ViewModels.FinishOptionsSpec | ViewModels/MainViewModel.cs:425-453 | Steps 2 and 3: with no names from the folder, the settings' options are used, or none when the settings have none. "全部" is then put first unless it is already there. |
| ViewModels.FilterOptionsSpec | ViewModels/MainViewModel.cs:361-453 | The options always contain "全部". The folder's names come in the culture's order, as a permutation of the collected names, with "全部" in front unless already present. With no names from the folder, the options are the settings' options with "全部" in front unless present, or just "全部" when the settings have none. |
| ViewModels.SelectFilterSpec | ViewModels/MainViewModel.cs:473-495 | The selected filter is always an option. The current one is kept when it is one, else the default if it is one, else the first option. |
| ViewModels.DateSortKeyOrder | ViewModels/MainViewModel.cs:169 | The sort key orders results by file date, with null below every date. |
| ViewModels.ArrangeSpec | ViewModels/MainViewModel.cs:167-181 | With `GroupByDate`, the results are newest first, undated ones last, same dates in the service's order. The list is always a permutation of the service's results. |
| ViewModels.CountTextSpec | ViewModels/MainViewModel.cs:189-217 | The count text has the "顯示前" form exactly when the total exceeds the number shown. |

## Left out

- Lucene itself: the query parser, the SmartChinese analyser, tokenisation, scoring and segment
  merges. The model makes them parameters: whether `QueryParser.Parse` accepts the keyword,
  whether the parsed query matches a document (any of its indexed fields), and an integer score.
- Document numbers are positions in the commit order. A Lucene merge policy may renumber
  documents, which changes the order of hits with equal scores.
- `\d`, `char.IsDigit` and regex `IgnoreCase` are modelled on ASCII. .NET also accepts other
  Unicode decimal digits and culture case mappings. For the file-name date this changes
  nothing, because `int.TryParse` rejects non-ASCII digits.
- `StringComparison.OrdinalIgnoreCase` and the `OrdinalIgnoreCase` HashSet fold ASCII letters
  only in the model.
- `names.OrderBy(s => s)` uses the current culture's string comparison. The model takes it as
  a rank function `collation`.
- Dates are `DateTime` values at midnight in the Gregorian calendar. A `DateTime`'s time of day,
  and culture calendars other than the Gregorian, are not modelled.
- `int.TryParse` accepts trailing NUL characters; the model does not.
- The `int` `lineIndex` of `CreateIndexAsync` wraps after 2^31 lines; the model counts without
  bound.
- File contents arrive as the lines `File.ReadLines` delivers. The configured code page, the
  decoder's "?" replacement and the path-to-name function `Path.GetFileName` are not modelled;
  each file is given with its name.
- `Console.WriteLine` logging is modelled as the returned list of failed files. The file names
  `CreateIndexAsync` reports through `progress?.Report` are modelled as its `reports`. What is
  not modelled: message boxes, the `Progress<string>` callback's `"Indexing: " + message`
  updates of `IndexProgressMessage` while the task runs, and `IsIndexing` during the run.
- Failures of the file system and of Lucene other than the ones above are not modelled. These
  include `DirectoryInfo.Create`, `FSDirectory.Open`, opening the `IndexWriter` (for example
  while another writer holds `write.lock`), `Directory.GetFiles` of the log folder and `Commit`,
  each of which can throw out of `CreateIndexAsync`. On the search side they include reader I/O
  errors other than a missing commit, and `OpenIfChanged`. The model's `CreateIndexAsync`
  therefore always succeeds once the folder exists.
- `async`/`await`, `Task.Run`, the searcher's lock and `Dispose` are not modelled; every call
  runs to completion.
- `DateTime.Today` is a parameter and is taken to be the same moment throughout one command.
- `ViewModels.MainViewModel.constructor`: requires that today-7 is a `DateTime`. In the source,
  `LoadSettings` throws out of the constructor on 0001-01-01..0001-01-07. `LoadSettings` itself
  models that error path.
- `OpenLogEntry` (starts an external editor process) and `CustomDate` (only a message box) are
  not modelled.
- Configuration loading (`AppSettings`, `ConfigurationService`) is not modelled. The settings
  arrive as values: `UISettings` and the maximum result count.
- `Searching.MatchingIds`: its own ensures only bounds the ids. What it selects is stated in
  `Searching.MatchingIdsSpec`.
