/**
 * Services/SearchService.cs: SearchAsync parses the keyword against TokenizedContent, adds an
 * inclusive TermRangeQuery on FileDate when a start or end date is given, takes the top hits
 * and turns each stored document back into a SearchResult. The service caches one reader of
 * the index (EnsureSearcherInitialized). What Lucene itself decides (whether the query parser
 * accepts the keyword, whether the parsed query matches a document, the score) is the Engine
 * parameter; documents are numbered by their position in the committed index. The keyword
 * matcher sees the whole document, because the classic query parser accepts field syntax
 * (`LineNumber:5`, `FileDate:20251214`) that matches the stored StringFields as well as the content.
 */
module Searching {
  import opened Wrappers
  import opened Text
  import opened Dates
  import opened Indexing
  import opened Ordering

  datatype DateRange = DateRange(lower: string, upper: string)

  /** The final query: the parsed keyword, and a FileDate range that must also hold. */
  datatype Query = Query(keyword: string, range: Option<DateRange>)

  /** QueryParser.Parse succeeding, the parsed keyword query matching a document (any of its fields), the score of a hit. */
  datatype Engine = Engine(parses: string -> bool, matches: (string, Doc) -> bool, score: (Query, Doc) -> int)

  /** Models/SearchResult.cs. */
  datatype SearchResult = SearchResult(
    fileName: string,
    filePath: string,
    lineNumber: string,
    content: string,
    fileDate: Option<Day>,
    logTimestamp: string)

  datatype SearchError =
    | QueryParseError              // QueryParser.Parse threw; rethrown
    | InvalidHitCount              // IndexSearcher.Search with n <= 0 throws; rethrown
    | IndexNotFound                // DirectoryReader.Open on a directory without a commit; rethrown

  const MinDateTerm: string := "00000000"
  const MaxDateTerm: string := "99999999"

  /** The query of lines 91-117: a range only when at least one date is given, "00000000"/"99999999" for a missing side. */
  function ComposeQuery(keyword: string, startDate: Option<Day>, endDate: Option<Day>): Query {
    if startDate.Some? || endDate.Some? then
      var lower := if startDate.Some? then CompactDate(startDate.value) else MinDateTerm;
      var upper := if endDate.Some? then CompactDate(endDate.value) else MaxDateTerm;
      Query(keyword, Some(DateRange(lower, upper)))
    else Query(keyword, None)
  }

  /** TermRangeQuery with both ends included, in Lucene's term order. */
  predicate InRange(r: DateRange, term: string) {
    OrdinalLe(r.lower, term) && OrdinalLe(term, r.upper)
  }

  predicate Matches(engine: Engine, q: Query, d: Doc) {
    engine.matches(q.keyword, d) && (q.range.None? || InRange(q.range.value, d.fileDate))
  }

  /** The numbers below k of the documents that match, in increasing order. */
  function MatchingIds(engine: Engine, q: Query, docs: seq<Doc>, k: nat): (ids: seq<nat>)
    requires k <= |docs|
    ensures forall i :: 0 <= i < |ids| ==> ids[i] < k
  {
    if k == 0 then []
    else MatchingIds(engine, q, docs, k - 1) + (if Matches(engine, q, docs[k - 1]) then [k - 1] else [])
  }

  /** The score of document `id`, the key hits are ranked by. */
  function ScoreOf(engine: Engine, q: Query, docs: seq<Doc>): nat -> int {
    (id: nat) => if id < |docs| then engine.score(q, docs[id]) else 0
  }

  /** TopDocs.ScoreDocs of Search(q, n): the first n matches by score, earlier documents first among equal scores. */
  function TopHits(engine: Engine, q: Query, docs: seq<Doc>, n: nat): seq<nat> {
    var ranked := SortDescending(MatchingIds(engine, q, docs, |docs|), ScoreOf(engine, q, docs));
    if |ranked| <= n then ranked else ranked[..n]
  }

  /** The FileDate field read back (lines 126-140): eight characters that int.TryParse reads as year, month and day of a real date. */
  function HydrateDate(s: string): Option<Day> {
    if s != "" && |s| == 8 then
      match DateFields(s)
      case Some(fields) => ToDay(fields)
      case None => None
    else None
  }

  function Hydrate(d: Doc): SearchResult {
    SearchResult(d.fileName, d.filePath, d.lineNumber, d.content, HydrateDate(d.fileDate), d.logTimestamp)
  }

  function HydrateAll(docs: seq<Doc>, ids: seq<nat>): (rs: seq<SearchResult>)
    requires forall i :: 0 <= i < |ids| ==> ids[i] < |docs|
    ensures |rs| == |ids| && forall i :: 0 <= i < |ids| ==> rs[i] == Hydrate(docs[ids[i]])
  {
    if ids == [] then [] else HydrateAll(docs, ids[..|ids| - 1]) + [Hydrate(docs[ids[|ids| - 1]])]
  }

  /** Everything after the searcher is ready (lines 88-151), on the documents the reader sees. */
  function RunQuery(engine: Engine, docs: seq<Doc>, keyword: string, maxResults: int,
                    startDate: Option<Day>, endDate: Option<Day>): Result<seq<SearchResult>, SearchError>
  {
    if !engine.parses(keyword) then Err(QueryParseError)
    else if maxResults <= 0 then Err(InvalidHitCount)
    else
      var q := ComposeQuery(keyword, startDate, endDate);
      TopHitsInRange(engine, q, docs, maxResults);
      Ok(HydrateAll(docs, TopHits(engine, q, docs, maxResults)))
  }

  /** The loop that turns each hit's stored fields back into a SearchResult (lines 121-151). */
  method HydrateHits(docs: seq<Doc>, hits: seq<nat>) returns (results: seq<SearchResult>)
    requires forall i :: 0 <= i < |hits| ==> hits[i] < |docs|
    ensures results == HydrateAll(docs, hits)
  {
    results := [];
    var i := 0;
    while i < |hits|
      invariant 0 <= i <= |hits|
      invariant |results| == i && forall k :: 0 <= k < i ==> results[k] == Hydrate(docs[hits[k]])
    {
      var d := docs[hits[i]];
      results := results + [Hydrate(d)];
      i := i + 1;
    }
  }

  class SearchService {
    /** The index at AppSettings' index path, shared with the IndexService. */
    const index: IndexStore
    /** AppSettings.Lucene.MaxSearchResults, 500 unless configured. */
    const maxSearchResults: int
    /** The cached reader and searcher: the committed documents they see, or null. */
    var reader: Option<seq<Doc>>

    constructor(index: IndexStore, maxSearchResults: int)
      ensures this.index == index && this.maxSearchResults == maxSearchResults && reader == None
    {
      this.index := index;
      this.maxSearchResults := maxSearchResults;
      reader := None;
    }

    /**
     * EnsureSearcherInitialized: opens a reader when there is none and the directory exists;
     * otherwise reopens it if the index changed. Either way it then sees the last commit.
     */
    method EnsureSearcherInitialized() returns (r: Outcome<SearchError>)
      modifies this
      ensures old(reader).None? && !index.directoryExists ==> r == Pass && reader == None
      ensures old(reader).None? && index.directoryExists && !index.hasCommit ==> r == Fail(IndexNotFound) && reader == None
      ensures old(reader).Some? || (index.directoryExists && index.hasCommit) ==> r == Pass && reader == Some(index.docs)
    {
      if reader.None? {
        if !index.directoryExists {
          return Pass;
        }
        if !index.hasCommit {
          return Fail(IndexNotFound);
        }
        reader := Some(index.docs);
      } else {
        // OpenIfChanged: a new reader on the last commit if it changed, else the old one, which sees it already
        reader := Some(index.docs);
      }
      r := Pass;
    }

    /** SearchAsync(keyword, limit, startDate, endDate). */
    method SearchAsync(engine: Engine, keyword: string, limit: Option<int>, startDate: Option<Day>, endDate: Option<Day>)
      returns (r: Result<seq<SearchResult>, SearchError>)
      modifies this
      ensures IsBlank(keyword) || !index.directoryExists ==> r == Ok([]) && reader == old(reader)
      ensures !IsBlank(keyword) && index.directoryExists && old(reader).None? && !index.hasCommit ==>
        r == Err(IndexNotFound) && reader == None
      ensures !IsBlank(keyword) && index.directoryExists && (old(reader).Some? || index.hasCommit) ==>
        reader == Some(index.docs)
        && r == RunQuery(engine, index.docs, keyword, limit.GetOr(maxSearchResults), startDate, endDate)
    {
      if IsBlank(keyword) {
        return Ok([]);
      }
      var maxResults := limit.GetOr(maxSearchResults);
      if !index.directoryExists {
        return Ok([]);
      }
      var init := EnsureSearcherInitialized();
      if init.Fail? {
        return Err(init.error);
      }
      var docs := reader.value;
      if !engine.parses(keyword) {
        return Err(QueryParseError);
      }
      var q := ComposeQuery(keyword, startDate, endDate);
      if maxResults <= 0 {
        return Err(InvalidHitCount);
      }
      var hits := TopHits(engine, q, docs, maxResults);
      TopHitsInRange(engine, q, docs, maxResults);
      var results := HydrateHits(docs, hits);
      r := Ok(results);
    }
  }

  // ===== properties =====

  predicate Increasing(ids: seq<nat>) {
    forall a, b :: 0 <= a < b < |ids| ==> ids[a] < ids[b]
  }

  predicate Below(ids: seq<nat>, bound: nat) {
    forall i :: 0 <= i < |ids| ==> ids[i] < bound
  }

  predicate Distinct(ids: seq<nat>) {
    forall a, b :: 0 <= a < b < |ids| ==> ids[a] != ids[b]
  }

  /** Every id names a document of the index that matches the query. */
  predicate AllMatch(engine: Engine, q: Query, docs: seq<Doc>, ids: seq<nat>) {
    forall i :: 0 <= i < |ids| ==> ids[i] < |docs| && Matches(engine, q, docs[ids[i]])
  }

  /** Every id names a document of the index, and higher scores come first. */
  predicate ScoreOrdered(engine: Engine, q: Query, docs: seq<Doc>, ids: seq<nat>) {
    forall a, b :: 0 <= a < b < |ids| ==>
      ids[a] < |docs| && ids[b] < |docs| && engine.score(q, docs[ids[a]]) >= engine.score(q, docs[ids[b]])
  }

  lemma {:induction false} MatchingIdsIncreasing(engine: Engine, q: Query, docs: seq<Doc>, k: nat)
    requires k <= |docs|
    ensures Increasing(MatchingIds(engine, q, docs, k))
  {
    if k > 0 {
      MatchingIdsIncreasing(engine, q, docs, k - 1);
      var p := MatchingIds(engine, q, docs, k - 1);
      var ids := MatchingIds(engine, q, docs, k);
      assert ids == p + (if Matches(engine, q, docs[k - 1]) then [k - 1] else []);
      forall a, b | 0 <= a < b < |ids| ensures ids[a] < ids[b] {
        if b >= |p| { assert ids[a] == p[a] && ids[b] == k - 1; }
        else { assert ids[a] == p[a] && ids[b] == p[b]; }
      }
    }
  }

  /** The matching documents are exactly those that match, each once, in index order. */
  lemma {:induction false} MatchingIdsSpec(engine: Engine, q: Query, docs: seq<Doc>, k: nat)
    requires k <= |docs|
    ensures Increasing(MatchingIds(engine, q, docs, k))
    ensures forall j :: 0 <= j < k ==> (j in MatchingIds(engine, q, docs, k) <==> Matches(engine, q, docs[j]))
  {
    MatchingIdsIncreasing(engine, q, docs, k);
    if k > 0 {
      MatchingIdsSpec(engine, q, docs, k - 1);
    }
  }

  lemma TopHitsInRange(engine: Engine, q: Query, docs: seq<Doc>, n: nat)
    ensures forall i :: 0 <= i < |TopHits(engine, q, docs, n)| ==> TopHits(engine, q, docs, n)[i] < |docs|
  {
    var ids := MatchingIds(engine, q, docs, |docs|);
    SortDescendingSpec(ids, ScoreOf(engine, q, docs));
    var ranked := SortDescending(ids, ScoreOf(engine, q, docs));
    forall i | 0 <= i < |ranked| ensures ranked[i] < |docs| {
      assert ranked[i] in multiset(ids);
    }
  }

  /**
   * The top hits: at most n of them, and all of the matches when there are no more than n;
   * each a matching document, none twice, higher scores first.
   */
  lemma TopHitsSpec(engine: Engine, q: Query, docs: seq<Doc>, n: nat)
    ensures |TopHits(engine, q, docs, n)| == Min(|MatchingIds(engine, q, docs, |docs|)|, n)
    ensures |MatchingIds(engine, q, docs, |docs|)| <= n ==>
      multiset(TopHits(engine, q, docs, n)) == multiset(MatchingIds(engine, q, docs, |docs|))
    ensures AllMatch(engine, q, docs, TopHits(engine, q, docs, n))
    ensures Distinct(TopHits(engine, q, docs, n))
    ensures ScoreOrdered(engine, q, docs, TopHits(engine, q, docs, n))
  {
    var ids := MatchingIds(engine, q, docs, |docs|);
    var key := ScoreOf(engine, q, docs);
    MatchingIdsSpec(engine, q, docs, |docs|);
    RankedIds(ids, key, |docs|);
    var ranked := SortDescending(ids, key);
    TopHitsMatch(engine, q, docs, ids, ranked, n);
    TopHitsOrdered(engine, q, docs, ranked, n);
  }

  /** The hits are the top ones: no matching document left out scores above a document kept. */
  lemma TopHitsOutrank(engine: Engine, q: Query, docs: seq<Doc>, n: nat)
    ensures forall j, i ::
      (j in MatchingIds(engine, q, docs, |docs|) && j !in TopHits(engine, q, docs, n) && 0 <= i < |TopHits(engine, q, docs, n)|) ==>
      ScoreOf(engine, q, docs)(j) <= ScoreOf(engine, q, docs)(TopHits(engine, q, docs, n)[i])
  {
    var ids := MatchingIds(engine, q, docs, |docs|);
    var key := ScoreOf(engine, q, docs);
    SortDescendingSpec(ids, key);
    var ranked := SortDescending(ids, key);
    var top := TopHits(engine, q, docs, n);
    forall j, i | j in ids && j !in top && 0 <= i < |top| ensures key(j) <= key(top[i]) {
      assert j in multiset(ranked);
      var k :| 0 <= k < |ranked| && ranked[k] == j;
      assert top[i] == ranked[i];
    }
  }

  /** A prefix of the ranked matches is made of matching documents. */
  lemma TopHitsMatch(engine: Engine, q: Query, docs: seq<Doc>, ids: seq<nat>, ranked: seq<nat>, n: nat)
    requires Below(ids, |docs|) && forall j :: 0 <= j < |docs| ==> (j in ids <==> Matches(engine, q, docs[j]))
    requires forall i :: 0 <= i < |ranked| ==> ranked[i] in ids
    ensures AllMatch(engine, q, docs, if |ranked| <= n then ranked else ranked[..n])
  {
    var top := if |ranked| <= n then ranked else ranked[..n];
    forall i | 0 <= i < |top| ensures top[i] < |docs| && Matches(engine, q, docs[top[i]]) {
      assert top[i] == ranked[i] && ranked[i] in ids;
    }
  }

  /** A prefix of the ranking by score is ranked by score, none twice. */
  lemma TopHitsOrdered(engine: Engine, q: Query, docs: seq<Doc>, ranked: seq<nat>, n: nat)
    requires Below(ranked, |docs|) && Distinct(ranked) && Descending(ranked, ScoreOf(engine, q, docs))
    ensures Distinct(if |ranked| <= n then ranked else ranked[..n])
    ensures ScoreOrdered(engine, q, docs, if |ranked| <= n then ranked else ranked[..n])
  {
    var top := if |ranked| <= n then ranked else ranked[..n];
    var key := ScoreOf(engine, q, docs);
    forall a, b | 0 <= a < b < |top|
      ensures top[a] != top[b] && top[a] < |docs| && top[b] < |docs|
      ensures engine.score(q, docs[top[a]]) >= engine.score(q, docs[top[b]])
    {
      assert top[a] == ranked[a] && top[b] == ranked[b];
      assert key(ranked[a]) >= key(ranked[b]);
    }
  }

  function Min(a: int, b: int): int { if a <= b then a else b }

  /** Ranking a strictly increasing list of ids below `bound` gives each of them once, larger keys first. */
  lemma RankedIds(ids: seq<nat>, key: nat -> int, bound: nat)
    requires Increasing(ids)
    requires Below(ids, bound)
    ensures |SortDescending(ids, key)| == |ids|
    ensures multiset(SortDescending(ids, key)) == multiset(ids)
    ensures forall i :: 0 <= i < |SortDescending(ids, key)| ==> SortDescending(ids, key)[i] in ids
    ensures Below(SortDescending(ids, key), bound)
    ensures Distinct(SortDescending(ids, key))
    ensures Descending(SortDescending(ids, key), key)
  {
    SortDescendingSpec(ids, key);
    var ranked := SortDescending(ids, key);
    forall i | 0 <= i < |ranked| ensures ranked[i] in ids && ranked[i] < bound {
      assert ranked[i] in multiset(ranked);
    }
    forall i, j | 0 <= i < j < |ranked| ensures ranked[i] != ranked[j] {
      DistinctInMultiset(ids, ranked, i, j);
    }
  }

  lemma DistinctInMultiset(ids: seq<nat>, ranked: seq<nat>, i: nat, j: nat)
    requires Increasing(ids)
    requires multiset(ranked) == multiset(ids) && i < j < |ranked|
    ensures ranked[i] != ranked[j]
  {
    if ranked[i] == ranked[j] {
      var x := ranked[i];
      assert multiset(ranked)[x] >= 2 by {
        assert ranked == ranked[..i] + [x] + ranked[i + 1..j] + [x] + ranked[j + 1..];
      }
      CountAtMostOne(ids, x);
    }
  }

  lemma {:induction false} CountAtMostOne(ids: seq<nat>, x: nat)
    requires Increasing(ids)
    ensures multiset(ids)[x] <= 1
  {
    if ids != [] {
      var p := ids[..|ids| - 1];
      assert ids == p + [ids[|ids| - 1]];
      assert Increasing(p) by {
        forall a, b | 0 <= a < b < |p| ensures p[a] < p[b] { assert p[a] == ids[a] && p[b] == ids[b]; }
      }
      CountAtMostOne(p, x);
      if x == ids[|ids| - 1] {
        assert x !in p by {
          forall k | 0 <= k < |p| ensures p[k] != x { assert p[k] == ids[k]; }
        }
      }
    }
  }

  /** The eight characters the index writes for a day read back as that day. */
  lemma HydrateCompactDate(d: Day)
    ensures HydrateDate(CompactDate(d)) == Some(d)
  {
    CompactDateRoundTrip(d);
  }

  /** What SearchAsync reports as FileDate is the date ParseDateFromFileName gave the file when it was indexed. */
  lemma HydrateIndexedDate(name: string, today: Day)
    ensures HydrateDate(FileDateString(name, today)) == DateParser.ParseDateFromFileName(name, today)
  {
    match DateParser.ParseDateFromFileName(name, today)
    case Some(d) => HydrateCompactDate(d);
    case None =>
  }

  /**
   * The date range in calendar terms: an indexed document is inside the range composed from
   * startDate and endDate exactly when its file has a date, on or after startDate if one is
   * given and on or before endDate if one is given. Undated files are never in a range.
   */
  lemma RangeMeansCalendarDates(d: Doc, startDate: Option<Day>, endDate: Option<Day>)
    requires WellFormedFileDate(d.fileDate) && (startDate.Some? || endDate.Some?)
    ensures InRange(ComposeQuery("", startDate, endDate).range.value, d.fileDate) <==>
        HydrateDate(d.fileDate).Some?
        && (startDate.None? || DayLe(startDate.value, HydrateDate(d.fileDate).value))
        && (endDate.None? || DayLe(HydrateDate(d.fileDate).value, endDate.value))
  {
    if d.fileDate != "" {
      var day: Day :| d.fileDate == CompactDate(day);
      HydrateCompactDate(day);
      RangeOfDay(day, startDate, endDate);
    } else {
      assert |ComposeQuery("", startDate, endDate).range.value.lower| == 8;
    }
  }

  /** The term range holds a day's yyyyMMdd exactly when the day lies between the dates given. */
  lemma RangeOfDay(day: Day, startDate: Option<Day>, endDate: Option<Day>)
    requires startDate.Some? || endDate.Some?
    ensures InRange(ComposeQuery("", startDate, endDate).range.value, CompactDate(day)) <==>
        (startDate.None? || DayLe(startDate.value, day)) && (endDate.None? || DayLe(day, endDate.value))
  {
    var t := CompactDate(day);
    if startDate.Some? { CompactDateOrder(startDate.value, day); }
    else { OrdinalLePointwise(MinDateTerm, t); }
    if endDate.Some? { CompactDateOrder(day, endDate.value); }
    else { OrdinalLePointwise(t, MaxDateTerm); }
  }

  /** Every result has a file date, on or after startDate if given and on or before endDate if given. */
  predicate DatesWithin(rs: seq<SearchResult>, startDate: Option<Day>, endDate: Option<Day>) {
    forall i :: 0 <= i < |rs| ==>
      rs[i].fileDate.Some?
      && (startDate.None? || DayLe(startDate.value, rs[i].fileDate.value))
      && (endDate.None? || DayLe(rs[i].fileDate.value, endDate.value))
  }

  /**
   * A successful search returns the hydrated top hits, at most maxResults of them; with a date
   * range every result has a file date inside it, provided the index holds what the IndexService writes.
   */
  lemma SearchResultsSpec(engine: Engine, docs: seq<Doc>, keyword: string, maxResults: int,
                          startDate: Option<Day>, endDate: Option<Day>)
    requires AllWellFormed(docs)
    ensures RunQuery(engine, docs, keyword, maxResults, startDate, endDate).Ok? ==>
      |RunQuery(engine, docs, keyword, maxResults, startDate, endDate).value| <= maxResults
    ensures RunQuery(engine, docs, keyword, maxResults, startDate, endDate).Ok? && (startDate.Some? || endDate.Some?) ==>
      DatesWithin(RunQuery(engine, docs, keyword, maxResults, startDate, endDate).value, startDate, endDate)
    ensures RunQuery(engine, docs, keyword, maxResults, startDate, endDate).Err? <==> !engine.parses(keyword) || maxResults <= 0
  {
    if engine.parses(keyword) && maxResults > 0 {
      var q := ComposeQuery(keyword, startDate, endDate);
      TopHitsSpec(engine, q, docs, maxResults);
      var top := TopHits(engine, q, docs, maxResults);
      var rs := HydrateAll(docs, top);
      forall i | 0 <= i < |rs| && (startDate.Some? || endDate.Some?)
        ensures rs[i].fileDate.Some?
          && (startDate.None? || DayLe(startDate.value, rs[i].fileDate.value))
          && (endDate.None? || DayLe(rs[i].fileDate.value, endDate.value))
      {
        var d := docs[top[i]];
        RangeMeansCalendarDates(d, startDate, endDate);
        assert ComposeQuery("", startDate, endDate).range == q.range;
      }
    }
  }
}
