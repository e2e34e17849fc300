/**
 * Services/IndexService.cs: CreateIndexAsync walks the files of a folder, keeps those whose
 * name contains the filter keyword, and adds one Lucene document per non-blank line to the
 * index, which it commits at the end. The on-disk index is the class IndexStore; the writer
 * buffers documents until Commit. A file is given by its path, its name (Path.GetFileName),
 * the lines File.ReadLines delivers, and whether reading it threw after those lines.
 */
module Indexing {
  import opened Wrappers
  import opened Text
  import opened Dates
  import opened DateParser

  /** The stored fields of one indexed line; TokenizedContent indexes the text of Content. */
  datatype Doc = Doc(
    fileName: string,
    filePath: string,
    lineNumber: string,
    content: string,
    fileDate: string,
    logTimestamp: string)

  /** A file of the folder: the lines read before the end of the file, or before reading threw. */
  datatype LogFile = LogFile(path: string, name: string, lines: seq<string>, readError: bool)

  datatype IndexError = DirectoryNotFound(message: string)

  /** The FileDate field: yyyyMMdd of the date in the file name, or "" when there is none. */
  function FileDateString(name: string, today: Day): (s: string)
    ensures s == "" <==> ParseDateFromFileName(name, today).None?
  {
    match ParseDateFromFileName(name, today)
    case Some(d) => CompactDate(d)
    case None => ""
  }

  /** The document for line number `index` (zero-based, blank lines counted) of a file. */
  function LineDoc(f: LogFile, fileDate: string, index: nat): Doc
    requires index < |f.lines|
  {
    Doc(f.name, f.path, NatToString(index), f.lines[index], fileDate,
        ExtractTimestampFromLog(f.lines[index]).GetOr(""))
  }

  /** The documents of the first k lines of a file: one per line that is not blank. */
  function LineDocs(f: LogFile, fileDate: string, k: nat): seq<Doc>
    requires k <= |f.lines|
  {
    if k == 0 then []
    else LineDocs(f, fileDate, k - 1)
         + (if IsBlank(f.lines[k - 1]) then [] else [LineDoc(f, fileDate, k - 1)])
  }

  lemma LineDocsStep(f: LogFile, fileDate: string, k: nat)
    requires k < |f.lines|
    ensures LineDocs(f, fileDate, k + 1)
         == LineDocs(f, fileDate, k) + (if IsBlank(f.lines[k]) then [] else [LineDoc(f, fileDate, k)])
  {
  }

  function FileDocs(f: LogFile, today: Day): seq<Doc> {
    LineDocs(f, FileDateString(f.name, today), |f.lines|)
  }

  /** The documents of a sequence of files, in order. */
  function FilesDocs(files: seq<LogFile>, today: Day): seq<Doc> {
    if files == [] then [] else FilesDocs(files[..|files| - 1], today) + FileDocs(files[|files| - 1], today)
  }

  /** The files that are indexed: all of them for an empty filter, else those whose name contains it, ignoring case. */
  function SelectFiles(files: seq<LogFile>, filter: string): seq<LogFile> {
    if filter == "" then files
    else if files == [] then []
    else
      SelectFiles(files[..|files| - 1], filter)
      + (if ContainsIgnoreCase(files[|files| - 1].name, filter) then [files[|files| - 1]] else [])
  }

  function Names(files: seq<LogFile>): (names: seq<string>)
    ensures |names| == |files| && forall i :: 0 <= i < |files| ==> names[i] == files[i].name
  {
    if files == [] then [] else Names(files[..|files| - 1]) + [files[|files| - 1].name]
  }

  /** What one more file adds to the documents, the reports and the failures. */
  lemma FilesStep(files: seq<LogFile>, i: nat, today: Day)
    requires i < |files|
    ensures FilesDocs(files[..i + 1], today) == FilesDocs(files[..i], today) + FileDocs(files[i], today)
    ensures Names(files[..i + 1]) == Names(files[..i]) + [files[i].name]
    ensures FailedNames(files[..i + 1]) == FailedNames(files[..i]) + (if files[i].readError then [files[i].name] else [])
  {
    assert files[..i + 1][..i] == files[..i];
  }

  /** The names of the files whose reading threw, for which the source writes "Error indexing". */
  function FailedNames(files: seq<LogFile>): seq<string> {
    if files == [] then []
    else FailedNames(files[..|files| - 1]) + (if files[|files| - 1].readError then [files[|files| - 1].name] else [])
  }

  /** A FileDate field as the indexer writes it: empty, or the yyyyMMdd of some day. */
  ghost predicate WellFormedFileDate(s: string) {
    s == "" || exists day: Day :: s == CompactDate(day)
  }

  /** What every stored document satisfies: a yyyyMMdd date or "", a decimal line number, a timestamp or "". */
  ghost predicate WellFormedDoc(d: Doc) {
    WellFormedFileDate(d.fileDate)
    && |d.lineNumber| > 0 && AllDigits(d.lineNumber)
    && (d.logTimestamp == "" || (IsTimestamp(d.logTimestamp) && |d.logTimestamp| <= |d.content|
                                 && d.logTimestamp == d.content[..|d.logTimestamp|]))
  }

  ghost predicate AllWellFormed(docs: seq<Doc>) {
    forall i :: 0 <= i < |docs| ==> WellFormedDoc(docs[i])
  }

  /** The Lucene index directory. `docs` are the documents of the last commit. */
  class IndexStore {
    var directoryExists: bool
    var hasCommit: bool
    var docs: seq<Doc>

    ghost predicate Valid()
      reads this
    {
      (hasCommit ==> directoryExists) && (!hasCommit ==> docs == []) && AllWellFormed(docs)
    }

    /** An index directory that has not been created yet. */
    constructor()
      ensures Valid() && !directoryExists && !hasCommit && docs == []
    {
      directoryExists, hasCommit, docs := false, false, [];
    }

    /** DirectoryInfo.Create when the directory is missing. */
    method EnsureExists()
      modifies this
      ensures directoryExists && hasCommit == old(hasCommit) && docs == old(docs)
    {
      directoryExists := true;
    }
  }

  /** An IndexWriter opened on a store with OpenMode.CREATE_OR_APPEND: it keeps the old documents. */
  class IndexWriter {
    const store: IndexStore
    var pending: seq<Doc>

    constructor(store: IndexStore)
      ensures this.store == store && pending == []
    {
      this.store := store;
      pending := [];
    }

    method AddDocument(doc: Doc)
      modifies this
      ensures pending == old(pending) + [doc]
    {
      pending := pending + [doc];
    }

    /** The committed documents become the old ones followed by the added ones. */
    method Commit()
      requires store.directoryExists
      modifies store
      ensures store.docs == old(store.docs) + pending && store.hasCommit && store.directoryExists
    {
      store.docs := store.docs + pending;
      store.hasCommit := true;
    }
  }

  class IndexService {
    /** The index at AppSettings' index path. */
    const store: IndexStore

    constructor(store: IndexStore)
      ensures this.store == store
    {
      this.store := store;
    }

    /** The body of the foreach over one file: a document per non-blank line, blank lines counted in lineIndex. */
    method AddFileDocuments(writer: IndexWriter, f: LogFile, today: Day)
      modifies writer
      ensures writer.pending == old(writer.pending) + FileDocs(f, today)
    {
      ghost var start := writer.pending;
      var fileDate := FileDateString(f.name, today);
      var lineIndex := 0;
      while lineIndex < |f.lines|
        invariant 0 <= lineIndex <= |f.lines|
        invariant writer.pending == start + LineDocs(f, fileDate, lineIndex)
      {
        var line := f.lines[lineIndex];
        LineDocsStep(f, fileDate, lineIndex);
        if IsBlank(line) {
          lineIndex := lineIndex + 1;
          continue;
        }
        var timestamp := ExtractTimestampFromLog(line);
        var doc := Doc(f.name, f.path, NatToString(lineIndex), line, fileDate, timestamp.GetOr(""));
        assert doc == LineDoc(f, fileDate, lineIndex);
        ghost var before := LineDocs(f, fileDate, lineIndex);
        writer.AddDocument(doc);
        assert writer.pending == start + (before + [doc]);
        lineIndex := lineIndex + 1;
      }
    }

    /**
     * CreateIndexAsync. `folder` is None when Directory.Exists(folderPath) is false, else the
     * files Directory.GetFiles lists, in its order. Returns the file names reported to the
     * progress callback and the names of the files whose reading threw.
     */
    method CreateIndexAsync(folderPath: string, folder: Option<seq<LogFile>>, fileFilterKeyword: string, today: Day)
      returns (r: Outcome<IndexError>, reports: seq<string>, failures: seq<string>)
      requires store.Valid()
      modifies store
      ensures store.Valid()
      ensures folder.None? ==>
        r == Fail(DirectoryNotFound("Directory not found: " + folderPath))
        && reports == [] && failures == [] && unchanged(store)
      ensures folder.Some? ==>
        var targets := SelectFiles(folder.value, fileFilterKeyword);
        r == Pass && store.directoryExists && store.hasCommit
        && store.docs == old(store.docs) + FilesDocs(targets, today)
        && reports == Names(targets) && failures == FailedNames(targets)
    {
      if folder.None? {
        return Fail(DirectoryNotFound("Directory not found: " + folderPath)), [], [];
      }
      store.EnsureExists();
      var writer := new IndexWriter(store);
      var targets := SelectFiles(folder.value, fileFilterKeyword);
      reports, failures := [], [];
      var i := 0;
      while i < |targets|
        invariant 0 <= i <= |targets|
        invariant writer.store == store && writer.pending == FilesDocs(targets[..i], today)
        invariant reports == Names(targets[..i]) && failures == FailedNames(targets[..i])
        invariant store.directoryExists && store.hasCommit == old(store.hasCommit) && store.docs == old(store.docs)
      {
        var f := targets[i];
        FilesStep(targets, i, today);
        reports := reports + [f.name];
        AddFileDocuments(writer, f, today);
        if f.readError {
          failures := failures + [f.name];
        }
        i := i + 1;
      }
      assert targets[..i] == targets;
      FilesDocsWellFormed(targets, today);
      AllWellFormedConcat(store.docs, writer.pending);
      writer.Commit();
      r := Pass;
    }
  }

  // ===== properties =====

  /** The line numbers that get a document among the first k lines, in increasing order. */
  function NonBlankIndices(lines: seq<string>, k: nat): seq<nat>
    requires k <= |lines|
  {
    if k == 0 then [] else NonBlankIndices(lines, k - 1) + (if IsBlank(lines[k - 1]) then [] else [k - 1])
  }

  /** idx is increasing, below k, and holds exactly the indices of the first k lines that are not blank. */
  predicate NonBlankAmong(lines: seq<string>, k: nat, idx: seq<nat>)
    requires k <= |lines|
  {
    (forall a, b :: 0 <= a < b < |idx| ==> idx[a] < idx[b])
    && (forall a :: 0 <= a < |idx| ==> idx[a] < k)
    && (forall j :: 0 <= j < k ==> (j in idx <==> !IsBlank(lines[j])))
  }

  lemma {:induction false} NonBlankIndicesSpec(lines: seq<string>, k: nat)
    requires k <= |lines|
    ensures NonBlankAmong(lines, k, NonBlankIndices(lines, k))
  {
    if k > 0 {
      NonBlankIndicesSpec(lines, k - 1);
    }
  }

  /** docs[i] is the document of line idx[i], for every i. */
  predicate DocsOfLines(f: LogFile, fileDate: string, docs: seq<Doc>, idx: seq<nat>) {
    |docs| == |idx| && forall i :: 0 <= i < |idx| ==> idx[i] < |f.lines| && docs[i] == LineDoc(f, fileDate, idx[i])
  }

  /**
   * One document per non-blank line, in line order: the i-th document of a file is the one for
   * its i-th non-blank line, numbered by that line's zero-based index with blank lines counted.
   */
  lemma {:induction false} LineDocsSpec(f: LogFile, fileDate: string, k: nat)
    requires k <= |f.lines|
    ensures DocsOfLines(f, fileDate, LineDocs(f, fileDate, k), NonBlankIndices(f.lines, k))
  {
    if k > 0 {
      LineDocsSpec(f, fileDate, k - 1);
      var docs, idx := LineDocs(f, fileDate, k - 1), NonBlankIndices(f.lines, k - 1);
      if !IsBlank(f.lines[k - 1]) {
        var d := LineDoc(f, fileDate, k - 1);
        assert LineDocs(f, fileDate, k) == docs + [d];
        assert NonBlankIndices(f.lines, k) == idx + [k - 1];
        assert forall i :: 0 <= i < |idx| ==> (docs + [d])[i] == docs[i] && (idx + [k - 1])[i] == idx[i];
      }
    }
  }

  /** Within a file the stored line numbers are all different. */
  lemma LineNumbersDistinct(f: LogFile, today: Day, a: nat, b: nat)
    requires a < b < |FileDocs(f, today)|
    ensures FileDocs(f, today)[a].lineNumber != FileDocs(f, today)[b].lineNumber
  {
    var date := FileDateString(f.name, today);
    LineDocsSpec(f, date, |f.lines|);
    NonBlankIndicesSpec(f.lines, |f.lines|);
    var idx := NonBlankIndices(f.lines, |f.lines|);
    if NatToString(idx[a]) == NatToString(idx[b]) {
      NatToStringInjective(idx[a], idx[b]);
    }
  }

  /** The documents of a dated file carry the date of its name as yyyyMMdd. */
  lemma FileDateOfDatedName(prefix: string, ext: string, d: Day, today: Day)
    requires IsLogExtension(ext) && |ext| == 4
    ensures FileDateString(prefix + ext + CompactDate(d), today) == CompactDate(d)
  {
    DatedFileNameRoundTrip(prefix, ext, d, today);
  }

  /** The documents of a current file ("app.log", "app.TXT") carry today's date as yyyyMMdd. */
  lemma FileDateOfCurrentName(name: string, today: Day)
    requires IsCurrentFileName(name)
    ensures FileDateString(name, today) == CompactDate(today)
  {
    CurrentFileName(name, today);
  }

  /** A file is indexed exactly when the filter is empty or its name contains it, ignoring case; order is kept. */
  lemma {:induction false} SelectFilesSpec(files: seq<LogFile>, filter: string)
    ensures forall f :: f in SelectFiles(files, filter) <==> f in files && (filter == "" || ContainsIgnoreCase(f.name, filter))
    ensures |SelectFiles(files, filter)| <= |files|
  {
    if filter != "" && files != [] {
      SelectFilesSpec(files[..|files| - 1], filter);
      assert files == files[..|files| - 1] + [files[|files| - 1]];
    }
  }

  /** The filter test of lines 51-53: no filter, or the name contains it ignoring case. */
  predicate Selected(f: LogFile, filter: string) {
    filter == "" || ContainsIgnoreCase(f.name, filter)
  }

  /** The positions in the listing of the files that are indexed, in increasing order. */
  function SelectedIndices(files: seq<LogFile>, filter: string): seq<nat> {
    if files == [] then []
    else SelectedIndices(files[..|files| - 1], filter) + (if Selected(files[|files| - 1], filter) then [|files| - 1] else [])
  }

  /** idx is increasing and holds exactly the positions of the files the filter keeps. */
  predicate SelectedAmong(files: seq<LogFile>, filter: string, idx: seq<nat>) {
    (forall a, b :: 0 <= a < b < |idx| ==> idx[a] < idx[b])
    && (forall a :: 0 <= a < |idx| ==> idx[a] < |files|)
    && (forall j :: 0 <= j < |files| ==> (j in idx <==> Selected(files[j], filter)))
  }

  /** sel is files[idx[0]], files[idx[1]], ... */
  predicate PicksOf(files: seq<LogFile>, sel: seq<LogFile>, idx: seq<nat>) {
    |sel| == |idx| && forall i :: 0 <= i < |idx| ==> idx[i] < |files| && sel[i] == files[idx[i]]
  }

  lemma SelectFilesStep(files: seq<LogFile>, filter: string)
    requires files != []
    ensures SelectFiles(files, filter)
         == SelectFiles(files[..|files| - 1], filter) + (if Selected(files[|files| - 1], filter) then [files[|files| - 1]] else [])
  {
    if filter == "" {
      assert files == files[..|files| - 1] + [files[|files| - 1]];
    }
  }

  /**
   * The selection keeps the listing order of Directory.GetFiles: it is the subsequence of the
   * files at the positions the filter keeps, each once, and all of the files for an empty filter.
   */
  lemma SelectFilesOrder(files: seq<LogFile>, filter: string)
    ensures SelectedAmong(files, filter, SelectedIndices(files, filter))
    ensures PicksOf(files, SelectFiles(files, filter), SelectedIndices(files, filter))
    ensures filter == "" ==> SelectFiles(files, filter) == files
  {
    SelectedIndicesSpec(files, filter);
    SelectFilesPicks(files, filter);
  }

  lemma {:induction false} SelectedIndicesSpec(files: seq<LogFile>, filter: string)
    ensures SelectedAmong(files, filter, SelectedIndices(files, filter))
  {
    if files != [] {
      var n := |files|;
      var p := files[..n - 1];
      SelectedIndicesSpec(p, filter);
      var idxP, idx := SelectedIndices(p, filter), SelectedIndices(files, filter);
      assert forall i :: 0 <= i < |idxP| ==> idx[i] == idxP[i];
      forall j | 0 <= j < n ensures j in idx <==> Selected(files[j], filter) {
        if j < n - 1 {
          assert files[j] == p[j];
          assert j in idx <==> j in idxP;
        } else {
          assert n - 1 !in idxP;
        }
      }
    }
  }

  lemma {:induction false} SelectFilesPicks(files: seq<LogFile>, filter: string)
    ensures PicksOf(files, SelectFiles(files, filter), SelectedIndices(files, filter))
  {
    if files != [] {
      var n := |files|;
      var p := files[..n - 1];
      SelectFilesPicks(p, filter);
      SelectFilesStep(files, filter);
      var idxP, selP := SelectedIndices(p, filter), SelectFiles(p, filter);
      var idx, sel := SelectedIndices(files, filter), SelectFiles(files, filter);
      forall i | 0 <= i < |idx| ensures idx[i] < n && sel[i] == files[idx[i]] {
        if i < |idxP| {
          assert idx[i] == idxP[i] && sel[i] == selP[i] && files[idxP[i]] == p[idxP[i]];
        }
      }
    }
  }

  lemma {:induction false} LineDocsWellFormed(f: LogFile, fileDate: string, k: nat)
    requires k <= |f.lines|
    requires WellFormedFileDate(fileDate)
    ensures AllWellFormed(LineDocs(f, fileDate, k))
  {
    if k > 0 {
      LineDocsWellFormed(f, fileDate, k - 1);
      if !IsBlank(f.lines[k - 1]) {
        LineDocWellFormed(f, fileDate, k - 1);
        AllWellFormedConcat(LineDocs(f, fileDate, k - 1), [LineDoc(f, fileDate, k - 1)]);
      }
    }
  }

  /** A line's document has a numeric line number and, when it has a timestamp, one that starts its content. */
  lemma LineDocWellFormed(f: LogFile, fileDate: string, index: nat)
    requires index < |f.lines| && WellFormedFileDate(fileDate)
    ensures WellFormedDoc(LineDoc(f, fileDate, index))
  {
    ExtractTimestampSpec(f.lines[index]);
  }

  /** Every document CreateIndexAsync adds is well formed. */
  lemma {:induction false} FilesDocsWellFormed(files: seq<LogFile>, today: Day)
    ensures AllWellFormed(FilesDocs(files, today))
  {
    if files != [] {
      FilesDocsWellFormed(files[..|files| - 1], today);
      var f := files[|files| - 1];
      var date := FileDateString(f.name, today);
      if ParseDateFromFileName(f.name, today).Some? {
        assert date == CompactDate(ParseDateFromFileName(f.name, today).value);
      }
      LineDocsWellFormed(f, date, |f.lines|);
      AllWellFormedConcat(FilesDocs(files[..|files| - 1], today), FileDocs(f, today));
    }
  }

  lemma AllWellFormedConcat(a: seq<Doc>, b: seq<Doc>)
    requires AllWellFormed(a) && AllWellFormed(b)
    ensures AllWellFormed(a + b)
  {
    forall i | 0 <= i < |a + b| ensures WellFormedDoc((a + b)[i]) {
      if i < |a| { assert (a + b)[i] == a[i]; } else { assert (a + b)[i] == b[i - |a|]; }
    }
  }
}
