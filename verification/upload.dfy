/**
 * The upload endpoint and the background task it schedules.
 *
 * `handle_file_upload` gives the upload a fresh session, clears whatever the
 * index store holds for it, copies each named upload into the upload
 * directory and hands the list of saved files to
 * `background_process_files`, which parses them, crawls the URLs they
 * mention, indexes everything in one batch and removes the copies.
 *
 * The file system is a set of paths; the readers behind `process_document`,
 * the crawler and the embedding model are inputs.
 */
module Upload {
  import opened Maybe
  import opened Models
  import opened Text
  import opened Ordering
  import opened Indexer
  import MainParser

  // ---------------------------------------------------------------------------
  // Paths.
  // ---------------------------------------------------------------------------

  /** `settings.UPLOAD_DIR`, relative to the project root. */
  const UploadDir: string := "data/uploaded_files"

  /** `os.path.basename(p)`: what follows the last '/'. */
  function Basename(p: string): (r: string)
    ensures '/' !in r
    ensures |r| <= |p| && p[|p| - |r|..] == r
  {
    var k := RFind(p, '/', 0, |p|);
    p[k + 1..]
  }

  /** The temporary copy of upload `safe` in session `sessionId`. */
  function TempPath(sessionId: string, safe: string): string
  {
    JoinPath(UploadDir, sessionId + "_" + safe)
  }

  /**
   * Session ids are uuid4 strings, all of one length and never starting
   * with '/': two sessions never share a temporary path, and within a
   * session two different names never do.
   */
  lemma TempPathInjective(s1: string, s2: string, n1: string, n2: string)
    requires |s1| == |s2| && |s1| > 0 && s1[0] != '/' && s2[0] != '/'
    requires TempPath(s1, n1) == TempPath(s2, n2)
    ensures s1 == s2 && n1 == n2
  {
    var p1 := UploadDir + "/" + (s1 + "_" + n1);
    var p2 := UploadDir + "/" + (s2 + "_" + n2);
    assert p1 == p2;
    var d := |UploadDir + "/"|;
    assert s1 == p1[d..d + |s1|];
    assert s2 == p2[d..d + |s2|];
    assert n1 == p1[d + |s1| + 1..];
    assert n2 == p2[d + |s2| + 1..];
  }

  // ---------------------------------------------------------------------------
  // Saving the uploads (`handle_file_upload`).
  // ---------------------------------------------------------------------------

  /**
   * What writing one upload to disk does: it works, `open` raises (no file
   * is created), or copying the body raises after `open` created the file.
   */
  datatype SaveResult = Written | OpenFails(error: string) | CopyFails(error: string)

  /** One element of the request's file list; `filename` is "" when missing. */
  datatype UploadFile = UploadFile(filename: string, save: SaveResult)

  /** An entry of `saved_files_data`. */
  datatype FileData = FileData(path: string, name: string)

  /** `UploadResponse` */
  datatype UploadResponse = UploadResponse(status: string, sessionId: string, message: string)

  /**
   * The endpoint's answer: the 202 response together with the files handed
   * to the background task, or an HTTP error.
   */
  datatype UploadResult =
    | Accepted(response: UploadResponse, scheduled: seq<FileData>)
    | Rejected(status: int, detail: string)

  /** The state of the save loop: files saved so far, the directory, and the detail of a 500 once raised. */
  datatype Saving = Saving(saved: seq<FileData>, dir: set<string>, failed: Option<string>)

  function SavedPaths(saved: seq<FileData>): set<string>
  {
    set f | f in saved :: f.path
  }

  lemma SavedPathsConcat(a: seq<FileData>, b: seq<FileData>)
    ensures SavedPaths(a + b) == SavedPaths(a) + SavedPaths(b)
  {
    forall p | p in SavedPaths(a + b) ensures p in SavedPaths(a) + SavedPaths(b) {
      var f :| f in a + b && f.path == p;
    }
  }

  function SaveFailedDetail(safe: string, error: string): string
  {
    "Could not save file: " + safe + ". Error: " + error
  }

  /**
   * One iteration of the save loop. A blank name is skipped; on a failure
   * the files saved earlier are removed and the loop stops.
   */
  function SaveStep(s: Saving, f: UploadFile, sessionId: string): (r: Saving)
    ensures s.failed.Some? || f.filename == "" ==> r == s
    ensures |s.saved| <= |r.saved| && r.saved[..|s.saved|] == s.saved
    ensures r.failed.None? ==> r.dir == s.dir + SavedPaths(r.saved[|s.saved|..])
  {
    if s.failed.Some? || f.filename == "" then s
    else
      var safe := Basename(f.filename);
      var path := TempPath(sessionId, safe);
      match f.save
      case Written =>
        assert (s.saved + [FileData(path, safe)])[|s.saved|..] == [FileData(path, safe)];
        Saving(s.saved + [FileData(path, safe)], s.dir + {path}, None)
      case OpenFails(e) => Saving(s.saved, s.dir - SavedPaths(s.saved), Some(SaveFailedDetail(safe, e)))
      case CopyFails(e) => Saving(s.saved, (s.dir + {path}) - SavedPaths(s.saved), Some(SaveFailedDetail(safe, e)))
  }

  /** The save loop over a prefix of the uploads. */
  function SaveRun(files: seq<UploadFile>, sessionId: string, dir: set<string>): Saving
  {
    if files == [] then Saving([], dir, None)
    else SaveStep(SaveRun(files[..|files| - 1], sessionId, dir), files[|files| - 1], sessionId)
  }

  /** The files with a name, which the loop tries to save. */
  function Named(files: seq<UploadFile>): seq<UploadFile>
  {
    if files == [] then []
    else Named(files[..|files| - 1]) + (if files[|files| - 1].filename == "" then [] else [files[|files| - 1]])
  }

  /**
   * When every save works, each named upload is saved, in order, under its
   * base name at its temporary path, and exactly those paths are added to
   * the directory.
   */
  lemma {:induction false} SaveRunAllWritten(files: seq<UploadFile>, sessionId: string, dir: set<string>)
    requires forall i :: 0 <= i < |files| ==> files[i].save == Written
    ensures SaveRun(files, sessionId, dir).failed.None?
    ensures |SaveRun(files, sessionId, dir).saved| == |Named(files)|
    ensures forall i :: 0 <= i < |Named(files)| ==>
      SaveRun(files, sessionId, dir).saved[i] == FileData(TempPath(sessionId, Basename(Named(files)[i].filename)), Basename(Named(files)[i].filename))
    ensures SaveRun(files, sessionId, dir).dir == dir + SavedPaths(SaveRun(files, sessionId, dir).saved)
    decreases |files|
  {
    if files != [] {
      var front := files[..|files| - 1];
      SaveRunAllWritten(front, sessionId, dir);
      var before := SaveRun(front, sessionId, dir);
      var after := SaveRun(files, sessionId, dir);
      assert after.dir == before.dir + SavedPaths(after.saved[|before.saved|..]);
      assert after.saved == before.saved + after.saved[|before.saved|..];
      SavedPathsConcat(before.saved, after.saved[|before.saved|..]);
    }
  }

  /**
   * A failed save leaves no earlier copy behind: every path the loop adds
   * to the directory is gone again, except the half-written file of an
   * upload whose copy failed.
   */
  lemma {:induction false} SaveRunFailureCleansUp(files: seq<UploadFile>, sessionId: string, dir: set<string>)
    requires SaveRun(files, sessionId, dir).failed.Some?
    ensures forall p :: p in SaveRun(files, sessionId, dir).dir && p !in dir ==>
      exists i :: 0 <= i < |files| && files[i].save.CopyFails? && files[i].filename != "" && p == TempPath(sessionId, Basename(files[i].filename))
    decreases |files|
  {
    var front := files[..|files| - 1];
    var before := SaveRun(front, sessionId, dir);
    var last := files[|files| - 1];
    if before.failed.Some? {
      SaveRunFailureCleansUp(front, sessionId, dir);
      forall p | p in SaveRun(files, sessionId, dir).dir && p !in dir
        ensures exists i :: 0 <= i < |files| && files[i].save.CopyFails? && files[i].filename != "" && p == TempPath(sessionId, Basename(files[i].filename))
      {
        var i :| 0 <= i < |front| && front[i].save.CopyFails? && front[i].filename != "" && p == TempPath(sessionId, Basename(front[i].filename));
        assert files[i] == front[i];
      }
    } else {
      SaveRunKeepsSaved(front, sessionId, dir);
      var path := TempPath(sessionId, Basename(last.filename));
      forall p | p in SaveRun(files, sessionId, dir).dir && p !in dir
        ensures exists i :: 0 <= i < |files| && files[i].save.CopyFails? && files[i].filename != "" && p == TempPath(sessionId, Basename(files[i].filename))
      {
        assert p == path && last.save.CopyFails?;
        assert files[|files| - 1] == last;
      }
    }
  }

  /** While no save has failed, the directory is the original one plus the saved copies. */
  lemma {:induction false} SaveRunKeepsSaved(files: seq<UploadFile>, sessionId: string, dir: set<string>)
    requires SaveRun(files, sessionId, dir).failed.None?
    ensures SaveRun(files, sessionId, dir).dir == dir + SavedPaths(SaveRun(files, sessionId, dir).saved)
    decreases |files|
  {
    if files != [] {
      var front := files[..|files| - 1];
      var before := SaveRun(front, sessionId, dir);
      var after := SaveRun(files, sessionId, dir);
      SaveRunKeepsSaved(front, sessionId, dir);
      assert after.saved == before.saved + after.saved[|before.saved|..];
      SavedPathsConcat(before.saved, after.saved[|before.saved|..]);
    }
  }

  /** The save loop of `handle_file_upload`, stopping at the first failure. */
  method SaveUploads(files: seq<UploadFile>, sessionId: string, dir: set<string>) returns (s: Saving)
    ensures s == SaveRun(files, sessionId, dir)
  {
    s := Saving([], dir, None);
    var i := 0;
    while i < |files|
      invariant 0 <= i <= |files|
      invariant s == SaveRun(files[..i], sessionId, dir)
      invariant s.failed.None?
    {
      assert files[..i + 1][..i] == files[..i];
      var f := files[i];
      if f.filename != "" {
        var safe := Basename(f.filename);
        var path := TempPath(sessionId, safe);
        match f.save {
          case Written =>
            s := Saving(s.saved + [FileData(path, safe)], s.dir + {path}, None);
          case OpenFails(e) =>
            s := Saving(s.saved, s.dir - SavedPaths(s.saved), Some(SaveFailedDetail(safe, e)));
            SaveRunFailedStays(files, i + 1, sessionId, dir);
            return;
          case CopyFails(e) =>
            s := Saving(s.saved, (s.dir + {path}) - SavedPaths(s.saved), Some(SaveFailedDetail(safe, e)));
            SaveRunFailedStays(files, i + 1, sessionId, dir);
            return;
        }
      }
      i := i + 1;
    }
    assert files[..|files|] == files;
  }

  /** Once a save failed, the later uploads change nothing. */
  lemma {:induction false} SaveRunFailedStays(files: seq<UploadFile>, k: nat, sessionId: string, dir: set<string>)
    requires k <= |files|
    requires SaveRun(files[..k], sessionId, dir).failed.Some?
    ensures SaveRun(files, sessionId, dir) == SaveRun(files[..k], sessionId, dir)
    decreases |files| - k
  {
    if k < |files| {
      assert files[..k + 1][..k] == files[..k];
      SaveRunFailedStays(files, k + 1, sessionId, dir);
    } else {
      assert files[..k] == files;
    }
  }

  /** What `handle_file_upload` answers, and the upload directory afterwards. */
  function UploadAnswer(files: seq<UploadFile>, sessionId: string, dir: set<string>): (r: (UploadResult, set<string>))
    ensures files == [] ==> r == (Rejected(400, "No files uploaded."), dir)
    ensures r.0.Accepted? ==> r.0.response == UploadResponse("processing", sessionId, "File processing started.") && r.0.scheduled != []
  {
    if files == [] then (Rejected(400, "No files uploaded."), dir)
    else
      var s := SaveRun(files, sessionId, dir);
      if s.failed.Some? then (Rejected(500, s.failed.value), s.dir)
      else if s.saved == [] then (Rejected(400, "No valid files saved."), s.dir)
      else (Accepted(UploadResponse("processing", sessionId, "File processing started."), s.saved), s.dir)
  }

  /** Uploads that all lack a name are refused with 400 and leave the directory alone. */
  lemma {:induction false} AllBlankRejected(files: seq<UploadFile>, sessionId: string, dir: set<string>)
    requires files != []
    requires forall i :: 0 <= i < |files| ==> files[i].filename == ""
    ensures UploadAnswer(files, sessionId, dir) == (Rejected(400, "No valid files saved."), dir)
  {
    SaveRunBlank(files, sessionId, dir);
  }

  lemma {:induction false} SaveRunBlank(files: seq<UploadFile>, sessionId: string, dir: set<string>)
    requires forall i :: 0 <= i < |files| ==> files[i].filename == ""
    ensures SaveRun(files, sessionId, dir) == Saving([], dir, None)
    decreases |files|
  {
    if files != [] {
      SaveRunBlank(files[..|files| - 1], sessionId, dir);
    }
  }

  /**
   * An accepted upload schedules one entry per named file, each holding the
   * base name (no '/') and its temporary path, which now exists.
   */
  lemma AcceptedFilesExist(files: seq<UploadFile>, sessionId: string, dir: set<string>)
    requires UploadAnswer(files, sessionId, dir).0.Accepted?
    ensures forall f :: f in UploadAnswer(files, sessionId, dir).0.scheduled ==>
      f.path in UploadAnswer(files, sessionId, dir).1 && '/' !in f.name && f.path == TempPath(sessionId, f.name)
  {
    SaveRunKeepsSaved(files, sessionId, dir);
    SaveRunNames(files, sessionId, dir);
  }

  lemma {:induction false} SaveRunNames(files: seq<UploadFile>, sessionId: string, dir: set<string>)
    ensures forall f :: f in SaveRun(files, sessionId, dir).saved ==> '/' !in f.name && f.path == TempPath(sessionId, f.name)
    decreases |files|
  {
    if files != [] {
      SaveRunNames(files[..|files| - 1], sessionId, dir);
    }
  }

  /**
   * `handle_file_upload`. `sessionId` is the fresh uuid4; `clearFault` says
   * whether removing the (absent) index files of the new session fails.
   * An empty request is refused before the store is touched.
   */
  method HandleFileUpload(files: seq<UploadFile>, sessionId: string, store: IndexStore, clearFault: RemoveFault, dir: set<string>)
    returns (result: UploadResult, dirAfter: set<string>)
    modifies store
    ensures (result, dirAfter) == UploadAnswer(files, sessionId, dir)
    ensures files == [] ==> store.details == old(store.details) && store.locks == old(store.locks) && store.disk == old(store.disk)
    ensures files != [] ==>
      && store.details == old(store.details) - {sessionId}
      && store.locks == old(store.locks) - {sessionId}
      && store.disk == RemoveFiles(old(store.disk), sessionId, clearFault)
  {
    if files == [] {
      return Rejected(400, "No files uploaded."), dir;
    }
    var _ := store.ClearSessionData(sessionId, clearFault);
    var s := SaveUploads(files, sessionId, dir);
    dirAfter := s.dir;
    if s.failed.Some? {
      result := Rejected(500, s.failed.value);
    } else if s.saved == [] {
      result := Rejected(400, "No valid files saved.");
    } else {
      result := Accepted(UploadResponse("processing", sessionId, "File processing started."), s.saved);
    }
  }

  // ---------------------------------------------------------------------------
  // The background task (`background_process_files`).
  // ---------------------------------------------------------------------------

  /** An entry of `processing_errors`, with the failing file's name or the crawler's exception text. */
  datatype ProcessingError = ParseFailed(name: string) | CrawlFailed(message: string) | IndexingFailed

  /** What crawling one URL gave: a list of chunks, nothing (`None`), or an exception. */
  datatype CrawlResult = Crawled(chunks: seq<DocumentChunk>) | NotCrawled | CrawlRaised(message: string)

  /** The state of the parse loop. */
  datatype ParseAcc = ParseAcc(chunks: seq<DocumentChunk>, urls: seq<string>, errors: seq<ProcessingError>)

  /** The state of the crawl-result loop. */
  datatype CrawlAcc = CrawlAcc(chunks: seq<DocumentChunk>, errors: seq<ProcessingError>)

  /**
   * The upload directory when the loop reaches entry `i`: the earlier
   * entries' paths are gone, except those whose removal raises (`stuck`).
   */
  function DirAt(files: seq<FileData>, i: nat, temp: set<string>, stuck: set<string>): set<string>
    requires i <= |files|
  {
    temp - (PathsOf(files[..i]) - stuck)
  }

  /**
   * What the readers find at entry `i`'s path: `read(path)` while the file
   * is still in the upload directory, and a missing file once an earlier
   * entry with the same path (a second upload of one base name) removed it.
   */
  function ReadingsAt(files: seq<FileData>, i: nat, read: string -> MainParser.Readings, temp: set<string>, stuck: set<string>): MainParser.Readings
    requires i < |files|
  {
    if files[i].path in DirAt(files, i, temp, stuck) then read(files[i].path) else MainParser.NoFile
  }

  /**
   * `process_document` on each scheduled file, with what the readers find at
   * its path when the loop reaches it; the i-th parse uses the collaborators
   * `tools(i)`. `None` is a parse that raised.
   */
  function Outcomes(
    files: seq<FileData>, sessionId: string, read: string -> MainParser.Readings, tools: nat -> MainParser.Tools,
    temp: set<string>, stuck: set<string>): (r: seq<Option<MainParser.Parsed>>)
    ensures |r| == |files|
  {
    seq(|files|, i requires 0 <= i < |files| => MainParser.Process(files[i].name, sessionId, ReadingsAt(files, i, read, temp, stuck), tools(i)))
  }

  /**
   * A second entry with an earlier entry's path, whose removal did not
   * raise, finds no file and contributes no chunk, URL or error; an entry
   * whose file is still there is parsed from what the readers give.
   */
  lemma RepeatedPathParsesNothing(
    files: seq<FileData>, sessionId: string, read: string -> MainParser.Readings, tools: nat -> MainParser.Tools,
    temp: set<string>, stuck: set<string>, i: nat, j: nat)
    requires j < i < |files| && files[j].path == files[i].path && files[i].path !in stuck
    ensures Outcomes(files, sessionId, read, tools, temp, stuck)[i] == Some(MainParser.Parsed([], []))
  {
    assert files[..i][j] == files[j];
    assert files[i].path !in DirAt(files, i, temp, stuck);
    MainParser.MissingFileGivesNothing(files[i].name, sessionId, tools(i));
  }

  /** An entry whose path is in the directory when the loop reaches it is parsed from `read(path)`. */
  lemma PresentPathParsed(
    files: seq<FileData>, sessionId: string, read: string -> MainParser.Readings, tools: nat -> MainParser.Tools,
    temp: set<string>, stuck: set<string>, i: nat)
    requires i < |files| && files[i].path in temp
    requires forall j :: 0 <= j < i ==> files[j].path != files[i].path || files[j].path in stuck
    ensures Outcomes(files, sessionId, read, tools, temp, stuck)[i] == MainParser.Process(files[i].name, sessionId, read(files[i].path), tools(i))
  {
    assert files[i].path in DirAt(files, i, temp, stuck) by {
      forall f | f in files[..i] ensures f.path != files[i].path || f.path in stuck {
        var j :| 0 <= j < i && files[..i][j] == f;
      }
    }
  }

  /** One iteration of the parse loop. */
  function ParseStep(acc: ParseAcc, f: FileData, outcome: Option<MainParser.Parsed>): ParseAcc
  {
    match outcome
    case None => acc.(errors := acc.errors + [ParseFailed(f.name)])
    case Some(p) => acc.(chunks := acc.chunks + p.chunks, urls := acc.urls + p.urls)
  }

  /** The parse loop over the files, with each file's outcome. */
  function ParseAll(files: seq<FileData>, outcomes: seq<Option<MainParser.Parsed>>): ParseAcc
    requires |outcomes| == |files|
  {
    if files == [] then ParseAcc([], [], [])
    else ParseStep(ParseAll(files[..|files| - 1], outcomes[..|files| - 1]), files[|files| - 1], outcomes[|files| - 1])
  }

  /** Some file parsed and produced `c`. */
  predicate ChunkOfFile(outcomes: seq<Option<MainParser.Parsed>>, c: DocumentChunk)
  {
    exists i :: 0 <= i < |outcomes| && outcomes[i].Some? && c in outcomes[i].value.chunks
  }

  /** Some file parsed and mentioned `u`. */
  predicate UrlOfFile(outcomes: seq<Option<MainParser.Parsed>>, u: string)
  {
    exists i :: 0 <= i < |outcomes| && outcomes[i].Some? && u in outcomes[i].value.urls
  }

  /**
   * The parse loop collects exactly the chunks and the URLs of the files
   * that parsed (a failing file does not stop the later ones), and one
   * error naming each file that failed, in order.
   */
  lemma {:induction false} ParseAllSpec(files: seq<FileData>, outcomes: seq<Option<MainParser.Parsed>>)
    requires |outcomes| == |files|
    ensures forall c :: c in ParseAll(files, outcomes).chunks <==> ChunkOfFile(outcomes, c)
    ensures forall u :: u in ParseAll(files, outcomes).urls <==> UrlOfFile(outcomes, u)
    decreases |files|
  {
    if files != [] {
      var n := |files| - 1;
      ParseAllSpec(files[..n], outcomes[..n]);
      forall c ensures c in ParseAll(files, outcomes).chunks <==> ChunkOfFile(outcomes, c) {
        if ChunkOfFile(outcomes, c) {
          var i :| 0 <= i < |outcomes| && outcomes[i].Some? && c in outcomes[i].value.chunks;
          if i < n {
            assert outcomes[..n][i] == outcomes[i];
          }
        }
        if ChunkOfFile(outcomes[..n], c) {
          var i :| 0 <= i < n && outcomes[..n][i].Some? && c in outcomes[..n][i].value.chunks;
          assert outcomes[..n][i] == outcomes[i];
        }
      }
      forall u ensures u in ParseAll(files, outcomes).urls <==> UrlOfFile(outcomes, u) {
        if UrlOfFile(outcomes, u) {
          var i :| 0 <= i < |outcomes| && outcomes[i].Some? && u in outcomes[i].value.urls;
          if i < n {
            assert outcomes[..n][i] == outcomes[i];
          }
        }
        if UrlOfFile(outcomes[..n], u) {
          var i :| 0 <= i < n && outcomes[..n][i].Some? && u in outcomes[..n][i].value.urls;
          assert outcomes[..n][i] == outcomes[i];
        }
      }
    }
  }

  /** The files whose parse raised, by name, in order. */
  function FailedNames(files: seq<FileData>, outcomes: seq<Option<MainParser.Parsed>>): seq<string>
    requires |outcomes| == |files|
  {
    if files == [] then []
    else FailedNames(files[..|files| - 1], outcomes[..|files| - 1]) + (if outcomes[|files| - 1].None? then [files[|files| - 1].name] else [])
  }

  /** One `ParseFailed` entry per failing file, in the files' order, and nothing else. */
  lemma {:induction false} ParseAllErrors(files: seq<FileData>, outcomes: seq<Option<MainParser.Parsed>>)
    requires |outcomes| == |files|
    ensures |ParseAll(files, outcomes).errors| == |FailedNames(files, outcomes)|
    ensures forall j :: 0 <= j < |FailedNames(files, outcomes)| ==> ParseAll(files, outcomes).errors[j] == ParseFailed(FailedNames(files, outcomes)[j])
    ensures ParseAll(files, outcomes).errors == [] <==> forall i :: 0 <= i < |outcomes| ==> outcomes[i].Some?
    decreases |files|
  {
    if files != [] {
      var n := |files| - 1;
      ParseAllErrors(files[..n], outcomes[..n]);
      if forall i :: 0 <= i < |outcomes| ==> outcomes[i].Some? {
        assert forall i :: 0 <= i < n ==> outcomes[..n][i].Some? by {
          forall i | 0 <= i < n ensures outcomes[..n][i].Some? {
            assert outcomes[..n][i] == outcomes[i];
          }
        }
      } else {
        var i :| 0 <= i < |outcomes| && outcomes[i].None?;
        if i < n {
          assert outcomes[..n][i] == outcomes[i];
        }
      }
    }
  }

  /** One iteration of the crawl-result loop: an empty list and `None` are ignored. */
  function CrawlStep(acc: CrawlAcc, result: CrawlResult): CrawlAcc
  {
    match result
    case Crawled(cs) => if cs != [] then acc.(chunks := acc.chunks + cs) else acc
    case NotCrawled => acc
    case CrawlRaised(m) => acc.(errors := acc.errors + [CrawlFailed(m)])
  }

  /** The crawl-result loop, with the results in the order the URLs were listed. */
  function CrawlAll(urls: seq<string>, crawl: string -> CrawlResult): CrawlAcc
  {
    if urls == [] then CrawlAcc([], [])
    else CrawlStep(CrawlAll(urls[..|urls| - 1], crawl), crawl(urls[|urls| - 1]))
  }

  /** Some listed URL crawled to a list holding `c`. */
  predicate ChunkOfUrl(urls: seq<string>, crawl: string -> CrawlResult, c: DocumentChunk)
  {
    exists j :: 0 <= j < |urls| && crawl(urls[j]).Crawled? && c in crawl(urls[j]).chunks
  }

  /** The crawled chunks are exactly those of the successful crawls; every crawl that raised leaves one error. */
  lemma {:induction false} CrawlAllSpec(urls: seq<string>, crawl: string -> CrawlResult)
    ensures forall c :: c in CrawlAll(urls, crawl).chunks <==> ChunkOfUrl(urls, crawl, c)
    ensures forall e :: e in CrawlAll(urls, crawl).errors ==> e.CrawlFailed? && exists j :: 0 <= j < |urls| && crawl(urls[j]) == CrawlRaised(e.message)
    ensures CrawlAll(urls, crawl).errors == [] <==> forall j :: 0 <= j < |urls| ==> !crawl(urls[j]).CrawlRaised?
    decreases |urls|
  {
    if urls != [] {
      var n := |urls| - 1;
      var front := urls[..n];
      CrawlAllSpec(front, crawl);
      forall c ensures c in CrawlAll(urls, crawl).chunks <==> ChunkOfUrl(urls, crawl, c) {
        if ChunkOfUrl(urls, crawl, c) {
          var j :| 0 <= j < |urls| && crawl(urls[j]).Crawled? && c in crawl(urls[j]).chunks;
          if j < n {
            assert front[j] == urls[j];
          }
        }
        if ChunkOfUrl(front, crawl, c) {
          var j :| 0 <= j < n && crawl(front[j]).Crawled? && c in crawl(front[j]).chunks;
          assert front[j] == urls[j];
        }
      }
      forall e | e in CrawlAll(urls, crawl).errors ensures e.CrawlFailed? && exists j :: 0 <= j < |urls| && crawl(urls[j]) == CrawlRaised(e.message) {
        if e in CrawlAll(front, crawl).errors {
          var j :| 0 <= j < n && crawl(front[j]) == CrawlRaised(e.message);
          assert front[j] == urls[j];
        } else {
          assert crawl(urls[n]) == CrawlRaised(e.message);
        }
      }
      if forall j :: 0 <= j < |urls| ==> !crawl(urls[j]).CrawlRaised? {
        forall j | 0 <= j < n ensures !crawl(front[j]).CrawlRaised? {
          assert front[j] == urls[j];
        }
      } else {
        var j :| 0 <= j < |urls| && crawl(urls[j]).CrawlRaised?;
        if j < n {
          assert front[j] == urls[j];
        }
      }
    }
  }

  /**
   * What the background task gathers before indexing: the batch (parsed
   * chunks, then crawled chunks), the URLs it crawls, and the errors so far.
   * The URL set is iterated in ascending order.
   */
  datatype Gathering = Gathering(batch: seq<DocumentChunk>, crawled: seq<string>, errors: seq<ProcessingError>)

  function Gather(files: seq<FileData>, outcomes: seq<Option<MainParser.Parsed>>, crawl: string -> CrawlResult): Gathering
    requires |outcomes| == |files|
  {
    var parsed := ParseAll(files, outcomes);
    var urls := SortedUnique(parsed.urls);
    var crawled := if urls == [] then CrawlAcc([], []) else CrawlAll(urls, crawl);
    Gathering(parsed.chunks + crawled.chunks, urls, parsed.errors + crawled.errors)
  }

  /**
   * Each URL some parsed file mentions is crawled exactly once, and no
   * other URL is.
   */
  lemma GatherCrawlsEachUrlOnce(files: seq<FileData>, outcomes: seq<Option<MainParser.Parsed>>, crawl: string -> CrawlResult)
    requires |outcomes| == |files|
    ensures forall u :: u in Gather(files, outcomes, crawl).crawled <==> UrlOfFile(outcomes, u)
    ensures forall i, j :: 0 <= i < |Gather(files, outcomes, crawl).crawled| && 0 <= j < |Gather(files, outcomes, crawl).crawled| && i != j ==>
      Gather(files, outcomes, crawl).crawled[i] != Gather(files, outcomes, crawl).crawled[j]
  {
    ParseAllSpec(files, outcomes);
    var g := Gather(files, outcomes, crawl);
    forall i, j | 0 <= i < |g.crawled| && 0 <= j < |g.crawled| && i != j ensures g.crawled[i] != g.crawled[j] {
      StrictlySortedDistinct(g.crawled, i, j);
    }
  }

  /**
   * The batch holds every parsed chunk before every crawled chunk, and its
   * chunks are exactly those of the files that parsed and of the pages
   * that crawled.
   */
  lemma GatherBatch(files: seq<FileData>, outcomes: seq<Option<MainParser.Parsed>>, crawl: string -> CrawlResult)
    requires |outcomes| == |files|
    ensures var g := Gather(files, outcomes, crawl); var parsed := ParseAll(files, outcomes).chunks;
      && g.batch[..|parsed|] == parsed
      && forall c :: c in g.batch <==> ChunkOfFile(outcomes, c) || ChunkOfUrl(g.crawled, crawl, c)
  {
    ParseAllSpec(files, outcomes);
    var g := Gather(files, outcomes, crawl);
    CrawlAllSpec(g.crawled, crawl);
    var parsed := ParseAll(files, outcomes).chunks;
    assert g.batch[..|parsed|] == parsed;
  }

  /** The background task adds no error when every file parses and no crawl raises. */
  lemma GatherNoErrors(files: seq<FileData>, outcomes: seq<Option<MainParser.Parsed>>, crawl: string -> CrawlResult)
    requires |outcomes| == |files|
    requires forall i :: 0 <= i < |outcomes| ==> outcomes[i].Some?
    requires forall u :: !crawl(u).CrawlRaised?
    ensures Gather(files, outcomes, crawl).errors == []
  {
    ParseAllErrors(files, outcomes);
    CrawlAllSpec(SortedUnique(ParseAll(files, outcomes).urls), crawl);
  }

  /** The paths of the scheduled files. */
  function PathsOf(files: seq<FileData>): set<string>
  {
    set f | f in files :: f.path
  }

  lemma ParseAllSnoc(files: seq<FileData>, outcomes: seq<Option<MainParser.Parsed>>, i: nat)
    requires |outcomes| == |files| && i < |files|
    ensures ParseAll(files[..i + 1], outcomes[..i + 1]) == ParseStep(ParseAll(files[..i], outcomes[..i]), files[i], outcomes[i])
  {
    assert files[..i + 1][..i] == files[..i];
    assert outcomes[..i + 1][..i] == outcomes[..i];
  }

  lemma PathsOfSnoc(files: seq<FileData>, i: nat)
    requires i < |files|
    ensures PathsOf(files[..i + 1]) == PathsOf(files[..i]) + {files[i].path}
  {
    assert files[..i + 1] == files[..i] + [files[i]];
  }

  /** One iteration of the parse loop: `process_document` on one file. */
  method ParseFile(acc: ParseAcc, f: FileData, sessionId: string, readings: MainParser.Readings, tools: MainParser.Tools) returns (r: ParseAcc)
    ensures r == ParseStep(acc, f, MainParser.Process(f.name, sessionId, readings, tools))
  {
    var parsed := MainParser.ProcessDocument(f.name, sessionId, readings, tools);
    if parsed.None? {
      r := acc.(errors := acc.errors + [ParseFailed(f.name)]);
    } else {
      r := acc.(chunks := acc.chunks + parsed.value.chunks, urls := acc.urls + parsed.value.urls);
    }
  }

  /**
   * The parse loop: parses each file and removes its temporary copy
   * (`stuck` holds the paths whose removal raises).
   */
  method ParseFiles(files: seq<FileData>, sessionId: string, read: string -> MainParser.Readings, tools: nat -> MainParser.Tools, temp: set<string>, stuck: set<string>)
    returns (acc: ParseAcc, remaining: set<string>)
    ensures acc == ParseAll(files, Outcomes(files, sessionId, read, tools, temp, stuck))
    ensures remaining == temp - (PathsOf(files) - stuck)
  {
    ghost var outcomes := Outcomes(files, sessionId, read, tools, temp, stuck);
    acc := ParseAcc([], [], []);
    remaining := temp;
    for i := 0 to |files|
      invariant acc == ParseAll(files[..i], outcomes[..i])
      invariant remaining == temp - (PathsOf(files[..i]) - stuck)
    {
      ParseAllSnoc(files, outcomes, i);
      PathsOfSnoc(files, i);
      var f := files[i];
      var readings := if f.path in remaining then read(f.path) else MainParser.NoFile;
      acc := ParseFile(acc, f, sessionId, readings, tools(i));
      if f.path in remaining && f.path !in stuck {
        remaining := remaining - {f.path};
      }
    }
    assert files[..|files|] == files;
    assert outcomes[..|files|] == outcomes;
  }

  /** The crawl-result loop. */
  method CrawlUrls(urls: seq<string>, crawl: string -> CrawlResult) returns (acc: CrawlAcc)
    ensures acc == CrawlAll(urls, crawl)
  {
    acc := CrawlAcc([], []);
    for j := 0 to |urls|
      invariant acc == CrawlAll(urls[..j], crawl)
    {
      assert urls[..j + 1][..j] == urls[..j];
      match crawl(urls[j]) {
        case Crawled(cs) =>
          if cs != [] {
            acc := acc.(chunks := acc.chunks + cs);
          }
        case NotCrawled =>
        case CrawlRaised(m) =>
          acc := acc.(errors := acc.errors + [CrawlFailed(m)]);
      }
    }
    assert urls[..|urls|] == urls;
  }

  /**
   * `background_process_files`. `encoded` and `fault` are what embedding
   * and saving the batch give inside `index_content`. Returns the
   * `processing_errors` it ends with and the upload directory; the session
   * status store is never written.
   */
  method BackgroundProcessFiles(
    files: seq<FileData>, sessionId: string,
    read: string -> MainParser.Readings, tools: nat -> MainParser.Tools, crawl: string -> CrawlResult,
    store: IndexStore, encoded: Option<seq<Embedding>>, fault: SaveFault,
    temp: set<string>, stuck: set<string>)
    returns (errors: seq<ProcessingError>, remaining: set<string>)
    modifies store
    ensures remaining == temp - (PathsOf(files) - stuck)
    ensures var g := Gather(files, Outcomes(files, sessionId, read, tools, temp, stuck), crawl);
      errors == g.errors + (if g.batch != [] && encoded.None? then [IndexingFailed] else [])
    ensures var g := Gather(files, Outcomes(files, sessionId, read, tools, temp, stuck), crawl);
      g.batch == [] ==> store.locks == old(store.locks) && store.details == old(store.details) && store.disk == old(store.disk)
    ensures var g := Gather(files, Outcomes(files, sessionId, read, tools, temp, stuck), crawl);
      g.batch != [] ==> store.locks == old(store.locks) + {sessionId}
    ensures var g := Gather(files, Outcomes(files, sessionId, read, tools, temp, stuck), crawl);
      g.batch != [] && encoded.Some? && |encoded.value| > 0 ==>
        && store.details == old(store.details)[sessionId := AddDetails(SessionDetails(old(store.details), sessionId), g.batch)]
        && store.disk == Save(old(store.disk), sessionId, AddBatch(LoadOrFresh(old(store.disk), sessionId), g.batch, encoded.value), fault)
    ensures var g := Gather(files, Outcomes(files, sessionId, read, tools, temp, stuck), crawl);
      encoded.None? || |encoded.value| == 0 ==> store.details == old(store.details) && store.disk == old(store.disk)
  {
    var parsed;
    parsed, remaining := ParseFiles(files, sessionId, read, tools, temp, stuck);
    errors := parsed.errors;
    var urls := SortedUnique(parsed.urls);
    var crawledChunks := [];
    if urls != [] {
      var crawled := CrawlUrls(urls, crawl);
      crawledChunks := crawled.chunks;
      errors := errors + crawled.errors;
    }
    var batch := parsed.chunks + crawledChunks;
    if batch != [] {
      var ok := store.IndexContent(batch, sessionId, encoded, fault);
      if !ok {
        errors := errors + [IndexingFailed];
      }
    }
  }
}
