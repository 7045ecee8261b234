/**
  youtube_analyzer/download.py: the file name filter, the pre-flight of `download_video`
  (output directory, target path, overwrite policy) and the chunk loop of its inner
  `download_generator`. The filesystem is an object holding the existing directories and
  files; the HTTP response is a value listing the body's chunks in arrival order.
 */
module Download {
  import opened Wrappers
  import Lists
  import Numbers
  import Paths

  type Byte = b: int | 0 <= b < 256
  type Chunk = seq<Byte>

  /** The characters `sanitize_filename` removes: backslash, `/ * ? : " < > |`. */
  const InvalidChars: set<char> := {'\\', '/', '*', '?', ':', '"', '<', '>', '|'}

  /** The buffer size the source asks `iter_content` for. */
  const RequestedChunkSize: nat := 8192

  predicate IsValidChar(c: char) {
    c !in InvalidChars
  }

  /** The character filter of `sanitize_filename`. */
  function Sanitize(title: string): (r: string)
    ensures forall i :: 0 <= i < |r| ==> IsValidChar(r[i])
    ensures |r| <= |title|
  {
    Lists.FilterMembers(IsValidChar, title);
    Lists.Filter(IsValidChar, title)
  }

  /** Every allowed character keeps its number of occurrences; every invalid one is gone. */
  lemma SanitizeCounts(title: string, c: char)
    ensures multiset(Sanitize(title))[c] == if IsValidChar(c) then multiset(title)[c] else 0
  {
    Lists.FilterCount(IsValidChar, title, c);
  }

  /** The filter works piece by piece, so the kept characters stay in their order. */
  lemma SanitizeConcat(a: string, b: string)
    ensures Sanitize(a + b) == Sanitize(a) + Sanitize(b)
  {
    Lists.FilterConcat(IsValidChar, a, b);
  }

  /** A name without invalid characters is left as it is. */
  lemma SanitizeKeepsValidName(title: string)
    requires forall i :: 0 <= i < |title| ==> IsValidChar(title[i])
    ensures Sanitize(title) == title
  {
    Lists.FilterKeepsAll(IsValidChar, title);
  }

  /** Sanitizing twice is sanitizing once. */
  lemma SanitizeIdempotent(title: string)
    ensures Sanitize(Sanitize(title)) == Sanitize(title)
  {
    Lists.FilterIdempotent(IsValidChar, title);
  }

  /** The name of the output file: the sanitized title, a dot, the extension. */
  function TargetName(title: string, fileExtension: string): string {
    Sanitize(title) + "." + fileExtension
  }

  /** `os.path.join(output_dir, f"{sanitize_filename(title)}.{file_extension}")`. */
  function TargetPath(title: string, fileExtension: string, outputDir: string): string {
    Paths.Join(outputDir, TargetName(title, fileExtension))
  }

  /** The target lies strictly inside the output directory's text and is never the directory itself. */
  lemma TargetPathInsideDir(title: string, fileExtension: string, outputDir: string)
    ensures outputDir <= TargetPath(title, fileExtension, outputDir)
    ensures |TargetPath(title, fileExtension, outputDir)| > |outputDir|
  {
    var name := TargetName(title, fileExtension);
    assert name[0] != '/' by {
      if Sanitize(title) == [] {
        assert name[0] == '.';
      } else {
        assert IsValidChar(Sanitize(title)[0]);
      }
    }
  }

  /** With a slash-free extension, the file name holds no `/`. */
  lemma TargetNameHasNoSlash(title: string, fileExtension: string)
    requires '/' !in fileExtension
    ensures '/' !in TargetName(title, fileExtension)
  {
    var s := Sanitize(title);
    var name := TargetName(title, fileExtension);
    forall i | 0 <= i < |name| ensures name[i] != '/' {
      if i < |s| {
        assert IsValidChar(s[i]);
      } else if i > |s| {
        assert name[i] == fileExtension[i - |s| - 1];
      }
    }
  }

  /** For a slash-free extension, the last path component is exactly the sanitized name. */
  lemma TargetPathBaseName(title: string, fileExtension: string, outputDir: string)
    requires '/' !in fileExtension
    ensures Paths.BaseName(TargetPath(title, fileExtension, outputDir)) == TargetName(title, fileExtension)
  {
    TargetNameHasNoSlash(title, fileExtension);
    Paths.BaseNameOfJoin(outputDir, TargetName(title, fileExtension));
  }

  datatype DownloadError =
    | DirectoryNotCreated(dir: string)  // os.makedirs refused the output directory
    | AlreadyExists(path: string)       // FileExistsError
    | RemoveFailed(path: string)        // os.remove refused the existing target
    | OpenFailed(path: string)          // open(path, 'wb') refused the target
    | ConnectionFailed                  // ConnectionError raised for a RequestException
    | BadContentLength                  // ValueError: int() of a Content-Length header that is no integer
    | ZeroDivision                      // ZeroDivisionError: the progress percentage of a zero total

  /**
    Whether `open(p, 'wb')` can create or truncate `p`: the path is not empty and not a
    directory, and its directory part is an existing directory (`""` is the working directory).
   */
  predicate CanOpen(dirs: set<string>, p: string) {
    p != "" && p !in dirs && (Paths.DirName(p) == "" || Paths.DirName(p) in dirs)
  }

  /** The directories and files that exist, with each file's content. */
  class FileSystem {
    var dirs: set<string>
    var files: map<string, Chunk>

    ghost predicate Valid()
      reads this
    {
      dirs !! files.Keys && "" !in dirs && "" !in files
    }

    /** `os.path.exists(p)`. */
    predicate Exists(p: string)
      reads this
    {
      p in dirs || p in files
    }

    constructor (dirs0: set<string>, files0: map<string, Chunk>)
      requires dirs0 !! files0.Keys && "" !in dirs0 && "" !in files0
      ensures Valid() && dirs == dirs0 && files == files0
    {
      dirs, files := dirs0, files0;
    }

    /** `os.makedirs(p)` for a path that does not exist yet; the empty path is refused. */
    method MakeDirs(p: string) returns (ok: bool)
      requires Valid() && !Exists(p)
      modifies this
      ensures Valid()
      ensures ok == (p != "")
      ensures dirs == if ok then old(dirs) + {p} else old(dirs)
      ensures files == old(files)
    {
      ok := p != "";
      if ok {
        dirs := dirs + {p};
      }
    }

    /** `os.remove(p)`: removes a file; a directory or a missing path is refused. */
    method Remove(p: string) returns (ok: bool)
      requires Valid()
      modifies this
      ensures Valid()
      ensures ok == (p in old(files))
      ensures files == old(files) - {p} && dirs == old(dirs)
    {
      ok := p in files;
      files := files - {p};
    }

    /**
      `open(p, 'wb')`: creates the file or empties it; the empty path, a directory, and a path
      whose directory part is missing or a file are refused.
     */
    method Create(p: string) returns (ok: bool)
      requires Valid()
      modifies this
      ensures Valid()
      ensures ok == CanOpen(old(dirs), p)
      ensures files == if ok then old(files)[p := []] else old(files)
      ensures dirs == old(dirs)
    {
      ok := CanOpen(dirs, p);
      if ok {
        files := files[p := []];
      }
    }

    /** `out_file.write(data)` on a file opened for writing. */
    method Append(p: string, data: Chunk)
      requires Valid() && p in files
      modifies this
      ensures Valid()
      ensures files == old(files)[p := old(files)[p] + data]
      ensures dirs == old(dirs)
    {
      files := files[p := files[p] + data];
    }
  }

  /**
    The pre-flight of `download_video`: create a missing output directory, build the target
    path, then apply the overwrite policy. Success carries the path the download will write.
   */
  method DownloadVideo(fs: FileSystem, title: string, fileExtension: string, outputDir: string,
                       overwriteOutput: bool)
    returns (r: Result<string, DownloadError>)
    requires fs.Valid()
    modifies fs
    ensures fs.Valid()
    ensures !old(fs.Exists(outputDir)) && outputDir == "" ==>
              r == Failure(DirectoryNotCreated(outputDir)) && fs.dirs == old(fs.dirs) && fs.files == old(fs.files)
    ensures old(fs.Exists(outputDir)) || outputDir != "" ==>
              var path := TargetPath(title, fileExtension, outputDir);
              && fs.Exists(outputDir)
              && fs.dirs == (if old(fs.Exists(outputDir)) then old(fs.dirs) else old(fs.dirs) + {outputDir})
              && (r == Failure(AlreadyExists(path)) <==> old(fs.Exists(path)) && !overwriteOutput)
              && (r == Failure(RemoveFailed(path)) <==> path in old(fs.dirs) && overwriteOutput)
              && (r == Success(path) <==> !old(fs.Exists(path)) || (path in old(fs.files) && overwriteOutput))
              && fs.files == (if path in old(fs.files) && overwriteOutput then old(fs.files) - {path} else old(fs.files))
    ensures r.Success? ==> !fs.Exists(r.value)
  {
    if !fs.Exists(outputDir) {
      var made := fs.MakeDirs(outputDir);
      if !made {
        return Failure(DirectoryNotCreated(outputDir));
      }
    }
    var filePath := TargetPath(title, fileExtension, outputDir);
    TargetPathInsideDir(title, fileExtension, outputDir);
    var fileExists := fs.Exists(filePath);
    if fileExists && overwriteOutput {
      var removed := fs.Remove(filePath);
      if !removed {
        return Failure(RemoveFailed(filePath));
      }
      fileExists := false;
    }
    if fileExists {
      return Failure(AlreadyExists(filePath));
    }
    r := Success(filePath);
  }

  /**
    What `requests.get(uri, stream=True)` delivers: a refused request, or a body read chunk by
    chunk, possibly breaking off after the last chunk listed, with its Content-Length header
    when the server sent one.
   */
  datatype Response =
    | RequestFailed  // connection error or an HTTP error status
    | Body(chunks: seq<Chunk>, failsAfter: bool, contentLength: Option<string>)

  predicate IsNonEmpty(c: Chunk) {
    |c| > 0
  }

  function ChunkLength(c: Chunk): nat {
    |c|
  }

  /** The chunks laid end to end. */
  function Flatten(cs: seq<Chunk>): Chunk {
    if cs == [] then [] else Flatten(cs[..|cs| - 1]) + cs[|cs| - 1]
  }

  /** The bytes the loop writes: each chunk in arrival order, skipping the empty ones. */
  function Written(cs: seq<Chunk>): Chunk {
    if cs == [] then []
    else Written(cs[..|cs| - 1]) + (if |cs[|cs| - 1]| > 0 then cs[|cs| - 1] else [])
  }

  /** The values the generator yields: the length of each non-empty chunk. */
  function Yields(cs: seq<Chunk>): seq<nat> {
    if cs == [] then []
    else Yields(cs[..|cs| - 1]) + (if |cs[|cs| - 1]| > 0 then [|cs[|cs| - 1]|] else [])
  }

  /** Skipping empty chunks loses no byte: the file holds the whole body. */
  lemma {:induction false} WrittenIsWholeBody(cs: seq<Chunk>)
    ensures Written(cs) == Flatten(cs)
  {
    if cs != [] {
      WrittenIsWholeBody(cs[..|cs| - 1]);
    }
  }

  /** The yields are exactly the lengths of the non-empty chunks, in order. */
  lemma {:induction false} YieldsAreChunkLengths(cs: seq<Chunk>)
    ensures Yields(cs) == Lists.Map(ChunkLength, Lists.Filter(IsNonEmpty, cs))
  {
    if cs != [] {
      var init := cs[..|cs| - 1];
      YieldsAreChunkLengths(init);
      var before := Lists.Filter(IsNonEmpty, init);
      assert cs == init + [cs[|cs| - 1]];
      if |cs[|cs| - 1]| > 0 {
        var after := before + [cs[|cs| - 1]];
        assert Lists.Filter(IsNonEmpty, cs) == after;
        assert after[..|after| - 1] == before;
      } else {
        assert Lists.Filter(IsNonEmpty, cs) == before;
      }
    }
  }

  /** The bytes written number exactly the sum of the yielded lengths. */
  lemma {:induction false} WrittenLength(cs: seq<Chunk>)
    ensures |Written(cs)| == Lists.Sum(Yields(cs))
  {
    if cs != [] {
      var init := cs[..|cs| - 1];
      WrittenLength(init);
      var y := Yields(cs);
      if |cs[|cs| - 1]| > 0 {
        assert y[..|y| - 1] == Yields(init);
      } else {
        assert y == Yields(init);
      }
    }
  }

  /** Every yielded length is positive. */
  lemma {:induction false} YieldsPositive(cs: seq<Chunk>)
    ensures forall i :: 0 <= i < |Yields(cs)| ==> Yields(cs)[i] > 0
  {
    if cs != [] {
      YieldsPositive(cs[..|cs| - 1]);
    }
  }

  /** So the running byte count reported after each chunk strictly increases. */
  lemma ProgressIncreases(cs: seq<Chunk>)
    ensures forall i, j :: 0 <= i < j < |Yields(cs)| ==>
              Lists.RunningSums(Yields(cs))[i] < Lists.RunningSums(Yields(cs))[j]
  {
    YieldsPositive(cs);
    Lists.RunningSumsIncrease(Yields(cs));
  }

  /** One more chunk extends the written bytes and the yields only when it is non-empty. */
  lemma ChunkStep(cs: seq<Chunk>, c: Chunk)
    ensures |c| > 0 ==> Written(cs + [c]) == Written(cs) + c
    ensures |c| > 0 ==> Yields(cs + [c]) == Yields(cs) + [|c|]
    ensures |c| == 0 ==> Written(cs + [c]) == Written(cs)
    ensures |c| == 0 ==> Yields(cs + [c]) == Yields(cs)
  {
    assert (cs + [c])[..|cs|] == cs;
  }

  lemma RunningSumsStep(s: seq<nat>, sums: seq<nat>, total: nat, x: nat)
    requires sums == Lists.RunningSums(s) && total == Lists.Sum(s)
    ensures sums + [total + x] == Lists.RunningSums(s + [x])
    ensures total + x == Lists.Sum(s + [x])
  {
    assert (s + [x])[..|s|] == s;
  }

  /**
    One pass of the chunk loop of `download_generator`: a non-empty chunk is appended to the
    file, counted, reported to `capture_chunks` (when given) and yielded; an empty one is skipped.
    `seen` is the list of chunks handled before this one.
   */
  method WriteChunk(fs: FileSystem, path: string, chunk: Chunk, captureChunks: bool, ghost seen: seq<Chunk>,
                    yielded: seq<nat>, captured: seq<nat>, progress: seq<nat>, downloaded: nat)
    returns (yielded': seq<nat>, captured': seq<nat>, progress': seq<nat>, downloaded': nat)
    requires fs.Valid() && path in fs.files && fs.files[path] == Written(seen)
    requires yielded == Yields(seen) && captured == (if captureChunks then yielded else [])
    requires progress == Lists.RunningSums(yielded) && downloaded == Lists.Sum(yielded)
    modifies fs
    ensures fs.Valid() && fs.dirs == old(fs.dirs)
    ensures fs.files == old(fs.files)[path := Written(seen + [chunk])]
    ensures yielded' == Yields(seen + [chunk])
    ensures captured' == (if captureChunks then yielded' else [])
    ensures progress' == Lists.RunningSums(yielded') && downloaded' == Lists.Sum(yielded')
  {
    ChunkStep(seen, chunk);
    yielded', captured', progress', downloaded' := yielded, captured, progress, downloaded;
    if |chunk| > 0 {
      RunningSumsStep(yielded, progress, downloaded, |chunk|);
      fs.Append(path, chunk);
      var chunkSize := |chunk|;
      downloaded' := downloaded + chunkSize;
      if captureChunks {
        captured' := captured + [chunkSize];
      }
      progress' := progress + [downloaded'];
      yielded' := yielded + [chunkSize];
    } else {
      assert old(fs.files)[path := Written(seen + [chunk])] == old(fs.files);
    }
  }

  /**
    The `for chunk in response.iter_content(...)` loop of `download_generator`, on a file just
    opened for writing: every chunk goes through `WriteChunk`. `progress` lists the counter
    after each written chunk.
   */
  method WriteChunks(fs: FileSystem, path: string, chunks: seq<Chunk>, captureChunks: bool)
    returns (yielded: seq<nat>, captured: seq<nat>, progress: seq<nat>, downloaded: nat)
    requires fs.Valid() && path in fs.files && fs.files[path] == []
    modifies fs
    ensures fs.Valid() && fs.dirs == old(fs.dirs)
    ensures fs.files == old(fs.files)[path := Written(chunks)]
    ensures yielded == Yields(chunks)
    ensures captured == (if captureChunks then yielded else [])
    ensures progress == Lists.RunningSums(yielded)
    ensures downloaded == Lists.Sum(yielded) == |Written(chunks)|
  {
    ghost var files0 := fs.files;
    yielded, captured, progress, downloaded := [], [], [], 0;
    var i := 0;
    ghost var seen: seq<Chunk> := [];
    assert chunks[..0] == [];
    while i < |chunks|
      invariant 0 <= i <= |chunks|
      invariant seen == chunks[..i]
      invariant fs.Valid() && fs.dirs == old(fs.dirs)
      invariant fs.files == files0[path := Written(seen)]
      invariant yielded == Yields(seen)
      invariant captured == (if captureChunks then yielded else [])
      invariant progress == Lists.RunningSums(yielded)
      invariant downloaded == Lists.Sum(yielded)
    {
      Lists.UpdateTwice(files0, path, Written(seen), Written(seen + [chunks[i]]));
      yielded, captured, progress, downloaded :=
        WriteChunk(fs, path, chunks[i], captureChunks, seen, yielded, captured, progress, downloaded);
      Lists.TakeStep(chunks, i);
      seen := seen + [chunks[i]];
      i := i + 1;
    }
    Lists.TakeStep(chunks, i);
    WrittenLength(chunks);
  }

  /** `int(response.headers.get('content-length', 0))`: a missing header counts as 0. */
  function TotalLength(header: Option<string>): Option<int> {
    if header.None? then Some(0) else Numbers.ParseInt(header.value)
  }

  /**
    With `logs` set, each pass computes `downloaded / total_length` after writing and counting
    its chunk. With a zero total, the first non-empty chunk raises ZeroDivisionError there,
    before it is yielded.
   */
  predicate DividesByZero(response: Response, logs: bool) {
    && response.Body? && logs && TotalLength(response.contentLength) == Some(0)
    && exists i :: 0 <= i < |response.chunks| && |response.chunks[i]| > 0
  }

  /** The position of the first non-empty chunk. */
  function FirstNonEmpty(cs: seq<Chunk>): (k: nat)
    requires exists i :: 0 <= i < |cs| && |cs[i]| > 0
    ensures k < |cs| && |cs[k]| > 0 && forall j :: 0 <= j < k ==> |cs[j]| == 0
  {
    if |cs[0]| > 0 then 0
    else
      assert forall i :: 0 < i < |cs| ==> cs[1..][i - 1] == cs[i];
      1 + FirstNonEmpty(cs[1..])
  }

  /** The chunks the loop goes through: all of them, or up to the one whose progress line fails. */
  function Handled(response: Response, logs: bool): seq<Chunk>
    requires response.Body?
  {
    if DividesByZero(response, logs) then response.chunks[..FirstNonEmpty(response.chunks) + 1]
    else response.chunks
  }

  /** The request succeeded, the header parsed and `open` succeeded: the chunk loop runs. */
  predicate Opens(dirs: set<string>, path: string, response: Response) {
    response.Body? && TotalLength(response.contentLength).Some? && CanOpen(dirs, path)
  }

  /** The exception `download_generator` ends with, in the order the source meets them. */
  function GeneratorError(dirs: set<string>, path: string, response: Response, logs: bool): Option<DownloadError> {
    if response.RequestFailed? then Some(ConnectionFailed)
    else if TotalLength(response.contentLength).None? then Some(BadContentLength)
    else if !CanOpen(dirs, path) then Some(OpenFailed(path))
    else if DividesByZero(response, logs) then Some(ZeroDivision)
    else if response.failsAfter then Some(ConnectionFailed)
    else None
  }

  /** The files once `download_generator` has run: an opened target holds what the loop wrote. */
  function GeneratorFiles(files: map<string, Chunk>, dirs: set<string>, path: string, response: Response,
                          logs: bool): map<string, Chunk>
  {
    if Opens(dirs, path, response) then files[path := Written(Handled(response, logs))] else files
  }

  /** Chunks that are all empty write and yield nothing. */
  lemma {:induction false} EmptyChunksWriteNothing(cs: seq<Chunk>)
    requires forall j :: 0 <= j < |cs| ==> |cs[j]| == 0
    ensures Written(cs) == [] && Yields(cs) == []
  {
    if cs != [] {
      EmptyChunksWriteNothing(cs[..|cs| - 1]);
    }
  }

  /**
    With `logs` set and a zero or missing Content-Length, an opened target ends holding exactly
    the first non-empty chunk, which was counted but not yielded, and the generator raises
    ZeroDivisionError.
   */
  lemma ZeroLengthWritesFirstChunk(files: map<string, Chunk>, dirs: set<string>, path: string, response: Response)
    requires DividesByZero(response, true) && CanOpen(dirs, path)
    ensures GeneratorError(dirs, path, response, true) == Some(ZeroDivision)
    ensures var k := FirstNonEmpty(response.chunks);
            && GeneratorFiles(files, dirs, path, response, true) == files[path := response.chunks[k]]
            && Yields(Handled(response, true)) == [|response.chunks[k]|]
  {
    FirstChunkOnly(response.chunks);
  }

  /** Up to the first non-empty chunk, the loop writes and yields that chunk only. */
  lemma FirstChunkOnly(cs: seq<Chunk>)
    requires exists i :: 0 <= i < |cs| && |cs[i]| > 0
    ensures var k := FirstNonEmpty(cs);
            Written(cs[..k + 1]) == cs[k] && Yields(cs[..k + 1]) == [|cs[k]|]
  {
    var k := FirstNonEmpty(cs);
    assert cs[..k + 1] == cs[..k] + [cs[k]];
    assert forall j :: 0 <= j < k ==> cs[..k][j] == cs[j];
    EmptyChunksWriteNothing(cs[..k]);
    ChunkStep(cs[..k], cs[k]);
    assert Written(cs[..k + 1]) == [] + cs[k];
  }

  /**
    When the generator ends normally or with the connection breaking off after the body, the
    target holds the whole body.
   */
  lemma GeneratorWritesWholeBody(files: map<string, Chunk>, dirs: set<string>, path: string, response: Response,
                                 logs: bool)
    requires response.Body?
    requires GeneratorError(dirs, path, response, logs).None? || GeneratorError(dirs, path, response, logs) == Some(ConnectionFailed)
    ensures GeneratorFiles(files, dirs, path, response, logs) == files[path := Flatten(response.chunks)]
    ensures GeneratorError(dirs, path, response, logs) == if response.failsAfter then Some(ConnectionFailed) else None
  {
    WrittenIsWholeBody(response.chunks);
  }

  /**
    For an output directory without a trailing slash and a slash-free extension, the target
    can be opened exactly when the output directory is an existing directory and the target is
    not one: an output directory that is a file makes `open` fail.
   */
  lemma TargetNeedsOutputDir(dirs: set<string>, title: string, fileExtension: string, outputDir: string)
    requires outputDir != "" && outputDir[|outputDir| - 1] != '/' && '/' !in fileExtension
    ensures var path := TargetPath(title, fileExtension, outputDir);
            CanOpen(dirs, path) <==> outputDir in dirs && path !in dirs
  {
    TargetNameHasNoSlash(title, fileExtension);
    TargetPathInsideDir(title, fileExtension, outputDir);
    Paths.DirNameOfJoin(outputDir, TargetName(title, fileExtension));
  }

  /**
    What the chunk loop reports for the chunks it went through: the yielded lengths (none when
    it stopped at the division), the lengths given to `capture_chunks`, the counter after each
    written chunk, and the final `downloaded`, which is the number of bytes written.
   */
  predicate LoopReports(response: Response, logs: bool, captureChunks: bool,
                        yielded: seq<nat>, captured: seq<nat>, progress: seq<nat>, downloaded: nat)
    requires response.Body?
  {
    var handled := Handled(response, logs);
    && yielded == (if DividesByZero(response, logs) then [] else Yields(handled))
    && captured == (if captureChunks then Yields(handled) else [])
    && progress == Lists.RunningSums(Yields(handled))
    && downloaded == Lists.Sum(Yields(handled)) == |Written(handled)|
  }

  /**
    `download_generator`: issue the request, read the Content-Length header, open the target
    for writing, run the chunk loop. A refused request and a body that breaks off both end in
    `ConnectionError`; the header's ValueError, an `open` failure and the progress line's
    ZeroDivisionError are not caught. With a zero total the loop stops at the first non-empty
    chunk: it is written and counted, and the division raises before its yield.
   */
  method DownloadGenerator(fs: FileSystem, path: string, response: Response, logs: bool, captureChunks: bool)
    returns (yielded: seq<nat>, captured: seq<nat>, progress: seq<nat>, downloaded: nat,
             error: Option<DownloadError>)
    requires fs.Valid()
    modifies fs
    ensures fs.Valid() && fs.dirs == old(fs.dirs)
    ensures fs.files == GeneratorFiles(old(fs.files), old(fs.dirs), path, response, logs)
    ensures error == GeneratorError(old(fs.dirs), path, response, logs)
    ensures if Opens(old(fs.dirs), path, response)
            then LoopReports(response, logs, captureChunks, yielded, captured, progress, downloaded)
            else yielded == [] && captured == [] && downloaded == 0
  {
    yielded, captured, progress, downloaded := [], [], [], 0;
    if response.RequestFailed? {
      return yielded, captured, progress, downloaded, Some(ConnectionFailed);
    }
    var totalLength := TotalLength(response.contentLength);
    if totalLength.None? {
      return yielded, captured, progress, downloaded, Some(BadContentLength);
    }
    yielded, captured, progress, downloaded, error := OpenAndWrite(fs, path, response, totalLength.value, logs, captureChunks);
  }

  /** The `open` of the target, then the chunk loop when it succeeded. */
  method OpenAndWrite(fs: FileSystem, path: string, response: Response, totalLength: int, logs: bool, captureChunks: bool)
    returns (yielded: seq<nat>, captured: seq<nat>, progress: seq<nat>, downloaded: nat,
             error: Option<DownloadError>)
    requires fs.Valid()
    requires response.Body? && TotalLength(response.contentLength) == Some(totalLength)
    modifies fs
    ensures fs.Valid() && fs.dirs == old(fs.dirs)
    ensures fs.files == GeneratorFiles(old(fs.files), old(fs.dirs), path, response, logs)
    ensures error == GeneratorError(old(fs.dirs), path, response, logs)
    ensures if Opens(old(fs.dirs), path, response)
            then LoopReports(response, logs, captureChunks, yielded, captured, progress, downloaded)
            else yielded == [] && captured == [] && downloaded == 0
  {
    var created := fs.Create(path);
    if !created {
      return [], [], [], 0, Some(OpenFailed(path));
    }
    ghost var files1 := fs.files;
    assert files1 == old(fs.files)[path := []];
    yielded, captured, progress, downloaded, error := WriteBody(fs, path, response, totalLength, logs, captureChunks);
    assert files1[path := Written(Handled(response, logs))] == old(fs.files)[path := Written(Handled(response, logs))];
  }

  /**
    The part of `download_generator` after `open`: the chunk loop on the body, which stops at
    the progress line when it divides by a zero total, then the mid-stream error, if any.
   */
  method WriteBody(fs: FileSystem, path: string, response: Response, totalLength: int, logs: bool, captureChunks: bool)
    returns (yielded: seq<nat>, captured: seq<nat>, progress: seq<nat>, downloaded: nat,
             error: Option<DownloadError>)
    requires fs.Valid() && path in fs.files && fs.files[path] == []
    requires response.Body? && TotalLength(response.contentLength) == Some(totalLength)
    modifies fs
    ensures fs.Valid() && fs.dirs == old(fs.dirs)
    ensures fs.files == old(fs.files)[path := Written(Handled(response, logs))]
    ensures error == if DividesByZero(response, logs) then Some(ZeroDivision)
                     else if response.failsAfter then Some(ConnectionFailed) else None
    ensures LoopReports(response, logs, captureChunks, yielded, captured, progress, downloaded)
  {
    var chunks := response.chunks;
    var divides := logs && totalLength == 0 && exists i :: 0 <= i < |chunks| && |chunks[i]| > 0;
    assert divides == DividesByZero(response, logs);
    if divides {
      chunks := chunks[..FirstNonEmpty(chunks) + 1];
    }
    assert chunks == Handled(response, logs);
    yielded, captured, progress, downloaded := WriteChunks(fs, path, chunks, captureChunks);
    if divides {
      // The division comes before the yield of the last pass.
      return [], captured, progress, downloaded, Some(ZeroDivision);
    }
    error := if response.failsAfter then Some(ConnectionFailed) else None;
  }

  /**
    `download_video` with `logs` set: the pre-flight, then the whole generator, then the path.
    `requested` tells whether the HTTP request was issued at all, and `captured` holds the lengths
    given to `capture_chunks`.
   */
  method DownloadWithLogs(fs: FileSystem, title: string, uriResponse: Response, fileExtension: string,
                          outputDir: string, overwriteOutput: bool, captureChunks: bool)
    returns (r: Result<string, DownloadError>, requested: bool, captured: seq<nat>)
    requires fs.Valid()
    modifies fs
    ensures fs.Valid()
    ensures var path := TargetPath(title, fileExtension, outputDir);
            var dirReady := old(fs.Exists(outputDir)) || outputDir != "";
            var dirs1 := if old(fs.Exists(outputDir)) then old(fs.dirs) else old(fs.dirs) + {outputDir};
            var files1 := if path in old(fs.files) && overwriteOutput then old(fs.files) - {path} else old(fs.files);
            && (!dirReady ==>
                  r == Failure(DirectoryNotCreated(outputDir)) && !requested &&
                  fs.dirs == old(fs.dirs) && fs.files == old(fs.files))
            && (dirReady ==> fs.dirs == dirs1)
            && (dirReady && old(fs.Exists(path)) && !overwriteOutput ==>
                  r == Failure(AlreadyExists(path)) && !requested && fs.files == old(fs.files))
            && (dirReady && path in old(fs.dirs) && overwriteOutput ==>
                  r == Failure(RemoveFailed(path)) && !requested && fs.files == old(fs.files))
            && (requested <==> dirReady && (!old(fs.Exists(path)) || (path in old(fs.files) && overwriteOutput)))
            && (requested ==>
                  && fs.files == GeneratorFiles(files1, dirs1, path, uriResponse, true)
                  && r == match GeneratorError(dirs1, path, uriResponse, true)
                          case None => Success(path)
                          case Some(e) => Failure(e))
            && (if requested && Opens(dirs1, path, uriResponse)
                then captured == if captureChunks then Yields(Handled(uriResponse, true)) else []
                else captured == [])
    ensures r.Success? ==>
              && requested && uriResponse.Body? && !uriResponse.failsAfter
              && r.value == TargetPath(title, fileExtension, outputDir)
              && r.value in fs.files && fs.files[r.value] == Flatten(uriResponse.chunks)
  {
    var prepared := DownloadVideo(fs, title, fileExtension, outputDir, overwriteOutput);
    if prepared.Failure? {
      return Failure(prepared.error), false, [];
    }
    var path := prepared.value;
    ghost var files1, dirs1 := fs.files, fs.dirs;
    var yielded, progress, downloaded, error;
    yielded, captured, progress, downloaded, error := DownloadGenerator(fs, path, uriResponse, true, captureChunks);
    requested := true;
    if error.Some? {
      return Failure(error.value), requested, captured;
    }
    GeneratorWritesWholeBody(files1, dirs1, path, uriResponse, true);
    r := Success(path);
  }
}
