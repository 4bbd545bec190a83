/**
 * The file chunker: splitting a local file into numbered chunk files inside the
 * shared chunks directory, rolling back on failure, reading one chunk back
 * through a bounded reader, and cleaning the chunk files up afterwards.
 *
 * The local file system is modelled by `ChunkDir` (the names of the regular
 * files in the chunks directory and whether the directory exists); what the
 * operating system answers to a read, a write or a seek is a parameter.
 */
module Chunker {
  import opened Wrappers
  import opened Text

  // The values of ChunkResult.Error.
  const ErrorNone: string := ""
  const ErrorFileOpen: string := "FILE_OPEN_FAILED"
  const ErrorChunkWrite: string := "CHUNK_WRITE_FAILED"
  const ErrorFileRead: string := "FILE_READ_FAILED"

  // io.SeekStart, io.SeekCurrent, io.SeekEnd.
  const SeekStart: int := 0
  const SeekCurrent: int := 1
  const SeekEnd: int := 2

  /** One part of the source file; `index` is the 1-based S3 part number. */
  datatype Chunk = Chunk(index: int, offset: int, size: int, filePath: string)

  datatype ChunkResult = ChunkResult(chunks: seq<Chunk>, error: string)

  datatype FileChunker = FileChunker(filePath: string, fileSize: int, chunkSize: int)

  /** The outcome of one file.Read: bytes delivered and the error reported with them. */
  datatype ReadError = NoError | EOF | ReadFailed
  datatype ReadOutcome = ReadOutcome(n: nat, err: ReadError)

  /** The outcome of writing one chunk file: written, or failed (possibly leaving a partial file). */
  datatype WriteOutcome = Written | WriteFailed(leftPartial: bool)

  /**
   * NewFileChunker: a file that cannot be stat'ed is an error; a chunk size that
   * is zero or negative is replaced by the configured default. `stat` is the
   * file's size, or None when os.Stat fails.
   */
  function NewFileChunker(filePath: string, stat: Option<nat>, chunkSize: int, defaultChunkSize: int): (r: Result<FileChunker, string>)
    requires defaultChunkSize > 0
    ensures r.Err? <==> stat.None?
    ensures r.Ok? ==> r.value.filePath == filePath && r.value.fileSize == stat.value
    ensures r.Ok? ==> r.value.chunkSize > 0
    ensures r.Ok? && chunkSize > 0 ==> r.value.chunkSize == chunkSize
    ensures r.Ok? && chunkSize <= 0 ==> r.value.chunkSize == defaultChunkSize
  {
    match stat
    case None => Err("failed to get file info")
    case Some(size) => Ok(FileChunker(filePath, size, if chunkSize <= 0 then defaultChunkSize else chunkSize))
  }

  /** The name of chunk number k (0-based) of the file whose base name is `base`. */
  function ChunkName(base: string, k: int): string {
    base + "_chunk" + IntToString(k)
  }

  /** The names of chunks 0 .. count-1. */
  function ChunkNames(base: string, count: int): set<string> {
    set k | 0 <= k < count :: ChunkName(base, k)
  }

  /** Different chunk numbers give different file names. */
  lemma ChunkNameInjective(base: string, a: int, b: int)
    requires ChunkName(base, a) == ChunkName(base, b)
    ensures a == b
  {
    var p := base + "_chunk";
    assert (p + IntToString(a))[|p|..] == IntToString(a);
    assert (p + IntToString(b))[|p|..] == IntToString(b);
    IntToStringInjective(a, b);
  }

  lemma ChunkNamesNext(base: string, count: nat)
    ensures ChunkNames(base, count + 1) == ChunkNames(base, count) + {ChunkName(base, count)}
    ensures ChunkName(base, count) !in ChunkNames(base, count)
  {
    if ChunkName(base, count) in ChunkNames(base, count) {
      var k :| 0 <= k < count && ChunkName(base, k) == ChunkName(base, count);
      ChunkNameInjective(base, k, count);
    }
  }

  /** Every chunk file name starts with the prefix CleanupChunks looks for. */
  lemma ChunkNameHasCleanupPrefix(base: string, k: int)
    ensures HasPrefix(ChunkName(base, k), base + "_chunk")
  {
    assert ChunkName(base, k)[..|base + "_chunk"|] == base + "_chunk";
  }

  /**
   * The chunks a successful split produces: part numbers 1, 2, ...; each chunk
   * starts at its position times the chunk size; no chunk is empty or larger
   * than the buffer; all refer to the same source file.
   */
  ghost predicate WellFormed(chunks: seq<Chunk>, chunkSize: int, filePath: string) {
    forall j :: 0 <= j < |chunks| ==>
      chunks[j].index == j + 1 && chunks[j].offset == j * chunkSize
      && 0 < chunks[j].size <= chunkSize && chunks[j].filePath == filePath
  }

  function SumSizes(chunks: seq<Chunk>): int {
    if |chunks| == 0 then 0 else SumSizes(chunks[..|chunks| - 1]) + chunks[|chunks| - 1].size
  }

  /** The bytes delivered by the first k reads. */
  function TotalRead(answers: seq<ReadOutcome>, k: nat): nat
    requires k <= |answers|
  {
    if k == 0 then 0 else TotalRead(answers, k - 1) + answers[k - 1].n
  }

  /**
   * What an io.Reader may answer to reads into a buffer of `bufLen` bytes: never
   * more than the buffer, and eventually an end of file or an error.
   */
  predicate ReaderContract(answers: seq<ReadOutcome>, bufLen: int) {
    && (forall i :: 0 <= i < |answers| ==> answers[i].n <= bufLen)
    && |answers| > 0 && answers[|answers| - 1].err != NoError
  }

  /** The position of the first read that reports end of file or an error. */
  function FirstStop(answers: seq<ReadOutcome>): (k: nat)
    requires |answers| > 0 && answers[|answers| - 1].err != NoError
    ensures k < |answers| && answers[k].err != NoError
    ensures forall j :: 0 <= j < k ==> answers[j].err == NoError
  {
    if answers[0].err != NoError then 0 else 1 + FirstStop(answers[1..])
  }

  /**
   * The chunks the first k reads make when every chunk file is written: one
   * per non-empty read, numbered from 1, each at its position times the chunk
   * size and as large as the read.
   */
  function Built(chunkSize: int, filePath: string, answers: seq<ReadOutcome>, k: nat): seq<Chunk>
    requires k <= |answers|
  {
    if k == 0 then []
    else
      var c := Built(chunkSize, filePath, answers, k - 1);
      if answers[k - 1].n > 0 then c + [Chunk(|c| + 1, |c| * chunkSize, answers[k - 1].n, filePath)] else c
  }

  /** The writes of chunks 0 .. count-1 all succeed. */
  ghost predicate WrittenBelow(writes: nat -> WriteOutcome, count: nat) {
    forall j :: 0 <= j < count ==> writes(j) == Written
  }

  /** The write of chunk k fails, leaving a partial file behind exactly when `partial`. */
  ghost predicate FailsAt(writes: nat -> WriteOutcome, k: nat, partial: bool) {
    writes(k) != Written && writes(k).leftPartial == partial
  }

  /** One more write extends the successful writes, or is the failing one. */
  lemma WriteStep(writes: nat -> WriteOutcome, k: nat)
    requires WrittenBelow(writes, k)
    ensures writes(k) == Written ==> WrittenBelow(writes, k + 1)
    ensures writes(k) != Written ==> FailsAt(writes, k, writes(k).leftPartial)
  {
  }

  /** Every chunk file the first k reads make is written successfully. */
  ghost predicate AllWritten(chunkSize: int, filePath: string, answers: seq<ReadOutcome>, writes: nat -> WriteOutcome, k: nat)
    requires k <= |answers|
  {
    WrittenBelow(writes, |Built(chunkSize, filePath, answers, k)|)
  }

  /** The split succeeds once the file is open: every chunk file is written and the reads stop at end of file. */
  ghost predicate SplitSucceeds(chunkSize: int, filePath: string, answers: seq<ReadOutcome>, writes: nat -> WriteOutcome)
    requires |answers| > 0 && answers[|answers| - 1].err != NoError
  {
    && AllWritten(chunkSize, filePath, answers, writes, FirstStop(answers) + 1)
    && answers[FirstStop(answers)].err == EOF
  }

  /** What Chunks returns: the chunks of a successful split, and none otherwise. */
  ghost function SplitChunks(chunkSize: int, filePath: string, openOk: bool, answers: seq<ReadOutcome>,
                             writes: nat -> WriteOutcome): seq<Chunk>
    requires |answers| > 0 && answers[|answers| - 1].err != NoError
  {
    if openOk && SplitSucceeds(chunkSize, filePath, answers, writes)
    then Built(chunkSize, filePath, answers, FirstStop(answers) + 1)
    else []
  }

  /** The chunks of fewer reads are a prefix of the chunks of more. */
  lemma {:induction false} BuiltPrefix(chunkSize: int, filePath: string, answers: seq<ReadOutcome>, k: nat, k': nat)
    requires k <= k' <= |answers|
    ensures Built(chunkSize, filePath, answers, k) <= Built(chunkSize, filePath, answers, k')
  {
    if k < k' {
      BuiltPrefix(chunkSize, filePath, answers, k, k' - 1);
    }
  }

  /**
   * A write that fails at read i, before the reads stop, is one of the writes
   * the whole split needs: the chunks written so far are a prefix of the
   * split's chunks, and not all of them are written.
   */
  lemma WriteFailureStops(chunkSize: int, filePath: string, answers: seq<ReadOutcome>, writes: nat -> WriteOutcome, i: nat)
    requires |answers| > 0 && answers[|answers| - 1].err != NoError
    requires i <= FirstStop(answers) && answers[i].n > 0
    requires writes(|Built(chunkSize, filePath, answers, i)|) != Written
    ensures Built(chunkSize, filePath, answers, i) <= Built(chunkSize, filePath, answers, FirstStop(answers) + 1)
    ensures !AllWritten(chunkSize, filePath, answers, writes, FirstStop(answers) + 1)
  {
    var s := FirstStop(answers);
    BuiltPrefix(chunkSize, filePath, answers, i, s + 1);
    BuiltPrefix(chunkSize, filePath, answers, i + 1, s + 1);
    assert |Built(chunkSize, filePath, answers, i + 1)| == |Built(chunkSize, filePath, answers, i)| + 1;
  }

  /**
   * Where the read/write loop stops says how the split ends: at end of file
   * exactly when every needed write succeeds and the reads end with EOF, at a
   * failed write exactly when one of the needed writes fails, and otherwise
   * at a failed read. At end of file the chunks are all the split's chunks.
   */
  lemma StopClassified(chunkSize: int, filePath: string, answers: seq<ReadOutcome>, writes: nat -> WriteOutcome,
                       chunks: seq<Chunk>, stop: ReadError, at: nat)
    requires ReaderContract(answers, chunkSize)
    requires at <= FirstStop(answers) + 1 && chunks == Built(chunkSize, filePath, answers, at)
    requires WrittenBelow(writes, |chunks|)
    requires stop != NoError ==> at == FirstStop(answers) + 1 && stop == answers[FirstStop(answers)].err
    requires stop == NoError ==> at <= FirstStop(answers) && answers[at].n > 0 && writes(|chunks|) != Written
    ensures stop == EOF <==> SplitSucceeds(chunkSize, filePath, answers, writes)
    ensures stop == NoError <==> !AllWritten(chunkSize, filePath, answers, writes, FirstStop(answers) + 1)
    ensures stop == ReadFailed <==>
              AllWritten(chunkSize, filePath, answers, writes, FirstStop(answers) + 1)
              && answers[FirstStop(answers)].err == ReadFailed
    ensures stop == EOF ==>
              && chunks == Built(chunkSize, filePath, answers, FirstStop(answers) + 1)
              && WellFormed(chunks, chunkSize, filePath)
              && SumSizes(chunks) == TotalRead(answers, FirstStop(answers) + 1)
  {
    var s := FirstStop(answers);
    if stop == NoError {
      WriteFailureStops(chunkSize, filePath, answers, writes, at);
    } else {
      assert AllWritten(chunkSize, filePath, answers, writes, s + 1);
      BuiltCoversReads(chunkSize, filePath, answers, s + 1);
    }
  }

  /**
   * The chunks the reads make are well formed and hold every byte read: each
   * chunk file is one read, and together they are the file up to the stop.
   */
  lemma {:induction false} BuiltCoversReads(chunkSize: int, filePath: string, answers: seq<ReadOutcome>, k: nat)
    requires k <= |answers|
    requires forall i :: 0 <= i < k ==> answers[i].n <= chunkSize
    ensures WellFormed(Built(chunkSize, filePath, answers, k), chunkSize, filePath)
    ensures SumSizes(Built(chunkSize, filePath, answers, k)) == TotalRead(answers, k)
  {
    if k > 0 {
      var c := Built(chunkSize, filePath, answers, k - 1);
      BuiltCoversReads(chunkSize, filePath, answers, k - 1);
      var n := answers[k - 1].n;
      if n > 0 {
        AppendChunk(c, chunkSize, filePath, n);
        assert Built(chunkSize, filePath, answers, k) == c + [Chunk(|c| + 1, |c| * chunkSize, n, filePath)];
      } else {
        assert Built(chunkSize, filePath, answers, k) == c;
      }
      assert TotalRead(answers, k) == TotalRead(answers, k - 1) + n;
    }
  }

  /** A successful split holds the file's bytes up to end of file, in well-formed chunks. */
  lemma SplitChunksCoverFile(chunkSize: int, filePath: string, openOk: bool, answers: seq<ReadOutcome>,
                             writes: nat -> WriteOutcome)
    requires ReaderContract(answers, chunkSize)
    ensures var cs := SplitChunks(chunkSize, filePath, openOk, answers, writes);
      && WellFormed(cs, chunkSize, filePath)
      && (cs != [] ==> SumSizes(cs) == TotalRead(answers, FirstStop(answers) + 1) && answers[FirstStop(answers)].err == EOF)
  {
    var s := FirstStop(answers);
    var cs := SplitChunks(chunkSize, filePath, openOk, answers, writes);
    if cs != [] {
      assert cs == Built(chunkSize, filePath, answers, s + 1) && answers[s].err == EOF;
      BuiltCoversReads(chunkSize, filePath, answers, s + 1);
    }
  }

  lemma FirstStopAt(answers: seq<ReadOutcome>, i: nat)
    requires |answers| > 0 && answers[|answers| - 1].err != NoError
    requires i < |answers| && answers[i].err != NoError
    requires forall j :: 0 <= j < i ==> answers[j].err == NoError
    ensures FirstStop(answers) == i
  {
  }

  /**
   * When every chunk but the last is full, each chunk's recorded offset is the
   * position in the source file where its bytes begin: the sizes of the chunks
   * before it add up to it.
   */
  lemma {:induction false} OffsetIsFilePosition(chunks: seq<Chunk>, chunkSize: int, filePath: string, j: nat)
    requires WellFormed(chunks, chunkSize, filePath)
    requires forall i :: 0 <= i < |chunks| - 1 ==> chunks[i].size == chunkSize
    requires j < |chunks|
    ensures chunks[j].offset == SumSizes(chunks[..j])
  {
    if j > 0 {
      OffsetIsFilePosition(chunks, chunkSize, filePath, j - 1);
      assert chunks[..j][..j - 1] == chunks[..j - 1];
    }
  }

  /** A successful split never produces more bytes than the chunk sizes allow. */
  lemma {:induction false} SumSizesBound(chunks: seq<Chunk>, chunkSize: int, filePath: string)
    requires WellFormed(chunks, chunkSize, filePath)
    ensures |chunks| <= SumSizes(chunks) <= |chunks| * chunkSize
  {
    if |chunks| > 0 {
      var init := chunks[..|chunks| - 1];
      assert WellFormed(init, chunkSize, filePath) by {
        forall j | 0 <= j < |init| ensures init[j] == chunks[j] { }
      }
      SumSizesBound(init, chunkSize, filePath);
    }
  }

  lemma AppendChunk(chunks: seq<Chunk>, chunkSize: int, filePath: string, n: nat)
    requires WellFormed(chunks, chunkSize, filePath)
    requires 0 < n <= chunkSize
    ensures WellFormed(chunks + [Chunk(|chunks| + 1, |chunks| * chunkSize, n, filePath)], chunkSize, filePath)
    ensures SumSizes(chunks + [Chunk(|chunks| + 1, |chunks| * chunkSize, n, filePath)]) == SumSizes(chunks) + n
  {
    var c := Chunk(|chunks| + 1, |chunks| * chunkSize, n, filePath);
    assert (chunks + [c])[..|chunks|] == chunks;
  }

  /**
   * What a rollback after a failure leaves of the directory: the files that
   * were there before, minus the names removed again, plus the names whose
   * removal failed and a partial file.
   */
  lemma RollbackLeaves(before: set<string>, names: set<string>, fails: set<string>, leftover: set<string>)
    requires names !! leftover
    ensures (before + names + leftover) - (names - fails) == (before - (names - fails)) + (names * fails) + leftover
  {
  }

  /**
   * One more rollback removal: the files left are the earlier ones minus the
   * names removed so far, whether or not this removal succeeded.
   */
  lemma RemovedOneMore(before: set<string>, names: set<string>, fails: set<string>, name: string, removed: bool)
    requires name !in names
    requires removed <==> name in before - (names - fails) && name !in fails
    ensures (if removed then (before - (names - fails)) - {name} else before - (names - fails))
            == before - ((names + {name}) - fails)
  {
  }

  /** The name GetChunkReader opens for a chunk. */
  function ChunkFileName(c: Chunk): string {
    ChunkName(PathBase(c.filePath), c.index - 1)
  }

  /** GetChunkReader opens exactly the file the split wrote for that part. */
  lemma ChunkFileNameRoundTrip(chunks: seq<Chunk>, chunkSize: int, filePath: string, j: nat)
    requires WellFormed(chunks, chunkSize, filePath)
    requires j < |chunks|
    ensures ChunkFileName(chunks[j]) in ChunkNames(PathBase(filePath), |chunks|)
    ensures ChunkFileName(chunks[j]) == ChunkName(PathBase(filePath), j)
  {
  }

  /**
   * The directory's files after the split loop wrote `count` chunk files of
   * `filePath` (and, when `partial`, a partial file for the next one).
   */
  function SplitFiles(before: set<string>, filePath: string, count: nat, partial: bool): set<string> {
    before + ChunkNames(PathBase(filePath), count) + (if partial then {ChunkName(PathBase(filePath), count)} else {})
  }

  /**
   * The chunks directory: the names of its regular files and whether it exists.
   */
  class ChunkDir {
    var files: set<string>
    var present: bool

    ghost predicate Valid()
      reads this
    {
      !present ==> files == {}
    }

    constructor (files0: set<string>)
      ensures Valid() && files == files0 && present == (files0 != {})
    {
      files := files0;
      present := files0 != {};
    }

    /** writeChunk: create the directory if needed, then write the file. */
    method WriteChunk(name: string, outcome: WriteOutcome) returns (ok: bool)
      requires Valid()
      modifies this
      ensures Valid()
      ensures ok <==> outcome == Written
      ensures outcome == Written ==> files == old(files) + {name} && present
      ensures outcome == WriteFailed(true) ==> files == old(files) + {name} && present
      ensures outcome == WriteFailed(false) ==> files == old(files) && present == old(present)
    {
      if outcome == Written || outcome.leftPartial {
        present := true;
        files := files + {name};
      }
      ok := outcome == Written;
    }

    /**
     * os.Remove: fails when there is no such file, or when the system refuses
     * the removal (`removeOk` false: permissions, a busy file); a failure
     * leaves the file where it was.
     */
    method Remove(name: string, removeOk: bool) returns (ok: bool)
      requires Valid()
      modifies this`files
      ensures Valid()
      ensures ok <==> name in old(files) && removeOk
      ensures ok ==> files == old(files) - {name}
      ensures !ok ==> files == old(files)
    {
      ok := name in files && removeOk;
      if ok {
        files := files - {name};
      }
    }

    /**
     * os.RemoveAll on the directory. When it fails (`removeOk` false) the
     * directory stays, possibly with only part of its files removed.
     */
    method RemoveAll(removeOk: bool)
      requires Valid()
      modifies this
      ensures Valid()
      ensures removeOk ==> files == {} && !present
      ensures !removeOk ==> files <= old(files) && present == old(present)
    {
      if removeOk {
        files := {};
        present := false;
      }
    }

    /**
     * rollbackChunks: removes the chunk files 0 .. count-1 of the file; a
     * removal that fails (its name in `removeFails`) is only logged and the
     * file stays. When count is 0 it removes the whole chunks directory, the
     * other files in it included, unless that fails (`removeDirOk` false),
     * which is only logged too.
     */
    method RollbackChunks(filePath: string, chunkCount: nat, removeFails: set<string>, removeDirOk: bool)
      requires Valid()
      modifies this
      ensures Valid()
      ensures chunkCount == 0 && removeDirOk ==> files == {} && !present
      ensures chunkCount == 0 && !removeDirOk ==> files <= old(files) && present == old(present)
      ensures chunkCount > 0 ==>
                files == old(files) - (ChunkNames(PathBase(filePath), chunkCount) - removeFails) && present == old(present)
    {
      var base := PathBase(filePath);
      var i := 0;
      while i < chunkCount
        invariant 0 <= i <= chunkCount && Valid()
        invariant files == old(files) - (ChunkNames(base, i) - removeFails)
        invariant present == old(present)
      {
        ChunkNamesNext(base, i);
        var name := ChunkName(base, i);
        var removed := Remove(name, name !in removeFails);
        RemovedOneMore(old(files), ChunkNames(base, i), removeFails, name, removed);
        i := i + 1;
      }
      if chunkCount == 0 {
        RemoveAll(removeDirOk);
      }
    }

    /**
     * The read/write loop of splitFileToChunks, up to the point where it stops:
     * at end of file, at a failed write (`stop` is NoError; `partial` when the
     * failed write left a file behind) or at a failed read. The chunks written
     * are those the first `at` reads make, every one of their files was
     * written and exactly those files (and a partial one) were added.
     */
    method WriteChunks(fc: FileChunker, filePath: string, answers: seq<ReadOutcome>, writes: nat -> WriteOutcome)
      returns (chunks: seq<Chunk>, stop: ReadError, partial: bool, ghost at: nat)
      requires Valid()
      requires fc.chunkSize > 0
      requires ReaderContract(answers, fc.chunkSize)
      modifies this
      ensures Valid()
      ensures stop != NoError ==> stop == answers[FirstStop(answers)].err && !partial
      ensures files == SplitFiles(old(files), filePath, |chunks|, partial)
      ensures WrittenBelow(writes, |chunks|)
      ensures at <= FirstStop(answers) + 1 && chunks == Built(fc.chunkSize, filePath, answers, at)
      ensures stop != NoError ==> at == FirstStop(answers) + 1
      ensures stop == NoError ==>
                at <= FirstStop(answers) && answers[at].n > 0 && FailsAt(writes, |chunks|, partial)
    {
      ghost var before := files;
      chunks := [];
      var i := 0;
      while true
        invariant 0 <= i <= FirstStop(answers)
        invariant Valid()
        invariant files == SplitFiles(before, filePath, |chunks|, false)
        invariant chunks == Built(fc.chunkSize, filePath, answers, i)
        invariant WrittenBelow(writes, |chunks|)
        decreases |answers| - i
      {
        var ok, next, p := ReadStep(fc, filePath, answers, writes, i, chunks, before);
        if !ok {
          return chunks, NoError, p, i;
        }
        chunks := next;
        if answers[i].err != NoError {
          return chunks, answers[i].err, false, i + 1;
        }
        assert i != FirstStop(answers);
        i := i + 1;
      }
    }

    /**
     * One pass of the loop: read i delivered n bytes; when n > 0 they are
     * written as the next chunk file. Either the chunks become those of the
     * first i + 1 reads, or the write failed and nothing is appended.
     */
    method ReadStep(fc: FileChunker, filePath: string, answers: seq<ReadOutcome>, writes: nat -> WriteOutcome,
                    i: nat, chunks: seq<Chunk>, ghost before: set<string>)
      returns (ok: bool, next: seq<Chunk>, partial: bool)
      requires Valid() && fc.chunkSize > 0
      requires ReaderContract(answers, fc.chunkSize) && i < |answers|
      requires chunks == Built(fc.chunkSize, filePath, answers, i)
      requires files == SplitFiles(before, filePath, |chunks|, false)
      requires WrittenBelow(writes, |chunks|)
      modifies this
      ensures Valid()
      ensures ok ==> next == Built(fc.chunkSize, filePath, answers, i + 1)
                     && files == SplitFiles(before, filePath, |next|, false)
                     && WrittenBelow(writes, |next|)
      ensures !ok ==> next == chunks && answers[i].n > 0 && FailsAt(writes, |chunks|, partial)
                      && files == SplitFiles(before, filePath, |chunks|, partial)
    {
      var n := answers[i].n;
      if n == 0 {
        return true, chunks, false;
      }
      BuiltCoversReads(fc.chunkSize, filePath, answers, i);
      var outcome := writes(|chunks|);
      ok, next := WriteNextChunk(fc, filePath, chunks, n, outcome, before);
      partial := !ok && outcome.leftPartial;
      WriteStep(writes, |chunks|);
    }

    /**
     * One step of the split: the bytes just read become the next chunk file.
     * When the write succeeds the chunk is appended; when it fails nothing is
     * appended and a partial file may have been left behind.
     */
    method WriteNextChunk(fc: FileChunker, filePath: string, chunks: seq<Chunk>, n: nat, outcome: WriteOutcome,
                          ghost before: set<string>)
      returns (ok: bool, next: seq<Chunk>)
      requires Valid()
      requires 0 < n <= fc.chunkSize
      requires WellFormed(chunks, fc.chunkSize, filePath)
      requires files == SplitFiles(before, filePath, |chunks|, false)
      modifies this
      ensures Valid()
      ensures ok <==> outcome == Written
      ensures ok ==> next == chunks + [Chunk(|chunks| + 1, |chunks| * fc.chunkSize, n, filePath)]
      ensures !ok ==> next == chunks
      ensures WellFormed(next, fc.chunkSize, filePath)
      ensures ok ==> SumSizes(next) == SumSizes(chunks) + n
      ensures ok ==> files == SplitFiles(before, filePath, |next|, false)
      ensures !ok ==> files == SplitFiles(before, filePath, |chunks|, outcome.leftPartial)
    {
      var base := PathBase(filePath);
      ChunkNamesNext(base, |chunks|);
      ok := WriteChunk(ChunkName(base, |chunks|), outcome);
      if ok {
        AppendChunk(chunks, fc.chunkSize, filePath, n);
        next := chunks + [Chunk(|chunks| + 1, |chunks| * fc.chunkSize, n, filePath)];
      } else {
        next := chunks;
      }
    }

    /**
     * splitFileToChunks: reads the file one buffer of chunkSize bytes at a time
     * and writes every non-empty read as the next chunk file. `openOk` says
     * whether os.Open succeeds, `answers` are the answers of successive reads and
     * `writes(k)` the outcome of writing chunk k.
     *
     * On success the chunks are well formed, their sizes add up to every byte
     * read before end of file, and exactly their files were added. On failure
     * no chunk is returned and the files of the chunks written so far are
     * removed again (all of the directory when none was written); a removal
     * that fails (a name in `removeFails`, or `removeDirOk` false for the
     * directory) is only logged and leaves its file. A write that failed
     * half-way can leave its own partial file behind.
     */
    method SplitFileToChunks(fc: FileChunker, filePath: string, openOk: bool, answers: seq<ReadOutcome>,
                             writes: nat -> WriteOutcome, removeFails: set<string>, removeDirOk: bool)
      returns (result: ChunkResult, ghost written: nat, ghost partial: bool)
      requires Valid()
      requires fc.chunkSize > 0
      requires ReaderContract(answers, fc.chunkSize)
      modifies this
      ensures Valid()
      ensures result.error in {ErrorNone, ErrorFileOpen, ErrorChunkWrite, ErrorFileRead}
      ensures result.error != ErrorNone ==> result.chunks == []
      ensures !openOk <==> result.error == ErrorFileOpen
      ensures !openOk ==> files == old(files) && present == old(present)
      ensures result.error == ErrorNone ==>
        && WellFormed(result.chunks, fc.chunkSize, filePath)
        && SumSizes(result.chunks) == TotalRead(answers, FirstStop(answers) + 1)
        && answers[FirstStop(answers)].err == EOF
        && files == old(files) + ChunkNames(PathBase(filePath), |result.chunks|)
      ensures result.error == ErrorNone <==> openOk && SplitSucceeds(fc.chunkSize, filePath, answers, writes)
      ensures result.error == ErrorNone ==> result.chunks == Built(fc.chunkSize, filePath, answers, FirstStop(answers) + 1)
      ensures result.error == ErrorChunkWrite <==>
                openOk && !AllWritten(fc.chunkSize, filePath, answers, writes, FirstStop(answers) + 1)
      ensures result.error == ErrorFileRead <==>
                openOk && AllWritten(fc.chunkSize, filePath, answers, writes, FirstStop(answers) + 1)
                && answers[FirstStop(answers)].err == ReadFailed
      ensures partial ==> result.error == ErrorChunkWrite
      ensures openOk && result.error != ErrorNone && written == 0 && removeDirOk ==> files == {} && !present
      ensures openOk && result.error != ErrorNone && written == 0 && !removeDirOk ==>
        files <= old(files) + (if partial then {ChunkName(PathBase(filePath), 0)} else {})
      ensures openOk && result.error != ErrorNone && written > 0 ==>
        var names := ChunkNames(PathBase(filePath), written);
        files == (old(files) - (names - removeFails)) + (names * removeFails)
                 + (if partial then {ChunkName(PathBase(filePath), written)} else {})
    {
      if !openOk {
        return ChunkResult([], ErrorFileOpen), 0, false;
      }
      var base := PathBase(filePath);
      var chunks, stop, p, at := WriteChunks(fc, filePath, answers, writes);
      written, partial := |chunks|, p;
      StopClassified(fc.chunkSize, filePath, answers, writes, chunks, stop, at);
      if stop == EOF {
        return ChunkResult(chunks, ErrorNone), written, false;
      }
      ghost var leftover: set<string> := if p then {ChunkName(base, written)} else {};
      ChunkNamesNext(base, written);
      RollbackLeaves(old(files), ChunkNames(base, written), removeFails, leftover);
      RollbackChunks(filePath, |chunks|, removeFails, removeDirOk);
      if stop == NoError {
        result := ChunkResult([], ErrorChunkWrite);
      } else {
        result := ChunkResult([], ErrorFileRead);
      }
    }

    /**
     * Chunks: the chunks of a successful split, and none (nil) when the split
     * failed or produced nothing.
     */
    method Chunks(fc: FileChunker, openOk: bool, answers: seq<ReadOutcome>, writes: nat -> WriteOutcome,
                  removeFails: set<string>, removeDirOk: bool)
      returns (chunks: seq<Chunk>)
      requires Valid()
      requires fc.chunkSize > 0
      requires ReaderContract(answers, fc.chunkSize)
      modifies this
      ensures Valid()
      ensures chunks == SplitChunks(fc.chunkSize, fc.filePath, openOk, answers, writes)
      ensures chunks != [] ==>
        && WellFormed(chunks, fc.chunkSize, fc.filePath)
        && SumSizes(chunks) == TotalRead(answers, FirstStop(answers) + 1)
        && answers[FirstStop(answers)].err == EOF
        && files == old(files) + ChunkNames(PathBase(fc.filePath), |chunks|)
      ensures !openOk ==> chunks == []
    {
      var result, _, _ := SplitFileToChunks(fc, fc.filePath, openOk, answers, writes, removeFails, removeDirOk);
      if result.error != ErrorNone {
        chunks := [];
      } else {
        chunks := result.chunks;
      }
    }

    /**
     * GetChunkReader: opens the chunk file named after the chunk's part number;
     * it fails (None) when that file is not in the directory or the open is
     * refused (`openOk` false: permissions, no free descriptor, ...).
     */
    method GetChunkReader(chunk: Chunk, openOk: bool) returns (r: Option<ChunkReader>)
      ensures r.None? <==> ChunkFileName(chunk) !in files || !openOk
      ensures r.Some? ==> fresh(r.value) && r.value.Valid()
      ensures r.Some? ==> r.value.fileName == ChunkFileName(chunk) && r.value.offset == 0
      ensures r.Some? ==> r.value.size == chunk.size && r.value.read == 0
    {
      var name := ChunkFileName(chunk);
      if name !in files || !openOk {
        return None;
      }
      var cr := new ChunkReader(name, chunk.size);
      r := Some(cr);
    }

    /**
     * CleanupChunks: lists the directory (in name order, as os.ReadDir does)
     * and removes every regular file whose name starts with "<base name>_chunk",
     * stopping with an error at the first removal that fails (`removeFails`
     * names the files that cannot be removed). Then the directory is listed
     * again: when that fails (`relistOk` false) the cleanup still succeeds and
     * the directory stays; when no regular file is left the directory is
     * removed, unless that removal fails (`removeDirOk` false), which is only
     * logged. A directory that cannot be read is an error and nothing changes.
     */
    method CleanupChunks(fc: FileChunker, removeFails: set<string>, relistOk: bool, removeDirOk: bool) returns (ok: bool)
      requires Valid()
      modifies this
      ensures Valid()
      ensures !old(present) ==> !ok && files == old(files) && present == old(present)
      ensures ok ==> files == old(files) - Matching(old(files), PathBase(fc.filePath) + "_chunk")
      ensures ok <==> old(present) && Matching(old(files), PathBase(fc.filePath) + "_chunk") !! removeFails
      ensures ok ==> (!present <==> files == {} && relistOk && removeDirOk)
      ensures !ok && old(present) ==>
                var matching := Matching(old(files), PathBase(fc.filePath) + "_chunk");
                exists f :: FirstFailure(matching, removeFails, f) && files == old(files) - Before(matching, f) && present
      ensures !ok ==> old(files) - Matching(old(files), PathBase(fc.filePath) + "_chunk") <= files <= old(files)
    {
      if !present {
        return false;
      }
      ok := RemoveMatching(PathBase(fc.filePath) + "_chunk", removeFails);
      if ok && relistOk && files == {} {
        RemoveAll(removeDirOk);
      }
    }

    /**
     * The removal loop of CleanupChunks: walks the names in listing order and
     * removes those that start with `prefix`, stopping at the first removal
     * that fails.
     */
    method RemoveMatching(prefix: string, removeFails: set<string>) returns (ok: bool)
      requires Valid() && present
      modifies this`files
      ensures Valid()
      ensures ok <==> Matching(old(files), prefix) !! removeFails
      ensures ok ==> files == old(files) - Matching(old(files), prefix)
      ensures !ok ==>
                exists f :: FirstFailure(Matching(old(files), prefix), removeFails, f)
                            && files == old(files) - Before(Matching(old(files), prefix), f)
      ensures !ok ==> old(files) - Matching(old(files), prefix) <= files <= old(files)
    {
      ghost var matching := Matching(files, prefix);
      var entries := files;
      ghost var visited: set<string> := {};
      while entries != {}
        invariant entries <= old(files) && visited == old(files) - entries
        invariant forall v, x :: v in visited && x in entries ==> NameLess(v, x)
        invariant files == old(files) - Matching(visited, prefix)
        invariant Matching(visited, prefix) !! removeFails
        decreases |entries|
      {
        LeastName(entries);
        var e :| e in entries && forall x :: x in entries && x != e ==> NameLess(e, x);
        if HasPrefix(e, prefix) {
          var removed := Remove(e, e !in removeFails);
          if !removed {
            RemovedBefore(old(files), entries, visited, prefix, e);
            assert FirstFailure(matching, removeFails, e);
            return false;
          }
        }
        entries := entries - {e};
        visited := visited + {e};
      }
      assert visited == old(files);
      return true;
    }
  }

  /**
   * The order os.ReadDir lists names in: lexicographic by character, a
   * proper prefix first (code-point order is the order of the UTF-8 bytes).
   */
  predicate NameLess(a: string, b: string) {
    if a == [] then b != []
    else if b == [] then false
    else a[0] < b[0] || (a[0] == b[0] && NameLess(a[1..], b[1..]))
  }

  lemma {:induction false} NameLessIrreflexive(a: string)
    ensures !NameLess(a, a)
  {
    if a != [] {
      NameLessIrreflexive(a[1..]);
    }
  }

  lemma {:induction false} NameLessAsymmetric(a: string, b: string)
    requires NameLess(a, b)
    ensures !NameLess(b, a)
  {
    if a != [] && b != [] && a[0] == b[0] {
      NameLessAsymmetric(a[1..], b[1..]);
    }
  }

  lemma {:induction false} NameLessTransitive(a: string, b: string, c: string)
    requires NameLess(a, b) && NameLess(b, c)
    ensures NameLess(a, c)
  {
    if a != [] && a[0] == b[0] && b[0] == c[0] {
      NameLessTransitive(a[1..], b[1..], c[1..]);
    }
  }

  lemma {:induction false} NameLessTotal(a: string, b: string)
    requires a != b
    ensures NameLess(a, b) || NameLess(b, a)
  {
    if a != [] && b != [] && a[0] == b[0] {
      assert a == [a[0]] + a[1..] && b == [b[0]] + b[1..];
      NameLessTotal(a[1..], b[1..]);
    }
  }

  /** A non-empty set of names has a first one in listing order. */
  lemma {:induction false} LeastName(names: set<string>)
    requires names != {}
    ensures exists e :: e in names && forall x :: x in names && x != e ==> NameLess(e, x)
    decreases |names|
  {
    var y :| y in names;
    var rest := names - {y};
    if rest == {} {
      forall x | x in names
        ensures x == y
      {
        assert x !in rest;
      }
    } else {
      LeastName(rest);
      var m :| m in rest && forall x :: x in rest && x != m ==> NameLess(m, x);
      NameLessTotal(y, m);
      if NameLess(y, m) {
        forall x | x in names && x != y
          ensures NameLess(y, x)
        {
          if x != m {
            NameLessTransitive(y, m, x);
          }
        }
      } else {
        assert forall x :: x in names && x != m ==> NameLess(m, x);
      }
    }
  }

  /** The names of `names` listed before `f`. */
  function Before(names: set<string>, f: string): (b: set<string>)
    ensures b <= names
    ensures forall m :: m in names && NameLess(m, f) ==> m in b
  {
    set m | m in names && NameLess(m, f)
  }

  /** `f` is the first name of `names`, in listing order, whose removal fails. */
  predicate FirstFailure(names: set<string>, fails: set<string>, f: string) {
    f in names && f in fails && forall m :: m in names && NameLess(m, f) ==> m !in fails
  }

  /** There is only one first failure, so a failed cleanup leaves exactly one set of files. */
  lemma FirstFailureUnique(names: set<string>, fails: set<string>, f: string, g: string)
    requires FirstFailure(names, fails, f) && FirstFailure(names, fails, g)
    ensures f == g
  {
    if f != g {
      NameLessTotal(f, g);
    }
  }

  /** When the walk reaches `e`, the matching names already visited are exactly those listed before `e`. */
  lemma RemovedBefore(all: set<string>, entries: set<string>, visited: set<string>, prefix: string, e: string)
    requires entries <= all && visited == all - entries && e in entries
    requires forall v, x :: v in visited && x in entries ==> NameLess(v, x)
    requires forall x :: x in entries && x != e ==> NameLess(e, x)
    ensures Before(Matching(all, prefix), e) == Matching(visited, prefix)
  {
    forall m | m in Matching(all, prefix) && NameLess(m, e)
      ensures m in visited
    {
      if m in entries {
        NameLessIrreflexive(e);
        if m != e {
          NameLessAsymmetric(e, m);
        }
      }
    }
  }

  /** The names in `files` that start with `prefix`. */
  function Matching(files: set<string>, prefix: string): (m: set<string>)
    ensures m <= files
    ensures forall f :: f in files && HasPrefix(f, prefix) ==> f in m
  {
    set f | f in files && HasPrefix(f, prefix)
  }

  /**
   * ChunkReader: reads one chunk file, never past the chunk's size. `read` is
   * the number of bytes of the chunk consumed so far.
   */
  class ChunkReader {
    const fileName: string
    const offset: int
    const size: int
    var read: int

    ghost predicate Valid()
      reads this
    {
      0 <= read && (read <= size || read == 0)
    }

    constructor (fileName: string, size: int)
      ensures Valid() && this.fileName == fileName && offset == 0 && this.size == size && read == 0
    {
      this.fileName := fileName;
      this.offset := 0;
      this.size := size;
      read := 0;
    }

    /**
     * Read into a buffer of `bufLen` bytes: end of file once the whole chunk was
     * read; otherwise the buffer is cut to what remains of the chunk and the
     * file's answer (`got` bytes, `gotErr`) is passed on.
     */
    method Read(bufLen: nat, got: nat, gotErr: ReadError) returns (n: nat, err: ReadError)
      requires Valid()
      requires read < size ==> got <= bufLen && got <= size - read
      modifies this`read
      ensures Valid()
      ensures old(read) >= size ==> n == 0 && err == EOF && read == old(read)
      ensures old(read) < size ==> n == got && err == gotErr && read == old(read) + n && read <= size
    {
      if read >= size {
        return 0, EOF;
      }
      n, err := got, gotErr;
      read := read + n;
    }

    /**
     * Seek within the chunk: the target is outside [0, size] or the file
     * cannot seek (`fileSeekOk` false) is an error that changes nothing;
     * otherwise the chunk position becomes the target. An unknown `whence`
     * keeps the current position as the target.
     */
    method Seek(off: int, whence: int, fileSeekOk: bool) returns (pos: int, failed: bool)
      requires Valid()
      modifies this`read
      ensures Valid()
      ensures failed <==> !(0 <= SeekTarget(old(read), size, off, whence) <= size) || !fileSeekOk
      ensures failed ==> pos == 0 && read == old(read)
      ensures !failed ==> pos == read && read == SeekTarget(old(read), size, off, whence) && 0 <= read <= size
    {
      var target := SeekTarget(read, size, off, whence);
      if target < 0 || target > size {
        return 0, true;
      }
      if !fileSeekOk {
        return 0, true;
      }
      read := target;
      return target, false;
    }
  }

  /** The chunk position a Seek asks for, before the bounds check. */
  function SeekTarget(current: int, size: int, off: int, whence: int): (t: int)
    ensures whence == SeekStart ==> t == off
    ensures whence == SeekCurrent ==> t - current == off
    ensures whence == SeekEnd ==> size - t == -off
    ensures whence !in {SeekStart, SeekCurrent, SeekEnd} ==> t == current
  {
    if whence == SeekStart then off
    else if whence == SeekCurrent then current + off
    else if whence == SeekEnd then size + off
    else current
  }
}
