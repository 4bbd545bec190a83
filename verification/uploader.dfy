/**
 * UploadFile: the multipart upload of one local file. The bucket is checked,
 * the file is split into chunk files, a multipart upload is created, every
 * chunk is uploaded as one part (recorded in the status tracker, then reported
 * as done), and the upload is completed with the parts in ascending order. Any
 * failure after the upload was created aborts it and reports the session as
 * failed.
 *
 * The S3 client, the file system and the agent answer through parameters. The
 * driver returns the protocol steps it took, in order: the S3 requests and the
 * calls that report the session, record parts and save the status. (The
 * progress callbacks made while a part body is read are performed but not
 * listed.)
 */
module Uploader {
  import opened Wrappers
  import opened Text
  import Json
  import S3
  import Chunker
  import Progress
  import Tracker
  import opened WsAgent
  import WsReporter
  import WsTracker

  /** The error HeadBucket returned: the API error code when it is an API error, and its text. */
  datatype HeadBucketError = HeadBucketError(apiCode: Option<string>, text: string)

  /**
   * checkBucket: no error means the bucket is usable; NotFound and NoSuchBucket
   * mean it does not exist; Forbidden and AccessDenied mean access is denied;
   * any other error is passed on, wrapped.
   */
  function CheckBucket(bucket: string, err: Option<HeadBucketError>): (r: Option<string>)
    ensures r.None? <==> err.None?
    ensures err.Some? && err.value.apiCode in {Some("NotFound"), Some("NoSuchBucket")} ==>
              r == Some("bucket " + bucket + " does not exist")
    ensures err.Some? && err.value.apiCode in {Some("Forbidden"), Some("AccessDenied")} ==>
              r == Some("bucket " + bucket + " exists but access is denied")
    ensures err.Some? && err.value.apiCode !in {Some("NotFound"), Some("NoSuchBucket"), Some("Forbidden"), Some("AccessDenied")} ==>
              r == Some("failed to check bucket " + bucket + ": " + err.value.text)
  {
    match err
    case None => None
    case Some(e) =>
      if e.apiCode == Some("NotFound") || e.apiCode == Some("NoSuchBucket") then
        Some("bucket " + bucket + " does not exist")
      else if e.apiCode == Some("Forbidden") || e.apiCode == Some("AccessDenied") then
        Some("bucket " + bucket + " exists but access is denied")
      else
        Some("failed to check bucket " + bucket + ": " + e.text)
  }

  /** One protocol step of an upload. */
  datatype Step =
    | Created(ok: bool)                          // CreateMultipartUpload
    | StartReported                              // reporter start
    | PartStartReported(part: int)               // reporter partStart
    | PartSent(part: int, result: S3.PartResult) // UploadPart, retried by utils.Retry
    | Recorded(part: int, eTag: string)          // tracker AddCompletedPart
    | Saved(ok: bool)                            // tracker SaveStatus
    | PartDoneReported(part: int, eTag: string)  // reporter partDone
    | ErrorReported(failedPart: Option<int>)           // reporter error
    | Aborted                                    // AbortMultipartUpload (its outcome is ignored)
    | Completed(parts: seq<S3.CompletedPart>, ok: bool) // CompleteMultipartUpload
    | DoneReported(success: bool)                // reporter done

  /** How UploadFile ends: nil, an error, or the run-time panic of slicing a short upload id. */
  datatype Outcome = Success | Failure(error: string) | SlicePanic

  /** What the S3 client and the file system answer while part j (0-based) is uploaded. */
  datatype PartAttempt = PartAttempt(
    readerOpens: bool,          // the chunk file can be opened
    bodyReads: seq<Progress.Op>, // what the SDK's reads and rewinds of the body return, over all retries
    result: S3.PartResult,      // how UploadPart ends after the retries
    saveOk: bool)               // whether writing the status file afterwards succeeds

  /** The S3 client's answers. */
  datatype S3Answers = S3Answers(
    headBucket: Option<HeadBucketError>,
    create: Option<string>,     // the new upload id, or None when CreateMultipartUpload fails
    part: nat -> PartAttempt,
    complete: bool)

  /** The local file system's answers. */
  datatype FileAnswers = FileAnswers(
    stat: Option<nat>,          // the file's size, for UploadFile's os.Stat
    chunkerStat: Option<nat>,   // the same, for NewFileChunker's os.Stat
    opens: bool,                // whether splitFileToChunks can open the file
    readAnswers: seq<Chunker.ReadOutcome>,
    writes: nat -> Chunker.WriteOutcome,
    rollbackFails: set<string>,  // the chunk files os.Remove refuses to remove during a rollback
    rollbackDirOk: bool,         // whether os.RemoveAll of the chunk directory succeeds during a rollback
    statusRemoveOk: bool)        // whether os.Remove of the status file succeeds after a completed upload

  datatype Config = Config(bucket: string, partSizeBytes: int, defaultChunkSize: int)

  /** The chunk size NewFileChunker settles on. */
  function ChunkSizeFor(cfg: Config): int {
    if cfg.partSizeBytes <= 0 then cfg.defaultChunkSize else cfg.partSizeBytes
  }

  /** The status file of an upload: "<base name>_<first 8 characters of the upload id>.upload_status" in tempDir. */
  function StatusFilePath(tempDir: string, filePath: string, uploadID: string): (p: string)
    requires |uploadID| >= 8
    ensures |p| > |tempDir| + 14 && p[..|tempDir| + 1] == tempDir + "/" && p[|p| - 14..] == ".upload_status"
  {
    tempDir + "/" + PathBase(filePath) + "_" + uploadID[..8] + ".upload_status"
  }

  function ETagOf(r: S3.PartResult): string {
    if r.PartUploaded? then r.eTag else ""
  }

  /** The steps of one uploaded part. */
  function PartSteps(c: Chunker.Chunk, a: PartAttempt): seq<Step> {
    [PartStartReported(c.index), PartSent(c.index, a.result), Recorded(c.index, ETagOf(a.result)),
     Saved(a.saveOk), PartDoneReported(c.index, ETagOf(a.result))]
  }

  /** The steps of the first n parts, all uploaded. */
  function LoopSteps(cs: seq<Chunker.Chunk>, part: nat -> PartAttempt, n: nat): (s: seq<Step>)
    requires n <= |cs|
    ensures |s| == 5 * n
  {
    if n == 0 then [] else LoopSteps(cs, part, n - 1) + PartSteps(cs[n - 1], part(n - 1))
  }

  /** The completed-part entries of the first n parts. */
  function CompletedParts(cs: seq<Chunker.Chunk>, part: nat -> PartAttempt, n: nat): (ps: seq<S3.CompletedPart>)
    requires n <= |cs|
    ensures |ps| == n
    ensures forall j :: 0 <= j < n ==> ps[j] == S3.CompletedPart(cs[j].index, ETagOf(part(j).result))
  {
    if n == 0 then [] else CompletedParts(cs, part, n - 1) + [S3.CompletedPart(cs[n - 1].index, ETagOf(part(n - 1).result))]
  }

  /** A part is reported done only right after it was recorded (and the status saved). */
  ghost predicate RecordedBeforeDone(s: seq<Step>) {
    && (|s| > 0 ==> !s[0].PartDoneReported?)
    && (|s| > 1 ==> !s[1].PartDoneReported?)
    && (forall j, k :: 0 <= j < k < |s| && k == j + 2 && s[k].PartDoneReported? ==> s[j] == Recorded(s[k].part, s[k].eTag))
  }

  /** Steps that neither end nor start a session. */
  ghost predicate InSession(s: seq<Step>) {
    forall k :: 0 <= k < |s| ==>
      s[k].PartStartReported? || s[k].PartSent? || s[k].Recorded? || s[k].Saved? || s[k].PartDoneReported?
  }

  lemma RecordedBeforeDoneAppend(a: seq<Step>, b: seq<Step>)
    requires RecordedBeforeDone(a) && RecordedBeforeDone(b)
    ensures RecordedBeforeDone(a + b)
  {
    forall j, k | 0 <= j < k < |a + b| && k == j + 2 && (a + b)[k].PartDoneReported?
      ensures (a + b)[j] == Recorded((a + b)[k].part, (a + b)[k].eTag)
    {
      if k < |a| {
        assert (a + b)[k] == a[k] && (a + b)[j] == a[j];
      } else if j >= |a| {
        assert (a + b)[k] == b[k - |a|] && (a + b)[j] == b[j - |a|];
      } else {
        assert false;
      }
    }
  }

  /** The last three steps of a run that was created and then failed. */
  function FailureTail(part: Option<int>): seq<Step> {
    [ErrorReported(part), Aborted, DoneReported(false)]
  }

  /** Every chunk's file is in the chunks directory, as the split leaves it. */
  predicate ChunkFilesPresent(cs: seq<Chunker.Chunk>, files: set<string>) {
    forall j {:trigger Chunker.ChunkFileName(cs[j])} :: 0 <= j < |cs| ==> Chunker.ChunkFileName(cs[j]) in files
  }

  /** Whether a part goes through: its chunk file opens and UploadPart ends with an ETag. */
  predicate PartOk(a: PartAttempt) {
    a.readerOpens && a.result.PartUploaded?
  }

  /** The steps of a failing part; a chunk file that cannot be opened fails before the part is started. */
  function FailSteps(c: Chunker.Chunk, a: PartAttempt): seq<Step> {
    if a.readerOpens then
      [PartStartReported(c.index), PartSent(c.index, a.result)] + FailureTail(Some(c.index))
    else
      FailureTail(Some(c.index))
  }

  /** The steps of CompleteMultipartUpload with the given parts, and what follows it. */
  function CompletionSteps(ps: seq<S3.CompletedPart>, complete: bool): seq<Step> {
    if complete then [Completed(ps, true), DoneReported(true)] else [Completed(ps, false)] + FailureTail(None)
  }

  /** The first part from n on that does not go through, or |cs| when they all do. */
  function FirstFailure(cs: seq<Chunker.Chunk>, part: nat -> PartAttempt, n: nat): (k: nat)
    requires n <= |cs|
    ensures n <= k <= |cs|
    decreases |cs| - n
  {
    if n == |cs| then n
    else if PartOk(part(n)) then FirstFailure(cs, part, n + 1)
    else n
  }

  /** Every part from n up to FirstFailure goes through, and the part there, if any, does not. */
  lemma {:induction false} FirstFailureSpec(cs: seq<Chunker.Chunk>, part: nat -> PartAttempt, n: nat)
    requires n <= |cs|
    ensures forall j :: n <= j < FirstFailure(cs, part, n) ==> PartOk(part(j))
    ensures FirstFailure(cs, part, n) < |cs| ==> !PartOk(part(FirstFailure(cs, part, n)))
    decreases |cs| - n
  {
    if n < |cs| && PartOk(part(n)) {
      FirstFailureSpec(cs, part, n + 1);
    }
  }

  /**
   * The steps UploadFile takes once the upload is created and the session
   * started: the parts that go through, in order, up to the first that fails,
   * which ends the run; when none fails, the completion.
   */
  function Run(cs: seq<Chunker.Chunk>, part: nat -> PartAttempt, complete: bool): seq<Step> {
    var k := FirstFailure(cs, part, 0);
    LoopSteps(cs, part, k) +
      if k < |cs| then FailSteps(cs[k], part(k)) else CompletionSteps(CompletedParts(cs, part, |cs|), complete)
  }

  /** Whether every part goes through and the upload is completed. */
  predicate Succeeds(cs: seq<Chunker.Chunk>, part: nat -> PartAttempt, complete: bool) {
    complete && forall j :: 0 <= j < |cs| ==> PartOk(part(j))
  }

  /** When the parts from n to i go through and part i does not (or i is past the end), the first failure from n is i. */
  lemma {:induction false} FirstFailureAt(cs: seq<Chunker.Chunk>, part: nat -> PartAttempt, n: nat, i: nat)
    requires n <= i <= |cs|
    requires forall j :: n <= j < i ==> PartOk(part(j))
    requires i < |cs| ==> !PartOk(part(i))
    ensures FirstFailure(cs, part, n) == i
    decreases i - n
  {
    if n < i {
      FirstFailureAt(cs, part, n + 1, i);
    }
  }

  lemma {:induction false} LoopStepsShape(cs: seq<Chunker.Chunk>, part: nat -> PartAttempt, n: nat)
    requires n <= |cs|
    ensures RecordedBeforeDone(LoopSteps(cs, part, n))
    ensures InSession(LoopSteps(cs, part, n))
  {
    if n > 0 {
      LoopStepsShape(cs, part, n - 1);
      PartStepsShape(cs[n - 1], part(n - 1));
      RecordedBeforeDoneAppend(LoopSteps(cs, part, n - 1), PartSteps(cs[n - 1], part(n - 1)));
    }
  }

  /**
   * The steps of the parts that go through come in blocks of five, one block
   * per chunk in chunk order: step k belongs to the chunk k / 5, so each
   * chunk's part is sent once, after every chunk before it.
   */
  lemma {:induction false} LoopStepsAt(cs: seq<Chunker.Chunk>, part: nat -> PartAttempt, n: nat, k: nat)
    requires n <= |cs| && k < 5 * n
    ensures LoopSteps(cs, part, n)[k] == PartSteps(cs[k / 5], part(k / 5))[k % 5]
  {
    if k < 5 * (n - 1) {
      LoopStepsAt(cs, part, n - 1, k);
    }
  }

  /** An abort only as the second-last step, the session's end only as the last. */
  ghost predicate EndsLast(s: seq<Step>) {
    && (forall k :: 0 <= k < |s| && s[k] == Aborted ==> k == |s| - 2)
    && (forall k :: 0 <= k < |s| && s[k].DoneReported? ==> k == |s| - 1)
  }

  /**
   * How a run (or the end of one) finishes: parts are reported done only
   * right after they were recorded, an abort comes only second-last and the
   * session's end only last; a successful run ends with the completion of the
   * parts ps and a successful session end, any other with an error, the abort
   * and a failed session end.
   */
  ghost predicate RunEnd(s: seq<Step>, success: bool, ps: seq<S3.CompletedPart>) {
    && |s| >= 2 && RecordedBeforeDone(s) && EndsLast(s)
    && (success ==> s[|s| - 2] == Completed(ps, true) && s[|s| - 1] == DoneReported(true))
    && (!success ==> |s| >= 3 && s[|s| - 3].ErrorReported? && s[|s| - 2] == Aborted && s[|s| - 1] == DoneReported(false))
  }

  lemma FailStepsEnd(c: Chunker.Chunk, a: PartAttempt, ps: seq<S3.CompletedPart>)
    ensures RunEnd(FailSteps(c, a), false, ps)
  {
    if a.readerOpens {
      assert FailSteps(c, a) ==
        [PartStartReported(c.index), PartSent(c.index, a.result), ErrorReported(Some(c.index)), Aborted, DoneReported(false)];
    }
  }

  lemma CompletionEnd(ps: seq<S3.CompletedPart>, complete: bool)
    ensures RunEnd(CompletionSteps(ps, complete), complete, ps)
  {
    if complete {
      assert CompletionSteps(ps, complete) == [Completed(ps, true), DoneReported(true)];
    } else {
      assert CompletionSteps(ps, complete) == [Completed(ps, false), ErrorReported(None), Aborted, DoneReported(false)];
    }
  }

  /** Part steps in front of a run keep how it finishes. */
  lemma PrependPartSteps(a: seq<Step>, b: seq<Step>, success: bool, ps: seq<S3.CompletedPart>)
    requires InSession(a) && RecordedBeforeDone(a) && RunEnd(b, success, ps)
    ensures RunEnd(a + b, success, ps)
  {
    RecordedBeforeDoneAppend(a, b);
    forall k | 0 <= k < |a|
      ensures (a + b)[k] == a[k]
    {
    }
    forall k | 0 <= k < |a + b| && ((a + b)[k] == Aborted || (a + b)[k].DoneReported?)
      ensures k >= |a| && (a + b)[k] == b[k - |a|]
    {
    }
    var s := a + b;
    assert s[|s| - 1] == b[|b| - 1] && s[|s| - 2] == b[|b| - 2];
    if !success {
      assert s[|s| - 3] == b[|b| - 3];
    }
  }

  /** The steps of one part stay inside the session, and report the part done right after recording it. */
  lemma PartStepsShape(c: Chunker.Chunk, a: PartAttempt)
    ensures InSession(PartSteps(c, a)) && RecordedBeforeDone(PartSteps(c, a))
  {
    var s := PartSteps(c, a);
    forall j, k | 0 <= j < k < |s| && k == j + 2 && s[k].PartDoneReported?
      ensures s[j] == Recorded(s[k].part, s[k].eTag)
    {
      assert k == 4 && j == 2;
    }
  }

  /**
   * Every run finishes as RunEnd says: successfully, with the completed
   * parts of all chunks, exactly when every part goes through and the upload
   * is completed.
   */
  lemma RunShape(cs: seq<Chunker.Chunk>, part: nat -> PartAttempt, complete: bool)
    ensures RunEnd(Run(cs, part, complete), Succeeds(cs, part, complete), CompletedParts(cs, part, |cs|))
  {
    var k := FirstFailure(cs, part, 0);
    var ps := CompletedParts(cs, part, |cs|);
    FirstFailureSpec(cs, part, 0);
    LoopStepsShape(cs, part, k);
    if k < |cs| {
      FailStepsEnd(cs[k], part(k), ps);
      PrependPartSteps(LoopSteps(cs, part, k), FailSteps(cs[k], part(k)), false, ps);
    } else {
      CompletionEnd(ps, complete);
      PrependPartSteps(LoopSteps(cs, part, k), CompletionSteps(ps, complete), complete, ps);
    }
  }

  /**
   * The shape every run that created an upload has: creation, the session
   * start, then part steps; an abort only as the second-last step and the
   * session's end only as the last.
   */
  ghost predicate CreatedRun(s: seq<Step>) {
    && |s| >= 2 && s[0] == Created(true) && s[1] == StartReported
    && RecordedBeforeDone(s)
    && EndsLast(s)
    && (forall k :: 0 <= k < |s| && (s[k].PartStartReported? || s[k].PartSent? || s[k].PartDoneReported?) ==> k >= 2)
  }

  /**
   * A whole run once the upload is created: the creation and the session
   * start come first, and it ends as RunShape says.
   */
  lemma CreatedRunShape(cs: seq<Chunker.Chunk>, part: nat -> PartAttempt, complete: bool)
    ensures var s := [Created(true), StartReported] + Run(cs, part, complete);
      && |s| >= 4 && CreatedRun(s)
      && RunEnd(s, Succeeds(cs, part, complete), CompletedParts(cs, part, |cs|))
  {
    var pre := [Created(true), StartReported];
    RunShape(cs, part, complete);
    PrependStart(Run(cs, part, complete), Succeeds(cs, part, complete), CompletedParts(cs, part, |cs|));
  }

  /**
   * What UploadFile's caller sees of a run once the upload is created: a
   * failed run ends with an error, the abort and a failed session end after
   * at least the creation and the session start; a successful one completes
   * every part, in ascending order, and ends the session as successful.
   */
  lemma CreatedRunOutcome(cs: seq<Chunker.Chunk>, part: nat -> PartAttempt, complete: bool)
    requires forall j :: 0 <= j < |cs| ==> cs[j].index == j + 1
    ensures var s := [Created(true), StartReported] + Run(cs, part, complete);
      && CreatedRun(s)
      && (!Succeeds(cs, part, complete) ==>
            |s| >= 5 && s[|s| - 3].ErrorReported? && s[|s| - 2] == Aborted && s[|s| - 1] == DoneReported(false))
      && (Succeeds(cs, part, complete) ==>
            && |s| >= 4 && s[|s| - 1] == DoneReported(true)
            && s[|s| - 2] == Completed(CompletedParts(cs, part, |cs|), true)
            && S3.StrictlyAscending(s[|s| - 2].parts))
  {
    CreatedRunShape(cs, part, complete);
    CompletedPartsAscending(cs, part);
  }

  lemma PrependStart(r: seq<Step>, success: bool, ps: seq<S3.CompletedPart>)
    requires RunEnd(r, success, ps)
    ensures CreatedRun([Created(true), StartReported] + r)
    ensures RunEnd([Created(true), StartReported] + r, success, ps)
  {
    var pre := [Created(true), StartReported];
    assert RecordedBeforeDone(pre);
    RecordedBeforeDoneAppend(pre, r);
    var s := pre + r;
    forall k | 0 <= k < |s| && (s[k] == Aborted || s[k].DoneReported?)
      ensures k >= 2 && s[k] == r[k - 2]
    {
    }
    assert s[|s| - 1] == r[|r| - 1] && s[|s| - 2] == r[|r| - 2];
    if !success {
      assert s[|s| - 3] == r[|r| - 3];
    }
  }

  /** Chunks numbered from 1 give completed parts numbered from 1, hence strictly ascending. */
  lemma CompletedPartsAscending(cs: seq<Chunker.Chunk>, part: nat -> PartAttempt)
    requires forall j :: 0 <= j < |cs| ==> cs[j].index == j + 1
    ensures S3.StrictlyAscending(CompletedParts(cs, part, |cs|))
  {
  }

  /** The onDelta callback of one part: the reporter's total and part progress, then a raw "progress" event. */
  method ReportDeltas(r: WsReporter.Reporter, part: int, deltas: seq<int>)
    requires r.Valid()
    modifies r, r.agent, r.clock
    ensures r.Valid()
    ensures r.clock.time >= old(r.clock.time)
  {
    var k := 0;
    while k < |deltas|
      invariant 0 <= k <= |deltas|
      invariant r.Valid()
      invariant r.clock.time >= old(r.clock.time)
    {
      r.ProgressAdd(deltas[k]);
      r.PartProgressAdd(part, deltas[k]);
      var _ := r.agent.SendEvent(Event("progress", r.runID, Json.Obj(map["bytes" := Json.Num(deltas[k])])));
      k := k + 1;
    }
  }

  /** A failure against a part or the completion: the error is reported and the session reported as failed (UploadFile also aborts the upload). */
  method FailPart(r: WsReporter.Reporter, msg: string, part: Option<int>, uploadID: string)
    requires r.Valid()
    modifies r, r.agent, r.clock
    ensures r.Valid()
    ensures r.clock.time >= old(r.clock.time)
  {
    r.Error(msg, part);
    r.Done(false, uploadID);
  }

  /** A part that was uploaded: recorded in the tracker first, the status file saved (a failed save is only logged), then reported done. */
  method RecordPart(r: WsReporter.Reporter, t: WsTracker.WSTracker, disk: Tracker.StatusFiles,
                    ch: Chunker.Chunk, eTag: string, saveOk: bool, statusPath: string)
    requires r.Valid() && t.Valid() && r.clock == t.clock
    modifies r, r.agent, r.clock, t, t.agent, t.status, disk
    ensures r.Valid() && t.Valid()
    ensures r.clock.time >= old(r.clock.time)
    ensures t.status.completedParts == old(t.status.completedParts)[ch.index := eTag]
  {
    t.AddCompletedPart(ch.index, eTag);
    var _ := t.SaveStatus(disk, statusPath, saveOk);
    r.PartDone(ch.index, ch.size, eTag);
  }

  /**
   * One turn of UploadFile's loop. A chunk file that cannot be opened, an
   * UploadPart that fails after its retries or an answer without an ETag
   * fails the part; otherwise the part is recorded.
   */
  method UploadPart(r: WsReporter.Reporter, t: WsTracker.WSTracker, dir: Chunker.ChunkDir, disk: Tracker.StatusFiles,
                    cs: seq<Chunker.Chunk>, i: nat, a: PartAttempt, uploadID: string, statusPath: string)
    returns (err: Option<string>, s: seq<Step>)
    requires i < |cs| && ChunkFilesPresent(cs, dir.files)
    requires r.Valid() && t.Valid() && r.clock == t.clock
    modifies r, r.agent, r.clock, t, t.agent, t.status, disk
    ensures r.Valid() && t.Valid()
    ensures r.clock.time >= old(r.clock.time)
    ensures err.None? <==> PartOk(a)
    ensures err.None? ==> s == PartSteps(cs[i], a)
    ensures err.None? ==> t.status.completedParts == old(t.status.completedParts)[cs[i].index := a.result.eTag]
    ensures err.Some? ==> s == FailSteps(cs[i], a)
  {
    var ch := cs[i];
    assert Chunker.ChunkFileName(ch) in dir.files;
    var reader := dir.GetChunkReader(ch, a.readerOpens);
    if reader.None? {
      FailPart(r, "get chunk reader (part " + IntToString(ch.index) + ")", Some(ch.index), uploadID);
      return Some("failed to get chunk reader for part " + IntToString(ch.index)), FailureTail(Some(ch.index));
    }
    r.PartStart(ch.index, ch.size, ch.offset);
    ReportDeltas(r, ch.index, Progress.RunAsWritten(a.bodyReads).1);
    if a.result.PartFailed? {
      FailPart(r, "upload part " + IntToString(ch.index) + " failed after retries", Some(ch.index), uploadID);
      err := Some("failed to upload part " + IntToString(ch.index) + " after retries");
    } else if a.result.PartWithoutETag? {
      FailPart(r, "nil ETag on part " + IntToString(ch.index), Some(ch.index), uploadID);
      err := Some("ETag for part " + IntToString(ch.index) + " is nil");
    } else {
      RecordPart(r, t, disk, ch, a.result.eTag, a.saveOk, statusPath);
      return None, PartSteps(ch, a);
    }
    s := [PartStartReported(ch.index), PartSent(ch.index, a.result)] + FailureTail(Some(ch.index));
  }

  /**
   * The part loop of UploadFile: the chunks are uploaded in order until one
   * fails, which ends the run. When none fails, the completed-part entries are
   * those of the chunks, in chunk order.
   */
  method PartLoop(r: WsReporter.Reporter, t: WsTracker.WSTracker, dir: Chunker.ChunkDir, disk: Tracker.StatusFiles,
                  cs: seq<Chunker.Chunk>, part: nat -> PartAttempt, ghost complete: bool, uploadID: string, statusPath: string)
    returns (err: Option<string>, s: seq<Step>, completed: seq<S3.CompletedPart>)
    requires ChunkFilesPresent(cs, dir.files)
    requires r.Valid() && t.Valid() && r.clock == t.clock
    modifies r, r.agent, r.clock, t, t.agent, t.status, disk
    ensures r.Valid() && t.Valid()
    ensures r.clock.time >= old(r.clock.time)
    ensures err.None? <==> forall j :: 0 <= j < |cs| ==> PartOk(part(j))
    ensures err.None? ==> s == LoopSteps(cs, part, |cs|) && completed == CompletedParts(cs, part, |cs|)
    ensures err.Some? ==> s == Run(cs, part, complete)
  {
    completed := [];
    s := [];
    var i := 0;
    while i < |cs|
      invariant 0 <= i <= |cs|
      invariant s == LoopSteps(cs, part, i)
      invariant completed == CompletedParts(cs, part, i)
      invariant forall j :: 0 <= j < i ==> PartOk(part(j))
      invariant r.Valid() && t.Valid()
      invariant r.clock.time >= old(r.clock.time)
    {
      var e, ps := UploadPart(r, t, dir, disk, cs, i, part(i), uploadID, statusPath);
      if e.Some? {
        RunFailingAt(cs, part, complete, i);
        return e, s + ps, completed;
      }
      LoopStepsNext(cs, part, i);
      completed := completed + [S3.CompletedPart(cs[i].index, part(i).result.eTag)];
      s := s + ps;
      i := i + 1;
    }
    err := None;
  }

  /** One more uploaded part extends the steps and the completed parts by that part's. */
  lemma LoopStepsNext(cs: seq<Chunker.Chunk>, part: nat -> PartAttempt, i: nat)
    requires i < |cs| && PartOk(part(i))
    ensures LoopSteps(cs, part, i + 1) == LoopSteps(cs, part, i) + PartSteps(cs[i], part(i))
    ensures CompletedParts(cs, part, i + 1) == CompletedParts(cs, part, i) + [S3.CompletedPart(cs[i].index, part(i).result.eTag)]
  {
  }

  /** When part i is the first to fail, the run is the steps before it and its failure. */
  lemma RunFailingAt(cs: seq<Chunker.Chunk>, part: nat -> PartAttempt, complete: bool, i: nat)
    requires i < |cs| && !PartOk(part(i))
    requires forall j :: 0 <= j < i ==> PartOk(part(j))
    ensures Run(cs, part, complete) == LoopSteps(cs, part, i) + FailSteps(cs[i], part(i))
  {
    FirstFailureAt(cs, part, 0, i);
  }

  /**
   * The end of UploadFile once every part is uploaded: the completed parts,
   * sorted by part number, go to CompleteMultipartUpload; its failure is
   * reported, aborts and ends the session as failed, its success ends the
   * session as successful.
   */
  method Complete(r: WsReporter.Reporter, completed: seq<S3.CompletedPart>, complete: bool, uploadID: string)
    returns (err: Option<string>, s: seq<Step>)
    requires r.Valid()
    modifies r, r.agent, r.clock
    ensures r.Valid()
    ensures r.clock.time >= old(r.clock.time)
    ensures err.None? <==> complete
    ensures s == CompletionSteps(S3.SortByPartNumber(completed), complete)
  {
    var sorted := S3.SortByPartNumber(completed);
    if !complete {
      FailPart(r, "complete multipart", None, uploadID);
      return Some("failed to complete multipart upload"), [Completed(sorted, false)] + FailureTail(None);
    }
    r.Done(true, uploadID);
    return None, [Completed(sorted, true), DoneReported(true)];
  }

  /**
   * The part loop and the completion of UploadFile, once the upload is
   * created and the session started: the steps are the run Run describes,
   * and the upload succeeds exactly when every part goes through and the
   * completion succeeds.
   */
  method UploadParts(r: WsReporter.Reporter, t: WsTracker.WSTracker, dir: Chunker.ChunkDir, disk: Tracker.StatusFiles,
                     cs: seq<Chunker.Chunk>, part: nat -> PartAttempt, complete: bool, uploadID: string, statusPath: string)
    returns (err: Option<string>, s: seq<Step>)
    requires forall j :: 0 <= j < |cs| ==> cs[j].index == j + 1
    requires ChunkFilesPresent(cs, dir.files)
    requires r.Valid() && t.Valid() && r.clock == t.clock
    modifies r, r.agent, r.clock, t, t.agent, t.status, disk
    ensures err.None? <==> Succeeds(cs, part, complete)
    ensures s == Run(cs, part, complete)
  {
    var body, completed;
    err, body, completed := PartLoop(r, t, dir, disk, cs, part, complete, uploadID, statusPath);
    if err.Some? {
      return err, body;
    }
    CompletedPartsAscending(cs, part);
    S3.SortAscendingIsIdentity(completed);
    var tail;
    err, tail := Complete(r, completed, complete, uploadID);
    FirstFailureAt(cs, part, 0, |cs|);
    s := body + tail;
  }

  /**
   * The rest of UploadFile once the upload is created, the session started
   * and the status file's name made: the tracker is set up with one part per
   * chunk, the parts are uploaded and the upload completed, and after a
   * success the status file is removed (a failed removal is only logged).
   */
  method FinishUpload(r: WsReporter.Reporter, cfg: Config, filePath: string, s3Key: string, s3: S3Answers,
                      dir: Chunker.ChunkDir, disk: Tracker.StatusFiles, cs: seq<Chunker.Chunk>,
                      uploadID: string, statusPath: string, statusRemoveOk: bool)
    returns (err: Option<string>, steps: seq<Step>)
    requires forall j :: 0 <= j < |cs| ==> cs[j].index == j + 1
    requires ChunkFilesPresent(cs, dir.files)
    requires r.Valid()
    modifies r, r.agent, r.clock, disk
    ensures steps == [Created(true), StartReported] + Run(cs, s3.part, s3.complete)
    ensures err.None? <==> Succeeds(cs, s3.part, s3.complete)
    ensures err.None? && statusRemoveOk ==> statusPath !in disk.files
  {
    var us := new Tracker.UploadStatus(filePath, cfg.bucket, s3Key, uploadID, |cs|, cfg.partSizeBytes);
    var t := new WsTracker.WSTracker(us, r.agent, r.clock);
    var s;
    err, s := UploadParts(r, t, dir, disk, cs, s3.part, s3.complete, uploadID, statusPath);
    steps := [Created(true), StartReported] + s;
    if err.None? {
      var _ := disk.Remove(statusPath, statusRemoveOk);
    }
  }

  /**
   * How an upload ends once CreateMultipartUpload answered with `uploadID`:
   * the steps are a created run; the status-file name panics exactly for an
   * id shorter than 8 characters; otherwise the steps are the creation, the
   * session start and Run, and the upload succeeds exactly when every part and
   * the completion do. A failure ends with an error, an abort and a failed
   * session end; a success completes every part, in ascending order, ends the
   * session as successful and removes the status file (`statusGone`: the file
   * is gone unless its removal failed, which is only logged).
   */
  ghost predicate CreatedOutcome(outcome: Outcome, steps: seq<Step>, cs: seq<Chunker.Chunk>, s3: S3Answers,
                                 uploadID: string, statusGone: bool)
  {
    && CreatedRun(steps)
    && (outcome == SlicePanic <==> |uploadID| < 8)
    && (outcome != SlicePanic ==>
          && steps == [Created(true), StartReported] + Run(cs, s3.part, s3.complete)
          && (outcome == Success <==> Succeeds(cs, s3.part, s3.complete)))
    && (outcome.Failure? ==>
          |steps| >= 5 && steps[|steps| - 3].ErrorReported? && steps[|steps| - 2] == Aborted && steps[|steps| - 1] == DoneReported(false))
    && (outcome.Success? ==>
          && |steps| >= 4 && steps[|steps| - 1] == DoneReported(true)
          && steps[|steps| - 2] == Completed(CompletedParts(cs, s3.part, |cs|), true)
          && S3.StrictlyAscending(steps[|steps| - 2].parts)
          && (forall j :: 0 <= j < |cs| ==> s3.part(j).result.PartUploaded?)
          && statusGone)
  }

  /**
   * UploadFile once CreateMultipartUpload answered with an upload id: the
   * session is started, the status file is named after the first 8
   * characters of the id (a shorter id makes the slice panic), and the run
   * goes on as Run describes.
   */
  method AfterCreate(r: WsReporter.Reporter, cfg: Config, filePath: string, s3Key: string, s3: S3Answers, tempDir: string,
                     dir: Chunker.ChunkDir, disk: Tracker.StatusFiles, cs: seq<Chunker.Chunk>, uploadID: string,
                     statusRemoveOk: bool)
    returns (outcome: Outcome, steps: seq<Step>)
    requires forall j :: 0 <= j < |cs| ==> cs[j].index == j + 1
    requires ChunkFilesPresent(cs, dir.files)
    requires r.Valid()
    modifies r, r.agent, r.clock, disk
    ensures CreatedOutcome(outcome, steps, cs, s3, uploadID,
                            |uploadID| >= 8 && (statusRemoveOk ==> StatusFilePath(tempDir, filePath, uploadID) !in disk.files))
  {
    StartSession(r, cfg, s3Key, uploadID);
    if |uploadID| < 8 {
      steps := [Created(true), StartReported];
      assert RecordedBeforeDone(steps) && EndsLast(steps);
      return SlicePanic, steps;
    }
    var err;
    err, steps := FinishUpload(r, cfg, filePath, s3Key, s3, dir, disk, cs, uploadID, StatusFilePath(tempDir, filePath, uploadID),
                               statusRemoveOk);
    outcome := if err.Some? then Failure(err.value) else Success;
    FinishedOutcome(cs, s3, uploadID, outcome, statusRemoveOk ==> StatusFilePath(tempDir, filePath, uploadID) !in disk.files);
  }

  /** A run that got past the status-file name ends as CreatedOutcome says. */
  lemma FinishedOutcome(cs: seq<Chunker.Chunk>, s3: S3Answers, uploadID: string, outcome: Outcome, statusGone: bool)
    requires forall j :: 0 <= j < |cs| ==> cs[j].index == j + 1
    requires |uploadID| >= 8 && outcome != SlicePanic
    requires outcome == Success <==> Succeeds(cs, s3.part, s3.complete)
    requires outcome == Success ==> statusGone
    ensures CreatedOutcome(outcome, [Created(true), StartReported] + Run(cs, s3.part, s3.complete), cs, s3, uploadID, statusGone)
  {
    CreatedRunOutcome(cs, s3.part, s3.complete);
  }

  /** The reporter's error event for a failure before the upload was created (the session is not ended). */
  method ReportError(r: WsReporter.Reporter, msg: string)
    requires r.Valid()
    modifies r, r.agent, r.clock
    ensures r.Valid()
  {
    r.Error(msg, None);
  }

  /** The reporter's session start, with no extra fields. */
  method StartSession(r: WsReporter.Reporter, cfg: Config, s3Key: string, uploadID: string)
    requires r.Valid()
    modifies r, r.agent, r.clock
    ensures r.Valid()
  {
    r.Start(cfg.bucket, s3Key, uploadID, cfg.partSizeBytes, map[]);
  }

  /**
   * fileChunker.Chunks(): the chunks of the file as the split makes them (none
   * when it fails), numbered from 1 in order, each with its chunk file present.
   */
  method SplitIntoChunks(dir: Chunker.ChunkDir, fc: Chunker.FileChunker, fs: FileAnswers) returns (cs: seq<Chunker.Chunk>)
    requires dir.Valid() && fc.chunkSize > 0
    requires Chunker.ReaderContract(fs.readAnswers, fc.chunkSize)
    modifies dir
    ensures dir.Valid()
    ensures cs == Chunker.SplitChunks(fc.chunkSize, fc.filePath, fs.opens, fs.readAnswers, fs.writes)
    ensures forall j :: 0 <= j < |cs| ==> cs[j].index == j + 1
    ensures ChunkFilesPresent(cs, dir.files)
  {
    cs := dir.Chunks(fc, fs.opens, fs.readAnswers, fs.writes, fs.rollbackFails, fs.rollbackDirOk);
    if cs != [] {
      assert Chunker.WellFormed(cs, fc.chunkSize, fc.filePath);
      forall j | 0 <= j < |cs|
        ensures Chunker.ChunkFileName(cs[j]) in dir.files
      {
        Chunker.ChunkFileNameRoundTrip(cs, fc.chunkSize, fc.filePath, j);
      }
    }
  }

  /**
   * UploadFile from the point where the file is known to be non-empty: the
   * reporter is made, the file split into chunks, the multipart upload
   * created, and the run goes on as AfterCreate says.
   */
  method UploadNonEmpty(cfg: Config, filePath: string, s3Key: string, s3: S3Answers, fs: FileAnswers,
                        tempDir: string, runID: string, size: nat,
                        agent: Agent, clock: Clock, dir: Chunker.ChunkDir, disk: Tracker.StatusFiles)
    returns (outcome: Outcome, steps: seq<Step>, ghost chunks: seq<Chunker.Chunk>)
    requires cfg.defaultChunkSize > 0
    requires Chunker.ReaderContract(fs.readAnswers, ChunkSizeFor(cfg))
    requires dir.Valid()
    modifies agent, clock, dir, disk
    ensures dir.Valid()
    ensures fs.chunkerStat.Some? ==>
              chunks == Chunker.SplitChunks(ChunkSizeFor(cfg), filePath, fs.opens, fs.readAnswers, fs.writes)
    ensures forall j :: 0 <= j < |chunks| ==> chunks[j].index == j + 1
    ensures Created(true) !in steps ==> outcome.Failure? && forall k :: 0 <= k < |steps| ==> !steps[k].DoneReported?
    ensures Created(true) in steps ==>
              && s3.create.Some?
              && CreatedOutcome(outcome, steps, chunks, s3, s3.create.value,
                                |s3.create.value| >= 8
                                && (fs.statusRemoveOk ==> StatusFilePath(tempDir, filePath, s3.create.value) !in disk.files))
  {
    chunks := [];
    var r := new WsReporter.Reporter(size, runID, agent, clock);
    var made := Chunker.NewFileChunker(filePath, fs.chunkerStat, cfg.partSizeBytes, cfg.defaultChunkSize);
    if made.Err? {
      ReportError(r, "create chunker: " + made.error);
      return Failure("failed to create file chunker: " + made.error), [ErrorReported(None)], [];
    }
    var fc := made.value;
    var cs := SplitIntoChunks(dir, fc, fs);
    chunks := cs;

    if s3.create.None? {
      ReportError(r, "initiate multipart");
      return Failure("failed to initiate multipart upload"), [Created(false), ErrorReported(None)], cs;
    }
    outcome, steps := AfterCreate(r, cfg, filePath, s3Key, s3, tempDir, dir, disk, cs, s3.create.value, fs.statusRemoveOk);
  }

  /**
   * UploadFile. An empty file succeeds before any multipart upload is created.
   * Once the upload is created, the session start comes first, then the parts
   * in order; a failing part aborts the upload and reports the session as
   * failed, and no later part is attempted. The completed parts go to
   * CompleteMultipartUpload in ascending order; its failure aborts, its success
   * reports the session as successful and removes the status file (a failed removal is only logged).
   */
  method UploadFile(cfg: Config, filePath: string, s3Key: string, s3: S3Answers, fs: FileAnswers,
                    tempDir: string, runID: string,
                    agent: Agent, clock: Clock, dir: Chunker.ChunkDir, disk: Tracker.StatusFiles)
    returns (outcome: Outcome, steps: seq<Step>, ghost chunks: seq<Chunker.Chunk>)
    requires cfg.defaultChunkSize > 0
    requires Chunker.ReaderContract(fs.readAnswers, ChunkSizeFor(cfg))
    requires dir.Valid()
    modifies agent, clock, dir, disk
    ensures dir.Valid()
    ensures s3.headBucket.Some? ==> outcome == Failure(CheckBucket(cfg.bucket, s3.headBucket).value) && steps == []
    ensures s3.headBucket.None? && fs.stat.None? ==> outcome == Failure("failed to get file info") && steps == []
    ensures s3.headBucket.None? && fs.stat == Some(0) ==> outcome == Success && steps == []
    ensures s3.headBucket.None? && fs.stat.Some? && fs.stat.value > 0 && fs.chunkerStat.Some? ==>
              chunks == Chunker.SplitChunks(ChunkSizeFor(cfg), filePath, fs.opens, fs.readAnswers, fs.writes)
    ensures forall j :: 0 <= j < |chunks| ==> chunks[j].index == j + 1
    ensures Created(true) !in steps ==> outcome != SlicePanic && forall k :: 0 <= k < |steps| ==> !steps[k].DoneReported?
    ensures Created(true) in steps ==>
              && s3.create.Some?
              && CreatedOutcome(outcome, steps, chunks, s3, s3.create.value,
                                |s3.create.value| >= 8
                                && (fs.statusRemoveOk ==> StatusFilePath(tempDir, filePath, s3.create.value) !in disk.files))
  {
    chunks := [];
    var bucketError := CheckBucket(cfg.bucket, s3.headBucket);
    if bucketError.Some? {
      return Failure(bucketError.value), [], [];
    }
    if fs.stat.None? {
      return Failure("failed to get file info"), [], [];
    }
    var size := fs.stat.value;
    if size == 0 {
      return Success, [], [];
    }
    outcome, steps, chunks := UploadNonEmpty(cfg, filePath, s3Key, s3, fs, tempDir, runID, size, agent, clock, dir, disk);
  }
}
