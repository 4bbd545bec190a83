/**
 * The web UI's mock result store and its batch-processing simulation.
 *
 * A batch is an object whose fields the simulation updates in place, so it
 * is a class. The timers that drive the simulation (the first and the
 * rescheduled processNextFile, the 300 ms progress interval, the 200 ms
 * finishing timeout) are left to the caller: each timer callback is a
 * method, callable in the state in which the simulation schedules it, and
 * Math.random's draws and the current time are parameters.
 */
module BatchApi {
  import opened Wrappers
  import opened Text

  datatype Status = Pending | Processing | Completed | Failed

  /** BatchFileItem; the optional fields are Option, timestamps are milliseconds. */
  datatype FileItem = FileItem(
    id: string,
    fileName: string,
    fileSize: int,
    status: Status,
    progress: real,
    error: Option<string>,
    downloadUrl: Option<string>,
    s3Url: Option<string>,
    startedAt: Option<int>,
    completedAt: Option<int>)

  /** UploadResult, without its free-form metadata record. */
  datatype UploadResult = UploadResult(
    id: string,
    fileName: string,
    fileSize: int,
    contentType: string,
    s3Url: string,
    downloadUrl: string,
    createdAt: int,
    completedAt: int)

  /** At most this many files are processed at once. */
  const MaxConcurrent := 3

  const UploadNotFound: string := "업로드 정보를 찾을 수 없습니다."
  const BatchNotFound: string := "배치 처리 정보를 찾을 수 없습니다."
  const ProcessingError: string := "처리 중 오류가 발생했습니다."

  const MB := 1024 * 1024

  /** The id of the i-th file (from 0) of a batch: "<batchId>_file_<i+1>". */
  function FileId(batchId: string, i: nat): string {
    batchId + "_file_" + NatToString(i + 1)
  }

  /** The pending file createMockBatchResult makes at index i, of sizeMB megabytes. */
  function NewFile(batchId: string, i: nat, sizeMB: int): FileItem {
    FileItem(FileId(batchId, i), "file_" + NatToString(i + 1) + ".txt", sizeMB * MB, Pending, 0.0, None, None, None, None, None)
  }

  /** Different files of a batch have different ids. */
  lemma FileIdsDistinct(batchId: string, i: nat, j: nat)
    requires i != j
    ensures FileId(batchId, i) != FileId(batchId, j)
  {
    var prefix := batchId + "_file_";
    if FileId(batchId, i) == FileId(batchId, j) {
      assert FileId(batchId, i)[|prefix|..] == NatToString(i + 1);
      assert FileId(batchId, j)[|prefix|..] == NatToString(j + 1);
      NatToStringInjective(i + 1, j + 1);
    }
  }

  /** A file as the reset leaves it: pending, no progress, every optional field cleared. */
  function Cleared(f: FileItem): FileItem {
    f.(status := Pending, progress := 0.0, startedAt := None, completedAt := None, error := None, downloadUrl := None, s3Url := None)
  }

  /** The number of files with status s. */
  function CountStatus(files: seq<FileItem>, s: Status): (n: nat)
    ensures n <= |files|
  {
    if files == [] then 0 else CountStatus(files[..|files| - 1], s) + (if files[|files| - 1].status == s then 1 else 0)
  }

  /** Every file has one of the four statuses, so the four counts add up to the number of files. */
  lemma {:induction false} CountsCoverAll(files: seq<FileItem>)
    ensures CountStatus(files, Pending) + CountStatus(files, Processing) + CountStatus(files, Completed) + CountStatus(files, Failed) == |files|
  {
    if files != [] {
      CountsCoverAll(files[..|files| - 1]);
    }
  }

  /** Replacing one file moves it from the count of its old status to that of its new one. */
  lemma {:induction false} CountStatusUpdate(files: seq<FileItem>, k: nat, f: FileItem, s: Status)
    requires k < |files|
    ensures CountStatus(files[k := f], s) ==
              CountStatus(files, s) - (if files[k].status == s then 1 else 0) + (if f.status == s then 1 else 0)
  {
    var n := |files|;
    var g := files[k := f];
    if k == n - 1 {
      assert g[..n - 1] == files[..n - 1];
    } else {
      assert g[..n - 1] == files[..n - 1][k := f];
      CountStatusUpdate(files[..n - 1], k, f, s);
    }
  }

  /** In a batch whose files are all pending, the pending count is the number of files and the others are 0. */
  lemma {:induction false} AllPendingCounts(files: seq<FileItem>)
    requires forall i :: 0 <= i < |files| ==> files[i].status == Pending
    ensures CountStatus(files, Pending) == |files|
    ensures CountStatus(files, Processing) == 0 && CountStatus(files, Completed) == 0 && CountStatus(files, Failed) == 0
  {
    if files != [] {
      AllPendingCounts(files[..|files| - 1]);
    }
  }

  /** What processNextFile did. */
  datatype NextOutcome =
    | AllDone         // every file is started and finished: the batch is marked completed
    | Idle            // every file is started, some are still processing: nothing to do
    | Deferred        // MaxConcurrent files are processing: retried after 1000 ms
    | Started(index: nat)

  /** A BatchResult, whose fields the simulation updates in place. */
  class Batch {
    const batchId: string
    const totalFiles: nat
    var files: seq<FileItem>
    var completedFiles: int
    var failedFiles: int
    var pendingFiles: int
    var processingFiles: int
    var overallStatus: Status
    var overallProgress: real
    var completedAt: Option<int>

    /** The batch holds one item per file. */
    predicate Shaped()
      reads this
    {
      |files| == totalFiles
    }

    /** The pending, processing, completed and failed counters. */
    function Counters(): (int, int, int, int)
      reads this
    {
      (pendingFiles, processingFiles, completedFiles, failedFiles)
    }

    /** The four counters add up to the number of files. */
    ghost predicate Balanced()
      reads this
    {
      pendingFiles + processingFiles + completedFiles + failedFiles == totalFiles
    }

    /**
     * The invariant of a batch that one simulation alone drives, with next
     * file `next` and `running` files in flight: Consistent on its fields.
     */
    ghost predicate DrivenBy(next: nat, running: int)
      reads this
    {
      Consistent(files, totalFiles, pendingFiles, processingFiles, completedFiles, failedFiles, running, next)
    }

    /**
     * createMockBatchResult: totalFiles pending files with ids
     * "<batchId>_file_<i+1>", sizes drawn by sizeMB, and the counters of a
     * batch that has not started.
     */
    constructor (batchId: string, totalFiles: nat, sizeMB: nat -> int)
      ensures Shaped() && Balanced() && DrivenBy(0, 0)
      ensures this.batchId == batchId && this.totalFiles == totalFiles
      ensures forall i :: 0 <= i < totalFiles ==> files[i] == NewFile(batchId, i, sizeMB(i))
      ensures pendingFiles == totalFiles && processingFiles == 0 && completedFiles == 0 && failedFiles == 0
      ensures overallStatus == Pending && overallProgress == 0.0 && completedAt.None?
    {
      var fs: seq<FileItem> := [];
      var i := 0;
      while i < totalFiles
        invariant 0 <= i <= totalFiles && |fs| == i
        invariant forall j :: 0 <= j < i ==> fs[j] == NewFile(batchId, j, sizeMB(j))
      {
        fs := fs + [NewFile(batchId, i, sizeMB(i))];
        i := i + 1;
      }
      AllPendingConsistent(fs);
      this.batchId := batchId;
      this.totalFiles := totalFiles;
      files := fs;
      completedFiles, failedFiles, pendingFiles, processingFiles := 0, 0, totalFiles, 0;
      overallStatus, overallProgress, completedAt := Pending, 0.0, None;
    }

    /**
     * The first part of startBatchSimulation: every file back to pending with
     * progress 0 and its optional fields cleared, and the counters to "all
     * pending"; a simulation starting at file 0 with nothing running then
     * drives it alone.
     */
    method Reset()
      requires Shaped()
      modifies this
      ensures Shaped() && Balanced() && DrivenBy(0, 0)
      ensures |files| == |old(files)| && forall i :: 0 <= i < |files| ==> files[i] == Cleared(old(files)[i])
      ensures pendingFiles == totalFiles && processingFiles == 0 && completedFiles == 0 && failedFiles == 0
      ensures overallStatus == Pending && overallProgress == 0.0 && completedAt.None?
    {
      var fs := files;
      var i := 0;
      while i < |fs|
        invariant 0 <= i <= |fs| == |files|
        invariant forall j :: 0 <= j < i ==> fs[j] == Cleared(files[j])
        invariant forall j :: i <= j < |fs| ==> fs[j] == files[j]
      {
        fs := fs[i := Cleared(fs[i])];
        i := i + 1;
      }
      AllPendingConsistent(fs);
      files := fs;
      overallStatus, overallProgress := Pending, 0.0;
      completedFiles, failedFiles, pendingFiles, processingFiles := 0, 0, totalFiles, 0;
      completedAt := None;
    }
  }

  /**
   * The closure one call of startBatchSimulation creates: the batch it
   * drives and its two local variables, the index of the next file and the
   * number of files it is processing. A restart creates a new closure over
   * the same batch and leaves the callbacks of the earlier one running, so
   * each callback is callable whatever the batch's state, and only while
   * one simulation alone drives the batch does Valid hold.
   */
  class Simulation {
    const batch: Batch
    var currentFileIndex: nat
    var processingCount: int

    /** This simulation alone drives its batch. */
    ghost predicate Valid()
      reads this, batch
    {
      batch.DrivenBy(currentFileIndex, processingCount)
    }

    /** The closure's variables as startBatchSimulation declares them. */
    constructor (b: Batch)
      ensures batch == b && currentFileIndex == 0 && processingCount == 0
    {
      batch := b;
      currentFileIndex, processingCount := 0, 0;
    }

    /**
     * processNextFile: once every file is started, marks the batch completed
     * if every file has finished; otherwise, while fewer than MaxConcurrent
     * files are processing, starts the next file, whatever its status.
     */
    method ProcessNextFile(now: int) returns (outcome: NextOutcome)
      requires batch.Shaped()
      modifies this, batch
      ensures batch.Shaped()
      ensures old(batch.Balanced()) ==> batch.Balanced()
      ensures old(Valid()) ==> Valid()
      ensures batch.overallProgress == old(batch.overallProgress)
      ensures !outcome.AllDone? ==> batch.completedAt == old(batch.completedAt)
      ensures !outcome.Started? ==>
                && batch.files == old(batch.files) && batch.Counters() == old(batch.Counters())
                && currentFileIndex == old(currentFileIndex) && processingCount == old(processingCount)
      ensures old(currentFileIndex) >= batch.totalFiles ==>
                && (outcome == AllDone <==> old(batch.completedFiles) + old(batch.failedFiles) == batch.totalFiles)
                && (outcome.AllDone? ==> batch.overallStatus == Completed && batch.completedAt == Some(now))
                && (!outcome.AllDone? ==> outcome == Idle && batch.overallStatus == old(batch.overallStatus))
      ensures old(currentFileIndex) < batch.totalFiles && old(processingCount) >= MaxConcurrent ==>
                outcome == Deferred && batch.overallStatus == old(batch.overallStatus)
      ensures outcome.Started? <==> old(currentFileIndex) < batch.totalFiles && old(processingCount) < MaxConcurrent
      ensures outcome.Started? ==>
                && outcome.index == old(currentFileIndex) && currentFileIndex == old(currentFileIndex) + 1
                && processingCount == old(processingCount) + 1
                && batch.files == old(batch.files)[outcome.index := old(batch.files)[outcome.index].(status := Processing, progress := 0.0, startedAt := Some(now))]
                && batch.Counters() == (old(batch.pendingFiles) - 1, old(batch.processingFiles) + 1, old(batch.completedFiles), old(batch.failedFiles))
                && batch.overallStatus == Processing
    {
      if currentFileIndex >= batch.totalFiles {
        if batch.completedFiles + batch.failedFiles == batch.totalFiles {
          batch.overallStatus := Completed;
          batch.completedAt := Some(now);
          return AllDone;
        }
        return Idle;
      }
      if processingCount >= MaxConcurrent {
        return Deferred;
      }
      var k := currentFileIndex;
      var f := batch.files[k].(status := Processing, progress := 0.0, startedAt := Some(now));
      StartDriven(batch.files, batch.totalFiles, batch.pendingFiles, batch.processingFiles, batch.completedFiles,
                  batch.failedFiles, processingCount, k, now);
      currentFileIndex := currentFileIndex + 1;
      processingCount := processingCount + 1;
      batch.files := batch.files[k := f];
      batch.pendingFiles := batch.pendingFiles - 1;
      batch.processingFiles := batch.processingFiles + 1;
      batch.overallStatus := Processing;
      outcome := Started(k);
    }

    /**
     * One tick of the progress interval of file k, adding inc (Math.random()
     * * 15 + 5): at 100 or more the progress is clamped to 100 and the
     * interval stops, and the file then waits for Finish.
     */
    method Tick(k: nat, inc: real) returns (reached: bool)
      requires k < |batch.files|
      requires 5.0 <= inc < 20.0
      modifies batch`files
      ensures old(Valid()) ==> Valid()
      ensures reached <==> old(batch.files[k].progress) + inc >= 100.0
      ensures batch.files == old(batch.files)[k := old(batch.files[k]).(progress := if reached then 100.0 else old(batch.files[k].progress) + inc)]
      ensures old(batch.files[k].progress) < 100.0 ==> old(batch.files[k].progress) < batch.files[k].progress
      ensures old(batch.files[k].progress) >= 0.0 ==> batch.files[k].progress <= 100.0
    {
      var p := batch.files[k].progress + inc;
      reached := p >= 100.0;
      var f := batch.files[k].(progress := if reached then 100.0 else p);
      if Valid() {
        TickKeepsConsistent(batch.files, batch.totalFiles, batch.pendingFiles, batch.processingFiles, batch.completedFiles,
                            batch.failedFiles, processingCount, currentFileIndex, k, f);
      }
      batch.files := batch.files[k := f];
    }

    /**
     * The finishing timeout of file k: the file fails or completes
     * (FinishedFile), the counters follow, the running count drops, and the
     * overall progress becomes the finished share of the files, in percent.
     */
    method Finish(k: nat, shouldFail: bool, now: int)
      requires batch.Shaped() && k < |batch.files|
      modifies this, batch
      ensures batch.Shaped()
      ensures old(batch.Balanced()) ==> batch.Balanced()
      ensures old(Valid()) && old(batch.files[k].status) == Processing ==>
                Valid() && 0.0 <= batch.overallProgress <= 100.0
      ensures batch.files == old(batch.files)[k := FinishedFile(old(batch.files[k]), shouldFail, now)]
      ensures batch.failedFiles == old(batch.failedFiles) + (if shouldFail then 1 else 0)
      ensures batch.completedFiles == old(batch.completedFiles) + (if shouldFail then 0 else 1)
      ensures batch.processingFiles == old(batch.processingFiles) - 1 && batch.pendingFiles == old(batch.pendingFiles)
      ensures processingCount == old(processingCount) - 1 && currentFileIndex == old(currentFileIndex)
      ensures batch.totalFiles > 0 && batch.overallProgress == Share(batch.completedFiles + batch.failedFiles, batch.totalFiles)
      ensures batch.overallStatus == old(batch.overallStatus) && batch.completedAt == old(batch.completedAt)
    {
      var f := FinishedFile(batch.files[k], shouldFail, now);
      var completed := batch.completedFiles + (if shouldFail then 0 else 1);
      var failed := batch.failedFiles + (if shouldFail then 1 else 0);
      FinishDriven(batch.files, batch.totalFiles, batch.pendingFiles, batch.processingFiles, batch.completedFiles,
                   batch.failedFiles, processingCount, currentFileIndex, k, shouldFail, now);
      batch.files := batch.files[k := f];
      batch.completedFiles, batch.failedFiles := completed, failed;
      batch.processingFiles := batch.processingFiles - 1;
      processingCount := processingCount - 1;
      batch.overallProgress := Share(completed + failed, batch.totalFiles);
    }
  }

  /** Starting the next file of a batch one simulation drives, below MaxConcurrent, keeps the batch driven. */
  lemma StartDriven(files: seq<FileItem>, total: nat, pending: int, processing: int, completed: int, failed: int,
                    running: int, next: nat, now: int)
    requires next < |files|
    ensures Consistent(files, total, pending, processing, completed, failed, running, next) && running < MaxConcurrent ==>
              Consistent(files[next := files[next].(status := Processing, progress := 0.0, startedAt := Some(now))],
                         total, pending - 1, processing + 1, completed, failed, running + 1, next + 1)
  {
    if Consistent(files, total, pending, processing, completed, failed, running, next) && running < MaxConcurrent {
      StartKeepsConsistent(files, total, pending, processing, completed, failed, running, next,
                           files[next].(status := Processing, progress := 0.0, startedAt := Some(now)));
    }
  }

  /** Finishing file k of a batch one simulation drives, while it is processing, keeps the batch driven and its progress within 0..100. */
  lemma FinishDriven(files: seq<FileItem>, total: nat, pending: int, processing: int, completed: int, failed: int,
                     running: int, next: nat, k: nat, shouldFail: bool, now: int)
    requires k < |files|
    ensures Consistent(files, total, pending, processing, completed, failed, running, next) && files[k].status == Processing ==>
              && Consistent(files[k := FinishedFile(files[k], shouldFail, now)], total, pending, processing - 1,
                            completed + (if shouldFail then 0 else 1), failed + (if shouldFail then 1 else 0), running - 1, next)
              && 0.0 <= Share(completed + failed + 1, total) <= 100.0
  {
    if Consistent(files, total, pending, processing, completed, failed, running, next) && files[k].status == Processing {
      var f := FinishedFile(files[k], shouldFail, now);
      var c, d := completed + (if shouldFail then 0 else 1), failed + (if shouldFail then 1 else 0);
      FinishKeepsConsistent(files, total, pending, processing, completed, failed, running, next, k, f);
      ConsistentCounters(files[k := f], total, pending, processing - 1, c, d, running - 1, next);
      ShareBounds(c + d, total);
    }
  }

  /**
   * A file at the end of its processing: failed (the 5% draw) with the
   * processing error, or completed with its download and S3 links; either
   * way stamped with the completion time.
   */
  function FinishedFile(f: FileItem, shouldFail: bool, now: int): (g: FileItem)
    ensures g.status == (if shouldFail then Failed else Completed)
    ensures g.completedAt == Some(now) && g.id == f.id && g.progress == f.progress
    ensures shouldFail ==> g.error == Some(ProcessingError) && g.downloadUrl == f.downloadUrl && g.s3Url == f.s3Url
    ensures !shouldFail ==> g.error == f.error && g.downloadUrl == Some("https://mock-download.example.com/files/" + f.id)
                              && g.s3Url == Some("https://mock-s3.amazonaws.com/bucket/uploads/" + f.id)
  {
    if shouldFail then f.(status := Failed, error := Some(ProcessingError), completedAt := Some(now))
    else f.(status := Completed, downloadUrl := Some("https://mock-download.example.com/files/" + f.id),
            s3Url := Some("https://mock-s3.amazonaws.com/bucket/uploads/" + f.id), completedAt := Some(now))
  }

  /**
   * The batch invariant: each counter is the number of files with its
   * status; the files before the next index are started and the others
   * pending; the running count is the processing count and at most
   * MaxConcurrent; progress stays within 0..100.
   */
  ghost predicate Consistent(files: seq<FileItem>, total: nat, pending: int, processing: int, completed: int, failed: int,
                             running: int, next: nat) {
    && |files| == total
    && pending == CountStatus(files, Pending)
    && processing == CountStatus(files, Processing)
    && completed == CountStatus(files, Completed)
    && failed == CountStatus(files, Failed)
    && running == processing <= MaxConcurrent
    && next <= total
    && (forall i :: 0 <= i < |files| ==> (files[i].status == Pending <==> i >= next))
    && (forall i :: 0 <= i < |files| ==> 0.0 <= files[i].progress <= 100.0)
  }

  /** In a consistent batch the four counters add up to the number of files. */
  lemma ConsistentCounters(files: seq<FileItem>, total: nat, pending: int, processing: int, completed: int, failed: int,
                           running: int, next: nat)
    requires Consistent(files, total, pending, processing, completed, failed, running, next)
    ensures pending + processing + completed + failed == total
  {
    CountsCoverAll(files);
  }

  /** Files that are all pending with no progress make the batch of a simulation that has not started. */
  lemma AllPendingConsistent(files: seq<FileItem>)
    requires forall i :: 0 <= i < |files| ==> files[i].status == Pending && files[i].progress == 0.0
    ensures Consistent(files, |files|, |files|, 0, 0, 0, 0, 0)
  {
    AllPendingCounts(files);
  }

  /** Starting the next file, while fewer than MaxConcurrent are processing, keeps the batch consistent. */
  lemma StartKeepsConsistent(files: seq<FileItem>, total: nat, pending: int, processing: int, completed: int, failed: int,
                             running: int, next: nat, g: FileItem)
    requires Consistent(files, total, pending, processing, completed, failed, running, next)
    requires next < total && running < MaxConcurrent && g.status == Processing && g.progress == 0.0
    ensures Consistent(files[next := g], total, pending - 1, processing + 1, completed, failed, running + 1, next + 1)
  {
    StartCounts(files, next, g);
  }

  /** Moving a file's progress within 0..100, without changing its status, keeps the batch consistent. */
  lemma TickKeepsConsistent(files: seq<FileItem>, total: nat, pending: int, processing: int, completed: int, failed: int,
                            running: int, next: nat, k: nat, g: FileItem)
    requires Consistent(files, total, pending, processing, completed, failed, running, next)
    requires k < |files| && g.status == files[k].status && 0.0 <= g.progress <= 100.0
    ensures Consistent(files[k := g], total, pending, processing, completed, failed, running, next)
  {
    SameStatusCounts(files, k, g);
  }

  /** Finishing a processing file, as completed or failed, keeps the batch consistent. */
  lemma FinishKeepsConsistent(files: seq<FileItem>, total: nat, pending: int, processing: int, completed: int, failed: int,
                              running: int, next: nat, k: nat, g: FileItem)
    requires Consistent(files, total, pending, processing, completed, failed, running, next)
    requires k < |files| && files[k].status == Processing && (g.status == Completed || g.status == Failed)
    requires 0.0 <= g.progress <= 100.0
    ensures Consistent(files[k := g], total, pending, processing - 1,
                       completed + (if g.status == Completed then 1 else 0), failed + (if g.status == Failed then 1 else 0),
                       running - 1, next)
  {
    FinishCounts(files, k, g);
  }

  /** overallProgress: the share of finished files, in percent. */
  function Share(finished: int, total: nat): real
    requires total > 0
  {
    finished as real / total as real * 100.0
  }

  /** The overall progress stays within 0..100, and is 100 exactly when every file has finished. */
  lemma ShareBounds(finished: int, total: nat)
    requires total > 0 && 0 <= finished <= total
    ensures 0.0 <= Share(finished, total) <= 100.0
    ensures Share(finished, total) == 100.0 <==> finished == total
  {
    QuotientBelow(finished as real, total as real, 0.0);
    QuotientBelow(finished as real, total as real, 1.0);
    QuotientAbove(finished as real, total as real, 1.0);
  }

  /** Starting the pending file k moves one file from pending to processing. */
  lemma StartCounts(files: seq<FileItem>, k: nat, f: FileItem)
    requires k < |files| && files[k].status == Pending && f.status == Processing
    ensures CountStatus(files[k := f], Pending) == CountStatus(files, Pending) - 1
    ensures CountStatus(files[k := f], Processing) == CountStatus(files, Processing) + 1
    ensures CountStatus(files[k := f], Completed) == CountStatus(files, Completed)
    ensures CountStatus(files[k := f], Failed) == CountStatus(files, Failed)
  {
    CountStatusUpdate(files, k, f, Pending);
    CountStatusUpdate(files, k, f, Processing);
    CountStatusUpdate(files, k, f, Completed);
    CountStatusUpdate(files, k, f, Failed);
  }

  /** A change that keeps file k's status keeps every count. */
  lemma SameStatusCounts(files: seq<FileItem>, k: nat, f: FileItem)
    requires k < |files| && files[k].status == f.status
    ensures forall s :: CountStatus(files[k := f], s) == CountStatus(files, s)
  {
    forall s
      ensures CountStatus(files[k := f], s) == CountStatus(files, s)
    {
      CountStatusUpdate(files, k, f, s);
    }
  }

  /** Finishing the processing file k moves one file from processing to completed or failed. */
  lemma FinishCounts(files: seq<FileItem>, k: nat, f: FileItem)
    requires k < |files| && files[k].status == Processing && (f.status == Completed || f.status == Failed)
    ensures CountStatus(files[k := f], Pending) == CountStatus(files, Pending)
    ensures CountStatus(files[k := f], Processing) == CountStatus(files, Processing) - 1
    ensures CountStatus(files[k := f], Completed) == CountStatus(files, Completed) + (if f.status == Completed then 1 else 0)
    ensures CountStatus(files[k := f], Failed) == CountStatus(files, Failed) + (if f.status == Failed then 1 else 0)
  {
    CountStatusUpdate(files, k, f, Pending);
    CountStatusUpdate(files, k, f, Processing);
    CountStatusUpdate(files, k, f, Completed);
    CountStatusUpdate(files, k, f, Failed);
  }

  /**
   * getRandomStatus: completed for index/total below 0.7, processing below
   * 0.85, pending below 0.95, failed otherwise. A zero total makes the ratio
   * -Infinity for a negative index, which is below 0.7, so completed; NaN for
   * index 0 and +Infinity for a positive index pass no comparison, so failed.
   */
  function RandomStatus(index: int, total: int): (s: Status)
    ensures total == 0 ==> (s == Completed <==> index < 0)
    ensures total == 0 ==> s == Completed || s == Failed
  {
    if total == 0 then (if index < 0 then Completed else Failed)
    else
      var progress := index as real / total as real;
      if progress < 0.7 then Completed
      else if progress < 0.85 then Processing
      else if progress < 0.95 then Pending
      else Failed
  }

  /**
   * For a positive total, getRandomStatus splits the indices into four
   * bands by integer thresholds: 10·index against 7, 8.5 and 9.5 tenths of
   * the total.
   */
  lemma RandomStatusBands(index: int, total: int)
    requires total > 0
    ensures RandomStatus(index, total) == Completed <==> 10 * index < 7 * total
    ensures RandomStatus(index, total) == Processing <==> 7 * total <= 10 * index && 20 * index < 17 * total
    ensures RandomStatus(index, total) == Pending <==> 17 * total <= 20 * index && 20 * index < 19 * total
    ensures RandomStatus(index, total) == Failed <==> 19 * total <= 20 * index
  {
    var t := total as real;
    QuotientBelow(index as real, t, 0.7);
    QuotientBelow(index as real, t, 0.85);
    QuotientBelow(index as real, t, 0.95);
  }

  /** For a positive divisor, a quotient is below c exactly when the dividend is below c times the divisor. */
  lemma QuotientBelow(a: real, t: real, c: real)
    requires t > 0.0
    ensures a / t < c <==> a < c * t
  {
    var q := a / t;
    assert q * t == a;
    if q < c {
      assert (c - q) * t > 0.0;
    } else {
      assert (q - c) * t >= 0.0;
    }
  }

  /** For a positive divisor, a quotient is above c exactly when the dividend is above c times the divisor. */
  lemma QuotientAbove(a: real, t: real, c: real)
    requires t > 0.0
    ensures a / t > c <==> a > c * t
  {
    var q := a / t;
    assert q * t == a;
    if q > c {
      assert (q - c) * t > 0.0;
    } else {
      assert (c - q) * t >= 0.0;
    }
  }

  /** The module's two mock stores and the record of running simulations. */
  class MockStore {
    var uploads: map<string, UploadResult>
    var batches: map<string, Batch>
    var activeSimulations: set<string>

    ghost predicate Valid()
      reads this, batches.Values
    {
      forall id :: id in batches ==> batches[id].Shaped() && batches[id].batchId == id
    }

    constructor ()
      ensures Valid() && uploads == map[] && batches == map[] && activeSimulations == {}
    {
      uploads, batches, activeSimulations := map[], map[], {};
    }

    /** getUploadResult: the stored result, or the not-found error for an absent id. */
    function GetUploadResult(id: string): (r: Result<UploadResult, string>)
      reads this
      ensures r.Ok? <==> id in uploads
      ensures r.Ok? ==> r.value == uploads[id]
      ensures r.Err? ==> r.error == UploadNotFound
    {
      if id in uploads then Ok(uploads[id]) else Err(UploadNotFound)
    }

    /** getBatchResult: the stored batch, or the not-found error for an absent id. */
    function GetBatchResult(id: string): (r: Result<Batch, string>)
      reads this
      ensures r.Ok? <==> id in batches
      ensures r.Ok? ==> r.value == batches[id]
      ensures r.Err? ==> r.error == BatchNotFound
    {
      if id in batches then Ok(batches[id]) else Err(BatchNotFound)
    }

    /**
     * startBatchSimulation: nothing for an absent id; otherwise the recorded
     * timer is dropped, the batch is reset in place, a new closure over it is
     * returned and the id is recorded as running. The closure's timers are
     * started by the caller, which then calls its ProcessNextFile. A closure
     * of an earlier start is not stopped.
     */
    method StartBatchSimulation(id: string) returns (sim: Option<Simulation>)
      requires Valid()
      modifies if id in batches then {batches[id]} else {}, this`activeSimulations
      ensures Valid()
      ensures id !in batches ==> sim.None? && activeSimulations == old(activeSimulations)
      ensures id in batches ==> activeSimulations == old(activeSimulations) + {id}
      ensures id in batches ==>
                && sim.Some? && fresh(sim.value) && sim.value.batch == batches[id] && sim.value.Valid()
                && sim.value.currentFileIndex == 0 && sim.value.processingCount == 0
      ensures id in batches ==>
                && |batches[id].files| == |old(batches[id].files)|
                && (forall i :: 0 <= i < |batches[id].files| ==> batches[id].files[i] == Cleared(old(batches[id].files)[i]))
                && batches[id].Counters() == (batches[id].totalFiles, 0, 0, 0)
                && batches[id].overallStatus == Pending && batches[id].overallProgress == 0.0 && batches[id].completedAt.None?
    {
      if id !in batches {
        return None;
      }
      var b := batches[id];
      StopBatchSimulation(id);
      b.Reset();
      var s := new Simulation(b);
      activeSimulations := activeSimulations + {id};
      return Some(s);
    }

    /** stopBatchSimulation: forgets the recorded timer of that id; no file's processing is stopped. */
    method StopBatchSimulation(id: string)
      modifies this`activeSimulations
      ensures activeSimulations == old(activeSimulations) - {id}
    {
      activeSimulations := activeSimulations - {id};
    }

    /**
     * createMockBatchResult: a fresh batch of totalFiles pending files, with
     * the sizes drawn for that batch, stored under its id (replacing any
     * batch stored there before).
     */
    method CreateMockBatchResult(batchId: string, totalFiles: nat, sizeMB: (string, nat) -> int)
      requires Valid()
      modifies this`batches
      ensures Valid()
      ensures batchId in batches && batches == old(batches)[batchId := batches[batchId]]
      ensures fresh(batches[batchId]) && NewMockBatch(batches[batchId], batchId, totalFiles, sizeMB)
      ensures batches[batchId].DrivenBy(0, 0)
    {
      var b := new Batch(batchId, totalFiles, (n: nat) => sizeMB(batchId, n));
      batches := batches[batchId := b];
    }

    /** Different ids of a valid store hold different batch objects. */
    lemma BatchesDistinct()
      requires Valid()
      ensures forall a, b :: a in batches && b in batches && a != b ==> batches[a] != batches[b]
    {
      forall a, b | a in batches && b in batches && a != b ensures batches[a] != batches[b] {
        assert batches[a].batchId == a && batches[b].batchId == b;
      }
    }

    /** The batches of the first k ids are in the store, each as createMockBatchResult leaves it. */
    ghost predicate BatchesMade(ids: seq<string>, sizes: seq<nat>, k: nat, sizeMB: (string, nat) -> int)
      requires k <= |ids| == |sizes|
      reads this, batches.Values
    {
      forall i :: 0 <= i < k ==>
        && ids[i] in batches
        && NewMockBatch(batches[ids[i]], ids[i], sizes[i], sizeMB)
    }

    /**
     * The createMockBatchResult call for the k-th id, on a store that holds
     * the batches of the first k ids and nothing else.
     */
    method CreateBatch(ids: seq<string>, sizes: seq<nat>, k: nat, sizeMB: (string, nat) -> int)
      requires k < |ids| == |sizes| && Valid() && BatchesMade(ids, sizes, k, sizeMB)
      requires forall id :: id in batches <==> id in ids[..k]
      requires forall i, j :: 0 <= i < j < |ids| ==> ids[i] != ids[j]
      modifies this`batches
      ensures Valid() && BatchesMade(ids, sizes, k + 1, sizeMB)
      ensures forall id :: id in batches <==> id in ids[..k + 1]
      ensures batches.Values <= old(batches.Values) + {batches[ids[k]]}
      ensures fresh(batches[ids[k]])
    {
      CreateMockBatchResult(ids[k], sizes[k], sizeMB);
      assert ids[..k + 1] == ids[..k] + [ids[k]];
    }

    /**
     * createMockBatchResult for each id in turn, with the matching number of
     * files, on an empty batch store: each id holds its own new batch.
     */
    method CreateBatches(ids: seq<string>, sizes: seq<nat>, sizeMB: (string, nat) -> int)
      requires |ids| == |sizes| && Valid() && batches == map[]
      requires forall i, j :: 0 <= i < j < |ids| ==> ids[i] != ids[j]
      modifies this`batches
      ensures Valid()
      ensures forall id :: id in batches <==> id in ids
      ensures fresh(batches.Values)
      ensures forall i :: 0 <= i < |ids| ==> NewMockBatch(batches[ids[i]], ids[i], sizes[i], sizeMB)
      ensures forall i, j :: 0 <= i < j < |ids| ==> batches[ids[i]] != batches[ids[j]]
    {
      for k := 0 to |ids|
        invariant Valid() && BatchesMade(ids, sizes, k, sizeMB)
        invariant forall id :: id in batches <==> id in ids[..k]
        invariant fresh(batches.Values)
      {
        CreateBatch(ids, sizes, k, sizeMB);
      }
      assert ids[..|ids|] == ids;
      BatchesDistinct();
    }

    /**
     * initializeMockData: both stores emptied and every recorded simulation
     * stopped, then the three sample uploads and the six sample batches
     * (batch1..3 with 300, 150 and 50 files, sample1..3 with 100, 75 and 25).
     */
    method InitializeMockData(now: int, sizeMB: (string, nat) -> int)
      modifies this
      ensures Valid()
      ensures uploads == SampleUploads(3, now)
      ensures forall id :: id in batches <==> id in SampleBatchIds
      ensures fresh(batches.Values)
      ensures forall i :: 0 <= i < |SampleBatchIds| ==>
                NewMockBatch(batches[SampleBatchIds[i]], SampleBatchIds[i], SampleBatchSizes[i], sizeMB)
      ensures forall i, j :: 0 <= i < j < |SampleBatchIds| ==> batches[SampleBatchIds[i]] != batches[SampleBatchIds[j]]
      ensures activeSimulations == {}
    {
      uploads, batches := map[], map[];
      activeSimulations := {};
      var samples: map<string, UploadResult> := map[];
      var i := 0;
      while i < 3
        invariant 0 <= i <= 3 && samples == SampleUploads(i, now)
      {
        samples := samples[SampleId(i) := SampleUpload(i, now)];
        i := i + 1;
      }
      uploads := samples;
      SampleBatchIdsDistinct();
      CreateBatches(SampleBatchIds, SampleBatchSizes, sizeMB);
    }
  }

  /**
   * A one-file batch restarted while the first simulation's file waits for
   * its finishing timeout: the second simulation starts the same file again,
   * both closures finish it, and the batch counts two completed files, -1
   * processing and an overall progress of 200, with the counters still
   * summing to the number of files.
   */
  method RestartOverrun() returns (b: Batch)
    ensures b.totalFiles == 1 && b.completedFiles == 2 && b.processingFiles == -1 && b.pendingFiles == 0
    ensures b.overallProgress == 200.0
    ensures b.Balanced()
  {
    var store := new MockStore();
    store.CreateMockBatchResult("b", 1, (id: string, n: nat) => 1);
    var s1 := StartAndRun(store, "b", 0);
    var s2 := StartAndRun(store, "b", 1);
    s1.Finish(0, false, 2);
    s2.Finish(0, false, 3);
    b := s2.batch;
  }

  /**
   * startBatchSimulation on a stored one-file batch, then the first
   * processNextFile and the file's progress interval up to 100: the file is
   * processing and waits for its finishing timeout.
   */
  method StartAndRun(store: MockStore, id: string, now: int) returns (s: Simulation)
    requires store.Valid() && id in store.batches && store.batches[id].totalFiles == 1
    modifies store.batches[id], store`activeSimulations
    ensures store.Valid() && store.batches == old(store.batches)
    ensures fresh(s) && s.batch == store.batches[id] && s.currentFileIndex == 1 && s.processingCount == 1
    ensures s.batch.Shaped() && s.batch.Counters() == (0, 1, 0, 0)
  {
    var started := store.StartBatchSimulation(id);
    s := started.value;
    var outcome := s.ProcessNextFile(now);
    RunInterval(s, 0);
  }

  /** A file's progress interval ticking by 19 from 0 until it stops at 100. */
  method RunInterval(s: Simulation, k: nat)
    requires k < |s.batch.files| && s.batch.files[k].progress == 0.0
    modifies s.batch`files
    ensures s.batch.files == old(s.batch.files)[k := old(s.batch.files[k]).(progress := 100.0)]
  {
    var i := 0;
    var reached := false;
    while !reached
      invariant 0 <= i <= 6
      invariant !reached ==> i < 6 && s.batch.files == old(s.batch.files)[k := old(s.batch.files[k]).(progress := 19.0 * i as real)]
      invariant reached ==> s.batch.files == old(s.batch.files)[k := old(s.batch.files[k]).(progress := 100.0)]
      decreases 6 - i
    {
      reached := s.Tick(k, 19.0);
      i := i + 1;
    }
  }

  const SampleBatchIds: seq<string> := ["batch1", "batch2", "batch3", "sample1", "sample2", "sample3"]

  /** The number of files of each sample batch, in the order of SampleBatchIds. */
  const SampleBatchSizes: seq<nat> := [300, 150, 50, 100, 75, 25]

  /**
   * A batch as createMockBatchResult leaves it: its id, n pending files with
   * the sizes drawn for that batch, every counter but the pending one 0, and
   * no progress.
   */
  ghost predicate NewMockBatch(b: Batch, id: string, n: nat, sizeMB: (string, nat) -> int)
    reads b
  {
    && b.batchId == id && b.totalFiles == n && b.Shaped()
    && (forall i :: 0 <= i < n ==> b.files[i] == NewFile(id, i, sizeMB(id, i)))
    && b.Counters() == (n, 0, 0, 0)
    && b.overallStatus == Pending && b.overallProgress == 0.0 && b.completedAt.None?
  }

  /**
   * A batch as createMockBatchResult leaves it is one a simulation can start
   * on: every file pending with no progress, and the batch consistent with
   * next file 0 and nothing running.
   */
  lemma NewMockBatchStartable(b: Batch, id: string, n: nat, sizeMB: (string, nat) -> int)
    requires NewMockBatch(b, id, n, sizeMB)
    ensures forall i :: 0 <= i < n ==> b.files[i].status == Pending && b.files[i].progress == 0.0
    ensures b.DrivenBy(0, 0) && b.Balanced()
  {
    AllPendingConsistent(b.files);
  }

  /** The six sample batch ids are pairwise different. */
  lemma SampleBatchIdsDistinct()
    ensures forall i, j :: 0 <= i < j < |SampleBatchIds| ==> SampleBatchIds[i] != SampleBatchIds[j]
  {
    forall i, j | 0 <= i < j < |SampleBatchIds| ensures SampleBatchIds[i] != SampleBatchIds[j] {
      if i < 3 <= j { assert SampleBatchIds[i][0] != SampleBatchIds[j][0]; }
      else { assert SampleBatchIds[i][|SampleBatchIds[i]| - 1] != SampleBatchIds[j][|SampleBatchIds[j]| - 1]; }
    }
  }


  /** The first n sample uploads, keyed by id. */
  function SampleUploads(n: nat, now: int): map<string, UploadResult>
    requires n <= 3
  {
    if n == 0 then map[] else SampleUploads(n - 1, now)[SampleId(n - 1) := SampleUpload(n - 1, now)]
  }

  /** The sample uploads are sample1..3, each stored under its own id. */
  lemma SampleUploadsContents(now: int)
    ensures SampleUploads(3, now).Keys == {"sample1", "sample2", "sample3"}
    ensures forall i :: 0 <= i < 3 ==> SampleUploads(3, now)[SampleId(i)] == SampleUpload(i, now)
    ensures forall i :: 0 <= i < 3 ==> SampleUploads(3, now)[SampleId(i)].id == SampleId(i)
  {
    assert SampleUploads(0, now) == map[];
    var m1, m2, m3 := SampleUploads(1, now), SampleUploads(2, now), SampleUploads(3, now);
    assert m1 == map[SampleId(0) := SampleUpload(0, now)];
    assert m2 == m1[SampleId(1) := SampleUpload(1, now)];
    assert m3 == m2[SampleId(2) := SampleUpload(2, now)];
    assert SampleId(0) == "sample1" && SampleId(1) == "sample2" && SampleId(2) == "sample3";
    assert "sample1"[6] == '1' && "sample2"[6] == '2' && "sample3"[6] == '3';
  }

  /** The i-th sample upload id, "sample<i+1>". */
  function SampleId(i: nat): string
    requires i < 3
  {
    ["sample1", "sample2", "sample3"][i]
  }

  /** The i-th sample upload: "sample-file-<i+1>.txt" of i+1 MB, created i+1 minutes and completed i minutes before now. */
  function SampleUpload(i: nat, now: int): UploadResult
    requires i < 3
  {
    var id := SampleId(i);
    var name := "sample-file-" + NatToString(i + 1) + ".txt";
    UploadResult(id, name, (i + 1) * MB, "text/plain",
                 "https://mock-s3.amazonaws.com/bucket/uploads/" + id + "/" + name,
                 "https://mock-download.example.com/files/" + id,
                 now - (i + 1) * 60000, now - i * 60000)
  }
}
