/**
 * The web UI's mock upload-status store. Each poll of an upload that is
 * still pending, uploading or processing advances its progress by a random
 * step and stores the advanced record back; a finished upload is returned
 * as it is. Math.random's draw and the current time are parameters, and the
 * ISO time stamps are kept as milliseconds.
 */
module UploadApi {
  import opened Wrappers
  import opened Text

  datatype Status = Pending | Uploading | Processing | Completed | Failed

  /** UploadStatus; the optional fields are Option. */
  datatype UploadStatus = UploadStatus(
    id: string,
    status: Status,
    progress: int,
    message: Option<string>,
    retryCount: Option<int>,
    createdAt: int,
    updatedAt: int,
    error: Option<string>)

  const NotFound: string := "업로드 상태를 찾을 수 없습니다."

  /** The statuses a poll still advances. */
  predicate Active(s: Status) {
    s == Pending || s == Uploading || s == Processing
  }

  /** Math.floor(Math.random() * 10 + 5): a whole step from 5 to 14. */
  function Step(draw: real): (k: int)
    requires 0.0 <= draw < 1.0
    ensures 5 <= k <= 14
  {
    (draw * 10.0 + 5.0).Floor
  }

  /**
   * The record a poll stores for an active upload: the progress moves up by
   * k but not past 100, the upload is completed exactly when 100 is
   * reached (otherwise its status stays), and only the update time changes
   * besides.
   */
  function Advance(data: UploadStatus, k: int, now: int): (r: UploadStatus)
    ensures r.progress <= 100 && (r.progress == 100 || r.progress == data.progress + k)
    ensures r.progress == 100 ==> data.progress + k >= 100
    ensures r.status == (if r.progress >= 100 then Completed else data.status)
    ensures r == data.(progress := r.progress, status := r.status, updatedAt := now)
  {
    var next := if data.progress + k < 100 then data.progress + k else 100;
    data.(progress := next, updatedAt := now, status := if next >= 100 then Completed else data.status)
  }

  /** A poll never moves progress back, keeps it at most 100, and moves it up while it is below 100. */
  lemma AdvanceMonotone(data: UploadStatus, k: int, now: int)
    requires data.progress <= 100 && 5 <= k
    ensures data.progress <= Advance(data, k, now).progress <= 100
    ensures data.progress < 100 ==> data.progress < Advance(data, k, now).progress
  {
  }

  /**
   * What a sequence of polls does to one record: each step advances the
   * record while it is active; a completed or failed record stays as it is.
   */
  ghost function Polls(data: UploadStatus, steps: seq<int>, now: int): UploadStatus
    decreases |steps|
  {
    if steps == [] then data
    else Polls(if Active(data.status) then Advance(data, steps[0], now) else data, steps[1..], now)
  }

  /** A finished record is left alone by any number of polls. */
  lemma {:induction false} PollsKeepFinished(data: UploadStatus, steps: seq<int>, now: int)
    requires !Active(data.status)
    ensures Polls(data, steps, now) == data
    decreases |steps|
  {
    if steps != [] {
      PollsKeepFinished(data, steps[1..], now);
    }
  }

  /**
   * Every active upload completes: with steps of at least 5, enough polls
   * to cover the distance to 100 leave it completed at exactly 100.
   */
  lemma {:induction false} PollsComplete(data: UploadStatus, steps: seq<int>, now: int)
    requires Active(data.status) && |steps| > 0 && data.progress + 5 * |steps| >= 100
    requires forall i :: 0 <= i < |steps| ==> 5 <= steps[i] <= 14
    ensures Polls(data, steps, now).status == Completed && Polls(data, steps, now).progress == 100
    decreases |steps|
  {
    var next := Advance(data, steps[0], now);
    if next.progress >= 100 {
      PollsKeepFinished(next, steps[1..], now);
    } else {
      assert next.progress == data.progress + steps[0];
      PollsComplete(next, steps[1..], now);
    }
  }

  /** The ids of the three sample uploads. */
  function SampleId(i: nat): string
    requires i < 3
  {
    ["upload1", "upload2", "upload3"][i]
  }

  /** The i-th sample upload: processing, at 30, 50 or 70 percent, retried i times, created 100 s before now. */
  function SampleStatus(i: nat, now: int): UploadStatus
    requires i < 3
  {
    UploadStatus(SampleId(i), Processing, i * 20 + 30, Some("업로드 " + NatToString(i + 1) + " 진행 중..."), Some(i),
                 now - 100000, now, None)
  }

  /** The store after the first n sample uploads are set into it. */
  function WithSamples(store: map<string, UploadStatus>, n: nat, now: int): map<string, UploadStatus>
    requires n <= 3
  {
    if n == 0 then store else WithSamples(store, n - 1, now)[SampleId(n - 1) := SampleStatus(n - 1, now)]
  }

  /**
   * Setting the samples puts each one under its own id and keeps every
   * other entry; the samples are active, below 100, with progress 30, 50 and
   * 70 and retry counts 0, 1 and 2.
   */
  lemma WithSamplesContents(store: map<string, UploadStatus>, now: int)
    ensures WithSamples(store, 3, now).Keys == store.Keys + {"upload1", "upload2", "upload3"}
    ensures forall i :: 0 <= i < 3 ==> WithSamples(store, 3, now)[SampleId(i)] == SampleStatus(i, now)
    ensures forall id :: id in store && id !in {"upload1", "upload2", "upload3"} ==> WithSamples(store, 3, now)[id] == store[id]
    ensures forall i :: 0 <= i < 3 ==>
              && SampleStatus(i, now).status == Processing && SampleStatus(i, now).progress == 30 + 20 * i
              && SampleStatus(i, now).retryCount == Some(i) && SampleStatus(i, now).id == SampleId(i)
  {
    assert WithSamples(store, 0, now) == store;
    var m1, m2, m3 := WithSamples(store, 1, now), WithSamples(store, 2, now), WithSamples(store, 3, now);
    assert m1 == store[SampleId(0) := SampleStatus(0, now)];
    assert m2 == m1[SampleId(1) := SampleStatus(1, now)];
    assert m3 == m2[SampleId(2) := SampleStatus(2, now)];
    assert SampleId(0) == "upload1" && SampleId(1) == "upload2" && SampleId(2) == "upload3";
  }

  /** The module's Map of upload statuses, by id. */
  class UploadStatusStore {
    var statuses: map<string, UploadStatus>

    constructor ()
      ensures statuses == map[]
    {
      statuses := map[];
    }

    /** initializeUploadMockData: sets upload1..3, in that order, keeping the other entries. */
    method InitializeUploadMockData(now: int)
      modifies this
      ensures statuses == WithSamples(old(statuses), 3, now)
    {
      var m := statuses;
      var i := 0;
      while i < 3
        invariant 0 <= i <= 3 && m == WithSamples(statuses, i, now)
      {
        m := m[SampleId(i) := SampleStatus(i, now)];
        i := i + 1;
      }
      statuses := m;
    }

    /**
     * getUploadStatus: the not-found error for an absent id; for an active
     * upload, the advanced record, which is also stored; for a finished
     * one, the record as it is, with the store untouched.
     */
    method GetUploadStatus(id: string, draw: real, now: int) returns (r: Result<UploadStatus, string>)
      requires 0.0 <= draw < 1.0
      modifies this
      ensures id !in old(statuses) ==> r == Err(NotFound) && statuses == old(statuses)
      ensures id in old(statuses) && Active(old(statuses)[id].status) ==>
                r == Ok(Advance(old(statuses)[id], Step(draw), now)) && statuses == old(statuses)[id := r.value]
      ensures id in old(statuses) && !Active(old(statuses)[id].status) ==>
                r == Ok(old(statuses)[id]) && statuses == old(statuses)
    {
      if id !in statuses {
        return Err(NotFound);
      }
      var data := statuses[id];
      if Active(data.status) {
        var updated := Advance(data, Step(draw), now);
        statuses := statuses[id := updated];
        return Ok(updated);
      }
      return Ok(data);
    }
  }
}
