/**
 * ResumeUpload: continuing a multipart upload from its saved status file.
 * The status is loaded, the parts S3 already holds (ListParts, page by page)
 * are merged over it and saved, the file is split again and must give the
 * same number of chunks, the session is started with the bytes and parts
 * already done, the chunks not yet completed are uploaded in order, and the
 * upload is completed with every part in ascending order. Unlike UploadFile,
 * a failure never aborts the multipart upload: it is reported and the
 * session ended as failed, so that the upload can be resumed again.
 *
 * The S3 client, the file system and the agent answer through parameters, as
 * in UploadFile; the protocol steps are those of UploadFile.
 */
module Resume {
  import opened Wrappers
  import opened Text
  import Json
  import S3
  import Chunker
  import Progress
  import Tracker
  import opened WsAgent
  import WsReporter
  import Uploader

  // ---- ListParts pagination ----

  /** The page size every ListParts request asks for. */
  const MaxParts: int := 1000

  /** One part as ListParts lists it; its ETag may be missing. */
  datatype ServerPart = ServerPart(partNumber: int, eTag: Option<string>)

  /** How one ListParts request ends. */
  datatype ListPartsAnswer =
    | ListPartsFailed(error: string)
    | Page(parts: seq<ServerPart>, isTruncated: Option<bool>, nextMarker: Option<string>)

  /** A ListParts request: the part-number marker it starts after (none for the first page) and its page size. */
  datatype ListPartsRequest = ListPartsRequest(marker: Option<string>, maxParts: int)

  /** The error of a request made when S3 gives no more answers. */
  const NoAnswer: string := "no answer"

  /**
   * The marker of the next request after a page, or None when the listing
   * stops: only a truncated page is followed, by its NextPartNumberMarker when
   * that is present and not empty, otherwise by the number of its last part;
   * a truncated page with neither stops the listing.
   */
  function NextMarker(page: ListPartsAnswer): (m: Option<string>)
    requires page.Page?
    ensures m.Some? ==> page.isTruncated == Some(true)
    ensures page.isTruncated == Some(true) && page.nextMarker.Some? && page.nextMarker.value != "" ==> m == page.nextMarker
    ensures page.isTruncated == Some(true) && (page.nextMarker.None? || page.nextMarker.value == "") ==>
              m == if page.parts == [] then None else Some(IntToString(page.parts[|page.parts| - 1].partNumber))
  {
    if page.isTruncated != Some(true) then None
    else if page.nextMarker.Some? && page.nextMarker.value != "" then page.nextMarker
    else if |page.parts| > 0 then Some(IntToString(page.parts[|page.parts| - 1].partNumber))
    else None
  }

  /** The part numbers of a page that come with an ETag. */
  function WithETag(parts: seq<ServerPart>): set<int> {
    set i | 0 <= i < |parts| && parts[i].eTag.Some? :: parts[i].partNumber
  }

  /**
   * The result map after the parts of one page are entered in order: a part
   * without an ETag is skipped, and a part number listed twice keeps its last
   * ETag.
   */
  function MergePage(acc: map<int, string>, parts: seq<ServerPart>): (m: map<int, string>)
    ensures m.Keys == acc.Keys + WithETag(parts)
  {
    if parts == [] then acc
    else
      var init := parts[..|parts| - 1];
      var p := parts[|parts| - 1];
      assert WithETag(parts) == WithETag(init) + (if p.eTag.Some? then {p.partNumber} else {}) by {
        assert forall i :: 0 <= i < |init| ==> parts[i] == init[i];
      }
      var m0 := MergePage(acc, init);
      if p.eTag.Some? then m0[p.partNumber := p.eTag.value] else m0
  }

  /** An entry the page does not list with an ETag keeps its value; every other entry holds an ETag the page lists for it. */
  lemma {:induction false} MergePageEntries(acc: map<int, string>, parts: seq<ServerPart>)
    ensures var m := MergePage(acc, parts);
      && (forall pn :: pn in m && pn !in WithETag(parts) ==> m[pn] == acc[pn])
      && (forall pn :: pn in WithETag(parts) ==>
            exists i :: 0 <= i < |parts| && parts[i] == ServerPart(pn, Some(m[pn])))
  {
    if parts != [] {
      var init := parts[..|parts| - 1];
      var p := parts[|parts| - 1];
      MergePageEntries(acc, init);
      var m0 := MergePage(acc, init);
      var m := MergePage(acc, parts);
      assert WithETag(parts) == WithETag(init) + (if p.eTag.Some? then {p.partNumber} else {}) by {
        assert forall i :: 0 <= i < |init| ==> parts[i] == init[i];
      }
      forall pn | pn in WithETag(parts)
        ensures exists i :: 0 <= i < |parts| && parts[i] == ServerPart(pn, Some(m[pn]))
      {
        if p.eTag.Some? && pn == p.partNumber {
          assert parts[|parts| - 1] == ServerPart(pn, Some(m[pn]));
        } else {
          var i :| 0 <= i < |init| && init[i] == ServerPart(pn, Some(m0[pn]));
          assert parts[i] == init[i];
        }
      }
    }
  }

  /** The ETag that the last listing of part pn with an ETag gives it, if any. */
  function LastETag(parts: seq<ServerPart>, pn: int): Option<string> {
    if parts == [] then None
    else if parts[|parts| - 1].partNumber == pn && parts[|parts| - 1].eTag.Some? then parts[|parts| - 1].eTag
    else LastETag(parts[..|parts| - 1], pn)
  }

  /** A part a page lists with an ETag ends up holding the last ETag listed for it. */
  lemma {:induction false} MergePageLast(acc: map<int, string>, parts: seq<ServerPart>, pn: int)
    ensures pn in WithETag(parts) <==> LastETag(parts, pn).Some?
    ensures LastETag(parts, pn).Some? ==> MergePage(acc, parts)[pn] == LastETag(parts, pn).value
  {
    if parts != [] {
      var init := parts[..|parts| - 1];
      var p := parts[|parts| - 1];
      assert WithETag(parts) == WithETag(init) + (if p.eTag.Some? then {p.partNumber} else {}) by {
        assert forall i :: 0 <= i < |init| ==> parts[i] == init[i];
      }
      MergePageLast(acc, init, pn);
    }
  }

  /** Merging two runs of parts one after the other is merging their concatenation. */
  lemma {:induction false} MergePageAppend(acc: map<int, string>, a: seq<ServerPart>, b: seq<ServerPart>)
    ensures MergePage(acc, a + b) == MergePage(MergePage(acc, a), b)
  {
    if b == [] {
      assert a + b == a;
    } else {
      var ab := a + b;
      var init := b[..|b| - 1];
      assert ab[..|ab| - 1] == a + init;
      assert ab[|ab| - 1] == b[|b| - 1];
      MergePageAppend(acc, a, init);
      MergePageLastPart(acc, ab);
      MergePageLastPart(MergePage(acc, a), b);
    }
  }

  /** Merging a run of parts is merging all but its last part, then that one. */
  lemma MergePageLastPart(acc: map<int, string>, parts: seq<ServerPart>)
    requires parts != []
    ensures var p := parts[|parts| - 1]; var m0 := MergePage(acc, parts[..|parts| - 1]);
      MergePage(acc, parts) == if p.eTag.Some? then m0[p.partNumber := p.eTag.value] else m0
  {
  }

  /** The parts of the pages a listing reads, in order: every page up to the first that stops the listing. */
  function ListedParts(answers: seq<ListPartsAnswer>): seq<ServerPart>
    decreases |answers|
  {
    if answers == [] || answers[0].ListPartsFailed? then []
    else answers[0].parts + if NextMarker(answers[0]).Some? then ListedParts(answers[1..]) else []
  }

  /**
   * What fetchServerCompletedParts returns when S3 answers the requests in
   * turn with `answers`, the parts of the earlier pages having given `acc`: a
   * failed request (or one S3 gives no answer to) fails the whole listing;
   * each page is merged in, and the listing goes on while NextMarker says so.
   */
  function FetchFrom(answers: seq<ListPartsAnswer>, acc: map<int, string>): Result<map<int, string>, string>
    decreases |answers|
  {
    if answers == [] then Err(NoAnswer)
    else if answers[0].ListPartsFailed? then Err(answers[0].error)
    else
      var m := MergePage(acc, answers[0].parts);
      if NextMarker(answers[0]).Some? then FetchFrom(answers[1..], m) else Ok(m)
  }

  /** The requests of that listing, the first one starting after `marker`. */
  function RequestsFrom(answers: seq<ListPartsAnswer>, marker: Option<string>): (rs: seq<ListPartsRequest>)
    ensures 1 <= |rs| <= |answers| + 1
    ensures rs[0] == ListPartsRequest(marker, MaxParts)
    decreases |answers|
  {
    [ListPartsRequest(marker, MaxParts)] +
      if answers != [] && answers[0].Page? && NextMarker(answers[0]).Some? then RequestsFrom(answers[1..], NextMarker(answers[0]))
      else []
  }

  /**
   * The pagination rule: the first request has no marker, every request asks
   * for MaxParts parts, and each later request follows a page that was
   * truncated, with that page's NextMarker.
   */
  lemma {:induction false} RequestsFollowMarkers(answers: seq<ListPartsAnswer>, marker: Option<string>)
    ensures var rs := RequestsFrom(answers, marker);
      && (forall k :: 0 <= k < |rs| ==> rs[k].maxParts == MaxParts)
      && (forall k :: 0 <= k < |rs| - 1 ==>
            answers[k].Page? && answers[k].isTruncated == Some(true) && NextMarker(answers[k]).Some? &&
            rs[k + 1].marker == NextMarker(answers[k]))
    decreases |answers|
  {
    var rs := RequestsFrom(answers, marker);
    if answers != [] && answers[0].Page? && NextMarker(answers[0]).Some? {
      var rest := RequestsFrom(answers[1..], NextMarker(answers[0]));
      RequestsFollowMarkers(answers[1..], NextMarker(answers[0]));
      assert rs == [ListPartsRequest(marker, MaxParts)] + rest;
      forall k | 0 <= k < |rs| - 1
        ensures answers[k].Page? && answers[k].isTruncated == Some(true) && NextMarker(answers[k]).Some? &&
                rs[k + 1].marker == NextMarker(answers[k])
      {
        if k > 0 {
          assert answers[k] == answers[1..][k - 1];
          assert rs[k + 1] == rest[k];
        }
      }
    } else {
      assert rs == [ListPartsRequest(marker, MaxParts)];
    }
  }

  /** A listing that succeeds is the parts it started with, with the parts of every page it read merged in order. */
  lemma {:induction false} FetchMerges(answers: seq<ListPartsAnswer>, acc: map<int, string>)
    requires FetchFrom(answers, acc).Ok?
    ensures FetchFrom(answers, acc).value == MergePage(acc, ListedParts(answers))
    decreases |answers|
  {
    var p := answers[0].parts;
    if NextMarker(answers[0]).Some? {
      FetchMerges(answers[1..], MergePage(acc, p));
      MergePageAppend(acc, p, ListedParts(answers[1..]));
    } else {
      assert ListedParts(answers) == p + [];
      assert p + [] == p;
    }
  }

  /**
   * A listing that succeeds holds the parts it started with and the parts of
   * its pages that came with an ETag, and nothing else; every part listed
   * with an ETag holds the last ETag listed for it, every entry no page lists
   * keeps its value, and every ETag it holds for a listed part is one S3
   * listed for that number.
   */
  lemma {:induction false} FetchedParts(answers: seq<ListPartsAnswer>, acc: map<int, string>)
    requires FetchFrom(answers, acc).Ok?
    ensures var m := FetchFrom(answers, acc).value;
      && m.Keys == acc.Keys + WithETag(ListedParts(answers))
      && (forall pn :: pn in WithETag(ListedParts(answers)) ==> LastETag(ListedParts(answers), pn) == Some(m[pn]))
      && (forall pn :: pn in acc && pn !in WithETag(ListedParts(answers)) ==> m[pn] == acc[pn])
    ensures var m := FetchFrom(answers, acc).value;
      && acc.Keys <= m.Keys
      && (forall pn :: pn in m && pn !in acc ==>
            exists k, i :: 0 <= k < |answers| && answers[k].Page? && 0 <= i < |answers[k].parts| &&
              answers[k].parts[i] == ServerPart(pn, Some(m[pn])))
    decreases |answers|
  {
    var m0 := MergePage(acc, answers[0].parts);
    var m := FetchFrom(answers, acc).value;
    FetchMerges(answers, acc);
    MergePageEntries(acc, ListedParts(answers));
    forall pn | pn in WithETag(ListedParts(answers))
      ensures LastETag(ListedParts(answers), pn) == Some(m[pn])
    {
      MergePageLast(acc, ListedParts(answers), pn);
    }
    if NextMarker(answers[0]).Some? {
      FetchedParts(answers[1..], m0);
      forall pn | pn in m && pn !in acc
        ensures exists k, i :: 0 <= k < |answers| && answers[k].Page? && 0 <= i < |answers[k].parts| &&
                  answers[k].parts[i] == ServerPart(pn, Some(m[pn]))
      {
        if pn in m0 {
          // the ETag came from the first page and no later page changed it
          LaterPagesKeep(answers[1..], m0, pn);
          if m[pn] == m0[pn] {
            MergePageEntries(acc, answers[0].parts);
            var i :| 0 <= i < |answers[0].parts| && answers[0].parts[i] == ServerPart(pn, Some(m0[pn]));
          } else {
            var k, i :| 0 <= k < |answers[1..]| && answers[1..][k].Page? && 0 <= i < |answers[1..][k].parts| &&
              answers[1..][k].parts[i] == ServerPart(pn, Some(m[pn]));
            assert answers[k + 1] == answers[1..][k];
          }
        } else {
          var k, i :| 0 <= k < |answers[1..]| && answers[1..][k].Page? && 0 <= i < |answers[1..][k].parts| &&
            answers[1..][k].parts[i] == ServerPart(pn, Some(m[pn]));
          assert answers[k + 1] == answers[1..][k];
        }
      }
    } else {
      forall pn | pn in m && pn !in acc
        ensures exists k, i :: 0 <= k < |answers| && answers[k].Page? && 0 <= i < |answers[k].parts| &&
                  answers[k].parts[i] == ServerPart(pn, Some(m[pn]))
      {
        MergePageEntries(acc, answers[0].parts);
        var i :| 0 <= i < |answers[0].parts| && answers[0].parts[i] == ServerPart(pn, Some(m[pn]));
      }
    }
  }

  /** An entry whose ETag a later page replaces is also one S3 listed: a page either keeps an entry or lists it with an ETag. */
  lemma {:induction false} LaterPagesKeep(answers: seq<ListPartsAnswer>, acc: map<int, string>, pn: int)
    requires FetchFrom(answers, acc).Ok? && pn in acc
    ensures var m := FetchFrom(answers, acc).value;
      pn in m && (m[pn] == acc[pn] ||
        exists k, i :: 0 <= k < |answers| && answers[k].Page? && 0 <= i < |answers[k].parts| &&
          answers[k].parts[i] == ServerPart(pn, Some(m[pn])))
    decreases |answers|
  {
    var m0 := MergePage(acc, answers[0].parts);
    var m := FetchFrom(answers, acc).value;
    MergePageEntries(acc, answers[0].parts);
    if NextMarker(answers[0]).Some? {
      LaterPagesKeep(answers[1..], m0, pn);
      if m[pn] != m0[pn] {
        var k, i :| 0 <= k < |answers[1..]| && answers[1..][k].Page? && 0 <= i < |answers[1..][k].parts| &&
          answers[1..][k].parts[i] == ServerPart(pn, Some(m[pn]));
        assert answers[k + 1] == answers[1..][k];
      } else if pn in WithETag(answers[0].parts) {
        MergePageEntries(acc, answers[0].parts);
        var i :| 0 <= i < |answers[0].parts| && answers[0].parts[i] == ServerPart(pn, Some(m0[pn]));
      }
    } else if pn in WithETag(answers[0].parts) {
      MergePageEntries(acc, answers[0].parts);
      var i :| 0 <= i < |answers[0].parts| && answers[0].parts[i] == ServerPart(pn, Some(m0[pn]));
    }
  }

  /** One page of the listing: what is left of the listing after it, and the requests after it. */
  lemma FetchStep(answers: seq<ListPartsAnswer>, i: nat, acc: map<int, string>, marker: Option<string>)
    requires i < |answers| && answers[i].Page?
    ensures var m := MergePage(acc, answers[i].parts);
      && FetchFrom(answers[i..], acc) == (if NextMarker(answers[i]).Some? then FetchFrom(answers[i + 1..], m) else Ok(m))
      && RequestsFrom(answers[i..], marker) == [ListPartsRequest(marker, MaxParts)] +
           (if NextMarker(answers[i]).Some? then RequestsFrom(answers[i + 1..], NextMarker(answers[i])) else [])
  {
    assert answers[i..][0] == answers[i];
    assert answers[i..][1..] == answers[i + 1..];
  }

  /** The loop over one page's parts: each part with an ETag is entered, overwriting an earlier entry for its number. */
  method EnterPage(result0: map<int, string>, parts: seq<ServerPart>) returns (result: map<int, string>)
    ensures result == MergePage(result0, parts)
  {
    result := result0;
    var k := 0;
    while k < |parts|
      invariant 0 <= k <= |parts|
      invariant result == MergePage(result0, parts[..k])
    {
      var p := parts[k];
      if p.eTag.Some? {
        result := result[p.partNumber := p.eTag.value];
      }
      assert parts[..k + 1][..k] == parts[..k];
      k := k + 1;
    }
    assert parts[..k] == parts;
  }

  /** Concatenation is associative (stated for the request log, so that the loop below need not rediscover it). */
  lemma LogAssoc(log: seq<ListPartsRequest>, req: ListPartsRequest, rest: seq<ListPartsRequest>)
    ensures log + ([req] + rest) == (log + [req]) + rest
  {
  }

  /**
   * fetchServerCompletedParts: lists the upload's parts page by page, from
   * the first page on, until a page says there is no more or a request fails.
   */
  method FetchServerCompletedParts(answers: seq<ListPartsAnswer>)
    returns (r: Result<map<int, string>, string>, requests: seq<ListPartsRequest>)
    ensures r == FetchFrom(answers, map[])
    ensures requests == RequestsFrom(answers, None)
  {
    var result: map<int, string> := map[];
    var marker: Option<string> := None;
    var i := 0;
    requests := [];
    while true
      invariant 0 <= i <= |answers|
      invariant FetchFrom(answers, map[]) == FetchFrom(answers[i..], result)
      invariant RequestsFrom(answers, None) == requests + RequestsFrom(answers[i..], marker)
      decreases |answers| - i
    {
      var req := ListPartsRequest(marker, MaxParts);
      if i == |answers| {
        LogAssoc(requests, req, []);
        return Err(NoAnswer), requests + [req];
      }
      var out := answers[i];
      if out.ListPartsFailed? {
        assert answers[i..][0] == out;
        LogAssoc(requests, req, []);
        return Err(out.error), requests + [req];
      }
      FetchStep(answers, i, result, marker);
      result := EnterPage(result, out.parts);
      var next := NextMarker(out);
      if next.None? {
        LogAssoc(requests, req, []);
        return Ok(result), requests + [req];
      }
      LogAssoc(requests, req, RequestsFrom(answers[i + 1..], next));
      requests := requests + [req];
      marker := next;
      i := i + 1;
    }
  }
  // ---- merging the server's parts into the status ----

  /**
   * The loop entering the server's parts into the status (the server is the
   * source of truth): every part it lists gets its ETag, and a part only the
   * status holds is kept. The order of the map's iteration does not matter.
   */
  method ApplyServerParts(status: Tracker.UploadStatus, srv: map<int, string>)
    modifies status`completedParts
    ensures status.completedParts == old(status.completedParts) + srv
    ensures forall pn :: pn in srv ==> status.IsPartCompleted(pn) && status.completedParts[pn] == srv[pn]
    ensures forall pn :: pn in old(status.completedParts) && pn !in srv ==>
              status.IsPartCompleted(pn) && status.completedParts[pn] == old(status.completedParts)[pn]
  {
    var todo := srv.Keys;
    while todo != {}
      invariant todo <= srv.Keys
      invariant status.completedParts == old(status.completedParts) + (srv - todo)
      decreases |todo|
    {
      SomeKey(todo);
      var pn :| pn in todo;
      MergeOne(old(status.completedParts), srv, todo, pn);
      status.AddCompletedPart(pn, srv[pn]);
      todo := todo - {pn};
    }
    assert srv - todo == srv;
  }

  /** A set of parts that is not empty holds a part (what a map iteration picks next). */
  lemma SomeKey(todo: set<int>)
    requires todo != {}
    ensures exists pn :: pn in todo
  {
    if forall pn :: pn !in todo {
      assert false;
    }
  }

  /** Entering one more of the server's parts. */
  lemma MergeOne(base: map<int, string>, srv: map<int, string>, todo: set<int>, pn: int)
    requires pn in todo && todo <= srv.Keys
    ensures (base + (srv - todo))[pn := srv[pn]] == base + (srv - (todo - {pn}))
  {
  }

  /**
   * The completed-part entries built from the status map, in the map's
   * iteration order (which Go leaves unspecified; any order is allowed here):
   * one entry per part of the map, with its ETag.
   */
  method CollectCompleted(parts: map<int, string>) returns (ps: seq<S3.CompletedPart>)
    ensures S3.EntriesOf(ps, parts)
  {
    ps := [];
    var todo := parts.Keys;
    while todo != {}
      invariant todo <= parts.Keys
      invariant S3.Numbers(ps) == parts.Keys - todo
      invariant S3.DistinctNumbers(ps)
      invariant forall i :: 0 <= i < |ps| ==> ps[i].partNumber in parts && ps[i].eTag == parts[ps[i].partNumber]
      decreases |todo|
    {
      SomeKey(todo);
      var pn :| pn in todo;
      CollectStep(parts, ps, todo, pn);
      ps := ps + [S3.CompletedPart(pn, parts[pn])];
      todo := todo - {pn};
    }
  }

  /** One more part taken from those not yet listed keeps the list's entries right. */
  lemma CollectStep(parts: map<int, string>, ps: seq<S3.CompletedPart>, todo: set<int>, pn: int)
    requires todo <= parts.Keys && pn in todo
    requires S3.Numbers(ps) == parts.Keys - todo
    requires S3.DistinctNumbers(ps)
    requires forall i :: 0 <= i < |ps| ==> ps[i].partNumber in parts && ps[i].eTag == parts[ps[i].partNumber]
    ensures var qs := ps + [S3.CompletedPart(pn, parts[pn])];
      && S3.Numbers(qs) == parts.Keys - (todo - {pn})
      && S3.DistinctNumbers(qs)
      && forall i :: 0 <= i < |qs| ==> qs[i].partNumber in parts && qs[i].eTag == parts[qs[i].partNumber]
  {
    var p := S3.CompletedPart(pn, parts[pn]);
    var qs := ps + [p];
    forall i | 0 <= i < |ps|
      ensures ps[i].partNumber != pn
    {
      assert ps[i].partNumber in S3.Numbers(ps);
    }
    S3.NumbersAppend(ps, p);
    forall i, j | 0 <= i < j < |qs|
      ensures qs[i].partNumber != qs[j].partNumber
    {
      assert qs[i] == ps[i];
      if j < |ps| {
        assert qs[j] == ps[j];
      }
    }
    forall i | 0 <= i < |qs|
      ensures qs[i].partNumber in parts && qs[i].eTag == parts[qs[i].partNumber]
    {
      if i < |ps| {
        assert qs[i] == ps[i];
      }
    }
  }

  // ---- the chunks already done and the chunks still to send ----

  /** The chunks whose part is not among `done`, in chunk order. */
  function Pending(cs: seq<Chunker.Chunk>, done: set<int>): (p: seq<Chunker.Chunk>)
    ensures |p| <= |cs|
  {
    if cs == [] then []
    else Pending(cs[..|cs| - 1], done) + if cs[|cs| - 1].index in done then [] else [cs[|cs| - 1]]
  }

  /**
   * The chunks still to send are chunks whose part is not among `done`, and
   * every chunk whose part is not among `done` is one of them.
   */
  lemma {:induction false} PendingMembers(cs: seq<Chunker.Chunk>, done: set<int>)
    ensures var p := Pending(cs, done);
      && (forall j :: 0 <= j < |p| ==> p[j] in cs && p[j].index !in done)
      && (forall j :: 0 <= j < |cs| && cs[j].index !in done ==> cs[j] in p)
  {
    if cs != [] {
      var init := cs[..|cs| - 1];
      var last := cs[|cs| - 1];
      PendingMembers(init, done);
      var q := Pending(init, done);
      var p := Pending(cs, done);
      var tail := if last.index in done then [] else [last];
      assert cs == init + [last];
      assert p == q + tail;
      forall j | 0 <= j < |p|
        ensures p[j] in cs && p[j].index !in done
      {
        if j < |q| {
          assert p[j] == q[j];
        } else {
          assert p[j] == last;
        }
      }
      forall j | 0 <= j < |cs| && cs[j].index !in done
        ensures cs[j] in p
      {
        if j < |init| {
          assert cs[j] == init[j] && cs[j] in q;
        } else {
          assert cs[j] == last && tail == [last];
        }
      }
    }
  }

  /** The bytes of the chunks whose part is among `done`: what the session starts from. */
  function Already(cs: seq<Chunker.Chunk>, done: set<int>): int {
    if cs == [] then 0
    else Already(cs[..|cs| - 1], done) + if cs[|cs| - 1].index in done then cs[|cs| - 1].size else 0
  }

  /** The bytes already done and the bytes of the chunks still to send make up the file. */
  lemma {:induction false} AlreadyAndPending(cs: seq<Chunker.Chunk>, done: set<int>)
    ensures Already(cs, done) + Chunker.SumSizes(Pending(cs, done)) == Chunker.SumSizes(cs)
  {
    if cs != [] {
      var init := cs[..|cs| - 1];
      var last := cs[|cs| - 1];
      AlreadyAndPending(init, done);
      var q := Pending(init, done);
      if last.index !in done {
        assert Pending(cs, done) == q + [last];
        assert (q + [last])[..|q|] == q;
        assert Chunker.SumSizes(q + [last]) == Chunker.SumSizes(q) + last.size;
      } else {
        assert Pending(cs, done) == q;
      }
    }
  }

  /** With chunks numbered 1, 2, ..., the chunks still to send come in strictly ascending part order. */
  lemma {:induction false} PendingAscending(cs: seq<Chunker.Chunk>, done: set<int>)
    requires forall j :: 0 <= j < |cs| ==> cs[j].index == j + 1
    ensures var p := Pending(cs, done);
      forall a, b :: 0 <= a < b < |p| ==> p[a].index < p[b].index
  {
    if cs != [] {
      var init := cs[..|cs| - 1];
      var last := cs[|cs| - 1];
      PendingAscending(init, done);
      PendingMembers(init, done);
      var q := Pending(init, done);
      forall a | 0 <= a < |q|
        ensures q[a].index < last.index
      {
        var m :| 0 <= m < |init| && init[m] == q[a];
      }
      var p := Pending(cs, done);
      forall a, b | 0 <= a < b < |p|
        ensures p[a].index < p[b].index
      {
        assert p[a] == q[a];
        if b < |q| {
          assert p[b] == q[b];
        }
      }
    }
  }

  /** The chunks still to send after the first i chunks are examined are a prefix of all the chunks still to send. */
  lemma {:induction false} PendingPrefix(cs: seq<Chunker.Chunk>, done: set<int>, i: nat)
    requires i <= |cs|
    ensures var q := Pending(cs[..i], done);
      |q| <= |Pending(cs, done)| && q == Pending(cs, done)[..|q|]
    decreases |cs| - i
  {
    if i == |cs| {
      assert cs[..i] == cs;
    } else {
      PendingPrefix(cs, done, i + 1);
      assert cs[..i + 1][..i] == cs[..i];
    }
  }

  /**
   * The loop summing the bytes already done: the size of every chunk whose part
   * the status holds.
   */
  method AlreadyBytes(status: Tracker.UploadStatus, cs: seq<Chunker.Chunk>) returns (already: int)
    ensures already == Already(cs, status.completedParts.Keys)
  {
    already := 0;
    var i := 0;
    while i < |cs|
      invariant 0 <= i <= |cs|
      invariant already == Already(cs[..i], status.completedParts.Keys)
    {
      assert cs[..i + 1][..i] == cs[..i];
      if status.IsPartCompleted(cs[i].index) {
        already := already + cs[i].size;
      }
      i := i + 1;
    }
    assert cs[..i] == cs;
  }

  /** The size preCompleted gives a part: its chunk's when the number names a chunk, otherwise 0. */
  function PreSize(cs: seq<Chunker.Chunk>, part: int): int {
    if 1 <= part <= |cs| then cs[part - 1].size else 0
  }

  /** One preCompleted entry: the part, its size and its ETag. */
  function PreEntry(cs: seq<Chunker.Chunk>, p: S3.CompletedPart): Json.Value {
    Json.Obj(map["part" := Json.Num(p.partNumber), "size" := Json.Num(PreSize(cs, p.partNumber)), "etag" := Json.Str(p.eTag)])
  }

  /** With chunks numbered 1, 2, ..., the size preCompleted gives the part of a chunk is that chunk's size. */
  lemma PreSizeOfChunk(cs: seq<Chunker.Chunk>, j: int)
    requires forall k :: 0 <= k < |cs| ==> cs[k].index == k + 1
    requires 0 <= j < |cs|
    ensures PreSize(cs, cs[j].index) == cs[j].size
  {
  }

  /** The loop building preCompleted: one entry per completed part, in the same order. */
  method PreCompleted(cs: seq<Chunker.Chunk>, ps: seq<S3.CompletedPart>) returns (pre: seq<Json.Value>)
    ensures |pre| == |ps|
    ensures forall i :: 0 <= i < |ps| ==> pre[i] == PreEntry(cs, ps[i])
  {
    pre := [];
    var i := 0;
    while i < |ps|
      invariant 0 <= i <= |ps|
      invariant |pre| == i
      invariant forall k :: 0 <= k < i ==> pre[k] == PreEntry(cs, ps[k])
    {
      var part := ps[i].partNumber;
      var sz := 0;
      if 1 <= part <= |cs| {
        sz := cs[part - 1].size;
      }
      pre := pre + [Json.Obj(map["part" := Json.Num(part), "size" := Json.Num(sz), "etag" := Json.Str(ps[i].eTag)])];
      i := i + 1;
    }
  }

  /** The extra members of a resumed session's start. */
  function ResumeExtra(already: int, pre: seq<Json.Value>, totalParts: int, partSizeBytes: int): map<string, Json.Value> {
    map["resumed" := Json.Bool(true), "alreadyBytes" := Json.Num(already), "preCompleted" := Json.Arr(pre),
        "totalParts" := Json.Num(totalParts), "partSizeBytes" := Json.Num(partSizeBytes)]
  }

  // ---- the run of a resumed upload ----

  /** The steps of a failing part: the error and a failed session end, never an abort. */
  function ResumeFailSteps(c: Chunker.Chunk, a: Uploader.PartAttempt): seq<Uploader.Step> {
    if a.readerOpens then
      [Uploader.PartStartReported(c.index), Uploader.PartSent(c.index, a.result),
       Uploader.ErrorReported(Some(c.index)), Uploader.DoneReported(false)]
    else
      [Uploader.ErrorReported(Some(c.index)), Uploader.DoneReported(false)]
  }

  /** The steps of CompleteMultipartUpload with the given parts, and what follows it; a failure is not aborted. */
  function ResumeCompletionSteps(ps: seq<S3.CompletedPart>, complete: bool): seq<Uploader.Step> {
    if complete then [Uploader.Completed(ps, true), Uploader.DoneReported(true)]
    else [Uploader.Completed(ps, false), Uploader.ErrorReported(None), Uploader.DoneReported(false)]
  }

  /**
   * The steps of a resumed upload after its session start, where `p` are the
   * chunks still to send and part(k) answers the k-th of them: the parts that
   * go through, in order, up to the first that fails, which ends the run;
   * when none fails, the completion with the list `final`.
   */
  function ResumeRun(p: seq<Chunker.Chunk>, part: nat -> Uploader.PartAttempt, complete: bool,
                     final: seq<S3.CompletedPart>): seq<Uploader.Step> {
    var k := Uploader.FirstFailure(p, part, 0);
    Uploader.LoopSteps(p, part, k) +
      if k < |p| then ResumeFailSteps(p[k], part(k)) else ResumeCompletionSteps(final, complete)
  }

  /**
   * How a resumed run finishes: parts are reported done only right after they
   * were recorded, nothing is created or aborted, and the session's end comes
   * only last; a successful run ends with the completion of `final` and a
   * successful session end, any other with an error and a failed session end.
   */
  ghost predicate ResumeEnd(s: seq<Uploader.Step>, success: bool, final: seq<S3.CompletedPart>) {
    && |s| >= 2 && Uploader.RecordedBeforeDone(s)
    && (forall k :: 0 <= k < |s| ==> s[k] != Uploader.Aborted && !s[k].Created? && s[k] != Uploader.StartReported)
    && (forall k :: 0 <= k < |s| && s[k].DoneReported? ==> k == |s| - 1)
    && (success ==> s[|s| - 2] == Uploader.Completed(final, true) && s[|s| - 1] == Uploader.DoneReported(true))
    && (!success ==> s[|s| - 2].ErrorReported? && s[|s| - 1] == Uploader.DoneReported(false))
  }

  lemma ResumeFailEnd(c: Chunker.Chunk, a: Uploader.PartAttempt, final: seq<S3.CompletedPart>)
    ensures ResumeEnd(ResumeFailSteps(c, a), false, final)
  {
  }

  lemma ResumeCompletionEnd(final: seq<S3.CompletedPart>, complete: bool)
    ensures ResumeEnd(ResumeCompletionSteps(final, complete), complete, final)
  {
  }

  /** Part steps in front of a resumed run keep how it finishes. */
  lemma PrependToResumeEnd(a: seq<Uploader.Step>, b: seq<Uploader.Step>, success: bool, final: seq<S3.CompletedPart>)
    requires Uploader.InSession(a) && Uploader.RecordedBeforeDone(a) && ResumeEnd(b, success, final)
    ensures ResumeEnd(a + b, success, final)
  {
    Uploader.RecordedBeforeDoneAppend(a, b);
    var s := a + b;
    forall k | 0 <= k < |s|
      ensures s[k] != Uploader.Aborted && !s[k].Created? && s[k] != Uploader.StartReported
      ensures s[k].DoneReported? ==> k == |s| - 1
    {
      if k < |a| {
        assert s[k] == a[k];
      } else {
        assert s[k] == b[k - |a|];
      }
    }
    assert s[|s| - 1] == b[|b| - 1] && s[|s| - 2] == b[|b| - 2];
  }

  /**
   * Every resumed run finishes as ResumeEnd says, never aborting the upload:
   * successfully, with the completion of `final`, exactly when every chunk
   * still to send goes through and the completion succeeds.
   */
  lemma ResumeRunShape(p: seq<Chunker.Chunk>, part: nat -> Uploader.PartAttempt, complete: bool, final: seq<S3.CompletedPart>)
    ensures ResumeEnd(ResumeRun(p, part, complete, final), Uploader.Succeeds(p, part, complete), final)
  {
    var k := Uploader.FirstFailure(p, part, 0);
    Uploader.FirstFailureSpec(p, part, 0);
    Uploader.LoopStepsShape(p, part, k);
    if k < |p| {
      ResumeFailEnd(p[k], part(k), final);
      PrependToResumeEnd(Uploader.LoopSteps(p, part, k), ResumeFailSteps(p[k], part(k)), false, final);
    } else {
      ResumeCompletionEnd(final, complete);
      PrependToResumeEnd(Uploader.LoopSteps(p, part, k), ResumeCompletionSteps(final, complete), complete, final);
    }
  }

  /** The ETags the first n chunks still to send were uploaded with, by part number. */
  function UploadedETags(p: seq<Chunker.Chunk>, part: nat -> Uploader.PartAttempt, n: nat): map<int, string>
    requires n <= |p|
  {
    if n == 0 then map[] else UploadedETags(p, part, n - 1)[p[n - 1].index := Uploader.ETagOf(part(n - 1).result)]
  }

  /** The entries appended for the uploaded parts are the entries of UploadedETags, when the parts are numbered apart. */
  lemma {:induction false} UploadedEntries(p: seq<Chunker.Chunk>, part: nat -> Uploader.PartAttempt, n: nat)
    requires n <= |p|
    requires forall a, b :: 0 <= a < b < |p| ==> p[a].index < p[b].index
    ensures S3.EntriesOf(Uploader.CompletedParts(p, part, n), UploadedETags(p, part, n))
  {
    if n > 0 {
      UploadedEntries(p, part, n - 1);
      var ps := Uploader.CompletedParts(p, part, n - 1);
      var e := S3.CompletedPart(p[n - 1].index, Uploader.ETagOf(part(n - 1).result));
      var m := UploadedETags(p, part, n - 1);
      assert e.partNumber !in m by {
        forall i | 0 <= i < |ps|
          ensures ps[i].partNumber != e.partNumber
        {
          assert ps[i].partNumber == p[i].index;
        }
      }
      S3.EntriesAppend(ps, m, e);
      assert Uploader.CompletedParts(p, part, n) == ps + [e];
    }
  }

  /**
   * The parts the status holds and the parts uploaded in the run are numbered
   * apart, and together they are every chunk's part.
   */
  lemma EveryChunkListed(cs: seq<Chunker.Chunk>, m: map<int, string>, part: nat -> Uploader.PartAttempt)
    ensures var p := Pending(cs, m.Keys);
      var up := UploadedETags(p, part, |p|);
      && m.Keys !! up.Keys
      && (forall j :: 0 <= j < |cs| ==> cs[j].index in m.Keys + up.Keys)
  {
    var p := Pending(cs, m.Keys);
    PendingMembers(cs, m.Keys);
    UploadedKeys(p, part, |p|);
    forall pn | pn in UploadedETags(p, part, |p|)
      ensures pn !in m
    {
      var k :| 0 <= k < |p| && p[k].index == pn;
    }
    forall j | 0 <= j < |cs| && cs[j].index !in m.Keys
      ensures cs[j].index in UploadedETags(p, part, |p|)
    {
      var k :| 0 <= k < |p| && p[k] == cs[j];
    }
  }

  /** The parts UploadedETags holds: those of the first n chunks still to send. */
  lemma {:induction false} UploadedKeys(p: seq<Chunker.Chunk>, part: nat -> Uploader.PartAttempt, n: nat)
    requires n <= |p|
    ensures forall pn :: pn in UploadedETags(p, part, n) <==> exists k :: 0 <= k < n && p[k].index == pn
  {
    if n > 0 {
      UploadedKeys(p, part, n - 1);
    }
  }

  // ---- the driver ----

  /** How ResumeUpload ends: nil, an error, or the run-time panic of reading the size of a file os.Stat could not find. */
  datatype Outcome = Success | Failure(error: string) | NilFileInfoPanic

  /** What S3 answers to a resumed upload. */
  datatype ResumeAnswers = ResumeAnswers(
    listParts: seq<ListPartsAnswer>,  // the answers to the ListParts requests, in turn
    syncSaveOk: bool,                 // whether saving the status after the merge succeeds
    part: nat -> Uploader.PartAttempt, // the answers while the k-th chunk still to send is uploaded
    complete: bool)

  /**
   * The sync with the server: the parts S3 lists are merged over the status
   * and the status saved. A failing listing or a failing save ends the resume.
   */
  method SyncWithServer(status: Tracker.UploadStatus, disk: Tracker.StatusFiles, statusPath: string, s3: ResumeAnswers)
    returns (err: Option<string>, requests: seq<ListPartsRequest>)
    modifies status`completedParts, disk
    ensures requests == RequestsFrom(s3.listParts, None)
    ensures FetchFrom(s3.listParts, map[]).Err? ==>
              err == Some("list parts: " + FetchFrom(s3.listParts, map[]).error)
              && status.completedParts == old(status.completedParts) && disk.files == old(disk.files)
    ensures FetchFrom(s3.listParts, map[]).Ok? ==>
              status.completedParts == old(status.completedParts) + FetchFrom(s3.listParts, map[]).value
    ensures FetchFrom(s3.listParts, map[]).Ok? && !s3.syncSaveOk ==>
              err == Some("save status after sync: write failed") && disk.files == old(disk.files)
    ensures FetchFrom(s3.listParts, map[]).Ok? && s3.syncSaveOk ==>
              err.None? && disk.files == old(disk.files)[statusPath := Tracker.Encode(status.Record())]
  {
    var srv;
    srv, requests := FetchServerCompletedParts(s3.listParts);
    if srv.Err? {
      return Some("list parts: " + srv.error), requests;
    }
    ApplyServerParts(status, srv.value);
    var ok := status.SaveStatus(disk, statusPath, s3.syncSaveOk);
    if !ok {
      return Some("save status after sync: write failed"), requests;
    }
    err := None;
  }

  /** A resumed part that was uploaded: recorded in the status, the status file saved (a failed save is only logged), then reported done. */
  method RecordResumedPart(r: WsReporter.Reporter, status: Tracker.UploadStatus, disk: Tracker.StatusFiles,
                           ch: Chunker.Chunk, eTag: string, saveOk: bool, statusPath: string)
    requires r.Valid()
    modifies r, r.agent, r.clock, status`completedParts, disk
    ensures r.Valid()
    ensures status.completedParts == old(status.completedParts)[ch.index := eTag]
  {
    status.AddCompletedPart(ch.index, eTag);
    var _ := status.SaveStatus(disk, statusPath, saveOk);
    r.PartDone(ch.index, ch.size, eTag);
  }

  /** One part of the resumed loop; a failing part is reported and ends the session, without an abort. */
  method ResumePart(r: WsReporter.Reporter, status: Tracker.UploadStatus, dir: Chunker.ChunkDir, disk: Tracker.StatusFiles,
                    cs: seq<Chunker.Chunk>, i: nat, a: Uploader.PartAttempt, uploadID: string, statusPath: string)
    returns (err: Option<string>, s: seq<Uploader.Step>)
    requires i < |cs| && Uploader.ChunkFilesPresent(cs, dir.files)
    requires r.Valid()
    modifies r, r.agent, r.clock, status`completedParts, disk
    ensures r.Valid()
    ensures err.None? <==> Uploader.PartOk(a)
    ensures err.None? ==> s == Uploader.PartSteps(cs[i], a)
    ensures err.None? ==> status.completedParts == old(status.completedParts)[cs[i].index := a.result.eTag]
    ensures err.Some? ==> s == ResumeFailSteps(cs[i], a) && status.completedParts == old(status.completedParts)
  {
    var ch := cs[i];
    assert Chunker.ChunkFileName(ch) in dir.files;
    var reader := dir.GetChunkReader(ch, a.readerOpens);
    if reader.None? {
      Uploader.FailPart(r, "get chunk reader (part " + IntToString(ch.index) + ")", Some(ch.index), uploadID);
      return Some("failed to get chunk reader for part " + IntToString(ch.index)),
             [Uploader.ErrorReported(Some(ch.index)), Uploader.DoneReported(false)];
    }
    r.PartStart(ch.index, ch.size, ch.offset);
    Uploader.ReportDeltas(r, ch.index, Progress.RunAsWritten(a.bodyReads).1);
    if a.result.PartFailed? {
      Uploader.FailPart(r, "upload part " + IntToString(ch.index) + " failed after retries", Some(ch.index), uploadID);
      err := Some("failed to upload part " + IntToString(ch.index) + " after retries");
    } else if a.result.PartWithoutETag? {
      Uploader.FailPart(r, "nil ETag on part " + IntToString(ch.index), Some(ch.index), uploadID);
      err := Some("ETag for part " + IntToString(ch.index) + " is nil");
    } else {
      RecordResumedPart(r, status, disk, ch, a.result.eTag, a.saveOk, statusPath);
      return None, Uploader.PartSteps(ch, a);
    }
    s := [Uploader.PartStartReported(ch.index), Uploader.PartSent(ch.index, a.result),
          Uploader.ErrorReported(Some(ch.index)), Uploader.DoneReported(false)];
  }
  /**
   * One more chunk examined: a chunk whose part is among `done` leaves the
   * chunks still to send as they were, any other is the next of them.
   */
  lemma PendingStep(cs: seq<Chunker.Chunk>, done: set<int>, i: nat, k: nat)
    requires i < |cs| && k <= |Pending(cs, done)|
    requires Pending(cs[..i], done) == Pending(cs, done)[..k]
    ensures var p := Pending(cs, done);
      && (cs[i].index in done ==> Pending(cs[..i + 1], done) == p[..k])
      && (cs[i].index !in done ==> k < |p| && p[k] == cs[i] && Pending(cs[..i + 1], done) == p[..k + 1])
  {
    var p := Pending(cs, done);
    var c := cs[..i + 1];
    assert c[..|c| - 1] == cs[..i] && c[|c| - 1] == cs[i];
    assert Pending(c, done) == p[..k] + (if cs[i].index in done then [] else [cs[i]]);
    PendingPrefix(cs, done, i + 1);
    if cs[i].index !in done {
      assert Pending(c, done)[k] == cs[i];
      assert p[..k + 1] == p[..k] + [p[k]];
    }
  }

  /** The next chunk's part is not among the parts uploaded so far, which are those of earlier chunks. */
  lemma NotYetUploaded(cs: seq<Chunker.Chunk>, done: set<int>, part: nat -> Uploader.PartAttempt, i: nat, k: nat)
    requires forall j :: 0 <= j < |cs| ==> cs[j].index == j + 1
    requires i < |cs| && k <= |Pending(cs, done)|
    requires Pending(cs[..i], done) == Pending(cs, done)[..k]
    ensures cs[i].index !in S3.Numbers(Uploader.CompletedParts(Pending(cs, done), part, k))
  {
    var p := Pending(cs, done);
    var q := Pending(cs[..i], done);
    PendingMembers(cs[..i], done);
    forall j | 0 <= j < k
      ensures p[j].index <= i
    {
      assert p[j] == q[j];
      var m :| 0 <= m < i && cs[..i][m] == q[j];
    }
    var ps := Uploader.CompletedParts(p, part, k);
    assert forall j :: 0 <= j < |ps| ==> ps[j].partNumber < cs[i].index;
  }

  /**
   * Where ResumeLoop stands after examining the first i chunks: the chunks
   * still to send among them are the first k of all chunks still to send,
   * and those k went through, with the steps and entries they give.
   */
  ghost predicate Progressed(cs: seq<Chunker.Chunk>, done: set<int>, part: nat -> Uploader.PartAttempt, i: nat, k: nat,
                             s: seq<Uploader.Step>, uploaded: seq<S3.CompletedPart>) {
    var p := Pending(cs, done);
    && i <= |cs| && k <= |p|
    && Pending(cs[..i], done) == p[..k]
    && s == Uploader.LoopSteps(p, part, k) && uploaded == Uploader.CompletedParts(p, part, k)
    && (forall j :: 0 <= j < k ==> Uploader.PartOk(part(j)))
  }

  /** A chunk whose part the status holds is skipped: it was done before the resume, not uploaded in it. */
  lemma SkipStep(cs: seq<Chunker.Chunk>, done: set<int>, part: nat -> Uploader.PartAttempt, i: nat, k: nat,
                 s: seq<Uploader.Step>, uploaded: seq<S3.CompletedPart>)
    requires forall j :: 0 <= j < |cs| ==> cs[j].index == j + 1
    requires i < |cs| && Progressed(cs, done, part, i, k, s, uploaded)
    requires cs[i].index in done + S3.Numbers(uploaded)
    ensures cs[i].index in done
    ensures Progressed(cs, done, part, i + 1, k, s, uploaded)
  {
    PendingStep(cs, done, i, k);
    NotYetUploaded(cs, done, part, i, k);
  }

  /**
   * One chunk whose part the status does not hold: it is the next chunk still
   * to send, and is uploaded; a failure ends the loop.
   */
  method UploadNext(r: WsReporter.Reporter, status: Tracker.UploadStatus, dir: Chunker.ChunkDir, disk: Tracker.StatusFiles,
                    cs: seq<Chunker.Chunk>, ghost done: set<int>, part: nat -> Uploader.PartAttempt, i: nat, k: nat,
                    s: seq<Uploader.Step>, uploaded: seq<S3.CompletedPart>, uploadID: string, statusPath: string)
    returns (err: Option<string>, s': seq<Uploader.Step>, uploaded': seq<S3.CompletedPart>)
    requires forall j :: 0 <= j < |cs| ==> cs[j].index == j + 1
    requires Uploader.ChunkFilesPresent(cs, dir.files)
    requires i < |cs| && Progressed(cs, done, part, i, k, s, uploaded)
    requires status.completedParts.Keys == done + S3.Numbers(uploaded) && !status.IsPartCompleted(cs[i].index)
    requires r.Valid()
    modifies r, r.agent, r.clock, status`completedParts, disk
    ensures r.Valid()
    ensures err.None? ==> Progressed(cs, done, part, i + 1, k + 1, s', uploaded')
    ensures err.None? ==> status.completedParts.Keys == done + S3.Numbers(uploaded')
    ensures var p := Pending(cs, done);
      err.Some? ==> k < |p| && Uploader.FirstFailure(p, part, 0) == k &&
                    s' == Uploader.LoopSteps(p, part, k) + ResumeFailSteps(p[k], part(k))
  {
    ghost var p := Pending(cs, done);
    PendingStep(cs, done, i, k);
    var e, ps := ResumePart(r, status, dir, disk, cs, i, part(k), uploadID, statusPath);
    if e.Some? {
      Uploader.FirstFailureAt(p, part, 0, k);
      return e, s + ps, uploaded;
    }
    var entry := S3.CompletedPart(cs[i].index, part(k).result.eTag);
    S3.NumbersAppend(uploaded, entry);
    return None, s + ps, uploaded + [entry];
  }

  /**
   * The loop of ResumeUpload over all chunks: a chunk whose part the status
   * holds is skipped, every other one is uploaded in order until one fails.
   * The parts sent are exactly the chunks still to send, in order, the k-th
   * of them answered by part(k).
   */
  method ResumeLoop(r: WsReporter.Reporter, status: Tracker.UploadStatus, dir: Chunker.ChunkDir, disk: Tracker.StatusFiles,
                    cs: seq<Chunker.Chunk>, ghost done: set<int>, part: nat -> Uploader.PartAttempt,
                    uploadID: string, statusPath: string)
    returns (err: Option<string>, s: seq<Uploader.Step>, uploaded: seq<S3.CompletedPart>)
    requires forall j :: 0 <= j < |cs| ==> cs[j].index == j + 1
    requires Uploader.ChunkFilesPresent(cs, dir.files)
    requires status.completedParts.Keys == done
    requires r.Valid()
    modifies r, r.agent, r.clock, status`completedParts, disk
    ensures r.Valid()
    ensures var p := Pending(cs, done);
      var k := Uploader.FirstFailure(p, part, 0);
      && (err.None? <==> k == |p|)
      && (err.None? ==> s == Uploader.LoopSteps(p, part, |p|) && uploaded == Uploader.CompletedParts(p, part, |p|))
      && (err.Some? ==> k < |p| && s == Uploader.LoopSteps(p, part, k) + ResumeFailSteps(p[k], part(k)))
  {
    ghost var p := Pending(cs, done);
    s := [];
    uploaded := [];
    var i := 0;
    var k := 0;
    while i < |cs|
      invariant Progressed(cs, done, part, i, k, s, uploaded)
      invariant status.completedParts.Keys == done + S3.Numbers(uploaded)
      invariant r.Valid()
    {
      if status.IsPartCompleted(cs[i].index) {
        SkipStep(cs, done, part, i, k, s, uploaded);
        i := i + 1;
        continue;
      }
      var e;
      e, s, uploaded := UploadNext(r, status, dir, disk, cs, done, part, i, k, s, uploaded, uploadID, statusPath);
      if e.Some? {
        return e, s, uploaded;
      }
      i := i + 1;
      k := k + 1;
    }
    assert cs[..i] == cs;
    assert p == p[..k];
    Uploader.FirstFailureAt(p, part, 0, k);
    err := None;
  }

  /**
   * The end of ResumeUpload once every part is uploaded: the completed parts,
   * sorted by part number, go to CompleteMultipartUpload; its failure is
   * reported and ends the session as failed (no abort), its success ends the
   * session as successful.
   */
  method CompleteResumed(r: WsReporter.Reporter, completed: seq<S3.CompletedPart>, complete: bool, uploadID: string)
    returns (err: Option<string>, s: seq<Uploader.Step>)
    requires r.Valid()
    modifies r, r.agent, r.clock
    ensures r.Valid()
    ensures err.None? <==> complete
    ensures s == ResumeCompletionSteps(S3.SortByPartNumber(completed), complete)
  {
    var sorted := S3.SortByPartNumber(completed);
    if !complete {
      Uploader.FailPart(r, "complete multipart", None, uploadID);
      return Some("failed to complete multipart upload"),
             [Uploader.Completed(sorted, false), Uploader.ErrorReported(None), Uploader.DoneReported(false)];
    }
    r.Done(true, uploadID);
    return None, [Uploader.Completed(sorted, true), Uploader.DoneReported(true)];
  }

  /**
   * The parts of a resumed upload and its completion, after the session
   * start: `pre` lists the entries of the status map m0 the run starts from.
   * On success the completion lists the entries of m0 and of the uploaded
   * parts together, each part once, in strictly ascending order, and every
   * chunk's part is among them.
   */
  method ResumeParts(r: WsReporter.Reporter, status: Tracker.UploadStatus, dir: Chunker.ChunkDir, disk: Tracker.StatusFiles,
                     cs: seq<Chunker.Chunk>, pre: seq<S3.CompletedPart>, ghost m0: map<int, string>,
                     part: nat -> Uploader.PartAttempt, complete: bool, uploadID: string, statusPath: string)
    returns (err: Option<string>, s: seq<Uploader.Step>, ghost final: seq<S3.CompletedPart>)
    requires forall j :: 0 <= j < |cs| ==> cs[j].index == j + 1
    requires Uploader.ChunkFilesPresent(cs, dir.files)
    requires status.completedParts == m0 && S3.EntriesOf(pre, m0)
    requires r.Valid()
    modifies r, r.agent, r.clock, status`completedParts, disk
    ensures var p := Pending(cs, m0.Keys);
      && s == ResumeRun(p, part, complete, final)
      && (err.None? <==> Uploader.Succeeds(p, part, complete))
    ensures var p := Pending(cs, m0.Keys);
      (forall j :: 0 <= j < |p| ==> Uploader.PartOk(part(j))) ==>
        && S3.StrictlyAscending(final) && S3.EntriesOf(final, m0 + UploadedETags(p, part, |p|))
        && (forall j :: 0 <= j < |cs| ==> cs[j].index in S3.Numbers(final))
  {
    ghost var p := Pending(cs, m0.Keys);
    var body, uploaded;
    err, body, uploaded := ResumeLoop(r, status, dir, disk, cs, m0.Keys, part, uploadID, statusPath);
    Uploader.FirstFailureSpec(p, part, 0);
    if err.Some? {
      return err, body, [];
    }
    var completed := pre + uploaded;
    ghost var up := UploadedETags(p, part, |p|);
    PendingAscending(cs, m0.Keys);
    UploadedEntries(p, part, |p|);
    EveryChunkListed(cs, m0, part);
    S3.EntriesConcat(pre, m0, uploaded, up);
    S3.SortedEntries(completed, m0 + up);
    var tail;
    err, tail := CompleteResumed(r, completed, complete, uploadID);
    final := S3.SortByPartNumber(completed);
    s := body + tail;
  }

  /**
   * The session start of a resumed upload: the status map's entries sorted
   * by part number, the bytes already done and the preCompleted list go into
   * the start's extra members, and the reporter's byte count starts from the
   * bytes already done.
   */
  method StartResumed(r: WsReporter.Reporter, status: Tracker.UploadStatus, cs: seq<Chunker.Chunk>)
    returns (sorted: seq<S3.CompletedPart>, pre: seq<Json.Value>)
    requires r.Valid()
    modifies r, r.agent, r.clock
    ensures r.Valid()
    ensures S3.StrictlyAscending(sorted) && S3.EntriesOf(sorted, status.completedParts)
    ensures |pre| == |sorted| && forall i :: 0 <= i < |sorted| ==> pre[i] == PreEntry(cs, sorted[i])
    ensures r.uploadedBytes == Already(cs, status.completedParts.Keys)
    ensures r.startPayload == Some(WsReporter.StartPayload(status.bucket, status.key, status.uploadID, status.partSizeBytes,
              r.totalBytes, ResumeExtra(Already(cs, status.completedParts.Keys), pre, status.totalParts, status.partSizeBytes)))
  {
    var collected := CollectCompleted(status.completedParts);
    sorted := S3.SortByPartNumber(collected);
    S3.SortedEntries(collected, status.completedParts);
    var already := AlreadyBytes(status, cs);
    pre := PreCompleted(cs, sorted);
    r.Start(status.bucket, status.key, status.uploadID, status.partSizeBytes,
            ResumeExtra(already, pre, status.totalParts, status.partSizeBytes));
    r.uploadedBytes := already;
  }

  /**
   * ResumeUpload once the chunks match the status and the file's size is
   * known: the reporter is made, the session started, the chunks still to
   * send uploaded and the upload completed; after a success the status file
   * is removed (a failed removal is only logged).
   */
  method ResumeSession(status: Tracker.UploadStatus, cs: seq<Chunker.Chunk>, dir: Chunker.ChunkDir, disk: Tracker.StatusFiles,
                       statusPath: string, s3: ResumeAnswers, statusRemoveOk: bool, size: nat, runID: string,
                       agent: Agent, clock: Clock)
    returns (outcome: Outcome, steps: seq<Uploader.Step>, ghost final: seq<S3.CompletedPart>)
    requires forall j :: 0 <= j < |cs| ==> cs[j].index == j + 1
    requires Uploader.ChunkFilesPresent(cs, dir.files)
    modifies agent, clock, status`completedParts, disk
    ensures var p := Pending(cs, old(status.completedParts).Keys);
      && steps == [Uploader.StartReported] + ResumeRun(p, s3.part, s3.complete, final)
      && outcome != NilFileInfoPanic
      && (outcome == Success <==> Uploader.Succeeds(p, s3.part, s3.complete))
    ensures var p := Pending(cs, old(status.completedParts).Keys);
      outcome == Success ==>
        && S3.StrictlyAscending(final) && S3.EntriesOf(final, old(status.completedParts) + UploadedETags(p, s3.part, |p|))
        && (forall j :: 0 <= j < |cs| ==> cs[j].index in S3.Numbers(final))
        && (statusRemoveOk ==> statusPath !in disk.files)
  {
    var r := new WsReporter.Reporter(size, runID, agent, clock);
    ghost var m0 := status.completedParts;
    var sorted, pre := StartResumed(r, status, cs);
    var err, s;
    err, s, final := ResumeParts(r, status, dir, disk, cs, sorted, m0, s3.part, s3.complete, status.uploadID, statusPath);
    steps := [Uploader.StartReported] + s;
    if err.Some? {
      return Failure(err.value), steps, final;
    }
    var _ := disk.Remove(statusPath, statusRemoveOk);
    outcome := Success;
  }
  /** The record a status file holds, when it is there and decodes. */
  function Loaded(files: map<string, Json.Value>, path: string): (r: Option<Tracker.StatusRecord>)
    ensures r.Some? <==> path in files && Tracker.Decode(files[path]).Ok?
  {
    if path in files && Tracker.Decode(files[path]).Ok? then Some(Tracker.Decode(files[path]).value) else None
  }

  /** The chunk size NewFileChunker settles on for a part size. */
  function ChunkSizeOf(partSizeBytes: int, defaultChunkSize: int): int {
    if partSizeBytes <= 0 then defaultChunkSize else partSizeBytes
  }

  /** The whole run after the session start finishes as ResumeEnd says, after the start itself. */
  lemma StartedResumeShape(p: seq<Chunker.Chunk>, part: nat -> Uploader.PartAttempt, complete: bool, final: seq<S3.CompletedPart>)
    ensures var s := [Uploader.StartReported] + ResumeRun(p, part, complete, final);
      s[0] == Uploader.StartReported && ResumeEnd(s[1..], Uploader.Succeeds(p, part, complete), final)
  {
    var s := [Uploader.StartReported] + ResumeRun(p, part, complete, final);
    ResumeRunShape(p, part, complete, final);
    assert s[1..] == ResumeRun(p, part, complete, final);
  }

  /**
   * ResumeUpload after the sync: the file is split again with the status's
   * part size, and must give as many chunks as the status has parts; the
   * file's size is read (a failure leaves a nil file info, whose size panics),
   * and the session goes on as ResumeSession says.
   */
  method AfterSync(status: Tracker.UploadStatus, dir: Chunker.ChunkDir, disk: Tracker.StatusFiles, statusPath: string,
                   s3: ResumeAnswers, fs: Uploader.FileAnswers, defaultChunkSize: int, runID: string, agent: Agent, clock: Clock)
    returns (outcome: Outcome, steps: seq<Uploader.Step>, ghost chunks: seq<Chunker.Chunk>, ghost final: seq<S3.CompletedPart>)
    requires defaultChunkSize > 0 && dir.Valid()
    requires Chunker.ReaderContract(fs.readAnswers, ChunkSizeOf(status.partSizeBytes, defaultChunkSize))
    modifies agent, clock, dir, disk, status`completedParts
    ensures dir.Valid()
    ensures forall j :: 0 <= j < |chunks| ==> chunks[j].index == j + 1
    ensures fs.chunkerStat.Some? ==>
              chunks == Chunker.SplitChunks(ChunkSizeOf(status.partSizeBytes, defaultChunkSize), status.filePath,
                                            fs.opens, fs.readAnswers, fs.writes)
    ensures fs.chunkerStat.None? ==> outcome.Failure? && steps == []
    ensures fs.chunkerStat.Some? && |chunks| != status.totalParts ==>
              outcome == Failure("mismatch in total parts: expected " + IntToString(|chunks|) + ", got " +
                                 IntToString(status.totalParts) + " from status") && steps == []
    ensures fs.chunkerStat.Some? && |chunks| == status.totalParts && fs.stat.None? ==> outcome == NilFileInfoPanic && steps == []
    ensures steps != [] <==> fs.chunkerStat.Some? && |chunks| == status.totalParts && fs.stat.Some?
    ensures var p := Pending(chunks, old(status.completedParts).Keys);
      steps != [] ==>
        && steps == [Uploader.StartReported] + ResumeRun(p, s3.part, s3.complete, final)
        && outcome != NilFileInfoPanic
        && (outcome == Success <==> Uploader.Succeeds(p, s3.part, s3.complete))
    ensures var p := Pending(chunks, old(status.completedParts).Keys);
      outcome == Success ==>
        && steps != []
        && S3.StrictlyAscending(final) && S3.EntriesOf(final, old(status.completedParts) + UploadedETags(p, s3.part, |p|))
        && (forall j :: 0 <= j < |chunks| ==> chunks[j].index in S3.Numbers(final))
        && (fs.statusRemoveOk ==> statusPath !in disk.files)
  {
    chunks, final := [], [];
    var made := Chunker.NewFileChunker(status.filePath, fs.chunkerStat, status.partSizeBytes, defaultChunkSize);
    if made.Err? {
      return Failure("failed to create file chunker for resume: " + made.error), [], [], [];
    }
    var cs := Uploader.SplitIntoChunks(dir, made.value, fs);
    chunks := cs;
    if |cs| != status.totalParts {
      return Failure("mismatch in total parts: expected " + IntToString(|cs|) + ", got " +
                     IntToString(status.totalParts) + " from status"), [], cs, [];
    }
    if fs.stat.None? {
      return NilFileInfoPanic, [], cs, [];
    }
    outcome, steps, final := ResumeSession(status, cs, dir, disk, statusPath, s3, fs.statusRemoveOk, fs.stat.value, runID, agent, clock);
  }

  /**
   * ResumeUpload. The status file must load; the parts S3 lists are merged
   * over it (S3 wins) and saved; the chunks must match the status. Then the
   * session starts, the chunks whose part is not yet completed are uploaded
   * in order, and the upload is completed with every part, once, in
   * ascending order. A failure is reported and ends the session as failed;
   * the multipart upload is never aborted, so it can be resumed again.
   */
  method ResumeUpload(statusPath: string, s3: ResumeAnswers, fs: Uploader.FileAnswers, defaultChunkSize: int,
                      runID: string, agent: Agent, clock: Clock, dir: Chunker.ChunkDir, disk: Tracker.StatusFiles)
    returns (outcome: Outcome, steps: seq<Uploader.Step>, requests: seq<ListPartsRequest>,
             ghost merged: map<int, string>, ghost chunks: seq<Chunker.Chunk>, ghost final: seq<S3.CompletedPart>)
    requires defaultChunkSize > 0 && dir.Valid()
    requires Loaded(disk.files, statusPath).Some? ==>
               Chunker.ReaderContract(fs.readAnswers, ChunkSizeOf(Loaded(disk.files, statusPath).value.partSizeBytes, defaultChunkSize))
    modifies agent, clock, dir, disk
    ensures dir.Valid()
    ensures Loaded(old(disk.files), statusPath).None? ==>
              outcome.Failure? && steps == [] && requests == [] && disk.files == old(disk.files)
    ensures Loaded(old(disk.files), statusPath).Some? ==> requests == RequestsFrom(s3.listParts, None)
    ensures Loaded(old(disk.files), statusPath).Some? && FetchFrom(s3.listParts, map[]).Err? ==>
              outcome == Failure("list parts: " + FetchFrom(s3.listParts, map[]).error) && steps == [] &&
              disk.files == old(disk.files)
    ensures Loaded(old(disk.files), statusPath).Some? && FetchFrom(s3.listParts, map[]).Ok? ==>
              merged == Loaded(old(disk.files), statusPath).value.completedParts + FetchFrom(s3.listParts, map[]).value
    ensures Loaded(old(disk.files), statusPath).Some? && FetchFrom(s3.listParts, map[]).Ok? && !s3.syncSaveOk ==>
              outcome.Failure? && steps == []
    ensures outcome == NilFileInfoPanic ==> steps == [] && fs.stat.None?
    ensures forall j :: 0 <= j < |chunks| ==> chunks[j].index == j + 1
    ensures var p := Pending(chunks, merged.Keys);
      steps != [] ==>
        && Loaded(old(disk.files), statusPath).Some? && FetchFrom(s3.listParts, map[]).Ok? && s3.syncSaveOk
        && |chunks| == Loaded(old(disk.files), statusPath).value.totalParts && fs.stat.Some?
        && steps == [Uploader.StartReported] + ResumeRun(p, s3.part, s3.complete, final)
        && ResumeEnd(steps[1..], outcome == Success, final)
        && (outcome == Success <==> Uploader.Succeeds(p, s3.part, s3.complete))
        && (outcome != Success ==> outcome.Failure?)
    ensures var p := Pending(chunks, merged.Keys);
      outcome == Success ==>
        && steps != []
        && S3.StrictlyAscending(final) && S3.EntriesOf(final, merged + UploadedETags(p, s3.part, |p|))
        && (forall j :: 0 <= j < |chunks| ==> chunks[j].index in S3.Numbers(final))
        && (fs.statusRemoveOk ==> statusPath !in disk.files)
  {
    merged, chunks, final := map[], [], [];
    var loaded := Tracker.LoadStatus(disk, statusPath);
    if loaded.Err? {
      return Failure("failed to load upload status for resume: " + loaded.error), [], [], merged, chunks, final;
    }
    var status := loaded.value;
    var err;
    err, requests := SyncWithServer(status, disk, statusPath, s3);
    merged := status.completedParts;
    if err.Some? {
      return Failure(err.value), [], requests, merged, chunks, final;
    }
    outcome, steps, chunks, final := AfterSync(status, dir, disk, statusPath, s3, fs, defaultChunkSize, runID, agent, clock);
    if steps != [] {
      StartedResumeShape(Pending(chunks, merged.Keys), s3.part, s3.complete, final);
    }
  }
}
