/**
 * The duplicate-upload check: a Cuckoo filter of file hashes and a
 * Count-Min sketch of upload counts, both kept in Redis, decide whether a
 * file is uploaded, with a HEAD request to S3 for hashes seen rarely.
 *
 * Redis, S3 and the file system are not modelled: every call's outcome is an
 * input (the hash or the read error, the filter's answer, the sketch's reply,
 * whether HeadObject succeeds on a bucket and key).
 */
module Duplicate {
  import opened Wrappers
  import opened Text

  /** Above this many recorded uploads a hash is skipped without asking S3. */
  const FrequencyLimit := 10

  const DefaultRedisURL: string := "redis://localhost:6379"

  /** A Redis reply as go-redis hands it over: an array, an int64, an int, or anything else. */
  datatype Reply = Array(items: seq<Reply>) | Int64(n: int) | Int(n: int) | Other

  /** The outcome of CheckDuplicate: whether to upload, why, and the error returned beside it. */
  datatype Decision = Decision(shouldUpload: bool, reason: string, err: Option<string>)

  /** A Redis command the checker issues. */
  datatype Command =
    | CfReserve(filterKey: string, capacity: int)
    | CmsInitByDim(sketchKey: string, width: int, depth: int)
    | CfExists(filterKey: string, hash: string)
    | CmsQuery(sketchKey: string, hash: string)
    | CfAdd(filterKey: string, hash: string)
    | CmsIncrBy(sketchKey: string, hash: string, increment: int)

  const FilterKey: string := "file_hashes"
  const SketchKey: string := "upload_frequency"

  /**
   * The frequency in a CMS.QUERY reply: the first element of an array when
   * that is an int64 (0 for an empty array or another first element), the
   * number itself for an int64 or an int; None for any other reply, which
   * CheckDuplicate treats as a failed query.
   */
  function Frequency(reply: Reply): (f: Option<int>)
    ensures f.None? <==> reply.Other?
  {
    match reply
    case Array(items) => Some(if |items| > 0 && items[0].Int64? then items[0].n else 0)
    case Int64(n) => Some(n)
    case Int(n) => Some(n)
    case Other => None
  }

  /** What Frequency reads: each kind of reply, and only the unexpected kind fails. */
  lemma FrequencyCases(reply: Reply)
    ensures Frequency(reply).None? <==> reply.Other?
    ensures (reply.Int64? || reply.Int?) ==> Frequency(reply) == Some(reply.n)
    ensures reply.Array? && reply.items != [] && reply.items[0].Int64? ==> Frequency(reply) == Some(reply.items[0].n)
    ensures reply.Array? && (reply.items == [] || !reply.items[0].Int64?) ==> Frequency(reply) == Some(0)
  {
  }

  /** checkS3Exists' key: the configured key when it is set, else the file's base name. */
  function S3Key(cfgKey: string, filePath: string): (key: string)
    ensures cfgKey != "" ==> key == cfgKey
    ensures cfgKey == "" ==> key == PathBase(filePath)
  {
    if cfgKey != "" then cfgKey else PathBase(filePath)
  }

  /**
   * checkS3Exists: whether the object is there, and never an error; a
   * failing HeadObject, whatever the reason, counts as absent.
   */
  function CheckS3Exists(bucket: string, cfgKey: string, filePath: string, headObject: (string, string) -> bool): (r: (bool, Option<string>))
    ensures r.1.None?
    ensures r.0 <==> headObject(bucket, S3Key(cfgKey, filePath))
  {
    (headObject(bucket, S3Key(cfgKey, filePath)), None)
  }

  /**
   * CheckDuplicate. `hash` is the file's hash or the read error,
   * `inFilter` the answer of CF.EXISTS or its error, `query` the reply of
   * CMS.QUERY or its error, `headObject` whether HeadObject succeeds on a
   * bucket and key. Every failure before the S3 check lets the file through
   * with the error (fail-open).
   */
  function CheckDuplicate(hash: Result<string, string>, inFilter: Result<bool, string>, query: Result<Reply, string>,
                          bucket: string, cfgKey: string, filePath: string, headObject: (string, string) -> bool): (d: Decision)
    ensures d.err.Some? ==> d.shouldUpload
    ensures hash.Err? ==> d.shouldUpload && d.err.Some?
    ensures hash.Ok? && inFilter == Ok(false) ==> d == Decision(true, "new file", None)
  {
    match hash
    case Err(e) => Decision(true, "hash calculation failed", Some("failed to calculate file hash: " + e))
    case Ok(_) =>
      match inFilter
      case Err(e) => Decision(true, "cuckoo filter check failed", Some("failed to check Cuckoo Filter: " + e))
      case Ok(false) => Decision(true, "new file", None)
      case Ok(true) =>
        match query
        case Err(e) => Decision(true, "frequency check failed", Some("failed to query Count-Min Sketch: " + e))
        case Ok(reply) =>
          match Frequency(reply)
          case None => Decision(true, "frequency check failed", Some("unexpected CMS.QUERY response type"))
          case Some(frequency) =>
            if frequency > FrequencyLimit then
              Decision(false, "file uploaded " + IntToString(frequency) + " times already", None)
            else
              var (existsInS3, s3Err) := CheckS3Exists(bucket, cfgKey, filePath, headObject);
              if s3Err.Some? then Decision(true, "s3 check failed", None)
              else if existsInS3 then Decision(false, "file exists in s3", None)
              else Decision(true, "not in s3", None)
  }

  /** The hash is seen, its frequency is readable, and it is at most the limit: the case that asks S3. */
  predicate AsksS3(hash: Result<string, string>, inFilter: Result<bool, string>, query: Result<Reply, string>) {
    hash.Ok? && inFilter == Ok(true) && query.Ok? && Frequency(query.value).Some? && Frequency(query.value).value <= FrequencyLimit
  }

  /** A hash seen more than FrequencyLimit times. */
  predicate Frequent(hash: Result<string, string>, inFilter: Result<bool, string>, query: Result<Reply, string>) {
    hash.Ok? && inFilter == Ok(true) && query.Ok? && Frequency(query.value).Some? && Frequency(query.value).value > FrequencyLimit
  }

  /**
   * Fail-open: a failed hash, filter check or sketch query (or an
   * unreadable reply) lets the file through and returns an error; any
   * other path returns no error.
   */
  lemma FailOpen(hash: Result<string, string>, inFilter: Result<bool, string>, query: Result<Reply, string>,
                 bucket: string, cfgKey: string, filePath: string, headObject: (string, string) -> bool)
    ensures var d := CheckDuplicate(hash, inFilter, query, bucket, cfgKey, filePath, headObject);
      d.err.Some? <==> (hash.Err? || (hash.Ok? && inFilter.Err?) ||
                        (hash.Ok? && inFilter == Ok(true) && (query.Err? || Frequency(query.value).None?)))
    ensures var d := CheckDuplicate(hash, inFilter, query, bucket, cfgKey, filePath, headObject);
      d.err.Some? ==> d.shouldUpload
  {
  }

  /** A hash absent from the filter is a new file. */
  lemma NewFile(hash: string, query: Result<Reply, string>, bucket: string, cfgKey: string, filePath: string, headObject: (string, string) -> bool)
    ensures CheckDuplicate(Ok(hash), Ok(false), query, bucket, cfgKey, filePath, headObject) == Decision(true, "new file", None)
  {
  }

  /**
   * The file is skipped in exactly two cases: its hash is frequent, or it
   * is seen rarely and HeadObject finds the object under S3Key.
   */
  lemma SkipExactly(hash: Result<string, string>, inFilter: Result<bool, string>, query: Result<Reply, string>,
                    bucket: string, cfgKey: string, filePath: string, headObject: (string, string) -> bool)
    ensures var d := CheckDuplicate(hash, inFilter, query, bucket, cfgKey, filePath, headObject);
      !d.shouldUpload <==> Frequent(hash, inFilter, query) ||
                           (AsksS3(hash, inFilter, query) && headObject(bucket, S3Key(cfgKey, filePath)))
    ensures var d := CheckDuplicate(hash, inFilter, query, bucket, cfgKey, filePath, headObject);
      AsksS3(hash, inFilter, query) ==>
        d == (if headObject(bucket, S3Key(cfgKey, filePath)) then Decision(false, "file exists in s3", None) else Decision(true, "not in s3", None))
  {
  }

  /** A frequent hash is decided without S3: the answer is the same whatever HeadObject would say. */
  lemma FrequentIgnoresS3(hash: Result<string, string>, inFilter: Result<bool, string>, query: Result<Reply, string>,
                          bucket: string, cfgKey: string, filePath: string, h1: (string, string) -> bool, h2: (string, string) -> bool)
    requires Frequent(hash, inFilter, query)
    ensures CheckDuplicate(hash, inFilter, query, bucket, cfgKey, filePath, h1) == CheckDuplicate(hash, inFilter, query, bucket, cfgKey, filePath, h2)
    ensures CheckDuplicate(hash, inFilter, query, bucket, cfgKey, filePath, h1) ==
              Decision(false, "file uploaded " + IntToString(Frequency(query.value).value) + " times already", None)
  {
  }

  /** The "s3 check failed" outcome never occurs, because checkS3Exists never returns an error. */
  lemma NoS3CheckFailure(hash: Result<string, string>, inFilter: Result<bool, string>, query: Result<Reply, string>,
                         bucket: string, cfgKey: string, filePath: string, headObject: (string, string) -> bool)
    ensures CheckDuplicate(hash, inFilter, query, bucket, cfgKey, filePath, headObject).reason != "s3 check failed"
  {
    var d := CheckDuplicate(hash, inFilter, query, bucket, cfgKey, filePath, headObject);
    if AsksS3(hash, inFilter, query) {
      assert d.reason == "file exists in s3" || d.reason == "not in s3";
    } else if Frequent(hash, inFilter, query) {
      var s := "file uploaded " + IntToString(Frequency(query.value).value) + " times already";
      assert d.reason == s && s[0] == 'f' && s[1] == 'i' && s[2] == 'l' && s[4] == ' ';
    }
  }

  /** Whether CF.RESERVE failed only because the filter already exists. */
  predicate FilterExists(errMsg: string) {
    errMsg == "ERR key already exists" || errMsg == "ERR item exists"
  }

  /** Whether CMS.INITBYDIM failed only because the sketch already exists. */
  predicate SketchExists(errMsg: string) {
    errMsg == "ERR key already exists" || errMsg == "CMS: key already exists"
  }

  /**
   * initializeRedisStructures: reserves the filter, then creates the sketch;
   * an error that says the structure already exists is tolerated, any other
   * ends the initialisation. Returns the error and the commands issued.
   */
  function InitializeRedisStructures(reserveErr: Option<string>, initErr: Option<string>): (r: (Option<string>, seq<Command>))
    ensures 1 <= |r.1| <= 2 && r.1[0] == CfReserve(FilterKey, 1000000)
    ensures r.0.None? ==> r.1 == [CfReserve(FilterKey, 1000000), CmsInitByDim(SketchKey, 1000, 10)]
  {
    var reserve := CfReserve(FilterKey, 1000000);
    if reserveErr.Some? && !FilterExists(reserveErr.value) then
      (Some("failed to create Cuckoo Filter: " + reserveErr.value), [reserve])
    else
      var cmds := [reserve, CmsInitByDim(SketchKey, 1000, 10)];
      if initErr.Some? && !SketchExists(initErr.value) then
        (Some("failed to create Count-Min Sketch: " + initErr.value), cmds)
      else
        (None, cmds)
  }

  /**
   * Initialisation succeeds exactly when each command either succeeds or
   * fails with one of its "already exists" messages; the sketch is created
   * only once the filter is in place.
   */
  lemma InitializeTolerance(reserveErr: Option<string>, initErr: Option<string>)
    ensures var (err, cmds) := InitializeRedisStructures(reserveErr, initErr);
      && (err.None? <==> (reserveErr.None? || FilterExists(reserveErr.value)) && (initErr.None? || SketchExists(initErr.value)))
      && cmds[0] == CfReserve(FilterKey, 1000000)
      && (|cmds| == 2 <==> reserveErr.None? || FilterExists(reserveErr.value))
      && |cmds| <= 2
  {
  }

  /** The filter's "item exists" reply is tolerated but the sketch's is not: the two lists differ. */
  lemma ItemExistsOnlyForFilter()
    ensures InitializeRedisStructures(Some("ERR item exists"), None).0.None?
    ensures InitializeRedisStructures(None, Some("ERR item exists")).0.Some?
  {
  }

  /** NewDuplicateChecker's Redis address: REDIS_URL when set, else the local default. */
  function RedisURL(env: string): (url: string)
    ensures env != "" ==> url == env
    ensures env == "" ==> url == DefaultRedisURL
  {
    if env == "" then DefaultRedisURL else env
  }

  /**
   * NewDuplicateChecker's outcome: the URL must parse, Redis must answer
   * PING, the S3 client must be created and the structures initialised, in
   * that order; the first failure is returned wrapped. On success the
   * checker is ready and the result is the Redis address used.
   */
  function NewDuplicateChecker(redisEnv: string, parseErr: Option<string>, pingErr: Option<string>, s3Err: Option<string>,
                               reserveErr: Option<string>, initErr: Option<string>): (r: Result<string, string>)
    ensures r.Ok? ==> r.value == RedisURL(redisEnv)
    ensures parseErr.Some? || pingErr.Some? || s3Err.Some? ==> r.Err?
  {
    if parseErr.Some? then Err("failed to parse Redis URL: " + parseErr.value)
    else if pingErr.Some? then Err("failed to connect to Redis: " + pingErr.value)
    else if s3Err.Some? then Err("failed to create S3 client: " + s3Err.value)
    else
      var (initResult, _) := InitializeRedisStructures(reserveErr, initErr);
      if initResult.Some? then Err("failed to initialize Redis structures: " + initResult.value)
      else Ok(RedisURL(redisEnv))
  }

  /** A checker is made exactly when every step succeeds, existing structures being reused. */
  lemma NewDuplicateCheckerSucceeds(redisEnv: string, parseErr: Option<string>, pingErr: Option<string>, s3Err: Option<string>,
                                    reserveErr: Option<string>, initErr: Option<string>)
    ensures var r := NewDuplicateChecker(redisEnv, parseErr, pingErr, s3Err, reserveErr, initErr);
      && (r.Ok? <==> parseErr.None? && pingErr.None? && s3Err.None? &&
                     InitializeRedisStructures(reserveErr, initErr).0.None?)
      && (r.Ok? ==> r.value == RedisURL(redisEnv))
  {
  }

  /**
   * RecordUpload: adds the hash to the filter, then increments its count
   * by one; a failing step ends the call with its error. Returns the error
   * and the commands issued.
   */
  function RecordUpload(hash: Result<string, string>, addErr: Option<string>, incrErr: Option<string>): (r: (Option<string>, seq<Command>))
    ensures r.0.None? ==> hash.Ok? && r.1 == [CfAdd(FilterKey, hash.value), CmsIncrBy(SketchKey, hash.value, 1)]
    ensures hash.Err? ==> r.0.Some? && r.1 == []
  {
    match hash
    case Err(e) => (Some("failed to calculate file hash for recording: " + e), [])
    case Ok(h) =>
      if addErr.Some? then (Some("failed to add hash to Cuckoo Filter: " + addErr.value), [CfAdd(FilterKey, h)])
      else if incrErr.Some? then (Some("failed to increment frequency in Count-Min Sketch: " + incrErr.value), [CfAdd(FilterKey, h), CmsIncrBy(SketchKey, h, 1)])
      else (None, [CfAdd(FilterKey, h), CmsIncrBy(SketchKey, h, 1)])
  }

  /**
   * A recorded upload issues a prefix of "add to the filter, then count one
   * more", and succeeds exactly when the hash is read and both succeed.
   */
  lemma RecordUploadOrder(hash: Result<string, string>, addErr: Option<string>, incrErr: Option<string>)
    ensures var (err, cmds) := RecordUpload(hash, addErr, incrErr);
      && (err.None? <==> hash.Ok? && addErr.None? && incrErr.None?)
      && (hash.Ok? ==> cmds <= [CfAdd(FilterKey, hash.value), CmsIncrBy(SketchKey, hash.value, 1)] && cmds != [])
      && (hash.Err? ==> cmds == [])
      && (err.None? ==> |cmds| == 2)
  {
  }

  /**
   * GetStats: the filter's and the sketch's INFO replies under
   * "cuckoo_filter" and "count_min_sketch", each present only when its
   * command succeeded. Failures are logged and swallowed: GetStats never
   * returns an error.
   */
  function GetStats(cfInfo: Result<Reply, string>, cmsInfo: Result<Reply, string>): (r: (map<string, Reply>, Option<string>))
    ensures r.1.None?
    ensures r.0.Keys <= {"cuckoo_filter", "count_min_sketch"}
  {
    var withFilter := if cfInfo.Ok? then map["cuckoo_filter" := cfInfo.value] else map[];
    (if cmsInfo.Ok? then withFilter["count_min_sketch" := cmsInfo.value] else withFilter, None)
  }

  /** What GetStats reports: no error, and exactly the entries whose INFO succeeded. */
  lemma GetStatsEntries(cfInfo: Result<Reply, string>, cmsInfo: Result<Reply, string>)
    ensures var (stats, err) := GetStats(cfInfo, cmsInfo);
      && err.None?
      && stats.Keys <= {"cuckoo_filter", "count_min_sketch"}
      && ("cuckoo_filter" in stats <==> cfInfo.Ok?)
      && ("count_min_sketch" in stats <==> cmsInfo.Ok?)
      && (cfInfo.Ok? ==> stats["cuckoo_filter"] == cfInfo.value)
      && (cmsInfo.Ok? ==> stats["count_min_sketch"] == cmsInfo.value)
  {
  }
}
