/**
 * wsReporter: the upload driver's channel to the local agent. It reports the
 * session start, the total and per-part progress, part completions, errors and
 * the end of the session, and it holds back every event until the session
 * start has been delivered. When a delivery fails the reporter goes quiet and
 * probes the agent again only after `CheckInterval` has passed.
 *
 * `delivered` (ghost) is the list of events this reporter handed to the agent;
 * `mark` is its length when `Start` was last called, and `probes` the times of
 * the re-probes made while disabled. Times are nanoseconds read from a Clock.
 */
module WsReporter {
  import opened Wrappers
  import Json
  import Text
  import opened WsAgent

  const CheckInterval: int := 2_000_000_000
  const TotalFlushInterval: int := 250_000_000
  const PartFlushInterval: int := 200_000_000
  const SessionStart: string := "session_start"

  /** What the reporter keeps per part between partStart and partDone. */
  datatype PartTracker = PartTracker(size: int, sent: int, started: int, lastFlushAt: Option<int>)

  /**
   * The session_start payload: bucket, key, uploadId, the part size in MiB and
   * the total size, with every member of `extra` added on top (replacing a
   * member of the same name).
   */
  function StartPayload(bucket: string, key: string, uploadID: string, partSizeBytes: int, total: int,
                        extra: map<string, Json.Value>): map<string, Json.Value>
  {
    map["bucket" := Json.Str(bucket), "key" := Json.Str(key), "uploadId" := Json.Str(uploadID),
        "partMB" := Json.Real(partSizeBytes as real / (1024.0 * 1024.0)), "total" := Json.Num(total)] + extra
  }

  /**
   * The session_start payload has the five standard members and those of
   * `extra`; a member of `extra` wins, the others carry the upload's values,
   * the part size converted to MiB.
   */
  lemma StartPayloadMembers(bucket: string, key: string, uploadID: string, partSizeBytes: int, total: int,
                            extra: map<string, Json.Value>)
    ensures var p := StartPayload(bucket, key, uploadID, partSizeBytes, total, extra);
      && (forall k :: k in extra ==> k in p && p[k] == extra[k])
      && p.Keys == extra.Keys + {"bucket", "key", "uploadId", "partMB", "total"}
      && ("bucket" !in extra ==> p["bucket"] == Json.Str(bucket))
      && ("key" !in extra ==> p["key"] == Json.Str(key))
      && ("uploadId" !in extra ==> p["uploadId"] == Json.Str(uploadID))
      && ("partMB" !in extra ==> p["partMB"] == Json.Real(partSizeBytes as real / 1048576.0))
      && ("total" !in extra ==> p["total"] == Json.Num(total))
  {
  }

  /** The error payload: the message, and the part number exactly when one is given. */
  function ErrorPayload(msg: string, partNum: Option<int>): (p: map<string, Json.Value>)
    ensures "message" in p && p["message"] == Json.Str(msg)
    ensures "part" in p <==> partNum.Some?
    ensures partNum.Some? ==> p["part"] == Json.Num(partNum.value)
    ensures p.Keys <= {"message", "part"}
  {
    var p := map["message" := Json.Str(msg)];
    if partNum.Some? then p["part" := Json.Num(partNum.value)] else p
  }

  /** The percentage of `whole` that `part` is; 0 when `whole` is not positive. */
  function Percent(part: int, whole: int): (pct: real)
    ensures whole <= 0 ==> pct == 0.0
    ensures whole > 0 ==> pct * whole as real == part as real * 100.0
    ensures whole > 0 && 0 <= part <= whole ==> 0.0 <= pct <= 100.0
  {
    if whole > 0 then (part as real / whole as real) * 100.0 else 0.0
  }

  /** Bytes per second over an elapsed time in nanoseconds; 0 when no time has elapsed. */
  function Rate(bytes: int, elapsed: int): (bps: real)
    ensures elapsed <= 0 ==> bps == 0.0
    ensures elapsed > 0 ==> bps * elapsed as real == bytes as real * 1_000_000_000.0
  {
    if elapsed > 0 then bytes as real / (elapsed as real / 1_000_000_000.0) else 0.0
  }

  /** The total_progress payload. */
  function TotalProgressPayload(bytes: int, total: int, elapsed: int): map<string, Json.Value> {
    map["bytes" := Json.Num(bytes), "total" := Json.Num(total),
        "percent" := Json.Real(Percent(bytes, total)), "bps" := Json.Real(Rate(bytes, elapsed))]
  }

  /** A total_progress event carries the byte count it was built from. */
  lemma TotalProgressBytes(bytes: int, total: int, elapsed: int)
    ensures Json.Get(Json.Obj(TotalProgressPayload(bytes, total, elapsed)), "bytes") == Some(Json.Num(bytes))
  {
  }

  /**
   * `after` extends `before` with events of type `evType` or the session
   * start only.
   */
  ghost predicate Extends(before: seq<Event>, after: seq<Event>, evType: string) {
    |before| <= |after| && after[..|before|] == before
    && forall i :: |before| <= i < |after| ==> after[i].evType in {evType, SessionStart}
  }

  /**
   * `after` extends `before` with total_progress events (or the session
   * start) only, and every total_progress event added reports `bytes`.
   */
  ghost predicate TotalsCarry(before: seq<Event>, after: seq<Event>, bytes: int) {
    && Extends(before, after, "total_progress")
    && forall i :: |before| <= i < |after| && after[i].evType == "total_progress" ==>
         Json.Get(after[i].payload, "bytes") == Some(Json.Num(bytes))
  }

  lemma ExtendsTransitive(a: seq<Event>, b: seq<Event>, c: seq<Event>, evType: string)
    requires Extends(a, b, evType) && Extends(b, c, evType)
    ensures Extends(a, c, evType)
  {
    assert c[..|b|][..|a|] == c[..|a|];
  }

  /** Re-probes are CheckInterval apart, and none is later than the last check. */
  ghost predicate ProbesSpaced(probes: seq<int>, lastCheck: int) {
    && (forall i :: 0 < i < |probes| ==> probes[i] - probes[i - 1] >= CheckInterval)
    && (|probes| > 0 ==> probes[|probes| - 1] <= lastCheck)
  }

  lemma ProbeAppend(probes: seq<int>, lastCheck: int, now: int)
    requires ProbesSpaced(probes, lastCheck) && now - lastCheck >= CheckInterval
    ensures ProbesSpaced(probes + [now], now)
  {
  }

  /**
   * The gate: once a session start payload is installed (at position `mark`
   * of the delivered events), nothing is delivered until the session start
   * itself is, and then it is the first event after `mark`.
   */
  ghost predicate Gated(startPayload: Option<map<string, Json.Value>>, startSent: bool, delivered: seq<Event>, mark: nat, runID: string) {
    && mark <= |delivered|
    && (startPayload.None? ==> !startSent)
    && (startPayload.Some? && !startSent ==> |delivered| == mark)
    && (startSent ==> mark < |delivered| && delivered[mark] == Event(SessionStart, runID, Json.Obj(startPayload.value)))
  }

  /** 10 to the power n. */
  function Pow10(n: nat): (r: nat)
    ensures r >= 1
  {
    if n == 0 then 1 else 10 * Pow10(n - 1)
  }

  /** The `prec` lowest decimal digits of v, most significant first, zero-padded. */
  function FracDigits(v: nat, prec: nat): string
  {
    if prec == 0 then "" else FracDigits(v / 10, prec - 1) + [Text.DigitChar(v % 10)]
  }

  function DropTrailingZeros(s: string): string
  {
    if s != [] && s[|s| - 1] == '0' then DropTrailingZeros(s[..|s| - 1]) else s
  }

  /**
   * fmtFrac: the fraction v / 10^prec leaves after its integer part, as "."
   * and its digits without trailing zeros, or nothing when it is zero.
   */
  function Frac(v: nat, prec: nat): string
  {
    var d := DropTrailingZeros(FracDigits(v, prec));
    if d == [] then [] else "." + d
  }

  /** Duration.String of a non-negative duration. */
  function UnsignedDuration(u: nat): string
  {
    if u == 0 then "0s"
    else if u < 1000 then Text.NatToString(u) + "ns"
    else if u < 1_000_000 then Text.NatToString(u / 1000) + Frac(u, 3) + "\U{00B5}s"
    else if u < 1_000_000_000 then Text.NatToString(u / 1_000_000) + Frac(u, 6) + "ms"
    else SecondsDuration(u / 1_000_000_000, Frac(u, 9))
  }

  /** A duration of at least a second: hours and minutes when there are any, then seconds and the fraction. */
  function SecondsDuration(secs: nat, frac: string): string
  {
    (if secs >= 3600 then Text.NatToString(secs / 3600) + "h" else "")
    + (if secs >= 60 then Text.NatToString(secs / 60 % 60) + "m" else "")
    + Text.NatToString(secs % 60) + frac + "s"
  }

  lemma ScaledSeconds(k: nat)
    requires k >= 1
    ensures k * 1_000_000_000 >= 1_000_000_000 && (k * 1_000_000_000) / 1_000_000_000 == k
  {
  }

  /**
   * Duration.String of a duration in nanoseconds, as "1h2m3.5s", "1.5ms",
   * "2\U{00B5}s", "7ns" or "0s", with a leading "-" when it is negative.
   */
  function DurationString(d: int): string {
    if d < 0 then "-" + UnsignedDuration(-d) else UnsignedDuration(d)
  }

  /** Every spelled duration ends in the unit "s", and starts with "-" exactly when it is negative. */
  lemma DurationShape(d: int)
    ensures var r := DurationString(d); |r| >= 2 && r[|r| - 1] == 's' && (r[0] == '-' <==> d < 0)
  {
    UnsignedShape(if d < 0 then -d else d);
  }

  lemma UnsignedShape(u: nat)
    ensures var r := UnsignedDuration(u); |r| >= 2 && Text.IsDigit(r[0]) && r[|r| - 1] == 's'
  {
    if u >= 1_000_000_000 {
      SecondsShape(u / 1_000_000_000, Frac(u, 9));
    }
  }

  lemma SecondsShape(secs: nat, frac: string)
    ensures var r := SecondsDuration(secs, frac); |r| >= 2 && Text.IsDigit(r[0]) && r[|r| - 1] == 's'
  {
  }

  lemma {:induction false} FracDigitsOfMultiple(k: nat, prec: nat)
    ensures FracDigits(k * Pow10(prec), prec) == seq(prec, _ => '0')
  {
    if prec > 0 {
      var v := k * Pow10(prec);
      assert v / 10 == k * Pow10(prec - 1) && v % 10 == 0 by {
        assert v == (k * Pow10(prec - 1)) * 10;
      }
      FracDigitsOfMultiple(k, prec - 1);
    }
  }

  lemma {:induction false} DropZeros(n: nat)
    ensures DropTrailingZeros(seq(n, _ => '0')) == []
  {
    if n > 0 {
      assert seq(n, _ => '0')[..n - 1] == seq(n - 1, _ => '0');
      DropZeros(n - 1);
    }
  }

  lemma {:induction false} DropZerosAfter(s: string, n: nat)
    requires s == [] || s[|s| - 1] != '0'
    ensures DropTrailingZeros(s + seq(n, _ => '0')) == s
  {
    if n > 0 {
      assert (s + seq(n, _ => '0'))[..|s| + n - 1] == s + seq(n - 1, _ => '0');
      DropZerosAfter(s, n - 1);
    }
  }

  /** A negative duration is spelled as its magnitude with a leading "-". */
  lemma NegativeDuration(d: int)
    requires d > 0
    ensures DurationString(-d) == "-" + DurationString(d)
  {
  }

  /** A whole number of nanosecond units has no fraction. */
  lemma FracOfMultiple(k: nat, prec: nat)
    ensures Frac(k * Pow10(prec), prec) == []
  {
    FracDigitsOfMultiple(k, prec);
    DropZeros(prec);
  }

  /** A whole number of seconds below a minute is spelled as that number and "s". */
  lemma WholeSeconds(secs: nat)
    requires 0 < secs < 60
    ensures DurationString(secs * 1_000_000_000) == Text.NatToString(secs) + "s"
  {
    var u := secs * 1_000_000_000;
    assert Pow10(9) == 1_000_000_000;
    FracOfMultiple(secs, 9);
    ScaledSeconds(secs);
    assert UnsignedDuration(u) == SecondsDuration(secs, Frac(u, 9));
    SecondsBelowMinute(secs);
  }

  lemma SecondsBelowMinute(secs: nat)
    requires secs < 60
    ensures SecondsDuration(secs, []) == Text.NatToString(secs) + "s"
  {
    assert secs % 60 == secs;
  }

  /** A whole number of minutes below an hour is spelled "<m>m0s". */
  lemma WholeMinutes(mins: nat)
    requires 0 < mins < 60
    ensures DurationString(mins * 60_000_000_000) == Text.NatToString(mins) + "m0s"
  {
    var secs := mins * 60;
    var u := secs * 1_000_000_000;
    assert u == mins * 60_000_000_000;
    assert Pow10(9) == 1_000_000_000;
    FracOfMultiple(secs, 9);
    ScaledSeconds(secs);
    assert secs / 60 == mins && secs % 60 == 0;
    assert UnsignedDuration(u) == SecondsDuration(secs, Frac(u, 9));
    MinutesBelowHour(mins);
  }

  lemma MinutesBelowHour(mins: nat)
    requires 0 < mins < 60
    ensures SecondsDuration(mins * 60, []) == Text.NatToString(mins) + "m0s"
  {
    ScaledMinutes(mins);
    WholeMinutesText(mins * 60, mins);
  }

  lemma ScaledMinutes(mins: nat)
    requires 0 < mins < 60
    ensures 60 <= mins * 60 < 3600 && (mins * 60) / 60 % 60 == mins && (mins * 60) % 60 == 0
  {
  }

  lemma WholeMinutesText(secs: nat, mins: nat)
    requires 60 <= secs < 3600 && secs / 60 % 60 == mins && secs % 60 == 0
    ensures SecondsDuration(secs, []) == Text.NatToString(mins) + "m0s"
  {
    assert Text.NatToString(0) == "0";
  }

  lemma HalfMillisecondFraction()
    ensures Frac(1_500_000, 6) == ".5"
  {
    assert FracDigits(1_500_000, 6) == "5" + seq(5, _ => '0');
    DropZerosAfter("5", 5);
  }

  /** One and a half milliseconds is spelled "1.5ms". */
  lemma MillisecondAndAHalf()
    ensures DurationString(1_500_000) == "1.5ms"
  {
    HalfMillisecondFraction();
    assert Text.NatToString(1) == "1";
  }

  /** Two microseconds is spelled with the micro sign and no fraction: "2\U{00B5}s". */
  lemma TwoMicroseconds()
    ensures DurationString(2000) == "2\U{00B5}s"
  {
    assert FracDigits(2000, 3) == seq(3, _ => '0');
    DropZeros(3);
    assert Frac(2000, 3) == [];
    assert Text.NatToString(2) == "2";
  }

  class Reporter {
    const agent: Agent
    const clock: Clock
    const runID: string
    const started: int
    const totalBytes: int

    var enabled: bool
    var uploadedBytes: int
    var lastProgressFlush: Option<int>
    var lastCheck: int
    var startPayload: Option<map<string, Json.Value>>
    var startSent: bool
    var parts: map<int, PartTracker>

    ghost var delivered: seq<Event>
    ghost var mark: nat
    ghost var probes: seq<int>

    ghost function StartEvent(): Event
      reads this
      requires startPayload.Some?
    {
      Event(SessionStart, runID, Json.Obj(startPayload.value))
    }

    /** The agent is enabled and no session start is pending: the next event goes straight out. */
    ghost predicate Ready()
      reads this`enabled, this`startPayload, this`startSent
    {
      enabled && (startPayload.None? || startSent)
    }

    /** The time the clock's next reading shows. */
    ghost function NextTime(): int
      reads clock
    {
      clock.time + if clock.ticks == [] then 0 else clock.ticks[0]
    }

    /** The total_progress event for `bytes` uploaded, timed at `now`. */
    function TotalEvent(bytes: int, now: int): Event {
      Event("total_progress", runID, Json.Obj(TotalProgressPayload(bytes, totalBytes, now - started)))
    }

    /** The part_progress event for the part's tracker, timed at `now`. */
    function PartProgressEvent(part: int, tr: PartTracker, now: int): Event {
      Event("part_progress", runID, Json.Obj(map["part" := Json.Num(part), "sent" := Json.Num(tr.sent), "size" := Json.Num(tr.size),
                                                 "percent" := Json.Real(Percent(tr.sent, tr.size)),
                                                 "bps" := Json.Real(Rate(tr.sent, now - tr.started))]))
    }

    /** The session_done event, with the elapsed time already spelled. */
    function DoneEvent(success: bool, uploadID: string, bytes: int, duration: string): Event {
      Event("session_done", runID, Json.Obj(map["success" := Json.Bool(success), "uploadId" := Json.Str(uploadID),
                                                "duration" := Json.Str(duration), "bytes" := Json.Num(bytes),
                                                "total" := Json.Num(totalBytes)]))
    }

    /** The session_done event carries the outcome, the upload id, the byte count and the spelled duration. */
    lemma DoneEventMembers(success: bool, uploadID: string, bytes: int, duration: string)
      ensures var ev := DoneEvent(success, uploadID, bytes, duration);
        && ev.evType == "session_done"
        && Json.Get(ev.payload, "success") == Some(Json.Bool(success))
        && Json.Get(ev.payload, "uploadId") == Some(Json.Str(uploadID))
        && Json.Get(ev.payload, "bytes") == Some(Json.Num(bytes))
        && Json.Get(ev.payload, "duration") == Some(Json.Str(duration))
    {
    }

    ghost predicate Valid()
      reads this`lastCheck, this`probes, this`startPayload, this`startSent, this`delivered, this`mark, this`parts, clock
    {
      // the clock has read at least every time this reporter stored
      && lastCheck <= clock.time
      && ProbesSpaced(probes, lastCheck)
      && Gated(startPayload, startSent, delivered, mark, runID)
      // the per-part counters only ever grow from 0
      && (forall p :: p in parts ==> parts[p].sent >= 0)
    }

    /** newWSReporter: probes the agent once, and sets lastCheck so that the first re-probe is allowed at once. */
    constructor (total: int, runID: string, agent: Agent, clock: Clock)
      modifies agent`probeAnswers, clock
      ensures Valid()
      ensures this.agent == agent && this.clock == clock && this.runID == runID && totalBytes == total
      ensures enabled == (old(agent.probeAnswers) != [] && old(agent.probeAnswers)[0])
      ensures uploadedBytes == 0 && lastProgressFlush.None? && parts == map[]
      ensures startPayload.None? && !startSent
      ensures delivered == [] && probes == []
      ensures clock.time >= old(clock.time)
    {
      var up := agent.IsRunningAt();
      var t0 := clock.Now();
      var t1 := clock.Now();
      this.agent := agent;
      this.clock := clock;
      this.runID := runID;
      started := t0;
      totalBytes := total;
      enabled := up;
      uploadedBytes := 0;
      lastProgressFlush := None;
      lastCheck := t1 - CheckInterval;
      startPayload := None;
      startSent := false;
      parts := map[];
      delivered := [];
      mark := 0;
      probes := [];
    }

    /**
     * ensureAgent: an enabled reporter answers true at once. A disabled one
     * answers false unless CheckInterval has passed since the last check; then
     * it records the check and probes, and is enabled again when the agent is up.
     */
    method EnsureAgent() returns (ok: bool)
      requires Valid()
      modifies this`enabled, this`lastCheck, this`probes, agent`probeAnswers, clock
      ensures Valid()
      ensures ok == enabled
      ensures old(enabled) ==> ok && lastCheck == old(lastCheck) && probes == old(probes)
      ensures old(enabled) ==> unchanged(clock) && agent.probeAnswers == old(agent.probeAnswers)
      ensures probes == old(probes) || probes == old(probes) + [lastCheck]
      ensures probes != old(probes) ==> lastCheck - old(lastCheck) >= CheckInterval
      ensures probes == old(probes) ==> lastCheck == old(lastCheck) && agent.probeAnswers == old(agent.probeAnswers)
      ensures !old(enabled) && probes == old(probes) ==> !ok
      ensures probes != old(probes) ==> ok == (old(agent.probeAnswers) != [] && old(agent.probeAnswers)[0])
      ensures clock.time >= old(clock.time)
    {
      if enabled {
        return true;
      }
      var now := clock.Now();
      if now - lastCheck < CheckInterval {
        return false;
      }
      lastCheck := clock.Now();
      ProbeAppend(probes, old(lastCheck), lastCheck);
      probes := probes + [lastCheck];
      var up := agent.IsRunningAt();
      if up {
        enabled := true;
        return true;
      }
      return false;
    }

    /** handleSendError: a failed delivery disables the reporter and restarts the re-probe wait. */
    method HandleSendError(failed: bool)
      requires Valid()
      modifies this`enabled, this`lastCheck, clock
      ensures Valid()
      ensures !failed ==> enabled == old(enabled) && lastCheck == old(lastCheck) && unchanged(clock)
      ensures failed ==> !enabled && lastCheck == clock.time && lastCheck >= old(lastCheck)
      ensures clock.time >= old(clock.time)
    {
      if !failed {
        return;
      }
      enabled := false;
      lastCheck := clock.Now();
    }

    /**
     * writeEvent: posts one event. Delivery of the session start marks it as
     * sent; a failed delivery goes to HandleSendError. The caller guarantees
     * the gate: the session start is written only while it is pending, and any
     * other event only while it is not.
     */
    method WriteEvent(evType: string, payload: Json.Value) returns (ok: bool)
      requires Valid()
      requires evType == SessionStart ==> startPayload.Some? && !startSent && payload == Json.Obj(startPayload.value)
      requires evType != SessionStart ==> !(startPayload.Some? && !startSent)
      modifies this`enabled, this`lastCheck, this`startSent, this`delivered, agent`postAnswers, agent`received, clock
      ensures Valid()
      ensures ok == (old(agent.postAnswers) != [] && Delivered(old(agent.postAnswers)[0]))
      ensures delivered == old(delivered) + if ok then [Event(evType, runID, payload)] else []
      ensures startSent == (old(startSent) || (ok && evType == SessionStart))
      ensures ok ==> enabled == old(enabled) && lastCheck == old(lastCheck)
      ensures !ok ==> !enabled
      ensures agent.postAnswers == if old(agent.postAnswers) == [] then [] else old(agent.postAnswers)[1..]
      ensures clock.time >= old(clock.time)
    {
      var ev := Event(evType, runID, payload);
      ok := agent.SendEvent(ev);
      if !ok {
        HandleSendError(true);
        return;
      }
      delivered := delivered + [ev];
      if evType == SessionStart {
        startSent := true;
      }
    }

    /** emitStart: writes the pending session start, if there is one and the agent is available. */
    method EmitStart()
      requires Valid()
      modifies this`enabled, this`lastCheck, this`probes, this`startSent, this`delivered, agent, clock
      ensures Valid()
      ensures old(startPayload.None? || startSent) ==> delivered == old(delivered) && startSent == old(startSent)
      ensures delivered == old(delivered) || (old(startPayload.Some? && !startSent) && delivered == old(delivered) + [StartEvent()])
      ensures startSent <==> old(startSent) || delivered != old(delivered)
      ensures Extends(old(delivered), delivered, SessionStart)
      ensures old(startPayload.None? || startSent) ==> enabled == old(enabled) && unchanged(agent)
      ensures old(enabled && startPayload.Some? && !startSent) ==>
                && (delivered != old(delivered) <==> old(agent.postAnswers) != [] && Delivered(old(agent.postAnswers)[0]))
                && enabled == (delivered != old(delivered))
                && agent.postAnswers == if old(agent.postAnswers) == [] then [] else old(agent.postAnswers)[1..]
      ensures clock.time >= old(clock.time)
    {
      if startPayload.None? || startSent {
        return;
      }
      var ok := EnsureAgent();
      if !ok {
        return;
      }
      var _ := WriteEvent(SessionStart, Json.Obj(startPayload.value));
    }

    /**
     * send: nothing while the agent is unavailable; otherwise the pending
     * session start goes first, and the event itself only once no session
     * start is pending.
     */
    method Send(evType: string, payload: Json.Value)
      requires Valid() && evType != SessionStart
      modifies this`enabled, this`lastCheck, this`probes, this`startSent, this`delivered, agent, clock
      ensures Valid()
      ensures Extends(old(delivered), delivered, evType)
      ensures forall i :: |old(delivered)| <= i < |delivered| && delivered[i].evType == evType ==>
                delivered[i] == Event(evType, runID, payload)
      ensures old(Ready()) ==> delivered == old(delivered) + Posted(old(agent.postAnswers), Event(evType, runID, payload))
      ensures old(enabled && startPayload.Some? && !startSent) && |old(agent.postAnswers)| >= 2 &&
              Delivered(old(agent.postAnswers)[0]) && Delivered(old(agent.postAnswers)[1]) ==>
                delivered == old(delivered) + [old(StartEvent()), Event(evType, runID, payload)]
      ensures clock.time >= old(clock.time)
    {
      var ok := EnsureAgent();
      if !ok {
        return;
      }
      EmitStart();
      if !enabled || (startPayload.Some? && !startSent) {
        return;
      }
      var before := delivered;
      var _ := WriteEvent(evType, payload);
      ExtendsTransitive(old(delivered), before, delivered, evType);
    }

    /** start: installs the session start payload, marks it unsent and tries to deliver it. */
    method Start(bucket: string, key: string, uploadID: string, partSizeBytes: int, extra: map<string, Json.Value>)
      requires Valid()
      modifies this, agent, clock
      ensures Valid()
      ensures startPayload == Some(StartPayload(bucket, key, uploadID, partSizeBytes, totalBytes, extra))
      ensures mark == |old(delivered)|
      ensures delivered == old(delivered) || delivered == old(delivered) + [StartEvent()]
      ensures startSent <==> delivered != old(delivered)
      ensures old(enabled) ==> delivered == old(delivered) + Posted(old(agent.postAnswers), StartEvent())
      ensures uploadedBytes == old(uploadedBytes) && parts == old(parts) && lastProgressFlush == old(lastProgressFlush)
      ensures clock.time >= old(clock.time)
    {
      startPayload := Some(StartPayload(bucket, key, uploadID, partSizeBytes, totalBytes, extra));
      startSent := false;
      mark := |delivered|;
      EmitStart();
    }

    /**
     * progressAdd: a positive delta is added to the uploaded bytes whether or
     * not the agent is available; a total_progress event is sent when the last
     * flush is at least TotalFlushInterval old (or there was none).
     */
    method ProgressAdd(delta: int)
      requires Valid()
      modifies this`uploadedBytes, this`lastProgressFlush, this`enabled, this`lastCheck, this`probes, this`startSent, this`delivered, agent, clock
      ensures Valid()
      ensures delta <= 0 ==> unchanged(this) && unchanged(agent) && unchanged(clock)
      ensures uploadedBytes == old(uploadedBytes) + if delta > 0 then delta else 0
      ensures parts == old(parts) && startPayload == old(startPayload)
      ensures TotalsCarry(old(delivered), delivered, uploadedBytes)
      ensures delivered != old(delivered) ==> lastProgressFlush.Some?
      ensures delivered != old(delivered) && old(lastProgressFlush).Some? ==>
                lastProgressFlush.value - old(lastProgressFlush).value >= TotalFlushInterval
      ensures old(enabled) && delta > 0 ==>
                var now := old(NextTime());
                if old(lastProgressFlush).None? || now - old(lastProgressFlush).value >= TotalFlushInterval then
                  && lastProgressFlush == Some(now)
                  && (old(Ready()) ==> delivered == old(delivered) + Posted(old(agent.postAnswers), TotalEvent(uploadedBytes, now)))
                else
                  lastProgressFlush == old(lastProgressFlush) && delivered == old(delivered)
      ensures clock.time >= old(clock.time)
    {
      if delta <= 0 {
        return;
      }
      uploadedBytes := uploadedBytes + delta;
      var ok := EnsureAgent();
      if !ok {
        return;
      }
      FlushTotal();
    }

    /**
     * The throttle of progressAdd: reads the clock and sends total_progress
     * when the last flush is at least TotalFlushInterval old (or there was none).
     */
    method FlushTotal()
      requires Valid()
      modifies this`lastProgressFlush, this`enabled, this`lastCheck, this`probes, this`startSent, this`delivered, agent, clock
      ensures Valid()
      ensures TotalsCarry(old(delivered), delivered, uploadedBytes)
      ensures delivered != old(delivered) ==> lastProgressFlush.Some?
      ensures delivered != old(delivered) && old(lastProgressFlush).Some? ==>
                lastProgressFlush.value - old(lastProgressFlush).value >= TotalFlushInterval
      ensures var now := old(NextTime());
                if old(lastProgressFlush).None? || now - old(lastProgressFlush).value >= TotalFlushInterval then
                  && lastProgressFlush == Some(now)
                  && (old(Ready()) ==> delivered == old(delivered) + Posted(old(agent.postAnswers), TotalEvent(uploadedBytes, now)))
                else
                  lastProgressFlush == old(lastProgressFlush) && delivered == old(delivered)
      ensures clock.time >= old(clock.time)
    {
      var now := clock.Now();
      if lastProgressFlush.None? || now - lastProgressFlush.value >= TotalFlushInterval {
        SendTotal(now);
        lastProgressFlush := Some(now);
      }
    }

    /** Sends a total_progress event with the current byte count, timed at `now`. */
    method SendTotal(now: int)
      requires Valid()
      modifies this`enabled, this`lastCheck, this`probes, this`startSent, this`delivered, agent, clock
      ensures Valid()
      ensures TotalsCarry(old(delivered), delivered, uploadedBytes)
      ensures old(Ready()) ==> delivered == old(delivered) + Posted(old(agent.postAnswers), TotalEvent(uploadedBytes, now))
      ensures clock.time >= old(clock.time)
    {
      TotalProgressBytes(uploadedBytes, totalBytes, now - started);
      Send("total_progress", Json.Obj(TotalProgressPayload(uploadedBytes, totalBytes, now - started)));
    }

    /** Reads the clock and sends a total_progress event with the current byte count. */
    method SendTotalNow()
      requires Valid()
      modifies this`enabled, this`lastCheck, this`probes, this`startSent, this`delivered, agent, clock
      ensures Valid()
      ensures TotalsCarry(old(delivered), delivered, uploadedBytes)
      ensures old(Ready()) ==> delivered == old(delivered) + Posted(old(agent.postAnswers), TotalEvent(uploadedBytes, old(NextTime())))
      ensures clock.time >= old(clock.time)
    {
      var now := clock.Now();
      SendTotal(now);
    }

    /** totalProgressImmediate: overwrites the uploaded bytes and sends a total_progress event without throttling. */
    method TotalProgressImmediate(bytes: int)
      requires Valid()
      modifies this`uploadedBytes, this`lastProgressFlush, this`enabled, this`lastCheck, this`probes, this`startSent, this`delivered, agent, clock
      ensures Valid()
      ensures uploadedBytes == bytes
      ensures parts == old(parts) && startPayload == old(startPayload)
      ensures TotalsCarry(old(delivered), delivered, bytes)
      ensures old(Ready()) ==> delivered == old(delivered) + Posted(old(agent.postAnswers), TotalEvent(bytes, old(NextTime())))
      ensures old(enabled) ==> lastProgressFlush == Some(clock.time)
      ensures clock.time >= old(clock.time)
    {
      uploadedBytes := bytes;
      var ok := EnsureAgent();
      if !ok {
        return;
      }
      SendTotalNow();
      var flushed := clock.Now();
      lastProgressFlush := Some(flushed);
    }

    /** partStart: installs a fresh tracker for the part (replacing any earlier one) and sends part_start. */
    method PartStart(part: int, size: int, offset: int)
      requires Valid()
      modifies this, agent, clock
      ensures Valid()
      ensures part in parts && parts[part].size == size && parts[part].sent == 0 && parts[part].lastFlushAt.None?
      ensures parts == old(parts)[part := parts[part]]
      ensures uploadedBytes == old(uploadedBytes) && startPayload == old(startPayload)
      ensures Extends(old(delivered), delivered, "part_start")
      ensures forall i :: |old(delivered)| <= i < |delivered| && delivered[i].evType == "part_start" ==>
                delivered[i].payload == Json.Obj(map["part" := Json.Num(part), "size" := Json.Num(size), "offset" := Json.Num(offset)])
      ensures parts[part].started == old(NextTime())
      ensures old(Ready()) ==>
                delivered == old(delivered) + Posted(old(agent.postAnswers),
                  Event("part_start", runID, Json.Obj(map["part" := Json.Num(part), "size" := Json.Num(size), "offset" := Json.Num(offset)])))
      ensures clock.time >= old(clock.time)
    {
      var now := clock.Now();
      parts := parts[part := PartTracker(size, 0, now, None)];
      Send("part_start", Json.Obj(map["part" := Json.Num(part), "size" := Json.Num(size), "offset" := Json.Num(offset)]));
    }

    /**
     * partProgressAdd: ignores a non-positive delta and a part without a
     * tracker; otherwise adds the delta to the part's sent bytes and sends
     * part_progress when the part's last flush is PartFlushInterval old (or none).
     */
    method PartProgressAdd(part: int, delta: int)
      requires Valid()
      modifies this, agent, clock
      ensures Valid()
      ensures delta <= 0 || part !in old(parts) ==> unchanged(this) && unchanged(agent) && unchanged(clock)
      ensures parts.Keys == old(parts).Keys
      ensures forall p :: p in parts && p != part ==> parts[p] == old(parts)[p]
      ensures delta > 0 && part in old(parts) ==>
                parts[part].sent == old(parts)[part].sent + delta
                && parts[part].size == old(parts)[part].size && parts[part].started == old(parts)[part].started
      ensures uploadedBytes == old(uploadedBytes) && startPayload == old(startPayload)
      ensures Extends(old(delivered), delivered, "part_progress")
      ensures delta > 0 && part in old(parts) ==>
                var tr := old(parts)[part].(sent := old(parts)[part].sent + delta);
                var now := old(NextTime());
                if tr.lastFlushAt.None? || now - tr.lastFlushAt.value >= PartFlushInterval then
                  && parts[part] == tr.(lastFlushAt := Some(now))
                  && (old(Ready()) ==> delivered == old(delivered) + Posted(old(agent.postAnswers), PartProgressEvent(part, tr, now)))
                else
                  parts[part] == tr && delivered == old(delivered)
      ensures clock.time >= old(clock.time)
    {
      if delta <= 0 || part !in parts {
        return;
      }
      var tr := parts[part];
      tr := tr.(sent := tr.sent + delta);
      parts := parts[part := tr];
      var now := clock.Now();
      if tr.lastFlushAt.None? || now - tr.lastFlushAt.value >= PartFlushInterval {
        var ev := PartProgressEvent(part, tr, now);
        Send(ev.evType, ev.payload);
        parts := parts[part := tr.(lastFlushAt := Some(now))];
      }
    }

    /** partDone: sends part_done and drops the part's tracker. */
    method PartDone(part: int, size: int, eTag: string)
      requires Valid()
      modifies this, agent, clock
      ensures Valid()
      ensures parts == old(parts) - {part}
      ensures uploadedBytes == old(uploadedBytes) && startPayload == old(startPayload)
      ensures Extends(old(delivered), delivered, "part_done")
      ensures forall i :: |old(delivered)| <= i < |delivered| && delivered[i].evType == "part_done" ==>
                delivered[i].payload == Json.Obj(map["part" := Json.Num(part), "size" := Json.Num(size), "etag" := Json.Str(eTag)])
      ensures old(Ready()) ==>
                delivered == old(delivered) + Posted(old(agent.postAnswers),
                  Event("part_done", runID, Json.Obj(map["part" := Json.Num(part), "size" := Json.Num(size), "etag" := Json.Str(eTag)])))
      ensures clock.time >= old(clock.time)
    {
      Send("part_done", Json.Obj(map["part" := Json.Num(part), "size" := Json.Num(size), "etag" := Json.Str(eTag)]));
      parts := parts - {part};
    }

    /** error: sends an error event, naming the part when there is one. */
    method Error(msg: string, partNum: Option<int>)
      requires Valid()
      modifies this`enabled, this`lastCheck, this`probes, this`startSent, this`delivered, agent, clock
      ensures Valid()
      ensures parts == old(parts) && uploadedBytes == old(uploadedBytes) && startPayload == old(startPayload)
      ensures Extends(old(delivered), delivered, "error")
      ensures forall i :: |old(delivered)| <= i < |delivered| && delivered[i].evType == "error" ==>
                delivered[i].payload == Json.Obj(ErrorPayload(msg, partNum))
      ensures old(Ready()) ==>
                delivered == old(delivered) + Posted(old(agent.postAnswers), Event("error", runID, Json.Obj(ErrorPayload(msg, partNum))))
      ensures clock.time >= old(clock.time)
    {
      Send("error", Json.Obj(ErrorPayload(msg, partNum)));
    }

    /**
     * done: sends session_done with the outcome, the upload id, the elapsed
     * time as Duration.String spells it, and the byte counts.
     */
    method Done(success: bool, uploadID: string)
      requires Valid()
      modifies this`enabled, this`lastCheck, this`probes, this`startSent, this`delivered, agent, clock
      ensures Valid()
      ensures parts == old(parts) && uploadedBytes == old(uploadedBytes) && startPayload == old(startPayload)
      ensures Extends(old(delivered), delivered, "session_done")
      ensures forall i :: |old(delivered)| <= i < |delivered| && delivered[i].evType == "session_done" ==>
                Json.Get(delivered[i].payload, "success") == Some(Json.Bool(success))
                && Json.Get(delivered[i].payload, "uploadId") == Some(Json.Str(uploadID))
                && Json.Get(delivered[i].payload, "bytes") == Some(Json.Num(uploadedBytes))
                && Json.Get(delivered[i].payload, "duration") == Some(Json.Str(DurationString(old(NextTime()) - started)))
      ensures old(Ready()) ==>
                delivered == old(delivered) + Posted(old(agent.postAnswers), DoneEvent(success, uploadID, uploadedBytes, DurationString(old(NextTime()) - started)))
      ensures clock.time >= old(clock.time)
    {
      var now := clock.Now();
      var ev := DoneEvent(success, uploadID, uploadedBytes, DurationString(now - started));
      DoneEventMembers(success, uploadID, uploadedBytes, DurationString(now - started));
      Send(ev.evType, ev.payload);
    }
  }
}
