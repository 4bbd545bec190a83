/**
 * WSTracker: an UploadStatus that also tells the local agent about each
 * completed part and each save of the status file. Event delivery never
 * affects the status itself: the status is updated first, and a failed
 * delivery only disables the tracker until the next probe, CheckInterval later.
 */
module WsTracker {
  import opened Wrappers
  import Json
  import opened WsAgent
  import Tracker

  const CheckInterval: int := 2_000_000_000

  /** The tracker_save payload: the status file, and how many of the parts are recorded. */
  function SavePayload(key: string, statusFile: string, partsDone: int, totalParts: int): (p: map<string, Json.Value>)
    ensures p.Keys == {"key", "statusFile", "partsDone", "totalParts"}
    ensures p["partsDone"] == Json.Num(partsDone) && p["totalParts"] == Json.Num(totalParts)
  {
    map["key" := Json.Str(key), "statusFile" := Json.Str(statusFile),
        "partsDone" := Json.Num(partsDone), "totalParts" := Json.Num(totalParts)]
  }

  class WSTracker {
    const status: Tracker.UploadStatus
    const agent: Agent
    const clock: Clock
    const runID: string
    var wsEnabled: bool
    var lastCheck: int
    /** The events this tracker handed to the agent, in order. */
    ghost var delivered: seq<Event>

    ghost predicate Valid()
      reads this, clock
    {
      lastCheck <= clock.time
    }

    /** NewWSTracker: the run id is the upload id; the agent is probed once. */
    constructor (us: Tracker.UploadStatus, agent: Agent, clock: Clock)
      modifies agent`probeAnswers, clock
      ensures Valid()
      ensures status == us && this.agent == agent && this.clock == clock
      ensures runID == us.uploadID
      ensures wsEnabled == (old(agent.probeAnswers) != [] && old(agent.probeAnswers)[0])
      ensures delivered == []
      ensures clock.time >= old(clock.time)
    {
      var up := agent.IsRunningAt();
      var now := clock.Now();
      status := us;
      this.agent := agent;
      this.clock := clock;
      runID := us.uploadID;
      wsEnabled := up;
      lastCheck := now - CheckInterval;
      delivered := [];
    }

    /**
     * ensureAgent: true at once when enabled; when disabled and the last
     * check is less than CheckInterval old, false without probing; otherwise
     * the check time is refreshed and the probe's answer decides.
     */
    method EnsureAgent() returns (ok: bool)
      requires Valid()
      modifies this`wsEnabled, this`lastCheck, agent`probeAnswers, clock
      ensures Valid()
      ensures ok == wsEnabled
      ensures old(wsEnabled) ==> ok && lastCheck == old(lastCheck) && unchanged(clock) && unchanged(agent)
      ensures !old(wsEnabled) && lastCheck == old(lastCheck) ==> !ok && unchanged(agent)
      ensures lastCheck != old(lastCheck) ==> lastCheck - old(lastCheck) >= CheckInterval
      ensures lastCheck != old(lastCheck) ==> ok == (old(agent.probeAnswers) != [] && old(agent.probeAnswers)[0])
      ensures clock.time >= old(clock.time)
    {
      if wsEnabled {
        return true;
      }
      var now := clock.Now();
      if now - lastCheck < CheckInterval {
        return false;
      }
      lastCheck := clock.Now();
      var up := agent.IsRunningAt();
      if up {
        wsEnabled := true;
        return true;
      }
      return false;
    }

    /** handleSendError: no error changes nothing; an error disables the tracker and refreshes the check time. */
    method HandleSendError(failed: bool)
      requires Valid()
      modifies this`wsEnabled, this`lastCheck, clock
      ensures Valid()
      ensures !failed ==> wsEnabled == old(wsEnabled) && lastCheck == old(lastCheck) && unchanged(clock)
      ensures failed ==> !wsEnabled && lastCheck == clock.time && lastCheck >= old(lastCheck)
      ensures clock.time >= old(clock.time)
    {
      if !failed {
        return;
      }
      wsEnabled := false;
      lastCheck := clock.Now();
    }

    /** Posts one event and passes the outcome to HandleSendError. */
    method Post(evType: string, payload: Json.Value)
      requires Valid()
      modifies this`wsEnabled, this`lastCheck, this`delivered, agent`postAnswers, agent`received, clock
      ensures Valid()
      ensures delivered == old(delivered) || delivered == old(delivered) + [Event(evType, runID, payload)]
      ensures delivered == old(delivered) ==> !wsEnabled
      ensures delivered != old(delivered) ==> wsEnabled == old(wsEnabled)
      ensures delivered == old(delivered) + Posted(old(agent.postAnswers), Event(evType, runID, payload))
      ensures clock.time >= old(clock.time)
    {
      var ev := Event(evType, runID, payload);
      var ok := agent.SendEvent(ev);
      HandleSendError(!ok);
      if ok {
        delivered := delivered + [ev];
      }
    }

    /**
     * AddCompletedPart: records the part in the status first, whatever happens
     * to the event; then reports tracker_part_done if the agent is available.
     */
    method AddCompletedPart(partNumber: int, eTag: string)
      requires Valid()
      modifies status`completedParts, this`wsEnabled, this`lastCheck, this`delivered, agent, clock
      ensures Valid()
      ensures status.completedParts == old(status.completedParts)[partNumber := eTag]
      ensures delivered == old(delivered) ||
              delivered == old(delivered) + [Event("tracker_part_done", runID,
                Json.Obj(map["key" := Json.Str(status.key), "part" := Json.Num(partNumber), "etag" := Json.Str(eTag)]))]
      ensures old(wsEnabled) ==>
                delivered == old(delivered) + Posted(old(agent.postAnswers), Event("tracker_part_done", runID,
                  Json.Obj(map["key" := Json.Str(status.key), "part" := Json.Num(partNumber), "etag" := Json.Str(eTag)])))
      ensures clock.time >= old(clock.time)
    {
      status.AddCompletedPart(partNumber, eTag);
      var ok := EnsureAgent();
      if ok {
        Post("tracker_part_done", Json.Obj(map["key" := Json.Str(status.key), "part" := Json.Num(partNumber), "etag" := Json.Str(eTag)]));
      }
    }

    /**
     * SaveStatus: a failed save is returned as it is and reports nothing;
     * after a successful save, tracker_save is reported if the agent is
     * available, and the save counts as successful whatever the delivery.
     */
    method SaveStatus(disk: Tracker.StatusFiles, path: string, writeOk: bool) returns (ok: bool)
      requires Valid()
      modifies disk, this`wsEnabled, this`lastCheck, this`delivered, agent, clock
      ensures Valid()
      ensures ok == writeOk
      ensures ok ==> disk.files == old(disk.files)[path := Tracker.Encode(status.Record())]
      ensures !ok ==> disk.files == old(disk.files) && delivered == old(delivered)
      ensures !ok ==> unchanged(this) && unchanged(agent) && unchanged(clock)
      ensures delivered == old(delivered) ||
              delivered == old(delivered) + [Event("tracker_save", runID,
                Json.Obj(SavePayload(status.key, path, |status.completedParts|, status.totalParts)))]
      ensures ok && old(wsEnabled) ==>
                delivered == old(delivered) + Posted(old(agent.postAnswers), Event("tracker_save", runID,
                  Json.Obj(SavePayload(status.key, path, |status.completedParts|, status.totalParts))))
      ensures clock.time >= old(clock.time)
    {
      ok := status.SaveStatus(disk, path, writeOk);
      if !ok {
        return;
      }
      var up := EnsureAgent();
      if up {
        Post("tracker_save", Json.Obj(SavePayload(status.key, path, |status.completedParts|, status.totalParts)));
      }
    }
  }
}
