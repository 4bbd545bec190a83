/**
 * The CLI side of the local event agent: the event envelope, the POST that
 * hands one event to the agent, the health probe, and the clock the reporters
 * read. The agent's answers are not computed here: an `Agent` holds the answers
 * it will give, in order, and a `Clock` the amounts by which time advances
 * between two readings.
 */
module WsAgent {
  import opened Wrappers
  import Json

  /** The address the agent listens on unless told otherwise. */
  const DefaultAddress: string := "127.0.0.1:7777"

  /** The envelope of one event; the timestamp is not modelled. */
  datatype Event = Event(evType: string, runID: string, payload: Json.Value)

  /**
   * The JSON object an event is marshalled to, under its struct tags "type",
   * "runId", "ts" and "payload"; the time stamp's text is the parameter ts.
   * The members are found under exactly those lower-case names.
   */
  function Marshal(ev: Event, ts: Json.Value): (v: Json.Value)
    ensures v.Obj? && v.fields.Keys == {"type", "runId", "ts", "payload"}
    ensures Json.Get(v, "type") == Some(Json.Str(ev.evType)) && Json.Get(v, "runId") == Some(Json.Str(ev.runID))
    ensures Json.Get(v, "payload") == Some(ev.payload)
  {
    Json.Obj(map["type" := Json.Str(ev.evType), "runId" := Json.Str(ev.runID), "ts" := ts, "payload" := ev.payload])
  }

  /**
   * SendEvent's verdict on the agent's answer: None is a failed POST (the
   * agent did not answer); otherwise the HTTP status, which must be 2xx.
   */
  function Delivered(status: Option<int>): (ok: bool)
    ensures ok <==> status.Some? && 200 <= status.value <= 299
  {
    status.Some? && status.value / 100 == 2
  }

  /**
   * What one POST of `ev` hands to the agent when its next answers are
   * `answers`: the event when the first answer is 2xx, nothing otherwise.
   */
  function Posted(answers: seq<Option<int>>, ev: Event): (r: seq<Event>)
    ensures r == [ev] <==> answers != [] && Delivered(answers[0])
    ensures r != [ev] ==> r == []
  {
    if answers != [] && Delivered(answers[0]) then [ev] else []
  }

  /** The local agent, as a sequence of answers to probes and to posted events. */
  class Agent {
    /** What the next IsRunningAt calls answer; once exhausted, the agent is down. */
    var probeAnswers: seq<bool>
    /** How the next SendEvent POSTs end; once exhausted, the agent is unreachable. */
    var postAnswers: seq<Option<int>>
    /** Every event the agent accepted, in order. */
    ghost var received: seq<Event>

    constructor (probeAnswers: seq<bool>, postAnswers: seq<Option<int>>)
      ensures this.probeAnswers == probeAnswers && this.postAnswers == postAnswers
      ensures received == []
    {
      this.probeAnswers := probeAnswers;
      this.postAnswers := postAnswers;
      received := [];
    }

    /** IsRunningAt: the TCP and /healthz probe. */
    method IsRunningAt() returns (up: bool)
      modifies this`probeAnswers
      ensures up == (old(probeAnswers) != [] && old(probeAnswers)[0])
      ensures probeAnswers == if old(probeAnswers) == [] then [] else old(probeAnswers)[1..]
    {
      if probeAnswers == [] {
        return false;
      }
      up := probeAnswers[0];
      probeAnswers := probeAnswers[1..];
    }

    /** SendEvent: POSTs the event; success only on a 2xx answer, which is when the agent keeps it. */
    method SendEvent(ev: Event) returns (ok: bool)
      modifies this`postAnswers, this`received
      ensures ok == (old(postAnswers) != [] && Delivered(old(postAnswers)[0]))
      ensures postAnswers == if old(postAnswers) == [] then [] else old(postAnswers)[1..]
      ensures received == old(received) + Posted(old(postAnswers), ev)
    {
      if postAnswers == [] {
        return false;
      }
      ok := Delivered(postAnswers[0]);
      postAnswers := postAnswers[1..];
      if ok {
        received := received + [ev];
      }
    }
  }

  /** The wall clock in nanoseconds; it never goes backwards. */
  class Clock {
    var time: int
    /** How far time has moved at each of the next readings; once exhausted, it stands still. */
    var ticks: seq<nat>

    constructor (start: int, ticks: seq<nat>)
      ensures time == start && this.ticks == ticks
    {
      time := start;
      this.ticks := ticks;
    }

    /** time.Now(). */
    method Now() returns (t: int)
      modifies this
      ensures t == time
      ensures time == old(time) + if old(ticks) == [] then 0 else old(ticks)[0]
      ensures ticks == if old(ticks) == [] then [] else old(ticks)[1..]
    {
      if ticks != [] {
        time := time + ticks[0];
        ticks := ticks[1..];
      }
      t := time;
    }
  }
}
