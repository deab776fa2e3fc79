/** The Picamera2 object as the programs drive it: opened, stopped, configured
    for preview or for stills, started, asked to capture a file or an array,
    and closed. Only the order of these calls matters here: the object keeps
    the configuration in effect and whether streaming was started since, and
    a trace of the calls that succeeded. A call that raises changes nothing. */
module CameraModel {
  import opened Text

  /** `preview_config` (800x600) and `still_config` (2304x1296). */
  datatype Config = Preview | Still

  datatype Event = Open | Stop | Configure(config: Config) | Start | CaptureFile(path: string) | CaptureArray | Close

  /** The configuration applied last, and whether `start` followed it. */
  datatype CamState = CamState(config: Option<Config>, streaming: bool)

  const Fresh := CamState(None, false)

  /** The effect of one successful call. */
  function Step(s: CamState, e: Event): CamState {
    match e
    case Open => Fresh
    case Stop => CamState(s.config, false)
    case Configure(c) => CamState(Some(c), false)
    case Start => CamState(s.config, true)
    case CaptureFile(_) => s
    case CaptureArray => s
    case Close => Fresh
  }

  /** The state after `events`, starting from `s`. */
  function Run(s: CamState, events: seq<Event>): CamState {
    if |events| == 0 then s else Step(Run(s, events[..|events| - 1]), events[|events| - 1])
  }

  /** Capturing in `c` means `c` is applied and streaming. */
  predicate Ready(s: CamState, c: Config) {
    s.config == Some(c) && s.streaming
  }

  /** Every capture in `events`, run from `s`, happens in the configuration it
      needs: files in the still configuration, arrays in the preview one. */
  predicate WellModed(s: CamState, events: seq<Event>) {
    forall i :: 0 <= i < |events| ==>
      (events[i].CaptureFile? ==> Ready(Run(s, events[..i]), Still)) &&
      (events[i].CaptureArray? ==> Ready(Run(s, events[..i]), Preview))
  }

  /** Every `configure` in `events`, run from `s`, finds the camera stopped,
      as Picamera2 requires of a configuration change. */
  predicate ConfiguresStopped(s: CamState, events: seq<Event>) {
    forall i :: 0 <= i < |events| ==> events[i].Configure? ==> !Run(s, events[..i]).streaming
  }

  /** A lock body whose every prefix is well-moded from any state: it sets up
      the configuration it captures in itself, so it stays correct whatever ran
      before it and wherever a failing call cuts it short. */
  ghost predicate SelfConfiguring(body: seq<Event>) {
    forall s: CamState, k: nat :: k <= |body| ==> WellModed(s, body[..k])
  }

  lemma {:induction false} RunAppend(s: CamState, a: seq<Event>, b: seq<Event>)
    ensures Run(s, a + b) == Run(Run(s, a), b)
    decreases |b|
  {
    if |b| == 0 {
      assert a + b == a;
    } else {
      assert (a + b)[..|a + b| - 1] == a + b[..|b| - 1];
      RunAppend(s, a, b[..|b| - 1]);
    }
  }

  /** Well-modedness composes along a trace. */
  lemma WellModedAppend(s: CamState, a: seq<Event>, b: seq<Event>)
    requires WellModed(s, a) && WellModed(Run(s, a), b)
    ensures WellModed(s, a + b)
  {
    forall i | 0 <= i < |a + b|
      ensures ((a + b)[i].CaptureFile? ==> Ready(Run(s, (a + b)[..i]), Still)) &&
              ((a + b)[i].CaptureArray? ==> Ready(Run(s, (a + b)[..i]), Preview))
    {
      if i < |a| {
        assert (a + b)[..i] == a[..i];
      } else {
        assert (a + b)[..i] == a + b[..i - |a|];
        RunAppend(s, a, b[..i - |a|]);
        assert (a + b)[i] == b[i - |a|];
      }
    }
  }

  /** One atomic lock body after another, each possibly cut short by a failing
      call: `Interleave(bodies, cuts)` is the trace the camera sees. */
  function Interleave(bodies: seq<seq<Event>>, cuts: seq<nat>): seq<Event>
    requires |cuts| == |bodies|
  {
    if |bodies| == 0 then []
    else
      Interleave(bodies[..|bodies| - 1], cuts[..|cuts| - 1]) +
      Cut(bodies[|bodies| - 1], cuts[|cuts| - 1])
  }

  /** A thread that runs the same lock body once per iteration, iteration `i`
      failing at `failAts[i]`. */
  function Repeated(body: seq<Event>, failAts: seq<nat>): seq<Event> {
    if |failAts| == 0 then [] else Repeated(body, failAts[..|failAts| - 1]) + Cut(body, failAts[|failAts| - 1])
  }

  /** Such a thread on its own is the interleaving of copies of its body. */
  lemma {:induction false} RepeatedIsInterleave(body: seq<Event>, failAts: seq<nat>)
    ensures Repeated(body, failAts) == Interleave(seq(|failAts|, _ => body), failAts)
  {
    if |failAts| > 0 {
      var front := failAts[..|failAts| - 1];
      var bodies := seq(|failAts|, _ => body);
      assert bodies[..|bodies| - 1] == seq(|front|, _ => body);
      RepeatedIsInterleave(body, front);
    }
  }

  /** A repeated self-configuring body captures only in the configuration it
      needs, from any state. */
  lemma RepeatedWellModed(s: CamState, body: seq<Event>, failAts: seq<nat>)
    requires SelfConfiguring(body)
    ensures WellModed(s, Repeated(body, failAts))
  {
    RepeatedIsInterleave(body, failAts);
    InterleaveWellModed(s, seq(|failAts|, _ => body), failAts);
  }

  /** The calls of `body` that run when its call number `failAt` raises. */
  function Cut(body: seq<Event>, failAt: nat): (r: seq<Event>)
    ensures |r| == if failAt < |body| then failAt else |body|
    ensures r == body[..|r|]
  {
    if failAt < |body| then body[..failAt] else body
  }

  /** How many of the blocks, each failing at its call number in `failAts`,
      got through their first `k` calls. */
  function Reached(failAts: seq<nat>, k: nat): (r: nat)
    ensures r <= |failAts|
  {
    if |failAts| == 0 then 0
    else Reached(failAts[..|failAts| - 1], k) + (if failAts[|failAts| - 1] >= k then 1 else 0)
  }

  /** Whatever order the threads take the lock in, and wherever their bodies
      fail, every capture runs in the configuration it needs, as long as each
      body sets up its own configuration. */
  lemma {:induction false} InterleaveWellModed(s: CamState, bodies: seq<seq<Event>>, cuts: seq<nat>)
    requires |cuts| == |bodies|
    requires forall j :: 0 <= j < |bodies| ==> SelfConfiguring(bodies[j])
    ensures WellModed(s, Interleave(bodies, cuts))
  {
    if |bodies| > 0 {
      var front := Interleave(bodies[..|bodies| - 1], cuts[..|cuts| - 1]);
      var last := bodies[|bodies| - 1];
      var cut := Cut(last, cuts[|cuts| - 1]);
      InterleaveWellModed(s, bodies[..|bodies| - 1], cuts[..|cuts| - 1]);
      assert SelfConfiguring(last);
      assert WellModed(Run(s, front), last[..|cut|]);
      WellModedAppend(s, front, cut);
    }
  }

  /** The camera object. Only the trace of the calls that went through is
      kept: the state it is in is `Run(Fresh, events)`. */
  class Camera {
    var events: seq<Event>

    /** `Picamera2()`. */
    constructor ()
      ensures events == [Open]
    {
      events := [Open];
    }

    /** One call to the device; `ok` is false where it raises, and then
        nothing changes. */
    method Call(e: Event, ok: bool)
      modifies this
      ensures events == if ok then old(events) + [e] else old(events)
    {
      if ok {
        events := events + [e];
      }
    }
  }
}
