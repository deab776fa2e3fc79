/** The two camera threads of app_3.py. `capture_timelapse` and
    `generate_preview` each take `camera_lock` around one block of camera
    calls; each block is one atomic step here. In either block a call may
    raise: the rest of the block is skipped and the `except` clause prints
    the error. `failAt` names the block's first call that raises (a value
    past the last call means none does). Sleeping is recorded as the pause, in
    milliseconds, that follows an iteration (0 where there is none). */
module App3Threads {
  import opened Text
  import opened CameraModel
  import opened PhotoNames
  import opened Multipart

  /** The calls of the `capture_timelapse` block: stop, still configuration,
      start, capture to `path`. */
  function StillBody(path: string): seq<Event> {
    [Stop, Configure(Still), Start, CaptureFile(path)]
  }

  /** The calls of the `generate_preview` block: stop, preview
      configuration, start, capture an array. */
  function PreviewBody(): seq<Event> {
    [Stop, Configure(Preview), Start, CaptureArray]
  }

  /** `f"{output_dir}/{get_filename()}"` for counter value `k`. */
  function PhotoPath(dir: string, k: nat): string {
    dir + "/" + ImgName(k)
  }

  /** The camera calls of `capture_timelapse`'s iterations, the counter
      starting at `n`. */
  function CaptureRun(dir: string, n: nat, failAts: seq<nat>): seq<Event> {
    if |failAts| == 0 then []
    else
      var front := failAts[..|failAts| - 1];
      CaptureRun(dir, n, front) + Cut(StillBody(PhotoPath(dir, n + Reached(front, 3) + 1)), failAts[|failAts| - 1])
  }

  /** The pause after a `capture_timelapse` iteration: `interval` seconds
      after a capture, none after an exception. */
  function CapturePause(interval: nat, failAt: nat): nat {
    if failAt >= 4 then 1000 * interval else 0
  }

  function CapturePauses(interval: nat, failAts: seq<nat>): (r: seq<nat>)
    ensures |r| == |failAts|
  {
    if |failAts| == 0 then []
    else CapturePauses(interval, failAts[..|failAts| - 1]) + [CapturePause(interval, failAts[|failAts| - 1])]
  }

  /** The camera calls of `generate_preview`'s iterations. */
  function PreviewRun(failAts: seq<nat>): seq<Event> {
    Repeated(PreviewBody(), failAts)
  }

  /** The chunks yielded: one per iteration whose capture succeeded, in order. */
  function Yielded(frames: seq<seq<bv8>>, failAts: seq<nat>): (r: seq<seq<bv8>>)
    requires |frames| == |failAts|
    ensures |r| <= |frames|
  {
    if |frames| == 0 then []
    else
      Yielded(frames[..|frames| - 1], failAts[..|failAts| - 1]) +
      (if failAts[|failAts| - 1] >= 4 then [Chunk(frames[|frames| - 1])] else [])
  }

  /** The pause after a `generate_preview` iteration: 0.1 s after a frame,
      none after an exception. */
  function PreviewPause(failAt: nat): nat {
    if failAt >= 4 then 100 else 0
  }

  function PreviewPauses(failAts: seq<nat>): (r: seq<nat>)
    ensures |r| == |failAts|
  {
    if |failAts| == 0 then []
    else PreviewPauses(failAts[..|failAts| - 1]) + [PreviewPause(failAts[|failAts| - 1])]
  }

  /** One pass through the `capture_timelapse` loop: `ok` is false where the
      block raised. The counter moves only once the camera has started. */
  method CaptureStep(cam: Camera, counter: PhotoCounter, dir: string, failAt: nat) returns (ok: bool)
    modifies cam, counter
    ensures counter.photoCounter == old(counter.photoCounter) + (if failAt >= 3 then 1 else 0)
    ensures cam.events == old(cam.events) + Cut(StillBody(PhotoPath(dir, old(counter.photoCounter) + 1)), failAt)
    ensures ok == (failAt >= 4)
  {
    ghost var path := PhotoPath(dir, counter.photoCounter + 1);
    cam.Call(Stop, failAt > 0);
    if failAt == 0 {
      return false;
    }
    cam.Call(Configure(Still), failAt > 1);
    if failAt == 1 {
      return false;
    }
    cam.Call(Start, failAt > 2);
    if failAt == 2 {
      return false;
    }
    var name := counter.GetFilename();
    var filename := dir + "/" + name;
    assert filename == path;
    cam.Call(CaptureFile(filename), failAt > 3);
    ok := failAt > 3;
  }

  /** `capture_timelapse(dir, interval)` for as many iterations as
      `failAts` has. */
  method CaptureTimelapse(cam: Camera, counter: PhotoCounter, dir: string, interval: nat, failAts: seq<nat>)
    returns (pauses: seq<nat>)
    modifies cam, counter
    ensures counter.photoCounter == old(counter.photoCounter) + Reached(failAts, 3)
    ensures cam.events == old(cam.events) + CaptureRun(dir, old(counter.photoCounter), failAts)
    ensures pauses == CapturePauses(interval, failAts)
  {
    ghost var n := counter.photoCounter;
    pauses := [];
    for i := 0 to |failAts|
      invariant counter.photoCounter == n + Reached(failAts[..i], 3)
      invariant cam.events == old(cam.events) + CaptureRun(dir, n, failAts[..i])
      invariant pauses == CapturePauses(interval, failAts[..i])
    {
      ghost var run := CaptureRun(dir, n, failAts[..i]);
      ghost var cut := Cut(StillBody(PhotoPath(dir, counter.photoCounter + 1)), failAts[i]);
      var ok := CaptureStep(cam, counter, dir, failAts[i]);
      var pause := if ok then 1000 * interval else 0;
      pauses := pauses + [pause];
      assert pause == CapturePause(interval, failAts[i]);
      assert cam.events == old(cam.events) + CaptureRun(dir, n, failAts[..i + 1]) by {
        CaptureSnoc(dir, n, interval, failAts, i);
        Assoc(old(cam.events), run, cut);
      }
      CaptureSnoc(dir, n, interval, failAts, i);
    }
    assert failAts[..|failAts|] == failAts;
  }

  /** One pass through the `generate_preview` loop: the chunk yielded, if the
      block got that far. `frame` is the JPEG encoding of the captured array. */
  method PreviewStep(cam: Camera, frame: seq<bv8>, failAt: nat) returns (chunk: Option<seq<bv8>>)
    modifies cam
    ensures cam.events == old(cam.events) + Cut(PreviewBody(), failAt)
    ensures chunk == if failAt >= 4 then Some(Chunk(frame)) else None
  {
    cam.Call(Stop, failAt > 0);
    if failAt == 0 {
      return None;
    }
    cam.Call(Configure(Preview), failAt > 1);
    if failAt == 1 {
      return None;
    }
    cam.Call(Start, failAt > 2);
    if failAt == 2 {
      return None;
    }
    cam.Call(CaptureArray, failAt > 3);
    if failAt == 3 {
      return None;
    }
    chunk := Some(FramePrefix() + frame + Crlf());
  }

  /** `generate_preview` for as many iterations as `failAts` has, `frames`
      holding the encoding of each iteration's array. */
  method GeneratePreview(cam: Camera, frames: seq<seq<bv8>>, failAts: seq<nat>)
    returns (chunks: seq<seq<bv8>>, pauses: seq<nat>)
    requires |frames| == |failAts|
    modifies cam
    ensures cam.events == old(cam.events) + PreviewRun(failAts)
    ensures chunks == Yielded(frames, failAts)
    ensures pauses == PreviewPauses(failAts)
  {
    chunks, pauses := [], [];
    for i := 0 to |failAts|
      invariant cam.events == old(cam.events) + PreviewRun(failAts[..i])
      invariant chunks == Yielded(frames[..i], failAts[..i])
      invariant pauses == PreviewPauses(failAts[..i])
    {
      ghost var run := PreviewRun(failAts[..i]);
      var chunk := PreviewStep(cam, frames[i], failAts[i]);
      assert cam.events == old(cam.events) + PreviewRun(failAts[..i + 1]) by {
        PreviewSnoc(frames, failAts, i);
        Assoc(old(cam.events), run, Cut(PreviewBody(), failAts[i]));
      }
      PreviewSnoc(frames, failAts, i);
      if chunk.Some? {
        chunks := chunks + [chunk.value];
        pauses := pauses + [100];
      } else {
        pauses := pauses + [0];
      }
    }
    assert failAts[..|failAts|] == failAts;
    assert frames[..|frames|] == frames;
  }

  /** One more `capture_timelapse` iteration extends the run by its block. */
  lemma CaptureSnoc(dir: string, n: nat, interval: nat, failAts: seq<nat>, i: nat)
    requires i < |failAts|
    ensures Reached(failAts[..i + 1], 3) == Reached(failAts[..i], 3) + (if failAts[i] >= 3 then 1 else 0)
    ensures CaptureRun(dir, n, failAts[..i + 1]) ==
            CaptureRun(dir, n, failAts[..i]) + Cut(StillBody(PhotoPath(dir, n + Reached(failAts[..i], 3) + 1)), failAts[i])
    ensures CapturePauses(interval, failAts[..i + 1]) ==
            CapturePauses(interval, failAts[..i]) + [CapturePause(interval, failAts[i])]
  {
    assert failAts[..i + 1][..i] == failAts[..i];
  }

  /** One more `generate_preview` iteration extends the run by its block. */
  lemma PreviewSnoc(frames: seq<seq<bv8>>, failAts: seq<nat>, i: nat)
    requires |frames| == |failAts| && i < |failAts|
    ensures PreviewRun(failAts[..i + 1]) == PreviewRun(failAts[..i]) + Cut(PreviewBody(), failAts[i])
    ensures Yielded(frames[..i + 1], failAts[..i + 1]) ==
            Yielded(frames[..i], failAts[..i]) + (if failAts[i] >= 4 then [Chunk(frames[i])] else [])
    ensures PreviewPauses(failAts[..i + 1]) == PreviewPauses(failAts[..i]) + [PreviewPause(failAts[i])]
  {
    assert failAts[..i + 1][..i] == failAts[..i];
    assert frames[..i + 1][..i] == frames[..i];
  }

  // ---------------------------------------------------------------------
  // Properties

  /** The capture block captures in the still configuration, freshly started,
      whatever state it finds the camera in and wherever it stops. */
  lemma StillBodySelfConfiguring(path: string)
    ensures SelfConfiguring(StillBody(path))
  {
    var b := StillBody(path);
    forall s: CamState, k: nat | k <= |b| ensures WellModed(s, b[..k]) {
      var p := b[..k];
      forall i | 0 <= i < |p| ensures p[i].CaptureFile? ==> Ready(Run(s, p[..i]), Still) {
        if i == 3 {
          assert p[..i] == [Stop, Configure(Still), Start];
          RunSetup(s, Still);
        }
      }
    }
  }

  /** The preview block captures in the preview configuration, freshly
      started, whatever state it finds the camera in and wherever it stops. */
  lemma PreviewBodySelfConfiguring()
    ensures SelfConfiguring(PreviewBody())
  {
    var b := PreviewBody();
    forall s: CamState, k: nat | k <= |b| ensures WellModed(s, b[..k]) {
      var p := b[..k];
      forall i | 0 <= i < |p| ensures p[i].CaptureArray? ==> Ready(Run(s, p[..i]), Preview) {
        if i == 3 {
          assert p[..i] == [Stop, Configure(Preview), Start];
          RunSetup(s, Preview);
        }
      }
    }
  }

  /** A lock body of either thread: a timelapse photo to `path` or a preview frame. */
  datatype LockBody = Photo(path: string) | PreviewFrame

  function Calls(b: LockBody): seq<Event> {
    match b
    case Photo(path) => StillBody(path)
    case PreviewFrame => PreviewBody()
  }

  /** The lock bodies of `capture_timelapse`'s iterations, the counter
      starting at `n`: each names the photo its counter value gives. */
  function CaptureBodies(dir: string, n: nat, failAts: seq<nat>): (r: seq<seq<Event>>)
    ensures |r| == |failAts|
  {
    if |failAts| == 0 then []
    else
      var front := failAts[..|failAts| - 1];
      CaptureBodies(dir, n, front) + [StillBody(PhotoPath(dir, n + Reached(front, 3) + 1))]
  }

  /** The capture thread on its own is the interleaving of its bodies, each
      cut where it fails. */
  lemma {:induction false} CaptureRunIsInterleave(dir: string, n: nat, failAts: seq<nat>)
    ensures CaptureRun(dir, n, failAts) == Interleave(CaptureBodies(dir, n, failAts), failAts)
  {
    if |failAts| > 0 {
      var front := failAts[..|failAts| - 1];
      var bodies := CaptureBodies(dir, n, failAts);
      assert bodies[..|bodies| - 1] == CaptureBodies(dir, n, front);
      CaptureRunIsInterleave(dir, n, front);
    }
  }

  /** Each thread on its own captures only in the configuration it needs. */
  lemma RunsWellModed(s: CamState, dir: string, n: nat, failAts: seq<nat>)
    ensures WellModed(s, CaptureRun(dir, n, failAts))
    ensures WellModed(s, PreviewRun(failAts))
  {
    var bodies := CaptureBodies(dir, n, failAts);
    CaptureBodiesSelfConfiguring(dir, n, failAts);
    CaptureRunIsInterleave(dir, n, failAts);
    InterleaveWellModed(s, bodies, failAts);
    PreviewBodySelfConfiguring();
    RepeatedWellModed(s, PreviewBody(), failAts);
  }

  /** Every lock body of the capture thread configures itself. */
  lemma {:induction false} CaptureBodiesSelfConfiguring(dir: string, n: nat, failAts: seq<nat>)
    ensures forall j :: 0 <= j < |failAts| ==> SelfConfiguring(CaptureBodies(dir, n, failAts)[j])
  {
    if |failAts| > 0 {
      var front := failAts[..|failAts| - 1];
      var bodies := CaptureBodies(dir, n, front);
      var path := PhotoPath(dir, n + Reached(front, 3) + 1);
      CaptureBodiesSelfConfiguring(dir, n, front);
      StillBodySelfConfiguring(path);
      forall j | 0 <= j < |failAts| ensures SelfConfiguring(CaptureBodies(dir, n, failAts)[j]) {
        if j < |front| {
          assert CaptureBodies(dir, n, failAts)[j] == bodies[j];
        } else {
          assert CaptureBodies(dir, n, failAts)[j] == StillBody(path);
        }
      }
    }
  }


  /** Whatever order the two threads take `camera_lock` in and wherever their
      blocks raise, every file is captured in the still configuration and
      every preview array in the preview configuration, each after a start. */
  lemma ThreadsWellModed(s: CamState, bodies: seq<LockBody>, cuts: seq<nat>)
    requires |cuts| == |bodies|
    ensures WellModed(s, Interleave(seq(|bodies|, j requires 0 <= j < |bodies| => Calls(bodies[j])), cuts))
  {
    var calls := seq(|bodies|, j requires 0 <= j < |bodies| => Calls(bodies[j]));
    forall j | 0 <= j < |calls| ensures SelfConfiguring(calls[j]) {
      match bodies[j]
      case Photo(path) => StillBodySelfConfiguring(path);
      case PreviewFrame => PreviewBodySelfConfiguring();
    }
    InterleaveWellModed(s, calls, cuts);
  }

  /** A completed capture block leaves the still configuration applied and
      started; a completed preview block leaves the preview one. */
  lemma BodiesLeave(s: CamState, path: string)
    ensures Run(s, StillBody(path)) == CamState(Some(Still), true)
    ensures Run(s, PreviewBody()) == CamState(Some(Preview), true)
  {
    RunBlock(s, Still, CaptureFile(path));
    RunBlock(s, Preview, CaptureArray);
  }

  /** Both blocks stop the camera first, so each `configure` they issue,
      however far the block gets and whatever state it starts from, finds
      the camera stopped. */
  lemma BodiesStopFirst(s: CamState, path: string, k: nat)
    requires k <= 4
    ensures ConfiguresStopped(s, StillBody(path)[..k])
    ensures ConfiguresStopped(s, PreviewBody()[..k])
  {
    StopsFirst(s, StillBody(path), k);
    StopsFirst(s, PreviewBody(), k);
  }

  lemma StopsFirst(s: CamState, b: seq<Event>, k: nat)
    requires |b| == 4 && k <= 4 && b[0] == Stop && !b[2].Configure? && !b[3].Configure?
    ensures ConfiguresStopped(s, b[..k])
  {
    var p := b[..k];
    forall i | 0 <= i < |p| && p[i].Configure? ensures !Run(s, p[..i]).streaming {
      assert i == 1;
      assert p[..1] == [Stop];
    }
  }

  /** Stop, configure `c` and start, step by step. */
  lemma RunSetup(s: CamState, c: Config)
    ensures Run(s, [Stop, Configure(c), Start]) == CamState(Some(c), true)
  {
    var b := [Stop, Configure(c), Start];
    assert b[..2] == [Stop, Configure(c)];
    assert b[..2][..1] == [Stop];
    assert Run(s, [Stop]) == CamState(s.config, false);
    assert Run(s, [Stop, Configure(c)]) == CamState(Some(c), false);
  }

  /** The setup followed by one capture, which changes nothing. */
  lemma RunBlock(s: CamState, c: Config, capture: Event)
    requires capture.CaptureFile? || capture.CaptureArray?
    ensures Run(s, [Stop, Configure(c), Start, capture]) == CamState(Some(c), true)
  {
    assert [Stop, Configure(c), Start, capture][..3] == [Stop, Configure(c), Start];
    RunSetup(s, c);
  }

  /** Every yielded chunk carries the frame it was built from, recoverable by
      stripping the framing. */
  lemma {:induction false} YieldedFrames(frames: seq<seq<bv8>>, failAts: seq<nat>)
    requires |frames| == |failAts|
    ensures forall c :: c in Yielded(frames, failAts) ==>
              exists i :: 0 <= i < |frames| && failAts[i] >= 4 && c == Chunk(frames[i]) && ParseChunk(c) == Some(frames[i])
  {
    if |frames| > 0 {
      var n := |frames|;
      YieldedFrames(frames[..n - 1], failAts[..n - 1]);
      var front := Yielded(frames[..n - 1], failAts[..n - 1]);
      forall c | c in Yielded(frames, failAts)
        ensures exists i :: 0 <= i < n && failAts[i] >= 4 && c == Chunk(frames[i]) && ParseChunk(c) == Some(frames[i])
      {
        if c in front {
          var i :| 0 <= i < n - 1 && failAts[..n - 1][i] >= 4 && c == Chunk(frames[..n - 1][i]) &&
                   ParseChunk(c) == Some(frames[..n - 1][i]);
          assert failAts[i] >= 4 && frames[i] == frames[..n - 1][i];
        } else {
          ChunkRoundTrip(frames[n - 1]);
          assert failAts[n - 1] >= 4 && c == Chunk(frames[n - 1]);
        }
      }
    }
  }

  /** The number of chunks yielded is the number of iterations whose capture
      went through. */
  lemma {:induction false} YieldedCount(frames: seq<seq<bv8>>, failAts: seq<nat>)
    requires |frames| == |failAts|
    ensures |Yielded(frames, failAts)| == Reached(failAts, 4)
  {
    if |frames| > 0 {
      YieldedCount(frames[..|frames| - 1], failAts[..|failAts| - 1]);
    }
  }

  /** Each photo of a `capture_timelapse` run gets its own file name: the
      numbers consumed are `n + 1`, `n + 2`, ... and never repeat. */
  lemma CaptureNamesDistinct(dir: string, a: nat, b: nat)
    requires a != b
    ensures PhotoPath(dir, a) != PhotoPath(dir, b)
  {
    ImgNameInjective(a, b);
    assert PhotoPath(dir, a)[|dir| + 1..] == ImgName(a);
    assert PhotoPath(dir, b)[|dir| + 1..] == ImgName(b);
  }
}
