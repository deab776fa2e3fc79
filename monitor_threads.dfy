/** The two camera threads of app_monitor.py. Unlike app_3.py, the counter is
    local to `capture_timelapse` and seeded from the number of `.jpg` files
    already in the folder; the capture block switches back to the preview
    configuration itself, and neither block stops the camera before
    configuring it. As in app_3.py, `failAt` names the first call of a
    `camera_lock` block that raises (a value past the last call means none
    does), and each iteration is followed by the pause it sleeps, in
    milliseconds. */
module MonitorThreads {
  import opened Text
  import opened CameraModel
  import opened PhotoNames
  import opened Multipart

  /** The calls of the `capture_timelapse` block: still configuration, start,
      capture to `path`, preview configuration, start. */
  function StillBody(path: string): seq<Event> {
    [Configure(Still), Start, CaptureFile(path), Configure(Preview), Start]
  }

  /** The calls of the `generate_preview` block: preview configuration,
      start, capture an array. */
  function PreviewBody(): seq<Event> {
    [Configure(Preview), Start, CaptureArray]
  }

  /** The path of photo number `k`. */
  function PhotoPath(dir: string, k: nat): string {
    JoinPath(dir, ImgName(k))
  }

  /** `output_folder` as `capture_timelapse` finds it: missing (it is
      created, and then lists as empty), listed, or one that `os.listdir`
      raises on. */
  datatype Folder = Missing | Listed(names: seq<string>) | Unlistable

  /** The number the counter starts from: the `.jpg` files in the folder.
      The listing is outside the thread's `try`, so where it raises there is
      no number and the thread ends. */
  function Seed(folder: Folder): (r: Option<nat>)
    ensures r.None? <==> folder.Unlistable?
    ensures folder.Missing? ==> r == Some(0)
    ensures folder.Listed? ==> r.Some? && r.value <= |folder.names|
    ensures folder.Listed? ==> (r.value == 0 <==> forall x :: x in folder.names ==> !EndsWith(x, JPG))
  {
    match folder
    case Missing => Some(0)
    case Listed(names) => Some(TimelapseInfo(Some(names)))
    case Unlistable => None
  }

  /** The camera calls of `capture_timelapse`'s iterations, the counter
      starting at `n`. */
  function CaptureRun(dir: string, n: nat, failAts: seq<nat>): seq<Event> {
    if |failAts| == 0 then []
    else
      var front := failAts[..|failAts| - 1];
      CaptureRun(dir, n, front) + Cut(StillBody(PhotoPath(dir, n + Reached(front, 2) + 1)), failAts[|failAts| - 1])
  }

  /** The camera calls of `generate_preview`'s iterations. */
  function PreviewRun(failAts: seq<nat>): seq<Event> {
    Repeated(PreviewBody(), failAts)
  }

  /** The chunks yielded: one per iteration whose capture succeeded, in order. */
  function Yielded(frames: seq<seq<bv8>>, failAts: seq<nat>): (r: seq<seq<bv8>>)
    requires |frames| == |failAts|
    ensures |r| <= |frames|
  {
    if |frames| == 0 then []
    else
      Yielded(frames[..|frames| - 1], failAts[..|failAts| - 1]) +
      (if failAts[|failAts| - 1] >= 3 then [Chunk(frames[|frames| - 1])] else [])
  }

  /** The pause after a `generate_preview` iteration: 0.1 s after a frame,
      1 s after an exception. */
  function PreviewPause(failAt: nat): nat {
    if failAt >= 3 then 100 else 1000
  }

  function PreviewPauses(failAts: seq<nat>): (r: seq<nat>)
    ensures |r| == |failAts|
  {
    if |failAts| == 0 then []
    else PreviewPauses(failAts[..|failAts| - 1]) + [PreviewPause(failAts[|failAts| - 1])]
  }

  /** `n` pauses of `ms` milliseconds each. */
  function Repeat(ms: nat, n: nat): (r: seq<nat>)
    ensures |r| == n
  {
    if n == 0 then [] else Repeat(ms, n - 1) + [ms]
  }

  /** One pass through the `capture_timelapse` loop, the counter at
      `photoCounter` before it. The counter moves once the camera has
      started, whether or not the capture that follows goes through. */
  method CaptureStep(cam: Camera, dir: string, photoCounter: nat, failAt: nat) returns (next: nat)
    modifies cam
    ensures next == photoCounter + (if failAt >= 2 then 1 else 0)
    ensures cam.events == old(cam.events) + Cut(StillBody(PhotoPath(dir, photoCounter + 1)), failAt)
  {
    ghost var path := PhotoPath(dir, photoCounter + 1);
    next := photoCounter;
    cam.Call(Configure(Still), failAt > 0);
    if failAt == 0 {
      return;
    }
    cam.Call(Start, failAt > 1);
    if failAt == 1 {
      return;
    }
    next := next + 1;
    var filename := JoinPath(dir, ImgName(next));
    assert filename == path;
    cam.Call(CaptureFile(filename), failAt > 2);
    if failAt == 2 {
      return;
    }
    cam.Call(Configure(Preview), failAt > 3);
    if failAt == 3 {
      return;
    }
    cam.Call(Start, failAt > 4);
  }

  /** `capture_timelapse()` for as many iterations as `failAts` has.
      `created` tells whether `os.makedirs` ran; `raised` tells whether
      `os.listdir` raised, which ends the thread before its loop. */
  method CaptureTimelapse(cam: Camera, dir: string, folder: Folder, interval: nat, failAts: seq<nat>)
    returns (created: bool, raised: bool, photoCounter: nat, pauses: seq<nat>)
    modifies cam
    ensures created == folder.Missing?
    ensures raised == folder.Unlistable?
    ensures raised ==> cam.events == old(cam.events) && pauses == []
    ensures !raised ==> photoCounter == Seed(folder).value + Reached(failAts, 2)
    ensures !raised ==> cam.events == old(cam.events) + CaptureRun(dir, Seed(folder).value, failAts)
    ensures !raised ==> pauses == Repeat(1000 * interval, |failAts|)
  {
    created := folder.Missing?;
    raised := folder.Unlistable?;
    photoCounter, pauses := 0, [];
    if raised {
      return;
    }
    var names := if folder.Missing? then [] else folder.names;
    var seed := |JpgNames(names)|;
    photoCounter, pauses := CaptureLoop(cam, dir, seed, interval, failAts);
  }

  /** The `while True` loop of `capture_timelapse`, the counter starting at
      `seed`. Every iteration, failed or not, sleeps `interval` seconds. */
  method CaptureLoop(cam: Camera, dir: string, seed: nat, interval: nat, failAts: seq<nat>)
    returns (photoCounter: nat, pauses: seq<nat>)
    modifies cam
    ensures photoCounter == seed + Reached(failAts, 2)
    ensures cam.events == old(cam.events) + CaptureRun(dir, seed, failAts)
    ensures pauses == Repeat(1000 * interval, |failAts|)
  {
    photoCounter := seed;
    pauses := [];
    for i := 0 to |failAts|
      invariant photoCounter == seed + Reached(failAts[..i], 2)
      invariant cam.events == old(cam.events) + CaptureRun(dir, seed, failAts[..i])
      invariant pauses == Repeat(1000 * interval, i)
    {
      ghost var run := CaptureRun(dir, seed, failAts[..i]);
      ghost var cut := Cut(StillBody(PhotoPath(dir, photoCounter + 1)), failAts[i]);
      photoCounter := CaptureStep(cam, dir, photoCounter, failAts[i]);
      pauses := pauses + [1000 * interval];
      CaptureSnoc(dir, seed, failAts, i);
      Assoc(old(cam.events), run, cut);
    }
    assert failAts[..|failAts|] == failAts;
  }

  /** One pass through the `generate_preview` loop: the chunk yielded, if the
      block got that far. `frame` is the JPEG encoding of the captured array. */
  method PreviewStep(cam: Camera, frame: seq<bv8>, failAt: nat) returns (chunk: Option<seq<bv8>>)
    modifies cam
    ensures cam.events == old(cam.events) + Cut(PreviewBody(), failAt)
    ensures chunk == if failAt >= 3 then Some(Chunk(frame)) else None
  {
    ghost var body := PreviewBody();
    assert Cut(body, failAt) ==
           if failAt == 0 then [] else if failAt == 1 then [body[0]]
           else if failAt == 2 then body[..2] else body;
    cam.Call(Configure(Preview), failAt > 0);
    if failAt == 0 {
      return None;
    }
    cam.Call(Start, failAt > 1);
    if failAt == 1 {
      return None;
    }
    cam.Call(CaptureArray, failAt > 2);
    if failAt == 2 {
      return None;
    }
    chunk := Some(FramePrefix() + frame + Crlf());
  }

  /** `generate_preview()` for as many iterations as `failAts` has, `frames`
      holding the encoding of each iteration's array. */
  method GeneratePreview(cam: Camera, frames: seq<seq<bv8>>, failAts: seq<nat>)
    returns (chunks: seq<seq<bv8>>, pauses: seq<nat>)
    requires |frames| == |failAts|
    modifies cam
    ensures cam.events == old(cam.events) + PreviewRun(failAts)
    ensures chunks == Yielded(frames, failAts)
    ensures pauses == PreviewPauses(failAts)
  {
    chunks, pauses := [], [];
    for i := 0 to |failAts|
      invariant cam.events == old(cam.events) + PreviewRun(failAts[..i])
      invariant chunks == Yielded(frames[..i], failAts[..i])
      invariant pauses == PreviewPauses(failAts[..i])
    {
      ghost var run := PreviewRun(failAts[..i]);
      var chunk := PreviewStep(cam, frames[i], failAts[i]);
      assert cam.events == old(cam.events) + PreviewRun(failAts[..i + 1]) by {
        PreviewSnoc(frames, failAts, i);
        Assoc(old(cam.events), run, Cut(PreviewBody(), failAts[i]));
      }
      PreviewSnoc(frames, failAts, i);
      if chunk.Some? {
        chunks := chunks + [chunk.value];
        pauses := pauses + [100];
      } else {
        pauses := pauses + [1000];
      }
    }
    assert failAts[..|failAts|] == failAts;
    assert frames[..|frames|] == frames;
  }

  /** One more `capture_timelapse` iteration extends the run by its block. */
  lemma CaptureSnoc(dir: string, n: nat, failAts: seq<nat>, i: nat)
    requires i < |failAts|
    ensures Reached(failAts[..i + 1], 2) == Reached(failAts[..i], 2) + (if failAts[i] >= 2 then 1 else 0)
    ensures CaptureRun(dir, n, failAts[..i + 1]) ==
            CaptureRun(dir, n, failAts[..i]) + Cut(StillBody(PhotoPath(dir, n + Reached(failAts[..i], 2) + 1)), failAts[i])
  {
    assert failAts[..i + 1][..i] == failAts[..i];
  }

  /** One more `generate_preview` iteration extends the run by its block. */
  lemma PreviewSnoc(frames: seq<seq<bv8>>, failAts: seq<nat>, i: nat)
    requires |frames| == |failAts| && i < |failAts|
    ensures PreviewRun(failAts[..i + 1]) == PreviewRun(failAts[..i]) + Cut(PreviewBody(), failAts[i])
    ensures Yielded(frames[..i + 1], failAts[..i + 1]) ==
            Yielded(frames[..i], failAts[..i]) + (if failAts[i] >= 3 then [Chunk(frames[i])] else [])
    ensures PreviewPauses(failAts[..i + 1]) == PreviewPauses(failAts[..i]) + [PreviewPause(failAts[i])]
  {
    assert failAts[..i + 1][..i] == failAts[..i];
    assert frames[..i + 1][..i] == frames[..i];
  }

  // ---------------------------------------------------------------------
  // Properties

  /** The seed is the count `get_timelapse_info` reports for the same
      folder; where listing raises, `get_timelapse_info` reports 0 while the
      capture thread gets no seed at all. */
  lemma SeedIsPhotoCount(names: seq<string>)
    ensures Seed(Listed(names)) == Some(TimelapseInfo(Some(names)))
    ensures Seed(Missing) == Some(TimelapseInfo(Some([])))
    ensures Seed(Unlistable) == None && TimelapseInfo(None) == 0
  {
    assert JpgNames([]) == [];
  }

  /** The capture block captures in the still configuration and leaves the
      preview one running, whatever state it finds the camera in; cut short,
      it still captures only after its own configuration and start. */
  lemma StillBodySelfConfiguring(path: string)
    ensures SelfConfiguring(StillBody(path))
  {
    var b := StillBody(path);
    forall s: CamState, k: nat | k <= |b| ensures WellModed(s, b[..k]) {
      var p := b[..k];
      forall i | 0 <= i < |p| ensures p[i].CaptureFile? ==> Ready(Run(s, p[..i]), Still) {
        if i == 2 {
          assert p[..i] == [Configure(Still), Start];
          assert p[..i][..1] == [Configure(Still)];
          assert Run(s, [Configure(Still)]) == CamState(Some(Still), false);
        }
      }
    }
  }

  /** The preview block captures in the preview configuration, freshly
      started, whatever state it finds the camera in. */
  lemma PreviewBodySelfConfiguring()
    ensures SelfConfiguring(PreviewBody())
  {
    var b := PreviewBody();
    forall s: CamState, k: nat | k <= |b| ensures WellModed(s, b[..k]) {
      var p := b[..k];
      forall i | 0 <= i < |p| ensures p[i].CaptureArray? ==> Ready(Run(s, p[..i]), Preview) {
        if i == 2 {
          assert p[..i] == [Configure(Preview), Start];
          assert p[..i][..1] == [Configure(Preview)];
          assert Run(s, [Configure(Preview)]) == CamState(Some(Preview), false);
        }
      }
    }
  }

  /** A lock body of either thread: a timelapse photo to `path` or a preview frame. */
  datatype LockBody = Photo(path: string) | PreviewFrame

  function Calls(b: LockBody): seq<Event> {
    match b
    case Photo(path) => StillBody(path)
    case PreviewFrame => PreviewBody()
  }

  /** The lock bodies of `capture_timelapse`'s iterations, the counter
      starting at `n`: each names the photo its counter value gives. */
  function CaptureBodies(dir: string, n: nat, failAts: seq<nat>): (r: seq<seq<Event>>)
    ensures |r| == |failAts|
  {
    if |failAts| == 0 then []
    else
      var front := failAts[..|failAts| - 1];
      CaptureBodies(dir, n, front) + [StillBody(PhotoPath(dir, n + Reached(front, 2) + 1))]
  }

  /** The capture thread on its own is the interleaving of its bodies, each
      cut where it fails. */
  lemma {:induction false} CaptureRunIsInterleave(dir: string, n: nat, failAts: seq<nat>)
    ensures CaptureRun(dir, n, failAts) == Interleave(CaptureBodies(dir, n, failAts), failAts)
  {
    if |failAts| > 0 {
      var front := failAts[..|failAts| - 1];
      var bodies := CaptureBodies(dir, n, failAts);
      assert bodies[..|bodies| - 1] == CaptureBodies(dir, n, front);
      CaptureRunIsInterleave(dir, n, front);
    }
  }

  /** Each thread on its own captures only in the configuration it needs. */
  lemma RunsWellModed(s: CamState, dir: string, n: nat, failAts: seq<nat>)
    ensures WellModed(s, CaptureRun(dir, n, failAts))
    ensures WellModed(s, PreviewRun(failAts))
  {
    var bodies := CaptureBodies(dir, n, failAts);
    CaptureBodiesSelfConfiguring(dir, n, failAts);
    CaptureRunIsInterleave(dir, n, failAts);
    InterleaveWellModed(s, bodies, failAts);
    PreviewBodySelfConfiguring();
    RepeatedWellModed(s, PreviewBody(), failAts);
  }

  /** Every lock body of the capture thread configures itself. */
  lemma {:induction false} CaptureBodiesSelfConfiguring(dir: string, n: nat, failAts: seq<nat>)
    ensures forall j :: 0 <= j < |failAts| ==> SelfConfiguring(CaptureBodies(dir, n, failAts)[j])
  {
    if |failAts| > 0 {
      var front := failAts[..|failAts| - 1];
      var bodies := CaptureBodies(dir, n, front);
      var path := PhotoPath(dir, n + Reached(front, 2) + 1);
      CaptureBodiesSelfConfiguring(dir, n, front);
      StillBodySelfConfiguring(path);
      forall j | 0 <= j < |failAts| ensures SelfConfiguring(CaptureBodies(dir, n, failAts)[j]) {
        if j < |front| {
          assert CaptureBodies(dir, n, failAts)[j] == bodies[j];
        } else {
          assert CaptureBodies(dir, n, failAts)[j] == StillBody(path);
        }
      }
    }
  }


  /** Whatever order the two threads take `camera_lock` in and wherever their
      blocks raise, every file is captured in the still configuration and
      every preview array in the preview configuration, each after a start. */
  lemma ThreadsWellModed(s: CamState, bodies: seq<LockBody>, cuts: seq<nat>)
    requires |cuts| == |bodies|
    ensures WellModed(s, Interleave(seq(|bodies|, j requires 0 <= j < |bodies| => Calls(bodies[j])), cuts))
  {
    var calls := seq(|bodies|, j requires 0 <= j < |bodies| => Calls(bodies[j]));
    forall j | 0 <= j < |calls| ensures SelfConfiguring(calls[j]) {
      match bodies[j]
      case Photo(path) => StillBodySelfConfiguring(path);
      case PreviewFrame => PreviewBodySelfConfiguring();
    }
    InterleaveWellModed(s, calls, cuts);
  }

  /** A completed capture block leaves the camera streaming in the preview
      configuration, and so does a completed preview block. */
  lemma BodiesLeave(s: CamState, path: string)
    ensures Run(s, StillBody(path)) == CamState(Some(Preview), true)
    ensures Run(s, PreviewBody()) == CamState(Some(Preview), true)
  {
    var b := StillBody(path);
    assert b[..4] == [Configure(Still), Start, CaptureFile(path), Configure(Preview)];
    assert b[..4][..3] == [Configure(Still), Start, CaptureFile(path)];
    assert b[..4][..3][..2] == [Configure(Still), Start];
    assert b[..4][..3][..2][..1] == [Configure(Still)];
    assert Run(s, [Configure(Still)]) == CamState(Some(Still), false);
    assert Run(s, [Configure(Still), Start]) == CamState(Some(Still), true);
    assert Run(s, [Configure(Still), Start, CaptureFile(path)]) == CamState(Some(Still), true);
    assert Run(s, b[..4]) == CamState(Some(Preview), false);
    var p := PreviewBody();
    assert p[..2] == [Configure(Preview), Start] && p[..2][..1] == [Configure(Preview)];
    assert Run(s, [Configure(Preview)]) == CamState(Some(Preview), false);
  }

  /** Neither block stops the camera before configuring it: after any block
      has gone through, the next block of either thread issues its first
      `configure` to a camera that is streaming. */
  lemma ConfiguresWhileStreaming(s: CamState, path: string, next: LockBody)
    ensures !ConfiguresStopped(Run(s, StillBody(path)), Calls(next))
    ensures !ConfiguresStopped(Run(s, PreviewBody()), Calls(next))
  {
    BodiesLeave(s, path);
    var b := Calls(next);
    assert b[0].Configure? && b[..0] == [];
  }

  /** A folder holding only `img_002.jpg` seeds the counter with 1, so the
      first photo is written to the name that is already there. */
  lemma SeedCanCollide()
    ensures Seed(Listed(["img_002.jpg"])) == Some(1)
    ensures ImgName(Seed(Listed(["img_002.jpg"])).value + 1) == "img_002.jpg"
  {
    var names := ["img_002.jpg"];
    assert EndsWith(names[0], JPG) by {
      assert names[0][|names[0]| - 4..] == ".jpg";
    }
    assert JpgNames(names) == [names[0]] + JpgNames(names[1..]);
    assert JpgNames(names) == names;
    Pad2();
  }

  lemma Pad2()
    ensures Pad(2, 3) == "002"
  {
    assert Decimal(2) == "2";
    assert Zeros(2) == "00";
  }

  /** `img_001.jpg` ... `img_<k>.jpg`: the folder as the program leaves it
      after `k` photos from an empty start. */
  function Numbered(k: nat): (r: seq<string>)
    ensures |r| == k
    ensures forall i :: 0 <= i < k ==> r[i] == ImgName(i + 1)
  {
    if k == 0 then [] else Numbered(k - 1) + [ImgName(k)]
  }

  lemma NumberedAllJpg(k: nat)
    ensures JpgNames(Numbered(k)) == Numbered(k)
  {
    var names := Numbered(k);
    forall i | 0 <= i < |names| ensures EndsWith(names[i], JPG) {
      ImgNameIsJpg(i + 1);
    }
    JpgNamesKeepsAll(names);
  }

  /** Restarted over a folder it filled itself, the program numbers on:
      every name it will write is new. */
  lemma SeedFreshOverOwnPhotos(k: nat, m: nat)
    requires m > Seed(Listed(Numbered(k))).value
    ensures ImgName(m) !in Numbered(k)
  {
    NumberedAllJpg(k);
    forall i | 0 <= i < k ensures Numbered(k)[i] != ImgName(m) {
      ImgNameInjective(i + 1, m);
    }
  }
}
