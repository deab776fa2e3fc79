/** app_2.py, the stand-alone timelapse recorder: it makes sure its output
    folder exists, opens the camera in the still configuration, takes one
    timestamped photo per interval until SIGINT clears `running`, and then,
    in the `finally` of `start`, closes the camera and hands the folder's
    photos to the encoder as one video. The folder's listing, the clock, the
    moment the signal arrives and the outcome of each device and encoder call
    are inputs; the folder itself is the sequence of names it lists. */
module Timelapse {
  import opened Text
  import opened Timestamps
  import opened CameraModel
  import opened PhotoNames
  import opened StringOrder

  /** What the recorder does to the world, in order: creating the folder,
      a camera call that went through, and running the encoder over a glob
      into a named video. */
  datatype Action = MakeDirs(path: string) | Cam(event: Event) | Encode(pattern: string, video: string)

  /** The camera calls in `events`, as actions. */
  function Cams(events: seq<Event>): (r: seq<Action>)
    ensures |r| == |events|
    ensures forall i :: 0 <= i < |events| ==> r[i] == Cam(events[i])
  {
    if |events| == 0 then [] else Cams(events[..|events| - 1]) + [Cam(events[|events| - 1])]
  }

  lemma CamsSnoc(events: seq<Event>, e: Event)
    ensures Cams(events + [e]) == Cams(events) + [Cam(e)]
  {
    assert (events + [e])[..|events|] == events;
  }

  /** `init_camera`: construct, apply the still configuration, start. */
  const InitBody: seq<Event> := [Open, Configure(Still), Start]

  /** The paths `take_photo` writes for photos taken at `times`. */
  function PhotoPaths(dir: string, times: seq<DateTime>): (r: seq<string>)
    ensures |r| == |times|
  {
    seq(|times|, i requires 0 <= i < |times| => TimelapsePath(dir, times[i]))
  }

  /** The file names of photos taken at `times`. */
  function BaseNames(times: seq<DateTime>): (r: seq<string>)
    ensures |r| == |times|
  {
    seq(|times|, i requires 0 <= i < |times| => TimelapseBaseName(times[i]))
  }

  /** The `capture_file` calls writing `paths`. */
  function Captures(paths: seq<string>): (r: seq<Event>)
    ensures |r| == |paths|
  {
    seq(|paths|, i requires 0 <= i < |paths| => CaptureFile(paths[i]))
  }

  /** The listing after a file called `name` is written: a new name joins it,
      an existing one is overwritten in place. */
  function AddName(files: seq<string>, name: string): seq<string> {
    if name in files then files else files + [name]
  }

  /** The listing after files called `names` are written, in order. */
  function Stored(files: seq<string>, names: seq<string>): seq<string> {
    if |names| == 0 then files
    else AddName(Stored(files, names[..|names| - 1]), names[|names| - 1])
  }

  lemma StoredSnoc(files: seq<string>, names: seq<string>, i: nat)
    requires i < |names|
    ensures Stored(files, names[..i + 1]) == AddName(Stored(files, names[..i]), names[i])
  {
    assert names[..i + 1][..i] == names[..i];
  }

  /** One more photo extends the trace by its `capture_file` call and the
      folder by its name. */
  lemma PhotoStep(log0: seq<Action>, files0: seq<string>, dir: string, clock: seq<DateTime>, i: nat)
    requires i < |clock|
    ensures log0 + Cams(Captures(PhotoPaths(dir, clock))[..i + 1]) ==
            log0 + Cams(Captures(PhotoPaths(dir, clock))[..i]) + [Cam(CaptureFile(TimelapsePath(dir, clock[i])))]
    ensures Stored(files0, BaseNames(clock)[..i + 1]) ==
            AddName(Stored(files0, BaseNames(clock)[..i]), TimelapseBaseName(clock[i]))
  {
    var caps := Captures(PhotoPaths(dir, clock));
    TakeSnoc(caps, i);
    CamsSnoc(caps[..i], caps[i]);
    Assoc(log0, Cams(caps[..i]), [Cam(caps[i])]);
    StoredSnoc(files0, BaseNames(clock), i);
  }

  /** `sorted([f for f in os.listdir(output_dir) if f.endswith('.jpg')])`:
      the folder's `.jpg` names, each as often as listed, in sorted order. */
  function Photos(files: seq<string>): (r: seq<string>)
    ensures Sorted(r) && multiset(r) == multiset(JpgNames(files))
    ensures |r| == |JpgNames(files)|
    ensures forall x :: x in r <==> x in files && EndsWith(x, JPG)
  {
    var jpgs := JpgNames(files);
    SortCorrect(jpgs);
    assert forall x :: x in Sort(jpgs) <==> x in multiset(jpgs);
    assert |multiset(Sort(jpgs))| == |jpgs|;
    Sort(jpgs)
  }

  /** What `create_video` reports: no photos, a video made from `used`
      photos, or an encoder error it caught. */
  datatype VideoReport = NoPhotos | Created(video: string, used: nat) | EncodeFailed(video: string)

  /** The report for a folder listing `files`, a video stamped `now` and an
      encoder that succeeds when `encoderOk`. */
  function VideoReportFor(files: seq<string>, now: DateTime, encoderOk: bool): (r: VideoReport)
    ensures r.NoPhotos? <==> forall x :: x in files ==> !EndsWith(x, JPG)
    ensures r.Created? <==> encoderOk && !r.NoPhotos?
    ensures r.Created? ==> r.video == VideoName(now) && r.used == |JpgNames(files)| && r.used > 0
    ensures r.EncodeFailed? ==> r.video == VideoName(now)
  {
    var jpgs := JpgNames(files);
    if |jpgs| == 0 then NoPhotos
    else
      assert jpgs[0] in files;
      if encoderOk then Created(VideoName(now), |jpgs|) else EncodeFailed(VideoName(now))
  }

  /** The encoder run `create_video` starts: one, exactly when the folder
      holds a `.jpg`. */
  function VideoActions(files: seq<string>, dir: string, now: DateTime): seq<Action> {
    if |JpgNames(files)| == 0 then [] else [Encode(EncoderPattern(dir), VideoName(now))]
  }

  /** How `start` ends: `init_camera` raised (before the `try`), the loop
      stopped because the signal cleared `running`, or `take_photo` raised
      and the exception left `start` after the `finally`. */
  datatype Outcome = InitRaised | Stopped(report: VideoReport) | Raised(report: VideoReport)

  /** The number of photos that were written: the loop stops after
      `stopAfter` of them, or at photo number `crashAt` when that raises. */
  function Taken(stopAfter: nat, crashAt: nat): nat {
    if crashAt < stopAfter then crashAt else stopAfter
  }

  class TimelapseCamera {
    const interval: nat
    const outputDir: string
    var running: bool
    /** Whether `picam2` holds a camera object. */
    var hasCamera: bool
    /** The names `os.listdir(output_dir)` returns. */
    var files: seq<string>
    var log: seq<Action>

    /** `__init__(interval=60, output_dir='timelapse')`: the folder is
        created when `os.path.exists` says it is missing (`listing == None`),
        and then lists nothing. */
    constructor (listing: Option<seq<string>>, interval: nat := 60, outputDir: string := "timelapse")
      ensures this.interval == interval && this.outputDir == outputDir
      ensures !running && !hasCamera
      ensures files == if listing.None? then [] else listing.value
      ensures log == if listing.None? then [MakeDirs(outputDir)] else []
    {
      this.interval := interval;
      this.outputDir := outputDir;
      running := false;
      hasCamera := false;
      if listing.None? {
        files := [];
        log := [MakeDirs(outputDir)];
      } else {
        files := listing.value;
        log := [];
      }
    }

    /** `init_camera`, whose call number `failAt` raises (`failAt >= 3`: none);
        `picam2` is set once the constructor went through. */
    method InitCamera(failAt: nat) returns (ok: bool)
      modifies this
      ensures ok <==> failAt >= 3
      ensures hasCamera == (old(hasCamera) || failAt >= 1)
      ensures log == old(log) + Cams(Cut(InitBody, failAt))
      ensures running == old(running) && files == old(files)
    {
      ok := false;
      if failAt == 0 {
        return;
      }
      hasCamera := true;
      log := log + [Cam(Open)];
      if failAt == 1 {
        return;
      }
      log := log + [Cam(Configure(Still))];
      if failAt == 2 {
        return;
      }
      log := log + [Cam(Event.Start)];
      ok := true;
    }

    /** `take_photo` at clock reading `now`; `capture_file` raises unless `ok`. */
    method TakePhoto(now: DateTime, ok: bool)
      modifies this
      ensures log == old(log) + if ok then [Cam(CaptureFile(TimelapsePath(outputDir, now)))] else []
      ensures files == if ok then AddName(old(files), TimelapseBaseName(now)) else old(files)
      ensures running == old(running) && hasCamera == old(hasCamera)
    {
      var timestamp := CompactText(now);
      var filename := outputDir + "/timelapse_" + timestamp + ".jpg";
      assert filename == TimelapsePath(outputDir, now);
      if ok {
        log := log + [Cam(CaptureFile(filename))];
        files := AddName(files, "timelapse_" + timestamp + ".jpg");
      }
    }

    /** `create_video` with the clock reading `now`; the encoder exits with an
        error unless `encoderOk`, which is caught. */
    method CreateVideo(now: DateTime, encoderOk: bool) returns (report: VideoReport)
      modifies this
      ensures report == VideoReportFor(files, now, encoderOk)
      ensures log == old(log) + VideoActions(files, outputDir, now)
      ensures files == old(files) && running == old(running) && hasCamera == old(hasCamera)
    {
      var videoName := "timelapse_video_" + CompactText(now) + ".mp4";
      var photos := Photos(files);
      if |photos| == 0 {
        report := NoPhotos;
        return;
      }
      log := log + [Encode(EncoderPattern(outputDir), videoName)];
      report := if encoderOk then Created(videoName, |photos|) else EncodeFailed(videoName);
    }

    /** `stop_signal_handler`: only `running` changes. */
    method StopSignalHandler()
      modifies this
      ensures !running
      ensures log == old(log) && files == old(files) && hasCamera == old(hasCamera)
    {
      running := false;
    }

    /** `time.sleep(self.interval)`; the signal handler runs during it when
        `signalled`. */
    method Sleep(signalled: bool)
      modifies this
      ensures running == (old(running) && !signalled)
      ensures log == old(log) && files == old(files) && hasCamera == old(hasCamera)
    {
      if signalled {
        StopSignalHandler();
      }
    }

    /** The `try` body of `start`: `while self.running: take_photo; sleep`.
        Photo `i` is taken at `clock[i]`; the signal arrives during the sleep
        after photo number `stopAfter` (during the camera warm-up when that is
        0); the photo numbered `crashAt` raises. `raised` says whether the
        loop ended by the exception. */
    method TakePhotos(clock: seq<DateTime>, stopAfter: nat, crashAt: nat) returns (raised: bool)
      requires running == (0 < stopAfter) && stopAfter <= |clock|
      modifies this
      ensures raised <==> crashAt < stopAfter
      ensures running == raised
      ensures files == Stored(old(files), BaseNames(clock)[..Taken(stopAfter, crashAt)])
      ensures log == old(log) + Cams(Captures(PhotoPaths(outputDir, clock))[..Taken(stopAfter, crashAt)])
      ensures hasCamera == old(hasCamera)
    {
      var taken := 0;
      raised := false;
      while running
        invariant taken <= stopAfter && taken <= crashAt
        invariant running == (taken < stopAfter) && !raised
        invariant files == Stored(old(files), BaseNames(clock)[..taken])
        invariant log == old(log) + Cams(Captures(PhotoPaths(outputDir, clock))[..taken])
        invariant hasCamera == old(hasCamera)
        decreases stopAfter - taken
      {
        TakePhoto(clock[taken], taken != crashAt);
        if taken == crashAt {
          raised := true;
          break;
        }
        PhotoStep(old(log), old(files), outputDir, clock, taken);
        taken := taken + 1;
        Sleep(taken == stopAfter);
      }
    }

    /** `start`: set `running`, `init_camera` (call `initFailAt` raising),
        the photo loop, and in its `finally` the camera is closed and the video
        made from the folder at clock reading `videoTime`. */
    method Start(initFailAt: nat, clock: seq<DateTime>, stopAfter: nat, crashAt: nat,
                 videoTime: DateTime, encoderOk: bool) returns (outcome: Outcome)
      requires stopAfter <= |clock|
      modifies this
      ensures outcome.InitRaised? <==> initFailAt < 3
      ensures outcome.Raised? <==> initFailAt >= 3 && crashAt < stopAfter
      ensures running <==> !outcome.Stopped?
      ensures outcome.InitRaised? ==>
                files == old(files) && log == old(log) + Cams(Cut(InitBody, initFailAt))
      ensures !outcome.InitRaised? ==>
                files == Stored(old(files), BaseNames(clock)[..Taken(stopAfter, crashAt)]) &&
                log == old(log) + Cams(InitBody) + Cams(Captures(PhotoPaths(outputDir, clock))[..Taken(stopAfter, crashAt)]) +
                       [Cam(Close)] + VideoActions(files, outputDir, videoTime) &&
                outcome.report == VideoReportFor(files, videoTime, encoderOk)
    {
      running := true;
      var ok := InitCamera(initFailAt);
      if !ok {
        return InitRaised;
      }
      assert Cut(InitBody, initFailAt) == InitBody;
      if stopAfter == 0 {
        StopSignalHandler();
      }
      var raised := TakePhotos(clock, stopAfter, crashAt);
      if hasCamera {
        log := log + [Cam(Close)];
      }
      var report := CreateVideo(videoTime, encoderOk);
      outcome := if raised then Raised(report) else Stopped(report);
    }
  }

  /** Writing files does not change the camera's mode. */
  lemma {:induction false} CapturesKeepState(s: CamState, paths: seq<string>)
    ensures Run(s, Captures(paths)) == s
    decreases |paths|
  {
    if |paths| > 0 {
      var n := |paths| - 1;
      assert Captures(paths)[..n] == Captures(paths[..n]);
      CapturesKeepState(s, paths[..n]);
    }
  }

  /** Every photo of the recorder is taken in the still configuration, on a
      started camera, whatever state the device was in before: `init_camera`
      opens it afresh. Closing it in the `finally` leaves it fresh. */
  lemma RecorderWellModed(s: CamState, paths: seq<string>)
    ensures WellModed(s, InitBody + Captures(paths))
    ensures Run(s, InitBody + Captures(paths) + [Close]) == Fresh
  {
    var caps := Captures(paths);
    assert Run(s, InitBody) == CamState(Some(Still), true) by {
      assert InitBody[..2][..1] == [Open];
      assert InitBody[..2] == [Open, Configure(Still)];
    }
    forall i | 0 <= i < |paths|
      ensures Ready(Run(Run(s, InitBody), caps[..i]), Still)
    {
      assert caps[..i] == Captures(paths[..i]);
      CapturesKeepState(Run(s, InitBody), paths[..i]);
    }
    assert WellModed(s, InitBody) by {
      forall i | 0 <= i < 3 ensures !InitBody[i].CaptureFile? && !InitBody[i].CaptureArray? {}
    }
    WellModedAppend(s, InitBody, caps);
  }

  /** The folder after writing `names` holds what it held before and the
      names written, and nothing else. */
  lemma {:induction false} StoredNames(files: seq<string>, names: seq<string>, x: string)
    ensures x in Stored(files, names) <==> x in files || x in names
    decreases |names|
  {
    if |names| > 0 {
      var n := |names| - 1;
      StoredNames(files, names[..n], x);
      assert names == names[..n] + [names[n]];
    }
  }

  /** Distinct names, none of them in the folder before, each add a file. */
  lemma {:induction false} StoredGrows(files: seq<string>, names: seq<string>)
    requires forall i, j :: 0 <= i < j < |names| ==> names[i] != names[j]
    requires forall i :: 0 <= i < |names| ==> names[i] !in files
    ensures |Stored(files, names)| == |files| + |names|
    decreases |names|
  {
    if |names| > 0 {
      var n := |names| - 1;
      StoredGrows(files, names[..n]);
      StoredNames(files, names[..n], names[n]);
    }
  }

  /** The base name of a photo determines the second it was taken in. */
  lemma TimelapseBaseNameInjective(a: DateTime, b: DateTime)
    requires ValidDateTime(a) && ValidDateTime(b) && a != b
    ensures TimelapseBaseName(a) != TimelapseBaseName(b)
  {
    TimelapseBaseNameRoundTrip(a);
    TimelapseBaseNameRoundTrip(b);
  }

  /** Photos taken in distinct seconds, into a folder holding none of their
      names, each leave a file of their own. */
  lemma DistinctSecondsKeepEveryPhoto(files: seq<string>, times: seq<DateTime>)
    requires forall i :: 0 <= i < |times| ==> ValidDateTime(times[i])
    requires forall i, j :: 0 <= i < j < |times| ==> times[i] != times[j]
    requires forall i :: 0 <= i < |times| ==> TimelapseBaseName(times[i]) !in files
    ensures |Stored(files, BaseNames(times))| == |files| + |times|
  {
    var names := BaseNames(times);
    forall i, j | 0 <= i < j < |names| ensures names[i] != names[j] {
      TimelapseBaseNameInjective(times[i], times[j]);
    }
    StoredGrows(files, names);
  }

  /** Two photos within one second share a name: the second overwrites the
      first, and the folder keeps only one of them. */
  lemma SameSecondOverwrites(files: seq<string>, t: DateTime)
    ensures Stored(files, BaseNames([t, t])) == Stored(files, BaseNames([t]))
    ensures |Stored(files, BaseNames([t]))| <= |files| + 1
  {
    var name := TimelapseBaseName(t);
    assert BaseNames([t, t]) == [name, name];
    assert BaseNames([t]) == [name];
    assert [name, name][..1] == [name];
    assert [name][..0] == [];
  }

  /** `timelapse_*.jpg`, the glob the encoder is given, on a name of the folder. */
  predicate MatchesPattern(name: string) {
    StartsWith(name, "timelapse_") && EndsWith(name, JPG)
  }

  /** Every photo the recorder writes is picked up by the encoder's glob. */
  lemma PhotosMatchPattern(t: DateTime)
    requires ValidDateTime(t)
    ensures MatchesPattern(TimelapseBaseName(t))
  {
    TimelapseBaseNameRoundTrip(t);
  }

  /** In a folder the recorder created, every name is one of its photos, so
      each `.jpg` it counts for the report is a frame the glob hands to the
      encoder. */
  lemma FreshFolderHoldsOnlyPhotos(times: seq<DateTime>)
    requires forall i :: 0 <= i < |times| ==> ValidDateTime(times[i])
    ensures forall x :: x in Stored([], BaseNames(times)) ==> MatchesPattern(x)
    ensures forall x :: x in JpgNames(Stored([], BaseNames(times))) <==> x in Stored([], BaseNames(times))
  {
    forall x | x in Stored([], BaseNames(times))
      ensures MatchesPattern(x)
    {
      StoredNames([], BaseNames(times), x);
      var i :| 0 <= i < |times| && BaseNames(times)[i] == x;
      PhotosMatchPattern(times[i]);
    }
  }
  /** The count in the report is of all `.jpg` names in the folder, while the
      encoder only reads `timelapse_*.jpg`: another JPEG in the folder is
      counted as used although it is not in the video. */
  lemma ForeignJpgCounted(now: DateTime)
    ensures VideoReportFor(["holiday.jpg"], now, true) == Created(VideoName(now), 1)
    ensures !MatchesPattern("holiday.jpg")
  {
    var name := "holiday.jpg";
    assert name[|name| - 4..] == JPG;
    assert name[..10] != "timelapse_" by {
      assert name[..10][0] == 'h';
    }
    var listing: seq<string> := [name];
    assert |listing[1..]| == 0;
    assert JpgNames(listing) == listing;
  }
}
