/** File names of the captured photos: the counter-numbered `img_NNN.jpg`
    of app_3.py and app_monitor.py, the timestamped `timelapse_*.jpg` of
    app_2.py, and the `.jpg` filter the programs apply to a directory listing.
    A directory listing is a sequence of names; the file system is not modelled. */
module PhotoNames {
  import opened Text
  import opened Timestamps

  const JPG := ".jpg"

  /** `[f for f in names if f.endswith('.jpg')]`, in listing order. */
  function JpgNames(names: seq<string>): (r: seq<string>)
    ensures |r| <= |names|
    ensures forall x :: x in r <==> x in names && EndsWith(x, JPG)
  {
    if |names| == 0 then []
    else (if EndsWith(names[0], JPG) then [names[0]] else []) + JpgNames(names[1..])
  }

  /** `get_timelapse_info`: the number of `.jpg` names, or 0 when listing the
      folder raises (`None` stands for the failed `os.listdir`). */
  function TimelapseInfo(listing: Option<seq<string>>): (r: nat)
    ensures listing.None? ==> r == 0
    ensures listing.Some? ==> r == |JpgNames(listing.value)| && r <= |listing.value|
    ensures listing.Some? ==> (r == 0 <==> forall x :: x in listing.value ==> !EndsWith(x, JPG))
  {
    match listing
    case None => 0
    case Some(names) =>
      var jpgs := JpgNames(names);
      assert |jpgs| > 0 ==> jpgs[0] in jpgs;
      |jpgs|
  }

  /** Filtering a concatenated listing filters each part. */
  lemma {:induction false} JpgNamesAppend(a: seq<string>, b: seq<string>)
    ensures JpgNames(a + b) == JpgNames(a) + JpgNames(b)
  {
    if |a| == 0 {
      assert a + b == b;
    } else {
      assert (a + b)[1..] == a[1..] + b;
      JpgNamesAppend(a[1..], b);
    }
  }

  /** A listing gains one counted photo when a `.jpg` name is added, and none otherwise. */
  lemma TimelapseInfoAfterAdding(names: seq<string>, name: string)
    ensures TimelapseInfo(Some(names + [name])) ==
            TimelapseInfo(Some(names)) + (if EndsWith(name, JPG) then 1 else 0)
  {
    JpgNamesAppend(names, [name]);
    assert JpgNames([name]) == (if EndsWith(name, JPG) then [name] else []) + JpgNames([]);
  }

  /** `f"img_{n:03d}.jpg"`. */
  function ImgName(n: nat): string {
    "img_" + Pad(n, 3) + JPG
  }

  /** The number an `img_NNN.jpg` name carries, for names `ImgName` can produce. */
  function ParseImgName(s: string): Option<nat> {
    if |s| >= 8 && StartsWith(s, "img_") && EndsWith(s, JPG) && AllDigits(s[4..|s| - 4]) &&
       s[4..|s| - 4] == Pad(DigitsValue(s[4..|s| - 4]), 3)
    then Some(DigitsValue(s[4..|s| - 4]))
    else None
  }

  lemma ImgNameRoundTrip(n: nat)
    ensures ParseImgName(ImgName(n)) == Some(n)
  {
    var s := ImgName(n);
    var digits := Pad(n, 3);
    assert s[4..|s| - 4] == digits;
    assert s[..4] == "img_";
    assert s[|s| - 4..] == JPG;
    PadRoundTrip(n, 3);
  }

  /** Only `ImgName(n)` parses to `n`: the parser and the formatter are inverse. */
  lemma ParseImgNameExact(s: string, n: nat)
    requires ParseImgName(s) == Some(n)
    ensures s == ImgName(n)
  {
    assert s == s[..4] + s[4..|s| - 4] + s[|s| - 4..];
  }

  /** Different counter values give different names. */
  lemma ImgNameInjective(a: nat, b: nat)
    requires a != b
    ensures ImgName(a) != ImgName(b)
  {
    ImgNameRoundTrip(a);
    ImgNameRoundTrip(b);
  }

  /** Every numbered photo is counted by the `.jpg` filter. */
  lemma ImgNameIsJpg(n: nat)
    ensures EndsWith(ImgName(n), JPG)
  {
    var s := ImgName(n);
    assert s[|s| - 4..] == JPG;
  }

  /** A listing of `.jpg` names only is kept whole by the filter. */
  lemma {:induction false} JpgNamesKeepsAll(names: seq<string>)
    requires forall i :: 0 <= i < |names| ==> EndsWith(names[i], JPG)
    ensures JpgNames(names) == names
  {
    if |names| > 0 {
      assert EndsWith(names[0], JPG);
      JpgNamesKeepsAll(names[1..]);
      assert names == [names[0]] + names[1..];
    }
  }

  /** `os.path.join(a, b)` on POSIX paths. */
  function JoinPath(a: string, b: string): string {
    if StartsWith(b, "/") then b
    else if |a| == 0 || EndsWith(a, "/") then a + b
    else a + "/" + b
  }

  /** The global `photo_counter` of app_3.py with `get_filename`. */
  class PhotoCounter {
    var photoCounter: nat

    constructor ()
      ensures photoCounter == 0
    {
      photoCounter := 0;
    }

    /** Increments the counter, then names the photo after the new value. */
    method GetFilename() returns (name: string)
      modifies this
      ensures photoCounter == old(photoCounter) + 1
      ensures name == ImgName(photoCounter)
    {
      photoCounter := photoCounter + 1;
      name := ImgName(photoCounter);
    }
  }

  /** `timelapse_YYYYMMDD_HHMMSS.jpg`, the name app_2.py gives a photo. */
  function TimelapseBaseName(t: DateTime): string {
    "timelapse_" + CompactText(t) + JPG
  }

  /** `f"{output_dir}/timelapse_{timestamp}.jpg"`. */
  function TimelapsePath(dir: string, t: DateTime): string {
    dir + "/" + TimelapseBaseName(t)
  }

  /** `f"timelapse_video_{timestamp}.mp4"`. */
  function VideoName(t: DateTime): string {
    "timelapse_video_" + CompactText(t) + ".mp4"
  }

  /** `f'{output_dir}/timelapse_*.jpg'`, the glob handed to the encoder. */
  function EncoderPattern(dir: string): string {
    dir + "/timelapse_*.jpg"
  }

  /** The timestamp can be read back from a photo's name. */
  lemma TimelapseBaseNameRoundTrip(t: DateTime)
    requires ValidDateTime(t)
    ensures |TimelapseBaseName(t)| == 29
    ensures StartsWith(TimelapseBaseName(t), "timelapse_") && EndsWith(TimelapseBaseName(t), JPG)
    ensures ParseCompactText(TimelapseBaseName(t)[10..25]) == Some(t)
  {
    CompactTextRoundTrip(t);
    var s := TimelapseBaseName(t);
    assert s[10..25] == CompactText(t);
    assert s[..10] == "timelapse_";
    assert s[|s| - 4..] == JPG;
  }

  /** The timestamp sits at a fixed place in a photo's path. */
  lemma TimelapsePathStamp(dir: string, t: DateTime)
    requires ValidDateTime(t)
    ensures |TimelapsePath(dir, t)| == |dir| + 30
    ensures TimelapsePath(dir, t)[|dir| + 11..|dir| + 26] == CompactText(t)
  {
    CompactTextRoundTrip(t);
    var k := |dir| + 11;
    assert TimelapsePath(dir, t)[k..k + 15] == CompactText(t);
  }

  /** Photos taken in different seconds get different paths. */
  lemma TimelapsePathInjective(dir: string, a: DateTime, b: DateTime)
    requires ValidDateTime(a) && ValidDateTime(b) && a != b
    ensures TimelapsePath(dir, a) != TimelapsePath(dir, b)
  {
    TimelapsePathStamp(dir, a);
    TimelapsePathStamp(dir, b);
    if CompactText(a) == CompactText(b) {
      CompactTextInjective(a, b);
    }
  }
}
