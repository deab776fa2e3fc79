/** The chunks of the `multipart/x-mixed-replace; boundary=frame` stream that
    both `generate_preview` functions yield: each JPEG frame is preceded by the
    dash-boundary line `--frame` and a `Content-Type: image/jpeg` header
    line, with an empty line after the headers, and is followed by CRLF. This is
    the body-part syntax of section 5.1.1 of RFC 2046: the CRLF that closes one
    chunk and the `--frame` that opens the next make the delimiter between
    two body parts. */
module Multipart {
  import opened Text

  /** The low byte of a character's code, as a `b'...'` literal holds it. */
  function Byte(c: char): bv8 {
    (c as int % 256) as bv8
  }

  function Ascii(s: string): (r: seq<bv8>)
    ensures |r| == |s|
  {
    if |s| == 0 then [] else Ascii(s[..|s| - 1]) + [Byte(s[|s| - 1])]
  }

  const BOUNDARY := "frame"

  function Crlf(): seq<bv8> { Ascii("\r\n") }

  /** `--frame`, the boundary after two hyphens. */
  function DashBoundary(): seq<bv8> { Ascii("--" + BOUNDARY) }

  /** `b'--frame\r\nContent-Type: image/jpeg\r\n\r\n'` */
  function FramePrefix(): seq<bv8> {
    DashBoundary() + Crlf() + Ascii("Content-Type: image/jpeg") + Crlf() + Crlf()
  }

  /** The chunk yielded for one encoded frame. */
  function Chunk(frame: seq<bv8>): seq<bv8> {
    FramePrefix() + frame + Crlf()
  }

  /** Recovers the frame from a chunk: the prefix and the final CRLF are stripped. */
  function ParseChunk(chunk: seq<bv8>): Option<seq<bv8>> {
    var p := |FramePrefix()|;
    if |chunk| >= p + 2 && chunk[..p] == FramePrefix() && chunk[|chunk| - 2..] == Crlf()
    then Some(chunk[p..|chunk| - 2])
    else None
  }

  /** The fixed part of a chunk is 39 bytes: 37 before the frame, 2 after it. */
  lemma ChunkLength(frame: seq<bv8>)
    ensures |FramePrefix()| == 37
    ensures |Chunk(frame)| == |frame| + 39
  {
  }

  /** Stripping the prefix and the trailing CRLF gives the frame back. */
  lemma ChunkRoundTrip(frame: seq<bv8>)
    ensures ParseChunk(Chunk(frame)) == Some(frame)
  {
    var c := Chunk(frame);
    var p := |FramePrefix()|;
    assert c[..p] == FramePrefix();
    assert c[|c| - 2..] == Crlf();
    assert c[p..|c| - 2] == frame;
  }

  /** A chunk that parses is exactly the chunk of the frame it parses to. */
  lemma ParseChunkExact(chunk: seq<bv8>, frame: seq<bv8>)
    requires ParseChunk(chunk) == Some(frame)
    ensures chunk == Chunk(frame)
  {
    var p := |FramePrefix()|;
    assert chunk == chunk[..p] + chunk[p..|chunk| - 2] + chunk[|chunk| - 2..];
  }

  /** Different frames give different chunks. */
  lemma ChunkInjective(a: seq<bv8>, b: seq<bv8>)
    requires a != b
    ensures Chunk(a) != Chunk(b)
  {
    ChunkRoundTrip(a);
    ChunkRoundTrip(b);
  }

  /** Every chunk opens with the dash-boundary `--frame` and its CRLF. */
  lemma ChunkOpensWithBoundary(frame: seq<bv8>)
    ensures Chunk(frame)[..7] == DashBoundary()
    ensures Chunk(frame)[7..9] == Crlf()
  {
  }

  /** Between two consecutive chunks of the stream stands the delimiter
      CRLF `--frame`: the first chunk's closing CRLF and the second's
      dash-boundary. */
  lemma DelimiterBetween(a: seq<bv8>, b: seq<bv8>)
    ensures (Chunk(a) + Chunk(b))[|Chunk(a)| - 2..|Chunk(a)| + 7] == Crlf() + DashBoundary()
  {
    var ca, cb := Chunk(a), Chunk(b);
    ChunkOpensWithBoundary(b);
    assert (ca + cb)[|ca| - 2..|ca|] == ca[|ca| - 2..] == Crlf();
    assert (ca + cb)[|ca|..|ca| + 7] == cb[..7];
    assert (ca + cb)[|ca| - 2..|ca| + 7] == (ca + cb)[|ca| - 2..|ca|] + (ca + cb)[|ca|..|ca| + 7];
  }
}
