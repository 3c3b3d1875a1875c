/**
 Docker's multiplexed log stream: frames of an 8-byte header (type, three ignored bytes, a
 big-endian 32-bit size) and a payload, taken apart into standard output and standard error.
 */
module DockerLogs {
  import opened Wrappers

  type Byte = b: int | 0 <= b < 256

  const WORD := 0x1_0000_0000

  // The three bytes after the type are never read.
  datatype Frame = Frame(kind: Byte, ignored: seq<Byte>, payload: seq<Byte>)

  predicate Whole(f: Frame) {
    |f.ignored| == 3 && |f.payload| < WORD
  }

  // io.EOF comes back as an error when the stream ends right after a header.
  datatype ReadError = EOF | UnexpectedEOF | Broken(message: string)

  // What a reader answers once its bytes are used up: io.EOF, or the error of a broken connection.
  type Ending = Option<string>

  datatype Streams = Streams(stdout: seq<Byte>, stderr: seq<Byte>)

  function BigEndian(b: seq<Byte>): nat
    requires |b| == 4
  {
    (b[0] as int) * 0x100_0000 + (b[1] as int) * 0x1_0000 + (b[2] as int) * 0x100 + b[3]
  }

  function SizeBytes(n: nat): seq<Byte>
    requires n < WORD
  {
    [n / 0x100_0000, n / 0x1_0000 % 0x100, n / 0x100 % 0x100, n % 0x100]
  }

  lemma SizeReadsBack(n: nat)
    requires n < WORD
    ensures BigEndian(SizeBytes(n)) == n
  {
    assert n / 0x1_0000 == n / 0x100 / 0x100;
    assert n / 0x100_0000 == n / 0x1_0000 / 0x100;
  }

  lemma SizeWritesBack(b: seq<Byte>)
    requires |b| == 4
    ensures BigEndian(b) < WORD && SizeBytes(BigEndian(b)) == b
  {
    var n := BigEndian(b);
    assert n / 0x1_0000 == (b[0] as int) * 0x100 + b[1];
    assert n / 0x100 == (b[0] as int) * 0x1_0000 + (b[1] as int) * 0x100 + b[2];
  }

  function Encode(f: Frame): seq<Byte>
    requires Whole(f)
  {
    [f.kind] + f.ignored + SizeBytes(|f.payload|) + f.payload
  }

  ghost predicate AllWhole(frames: seq<Frame>) {
    forall f | f in frames :: Whole(f)
  }

  ghost function EncodeAll(frames: seq<Frame>): seq<Byte>
    requires AllWhole(frames)
  {
    if frames == [] then [] else Encode(frames[0]) + EncodeAll(frames[1..])
  }

  // What the type-k frames carry, joined.
  function Joined(frames: seq<Frame>, kind: Byte): seq<Byte> {
    if frames == [] then []
    else (if frames[0].kind == kind then frames[0].payload else []) + Joined(frames[1..], kind)
  }

  // io.ReadFull for n bytes of what is left of the stream.
  function ReadFull(input: seq<Byte>, n: nat, end: Ending): Result<seq<Byte>, ReadError> {
    if |input| >= n then Ok(input[..n])
    else if end.Some? then Err(Broken(end.value))
    else if input == [] then Err(EOF)
    else Err(UnexpectedEOF)
  }

  // Frames read so far, and how reading goes on.
  function Before(done: seq<Frame>, rest: Result<seq<Frame>, ReadError>): Result<seq<Frame>, ReadError> {
    match rest
    case Err(e) => Err(e)
    case Ok(frames) => Ok(done + frames)
  }

  /** The frames a stream consists of, or how reading it ends. */
  function Frames(input: seq<Byte>, end: Ending): Result<seq<Frame>, ReadError> {
    match ReadFull(input, 8, end)
    case Err(EOF) => Ok([])
    case Err(e) => Err(e)
    case Ok(header) =>
      var size := BigEndian(header[4..8]);
      match ReadFull(input[8..], size, end)
      case Err(e) => Err(e)
      case Ok(payload) => Before([Frame(header[0], header[1..4], payload)], Frames(input[8 + size..], end))
  }

  function Demux(input: seq<Byte>, end: Ending): Result<Streams, ReadError> {
    match Frames(input, end)
    case Err(e) => Err(e)
    case Ok(frames) => Ok(Streams(Joined(frames, 1), Joined(frames, 2)))
  }

  // ------------------------------------------------------------ the reading loop

  // How reading starts: with the end, a bad header, a bad payload, or a first frame and the rest.
  lemma FramesStart(input: seq<Byte>, end: Ending)
    ensures var header := ReadFull(input, 8, end);
      && (header.Err? ==> Frames(input, end) == if header.error == EOF then Ok([]) else Err(header.error))
      && (header.Ok? ==> |input| >= 8 && |header.value| == 8)
  {
  }

  lemma FramesGoOn(input: seq<Byte>, end: Ending, header: seq<Byte>)
    requires ReadFull(input, 8, end) == Ok(header)
    ensures |input| >= 8 && |header| == 8
    ensures var payload := ReadFull(input[8..], BigEndian(header[4..8]), end);
      payload.Err? ==> Frames(input, end) == Err(payload.error)
    ensures var size := BigEndian(header[4..8]); ReadFull(input[8..], size, end).Ok? ==> |input| >= 8 + size
    ensures var size := BigEndian(header[4..8]); var payload := ReadFull(input[8..], size, end);
      payload.Ok? ==>
        Frames(input, end) == Before([Frame(header[0], header[1..4], payload.value)], Frames(input[8 + size..], end))
  {
  }

  lemma BeforeBefore(a: seq<Frame>, b: seq<Frame>, rest: Result<seq<Frame>, ReadError>)
    ensures Before(a, Before(b, rest)) == Before(a + b, rest)
    ensures Before([], rest) == rest
    ensures Before(a, Ok([])) == Ok(a)
  {
    if rest.Ok? {
      assert a + (b + rest.value) == a + b + rest.value;
      assert [] + rest.value == rest.value;
    }
    assert a + [] == a;
  }

  /** demuxLogs: each turn consumes at least a header; the outcome is the one of the frames. */
  method DemuxLogs(stream: seq<Byte>, end: Ending) returns (r: Result<Streams, ReadError>)
    ensures r == Demux(stream, end)
  {
    var stdout, stderr: seq<Byte> := [], [];
    var left := stream;
    ghost var done: seq<Frame> := [];
    BeforeBefore([], [], Frames(stream, end));
    assert Joined(done, 1) == Joined(done, 2) == [];
    hide Frames, Before, Joined;
    while true
      invariant stdout == Joined(done, 1) && stderr == Joined(done, 2)
      invariant Frames(stream, end) == Before(done, Frames(left, end))
      decreases |left|
    {
      FramesStart(left, end);
      var header := ReadFull(left, 8, end);
      if header.Err? {
        if header.error == EOF {
          break;
        }
        BeforeError(done, header.error);
        return Err(header.error);
      }
      FramesGoOn(left, end, header.value);
      var size := BigEndian(header.value[4..8]);
      var payload := ReadFull(left[8..], size, end);
      if payload.Err? {
        BeforeError(done, payload.error);
        return Err(payload.error);
      }
      ghost var f := Frame(header.value[0], header.value[1..4], payload.value);
      JoinedAppend(done, f, 1);
      JoinedAppend(done, f, 2);
      match header.value[0] {
        case 1 => stdout := stdout + payload.value;
        case 2 => stderr := stderr + payload.value;
        case _ =>
      }
      left := left[8 + size..];
      BeforeBefore(done, [f], Frames(left, end));
      done := done + [f];
    }
    BeforeBefore(done, [], Ok([]));
    r := Ok(Streams(stdout, stderr));
  }

  lemma BeforeError(done: seq<Frame>, e: ReadError)
    ensures Before(done, Err(e)) == Err(e)
  {
  }

  lemma JoinedAppend(frames: seq<Frame>, f: Frame, kind: Byte)
    ensures Joined(frames + [f], kind) == Joined(frames, kind) + (if f.kind == kind then f.payload else [])
  {
    JoinedConcat(frames, [f], kind);
    assert Joined([f], kind) == if f.kind == kind then f.payload else [];
  }

  // ------------------------------------------------------------ the results

  lemma FirstFrame(f: Frame, rest: seq<Byte>, end: Ending)
    requires Whole(f)
    ensures var input := Encode(f) + rest;
      && |Encode(f)| == 8 + |f.payload|
      && ReadFull(input, 8, end) == Ok([f.kind] + f.ignored + SizeBytes(|f.payload|))
      && BigEndian(input[..8][4..8]) == |f.payload|
      && input[8..] == f.payload + rest
      && input[8 + |f.payload|..] == rest
  {
    var input := Encode(f) + rest;
    SizeReadsBack(|f.payload|);
    assert input[..8] == [f.kind] + f.ignored + SizeBytes(|f.payload|);
    assert input[..8][4..8] == SizeBytes(|f.payload|);
  }

  lemma FrameThen(f: Frame, rest: seq<Byte>, end: Ending)
    requires Whole(f)
    ensures Frames(Encode(f) + rest, end) == Before([f], Frames(rest, end))
  {
    FirstFrame(f, rest, end);
    var header := [f.kind] + f.ignored + SizeBytes(|f.payload|);
    assert header[1..4] == f.ignored;
    assert (f.payload + rest)[..|f.payload|] == f.payload;
  }

  /** Reading undoes framing, and frames in front of any further input are read first. */
  lemma {:induction false} FramesOf(frames: seq<Frame>, rest: seq<Byte>, end: Ending)
    requires AllWhole(frames)
    ensures Frames(EncodeAll(frames) + rest, end) == Before(frames, Frames(rest, end))
  {
    hide Encode, Frames, Before;
    if frames == [] {
      assert EncodeAll(frames) + rest == rest;
      BeforeBefore([], [], Frames(rest, end));
    } else {
      var tail := EncodeAll(frames[1..]) + rest;
      assert EncodeAll(frames) + rest == Encode(frames[0]) + tail;
      FramesOf(frames[1..], rest, end);
      FrameThen(frames[0], tail, end);
      BeforeBefore([frames[0]], frames[1..], Frames(rest, end));
      assert [frames[0]] + frames[1..] == frames;
    }
  }

  lemma DemuxUndoesFraming(frames: seq<Frame>)
    requires AllWhole(frames)
    ensures Demux(EncodeAll(frames), None) == Ok(Streams(Joined(frames, 1), Joined(frames, 2)))
  {
    FramesOf(frames, [], None);
    assert EncodeAll(frames) + [] == EncodeAll(frames) && frames + [] == frames;
  }

  lemma FirstFrameEncodesBack(input: seq<Byte>, size: nat)
    requires |input| >= 8 + size && size == BigEndian(input[4..8])
    ensures var f := Frame(input[0], input[1..4], input[8..8 + size]);
      Whole(f) && Encode(f) + input[8 + size..] == input
  {
    SizeWritesBack(input[4..8]);
  }

  /**
   The layout, byte by byte: the type first, the size in the last four bytes of the header, most
   significant first, then the payload; type 1 is standard output, type 2 standard error.
   */
  lemma OneFrame(kind: Byte, p: Byte, q: Byte, r: Byte, w: Byte, x: Byte, y: Byte, z: Byte, payload: seq<Byte>)
    requires |payload| == ((w as int * 256 + x) * 256 + y) * 256 + z
    ensures Demux([kind, p, q, r, w, x, y, z] + payload, None)
         == Ok(Streams(if kind == 1 then payload else [], if kind == 2 then payload else []))
  {
    var f := Frame(kind, [p, q, r], payload);
    SizeWritesBack([w, x, y, z]);
    assert BigEndian([w, x, y, z]) == |payload|;
    assert [kind] + [p, q, r] + [w, x, y, z] == [kind, p, q, r, w, x, y, z];
    assert Encode(f) == [kind, p, q, r, w, x, y, z] + payload;
    hide Encode, BigEndian;
    assert [f][1..] == [];
    assert EncodeAll([f]) == Encode(f) + EncodeAll([]) == Encode(f);
    DemuxUndoesFraming([f]);
    JoinedAppend([], f, 1);
    JoinedAppend([], f, 2);
    assert [] + [f] == [f] && [] + payload == payload;
  }

  // A stream that is read to its end is the encoding of what was read.
  lemma {:induction false} FramesEncodeBack(input: seq<Byte>, end: Ending)
    requires Frames(input, end).Ok?
    ensures end.None? && AllWhole(Frames(input, end).value) && EncodeAll(Frames(input, end).value) == input
    decreases |input|
  {
    FramesStart(input, end);
    if input != [] {
      var header := ReadFull(input, 8, end).value;
      assert header[4..8] == input[4..8] && header[1..4] == input[1..4] && header[0] == input[0];
      var size := BigEndian(input[4..8]);
      FramesGoOn(input, end, header);
      assert input[8..][..size] == input[8..8 + size];
      var f, rest := Frame(input[0], input[1..4], input[8..8 + size]), Frames(input[8 + size..], end);
      assert Frames(input, end).value == [f] + rest.value;
      FirstFrameEncodesBack(input, size);
      hide Frames, BigEndian, Encode, ReadFull;
      FramesEncodeBack(input[8 + size..], end);
      assert ([f] + rest.value)[1..] == rest.value;
    }
  }

  /** Demultiplexing succeeds exactly on concatenations of whole frames that end without an error. */
  lemma SucceedsExactlyOnFrames(input: seq<Byte>, end: Ending)
    ensures Demux(input, end).Ok? <==> end.None? && exists frames :: AllWhole(frames) && EncodeAll(frames) == input
  {
    if Demux(input, end).Ok? {
      FramesEncodeBack(input, end);
    }
    if frames :| AllWhole(frames) && EncodeAll(frames) == input {
      DemuxUndoesFraming(frames);
    }
  }

  lemma {:induction false} JoinedConcat(a: seq<Frame>, b: seq<Frame>, kind: Byte)
    ensures Joined(a + b, kind) == Joined(a, kind) + Joined(b, kind)
  {
    if a == [] {
      assert a + b == b;
    } else {
      assert (a + b)[1..] == a[1..] + b;
      JoinedConcat(a[1..], b, kind);
    }
  }

  /** It distributes over concatenation of inputs that consist of whole frames. */
  lemma DemuxConcat(a: seq<Byte>, b: seq<Byte>)
    requires Demux(a, None).Ok? && Demux(b, None).Ok?
    ensures var x, y := Demux(a, None).value, Demux(b, None).value;
      Demux(a + b, None) == Ok(Streams(x.stdout + y.stdout, x.stderr + y.stderr))
  {
    FramesEncodeBack(a, None);
    FramesOf(Frames(a, None).value, b, None);
    JoinedConcat(Frames(a, None).value, Frames(b, None).value, 1);
    JoinedConcat(Frames(a, None).value, Frames(b, None).value, 2);
  }

  /**
   A stream cut inside a frame is refused: with the connection's error if it broke, with io.EOF
   when it ends right after the header of a frame that has a payload, else with io.ErrUnexpectedEOF.
   */
  lemma TruncationIsRejected(frames: seq<Frame>, f: Frame, cut: nat, end: Ending)
    requires AllWhole(frames) && Whole(f) && 0 < cut < |Encode(f)|
    ensures Demux(EncodeAll(frames) + Encode(f)[..cut], end)
         == Err(if end.Some? then Broken(end.value) else if cut == 8 then EOF else UnexpectedEOF)
  {
    var left := Encode(f)[..cut];
    FramesOf(frames, left, end);
    FirstFrame(f, [], end);
    assert Encode(f) + [] == Encode(f);
    if cut >= 8 {
      assert left[..8] == Encode(f)[..8];
      assert left[8..] == f.payload[..cut - 8];
    }
  }
}
