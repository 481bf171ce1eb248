/**
 The display manager's wire format: frames of a two-byte id, a two-byte length
 (both big-endian) and a payload, encoded at one end and decoded byte by byte at
 the other.
 */
module DMFraming {

  type byte = b: int | 0 <= b < 256

  datatype Frame = Frame(id: nat, payload: seq<byte>)

  const PING := 0
  const PONG := 1
  const READY := 2
  const SET_ACTIVE_SESSION := 4
  const SET_NEXT_SESSION := 5

  /** The two low bytes of a number, high byte first: larger numbers are cut off. */
  function TwoBytes(n: nat): seq<byte> {
    [n / 256 % 256, n % 256]
  }

  function Number(high: byte, low: byte): nat {
    high * 256 + low
  }

  function Encode(f: Frame): seq<byte> {
    TwoBytes(f.id) + TwoBytes(|f.payload|) + f.payload
  }

  function EncodeAll(frames: seq<Frame>): seq<byte> {
    if frames == [] then [] else Encode(frames[0]) + EncodeAll(frames[1..])
  }

  // ---------------------------------------------------------------- the decoder

  /** How far the current frame has been read. */
  datatype Position =
    | InHeader(got: seq<byte>)
    | InPayload(header: seq<byte>, got: seq<byte>)
  {
    predicate Valid() {
      match this
      case InHeader(got) => |got| < 4
      case InPayload(header, got) => |header| == 4 && |got| < Number(header[2], header[3])
    }
  }

  datatype Decoder = Decoder(position: Position, frames: seq<Frame>)

  const Start := Decoder(InHeader([]), [])

  function Feed(d: Decoder, b: byte): (r: Decoder)
    requires d.position.Valid()
    ensures r.position.Valid()
  {
    match d.position
    case InHeader(got) =>
      var header := got + [b];
      if |header| < 4 then d.(position := InHeader(header))
      else if Number(header[2], header[3]) == 0 then
        Decoder(InHeader([]), d.frames + [Frame(Number(header[0], header[1]), [])])
      else d.(position := InPayload(header, []))
    case InPayload(header, got) =>
      var payload := got + [b];
      if |payload| < Number(header[2], header[3]) then d.(position := InPayload(header, payload))
      else Decoder(InHeader([]), d.frames + [Frame(Number(header[0], header[1]), payload)])
  }

  function FeedAll(d: Decoder, bytes: seq<byte>): (r: Decoder)
    requires d.position.Valid()
    ensures r.position.Valid()
    decreases |bytes|
  {
    if bytes == [] then d else FeedAll(Feed(d, bytes[0]), bytes[1..])
  }

  /** Bytes arrive in chunks of any size, the empty one included. */
  function FeedChunks(d: Decoder, chunks: seq<seq<byte>>): (r: Decoder)
    requires d.position.Valid()
    ensures r.position.Valid()
    decreases |chunks|
  {
    if chunks == [] then d else FeedChunks(FeedAll(d, chunks[0]), chunks[1..])
  }

  function Flatten(chunks: seq<seq<byte>>): seq<byte>
    decreases |chunks|
  {
    if chunks == [] then [] else chunks[0] + Flatten(chunks[1..])
  }

  lemma {:induction false} FeedSplit(d: Decoder, a: seq<byte>, b: seq<byte>)
    requires d.position.Valid()
    ensures FeedAll(d, a + b) == FeedAll(FeedAll(d, a), b)
    decreases |a|
  {
    if a == [] {
      assert a + b == b;
    } else {
      assert (a + b)[1..] == a[1..] + b;
      FeedSplit(Feed(d, a[0]), a[1..], b);
    }
  }

  lemma {:induction false} ChunksDoNotMatter(d: Decoder, chunks: seq<seq<byte>>)
    requires d.position.Valid()
    ensures FeedChunks(d, chunks) == FeedAll(d, Flatten(chunks))
    decreases |chunks|
  {
    if chunks != [] {
      FeedSplit(d, chunks[0], Flatten(chunks[1..]));
      ChunksDoNotMatter(FeedAll(d, chunks[0]), chunks[1..]);
    }
  }

  // ---------------------------------------------------------------- one frame

  lemma FeedHeader(frames: seq<Frame>, header: seq<byte>)
    requires |header| == 4
    ensures FeedAll(Decoder(InHeader([]), frames), header) ==
      if Number(header[2], header[3]) == 0 then
        Decoder(InHeader([]), frames + [Frame(Number(header[0], header[1]), [])])
      else Decoder(InPayload(header, []), frames)
  {
    var d := Decoder(InHeader([]), frames);
    assert header == [header[0], header[1], header[2]] + [header[3]];
    FeedSplit(d, [header[0], header[1], header[2]], [header[3]]);
    FeedSplit(d, [header[0], header[1]], [header[2]]);
    FeedSplit(d, [header[0]], [header[1]]);
    assert [header[0], header[1]] == [header[0]] + [header[1]];
    assert [header[0], header[1], header[2]] == [header[0], header[1]] + [header[2]];
    forall e: Decoder, b: byte | e.position.Valid() ensures FeedAll(e, [b]) == Feed(e, b) {
      FeedOne(e, b);
    }
  }

  lemma FeedOne(d: Decoder, b: byte)
    requires d.position.Valid()
    ensures FeedAll(d, [b]) == Feed(d, b)
  {
  }

  lemma {:induction false} FeedPayload(header: seq<byte>, frames: seq<Frame>, got: seq<byte>, rest: seq<byte>)
    requires |header| == 4 && rest != []
    requires |got| + |rest| == Number(header[2], header[3])
    ensures FeedAll(Decoder(InPayload(header, got), frames), rest) ==
      Decoder(InHeader([]), frames + [Frame(Number(header[0], header[1]), got + rest)])
    decreases |rest|
  {
    var d := Decoder(InPayload(header, got), frames);
    if |rest| == 1 {
      assert rest == [rest[0]];
      FeedOne(d, rest[0]);
    } else {
      assert got + rest == got + [rest[0]] + rest[1..];
      FeedPayload(header, frames, got + [rest[0]], rest[1..]);
    }
  }

  /** What the decoder makes of an encoded frame: neither field has room for more than 65535. */
  lemma FeedFrame(frames: seq<Frame>, f: Frame)
    ensures var cut := |f.payload| % 65536;
      FeedAll(Decoder(InHeader([]), frames), Encode(f)) ==
      FeedAll(Decoder(InHeader([]), frames + [Frame(f.id % 65536, f.payload[..cut])]), f.payload[cut..])
  {
    var header := TwoBytes(f.id) + TwoBytes(|f.payload|);
    var d := Decoder(InHeader([]), frames);
    LowBytes(f.id);
    LowBytes(|f.payload|);
    FeedHeader(frames, header);
    assert Encode(f) == header + f.payload;
    FeedSplit(d, header, f.payload);
    CutPayload(frames, header, f);
  }

  lemma CutPayload(frames: seq<Frame>, header: seq<byte>, f: Frame)
    requires |header| == 4 && Number(header[0], header[1]) == f.id % 65536
    requires Number(header[2], header[3]) == |f.payload| % 65536
    ensures var cut := |f.payload| % 65536;
      FeedAll(FeedAll(Decoder(InHeader([]), frames), header), f.payload) ==
      FeedAll(Decoder(InHeader([]), frames + [Frame(f.id % 65536, f.payload[..cut])]), f.payload[cut..])
  {
    var cut := |f.payload| % 65536;
    FeedHeader(frames, header);
    if cut == 0 {
      assert f.payload[cut..] == f.payload && f.payload[..cut] == [];
    } else {
      assert f.payload == f.payload[..cut] + f.payload[cut..];
      FeedSplit(Decoder(InPayload(header, []), frames), f.payload[..cut], f.payload[cut..]);
      FeedPayload(header, frames, [], f.payload[..cut]);
      assert [] + f.payload[..cut] == f.payload[..cut];
    }
  }

  lemma LowBytes(n: nat)
    ensures Number(TwoBytes(n)[0], TwoBytes(n)[1]) == n % 65536
  {
  }

  // ---------------------------------------------------------------- round trips

  predicate Fits(f: Frame) {
    f.id < 65536 && |f.payload| < 65536
  }

  /** On the wire: the id and the length of the payload, high byte first, and then the payload. */
  lemma WireFormat(f: Frame)
    requires Fits(f)
    ensures var bytes := Encode(f);
      && |bytes| == 4 + |f.payload|
      && bytes[0] as int * 256 + bytes[1] as int == f.id
      && bytes[2] as int * 256 + bytes[3] as int == |f.payload|
      && bytes[4..] == f.payload
  {
    assert Encode(f) == [f.id / 256 % 256, f.id % 256, |f.payload| / 256 % 256, |f.payload| % 256] + f.payload;
  }

  lemma {:induction false} FramesGrow(d: Decoder, bytes: seq<byte>)
    requires d.position.Valid()
    ensures d.frames <= FeedAll(d, bytes).frames
    decreases |bytes|
  {
    if bytes != [] {
      FramesGrow(Feed(d, bytes[0]), bytes[1..]);
    }
  }

  /** A frame that does not fit is read as another one, whatever follows it. */
  lemma Misread(before: seq<Frame>, f: Frame, rest: seq<byte>)
    requires !Fits(f)
    ensures var frames := FeedAll(FeedAll(Decoder(InHeader([]), before), Encode(f)), rest).frames;
      |before| < |frames| && frames[|before|] != f
  {
    var cut := |f.payload| % 65536;
    var read := Frame(f.id % 65536, f.payload[..cut]);
    var d := Decoder(InHeader([]), before + [read]);
    FeedFrame(before, f);
    FramesGrow(d, f.payload[cut..]);
    FramesGrow(FeedAll(d, f.payload[cut..]), rest);
    assert (before + [read])[|before|] == read;
  }

  lemma {:induction false} FeedFramesExactly(before: seq<Frame>, frames: seq<Frame>)
    ensures FeedAll(Decoder(InHeader([]), before), EncodeAll(frames)) == Decoder(InHeader([]), before + frames) <==>
      forall k :: 0 <= k < |frames| ==> Fits(frames[k])
    decreases |frames|
  {
    if frames == [] {
      assert before + frames == before;
    } else {
      var f, d := frames[0], Decoder(InHeader([]), before);
      FeedSplit(d, Encode(f), EncodeAll(frames[1..]));
      if Fits(f) {
        FeedFrame(before, f);
        assert f.payload[..|f.payload|] == f.payload && f.payload[|f.payload|..] == [];
        FeedFramesExactly(before + [f], frames[1..]);
        assert before + [f] + frames[1..] == before + frames;
        assert frames == [f] + frames[1..];
      } else {
        Misread(before, f, EncodeAll(frames[1..]));
        assert (before + frames)[|before|] == f;
      }
    }
  }

  /**
   However the byte stream is cut into chunks, the frames sent come back exactly
   if and only if each of them has an id and a length of at most 65535.
   */
  lemma {:induction false} RoundTripExactly(frames: seq<Frame>, chunks: seq<seq<byte>>)
    requires Flatten(chunks) == EncodeAll(frames)
    ensures FeedChunks(Start, chunks) == Decoder(InHeader([]), frames) <==>
      forall k :: 0 <= k < |frames| ==> Fits(frames[k])
  {
    ChunksDoNotMatter(Start, chunks);
    FeedFramesExactly([], frames);
    assert [] + frames == frames;
  }
}
