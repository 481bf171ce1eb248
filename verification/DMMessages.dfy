/**
 What the connection does with decoded frames.  The payload buffer outlives the
 frame it was read for: only the two session messages drain it.
 */
module DMMessages {
  import opened DMFraming

  datatype Delivery = Active(name: seq<byte>) | Next(name: seq<byte>)

  /** The payload buffer, the names handed to the message handler, and the bytes sent. */
  datatype Connection = Connection(buffer: seq<byte>, delivered: seq<Delivery>, output: seq<byte>)

  predicate NamesSession(f: Frame) {
    f.id == SET_ACTIVE_SESSION || f.id == SET_NEXT_SESSION
  }

  function Deliver(id: nat, name: seq<byte>): Delivery {
    if id == SET_ACTIVE_SESSION then Active(name) else Next(name)
  }

  function Handle(c: Connection, f: Frame): Connection {
    var read := c.(buffer := c.buffer + f.payload);
    if f.id == PING then read.(output := c.output + Encode(Frame(PONG, [])))
    else if NamesSession(f) then
      read.(buffer := [], delivered := c.delivered + [Deliver(f.id, read.buffer)])
    else read
  }

  function HandleAll(c: Connection, frames: seq<Frame>): Connection {
    if frames == [] then c
    else Handle(HandleAll(c, frames[..|frames| - 1]), frames[|frames| - 1])
  }

  lemma HandleLast(c: Connection, frames: seq<Frame>, f: Frame)
    ensures HandleAll(c, frames + [f]) == Handle(HandleAll(c, frames), f)
  {
  }

  /** The connection once it has announced itself. */
  const Started := Connection([], [], Encode(Frame(READY, [])))

  function Payloads(frames: seq<Frame>): seq<byte> {
    if frames == [] then [] else Payloads(frames[..|frames| - 1]) + frames[|frames| - 1].payload
  }

  // ---------------------------------------------------------------- names

  /** The frames since the last one that named a session leave their payloads in the buffer. */
  lemma {:induction false} BufferHolds(c: Connection, frames: seq<Frame>, j: nat)
    requires j <= |frames|
    requires forall i :: j <= i < |frames| ==> !NamesSession(frames[i])
    requires if j == 0 then c.buffer == [] else NamesSession(frames[j - 1])
    ensures HandleAll(c, frames).buffer == Payloads(frames[j..])
    ensures HandleAll(c, frames).delivered == HandleAll(c, frames[..j]).delivered
    decreases |frames|
  {
    if |frames| == j {
      assert frames[..j] == frames;
    } else {
      var n := |frames| - 1;
      BufferHolds(c, frames[..n], j);
      assert frames[..n][j..] == frames[j..][..n - j];
      assert frames[..n][..j] == frames[..j];
    }
  }

  /** The messages that name a session are those with ids 4 and 5. */
  predicate Naming(f: Frame) {
    f.id == 4 || f.id == 5
  }

  lemma HandleDelivers(c: Connection, f: Frame)
    ensures var name := c.buffer + f.payload;
      Handle(c, f).delivered ==
        c.delivered + if f.id == 4 then [Active(name)] else if f.id == 5 then [Next(name)] else []
  {
  }

  /**
   A message with id 4 hands over the active session's name, one with id 5 the
   next one's: the concatenation of all payloads since the previous such message.
   No other message hands anything over.
   */
  lemma NameIsPayloadsSincePrevious(frames: seq<Frame>, j: nat, k: nat)
    requires j <= k < |frames|
    requires j == 0 || Naming(frames[j - 1])
    requires forall i :: j <= i < k ==> !Naming(frames[i])
    ensures var name := Payloads(frames[j..k + 1]);
      HandleAll(Started, frames[..k + 1]).delivered ==
        HandleAll(Started, frames[..j]).delivered
        + if frames[k].id == 4 then [Active(name)] else if frames[k].id == 5 then [Next(name)] else []
  {
    assert frames[..k + 1] == frames[..k] + [frames[k]];
    HandleLast(Started, frames[..k], frames[k]);
    HandleDelivers(HandleAll(Started, frames[..k]), frames[k]);
    assert forall f: Frame :: Naming(f) == NamesSession(f);
    BufferHolds(Started, frames[..k], j);
    assert frames[..k][..j] == frames[..j];
    assert frames[..k][j..] == frames[j..k + 1][..k - j];
  }

  lemma {:induction false} EmptyPayloads(frames: seq<Frame>)
    requires forall i :: 0 <= i < |frames| ==> frames[i].payload == []
    ensures Payloads(frames) == []
  {
    if frames != [] {
      EmptyPayloads(frames[..|frames| - 1]);
    }
  }

  lemma OwnPayload(before: seq<Frame>, f: Frame)
    requires forall i :: 0 <= i < |before| ==> before[i].payload == []
    ensures Payloads(before + [f]) == f.payload
  {
    EmptyPayloads(before);
    assert (before + [f])[..|before|] == before;
    assert [] + f.payload == f.payload;
  }

  /** If the frames in between carry no payload, the name is the message's own payload. */
  lemma NameIsOwnPayload(frames: seq<Frame>, j: nat, k: nat)
    requires j <= k < |frames| && Naming(frames[k])
    requires j == 0 || Naming(frames[j - 1])
    requires forall i :: j <= i < k ==> !Naming(frames[i]) && frames[i].payload == []
    ensures HandleAll(Started, frames[..k + 1]).delivered ==
      HandleAll(Started, frames[..j]).delivered
      + [if frames[k].id == 4 then Active(frames[k].payload) else Next(frames[k].payload)]
  {
    NameIsPayloadsSincePrevious(frames, j, k);
    assert frames[j..k + 1] == frames[j..k] + [frames[k]];
    OwnPayload(frames[j..k], frames[k]);
  }

  // ---------------------------------------------------------------- conservation

  function Names(delivered: seq<Delivery>): seq<byte> {
    if delivered == [] then [] else Names(delivered[..|delivered| - 1]) + delivered[|delivered| - 1].name
  }

  /** Every payload byte read is delivered or still buffered, once and in order, so that the numbers of bytes add up. */
  lemma {:induction false} PayloadIsConserved(frames: seq<Frame>)
    ensures var c := HandleAll(Started, frames);
      && Names(c.delivered) + c.buffer == Payloads(frames)
      && |Names(c.delivered)| + |c.buffer| == |Payloads(frames)|
  {
    if frames != [] {
      var n := |frames| - 1;
      PayloadIsConserved(frames[..n]);
      var c := HandleAll(Started, frames[..n]);
      var r := Handle(c, frames[n]);
      assert Names(c.delivered) + (c.buffer + frames[n].payload) == Names(c.delivered) + c.buffer + frames[n].payload;
      if NamesSession(frames[n]) {
        assert r.delivered[..|c.delivered|] == c.delivered;
      }
    }
  }

  // ---------------------------------------------------------------- replies

  /** One empty message with id 1 for each message with id 0. */
  function Pongs(frames: seq<Frame>): seq<Frame> {
    if frames == [] then []
    else
      Pongs(frames[..|frames| - 1])
      + if frames[|frames| - 1].id == 0 then [Frame(1, [])] else []
  }

  lemma {:induction false} EncodeAllSplit(a: seq<Frame>, b: seq<Frame>)
    ensures EncodeAll(a + b) == EncodeAll(a) + EncodeAll(b)
    decreases |a|
  {
    if a == [] {
      assert a + b == b;
    } else {
      assert (a + b)[1..] == a[1..] + b;
      EncodeAllSplit(a[1..], b);
    }
  }

  lemma EncodeOne(f: Frame)
    ensures EncodeAll([f]) == Encode(f)
  {
  }

  lemma {:induction false} OutputIsEncoded(frames: seq<Frame>)
    ensures HandleAll(Started, frames).output == EncodeAll([Frame(READY, [])] + Pongs(frames))
  {
    EncodeOne(Frame(READY, []));
    if frames == [] {
      assert [Frame(READY, [])] + Pongs(frames) == [Frame(READY, [])];
    } else {
      var n := |frames| - 1;
      OutputIsEncoded(frames[..n]);
      var sent := [Frame(READY, [])] + Pongs(frames[..n]);
      if frames[n].id == PING {
        EncodeOne(Frame(PONG, []));
        EncodeAllSplit(sent, [Frame(PONG, [])]);
        assert [Frame(READY, [])] + Pongs(frames) == sent + [Frame(PONG, [])];
      } else {
        assert Pongs(frames) == Pongs(frames[..n]);
      }
    }
  }

  lemma {:induction false} PongsAreEmpty(frames: seq<Frame>)
    ensures forall k :: 0 <= k < |Pongs(frames)| ==> Pongs(frames)[k] == Frame(1, [])
  {
    if frames != [] {
      PongsAreEmpty(frames[..|frames| - 1]);
    }
  }

  /** The display manager decodes what is sent to it as one ready (id 2), then one pong (id 1) for each ping (id 0). */
  lemma OutputDecodes(frames: seq<Frame>)
    ensures FeedAll(Start, HandleAll(Started, frames).output) ==
      Decoder(InHeader([]), [Frame(2, [])] + Pongs(frames))
  {
    var sent := [Frame(2, [])] + Pongs(frames);
    OutputIsEncoded(frames);
    PongsAreEmpty(frames);
    FeedFramesExactly([], sent);
    assert [] + sent == sent;
  }

  /**
   From byte stream to byte stream: however the encoded frames are cut into
   chunks, their payloads end up delivered or buffered, once and in order, and
   each ping among them is answered.
   */
  lemma {:induction false} EndToEnd(frames: seq<Frame>, chunks: seq<seq<byte>>)
    requires forall k :: 0 <= k < |frames| ==> Fits(frames[k])
    requires Flatten(chunks) == EncodeAll(frames)
    ensures var c := HandleAll(Started, FeedChunks(Start, chunks).frames);
      && Names(c.delivered) + c.buffer == Payloads(frames)
      && FeedAll(Start, c.output) == Decoder(InHeader([]), [Frame(2, [])] + Pongs(frames))
  {
    RoundTripExactly(frames, chunks);
    PayloadIsConserved(frames);
    OutputDecodes(frames);
  }
}
