/** The connection object: header array, payload buffer and write buffer, reused from frame to frame. */
module AsioDMConnections {
  import opened DMFraming
  import opened DMMessages

  class AsioDMConnection {
    const header: array<byte>
    var headerFill: nat        // bytes of the header read so far
    var payloadLeft: nat       // bytes of the payload still to be read
    var payloadBuffer: seq<byte>
    var writeBuffer: seq<byte>
    var toDm: seq<byte>        // everything written to the display manager
    var delivered: seq<Delivery>

    ghost var decoder: Decoder     // the bytes received, as the decoder sees them
    ghost var carried: seq<byte>   // what earlier frames left in the payload buffer

    ghost predicate Reading()
      reads this, header
    {
      && header.Length == 4
      && decoder.position.Valid()
      && match decoder.position
         case InHeader(got) =>
           headerFill == |got| && header[..headerFill] == got && payloadLeft == 0 && payloadBuffer == carried
         case InPayload(h, got) =>
           && headerFill == 4 && header[..] == h
           && |got| + payloadLeft == Number(h[2], h[3])
           && payloadBuffer == carried + got
    }

    /** The effects so far are those of handling the frames received so far. */
    ghost predicate Valid()
      reads this, header
    {
      Reading() && Connection(carried, delivered, toDm) == HandleAll(Started, decoder.frames)
    }

    /** Construction and start: ready is sent, and a header is awaited. */
    constructor ()
      ensures Valid() && fresh(header) && decoder == Start
    {
      header := new byte[4];
      headerFill, payloadLeft := 0, 0;
      payloadBuffer, writeBuffer, toDm, delivered := [], [], [], [];
      decoder, carried := Start, [];
      new;
      Send(READY, []);
      assert [] + Encode(Frame(READY, [])) == Encode(Frame(READY, []));
    }

    /** Bytes arrive from the display manager. */
    method Receive(chunk: seq<byte>)
      requires Valid()
      modifies this, header
      ensures Valid() && decoder == FeedAll(old(decoder), chunk)
    {
      for i := 0 to |chunk|
        invariant Valid()
        invariant decoder == FeedAll(old(decoder), chunk[..i])
      {
        ReceiveByte(chunk[i]);
        assert chunk[..i + 1] == chunk[..i] + [chunk[i]];
        FeedSplit(old(decoder), chunk[..i], [chunk[i]]);
        FeedOne(FeedAll(old(decoder), chunk[..i]), chunk[i]);
      }
      assert chunk[..|chunk|] == chunk;
    }

    method ReceiveByte(b: byte)
      requires Valid()
      modifies this, header
      ensures Valid() && decoder == Feed(old(decoder), b)
    {
      ghost var before := decoder;
      decoder := Feed(decoder, b);
      if headerFill < 4 {
        header[headerFill] := b;
        headerFill := headerFill + 1;
        assert header[..headerFill] == before.position.got + [b];
        if headerFill == 4 {
          assert header[..] == header[..headerFill];
          OnReadHeader(before.frames);
        }
      } else {
        payloadBuffer := payloadBuffer + [b];
        payloadLeft := payloadLeft - 1;
        assert payloadBuffer == carried + (before.position.got + [b]);
        if payloadLeft == 0 {
          OnReadPayload(before.frames, before.position.got + [b]);
        }
      }
    }

    /** A complete header asks for as many payload bytes as it announces, perhaps none. */
    method OnReadHeader(ghost frames: seq<Frame>)
      requires header.Length == 4 && headerFill == 4 && payloadLeft == 0 && payloadBuffer == carried
      requires Connection(carried, delivered, toDm) == HandleAll(Started, frames)
      requires decoder == if Number(header[2], header[3]) == 0
        then Decoder(InHeader([]), frames + [Frame(Number(header[0], header[1]), [])])
        else Decoder(InPayload(header[..], []), frames)
      modifies this
      ensures Valid() && decoder == old(decoder)
    {
      payloadLeft := Number(header[2], header[3]);
      if payloadLeft == 0 {
        assert payloadBuffer == carried + [];
        OnReadPayload(frames, []);
      }
    }

    method OnReadPayload(ghost frames: seq<Frame>, ghost payload: seq<byte>)
      requires header.Length == 4 && payloadLeft == 0 && payloadBuffer == carried + payload
      requires Connection(carried, delivered, toDm) == HandleAll(Started, frames)
      requires decoder == Decoder(InHeader([]), frames + [Frame(Number(header[0], header[1]), payload)])
      modifies this
      ensures Valid() && decoder == old(decoder)
    {
      var id := Number(header[0], header[1]);
      if id == PING {
        Send(PONG, []);
      } else if id == SET_ACTIVE_SESSION {
        delivered := delivered + [Active(payloadBuffer)];
        payloadBuffer := [];
      } else if id == SET_NEXT_SESSION {
        delivered := delivered + [Next(payloadBuffer)];
        payloadBuffer := [];
      }
      carried := payloadBuffer;
      HandleLast(Started, frames, Frame(id, payload));
      headerFill := 0;
    }

    method Send(id: nat, body: seq<byte>)
      modifies this`writeBuffer, this`toDm
      ensures toDm == old(toDm) + Encode(Frame(id, body))
      ensures writeBuffer == Encode(Frame(id, body))
    {
      writeBuffer := [id / 256 % 256, id % 256, |body| / 256 % 256, |body| % 256] + body;
      toDm := toDm + writeBuffer;
    }
  }
}
