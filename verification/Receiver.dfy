/** The Pico's line framing (`_consume` in pico/code.py). */
module Receiver {
  const MAX_LINE_BYTES: nat := 1024
  const NEWLINE: bv8 := 10

  /** What the receiver hands on for one newline. */
  datatype Framed = LineIn(line: seq<bv8>) | LineTooLong

  /** The bytes after the last newline. */
  function Unfinished(stream: seq<bv8>): (r: seq<bv8>)
    ensures NEWLINE !in r
  {
    if stream == [] || stream[|stream| - 1] == NEWLINE then []
    else Unfinished(stream[..|stream| - 1]) + [stream[|stream| - 1]]
  }

  /** What one newline-terminated segment is worth. */
  function FrameOf(segment: seq<bv8>): seq<Framed> {
    if segment == [] then []
    else if |segment| <= MAX_LINE_BYTES then [LineIn(segment)]
    else [LineTooLong]
  }

  /** What a whole stream is worth, however it is cut into reads. */
  function Frames(stream: seq<bv8>): seq<Framed> {
    if stream == [] then []
    else
      var before := stream[..|stream| - 1];
      if stream[|stream| - 1] == NEWLINE then Frames(before) + FrameOf(Unfinished(before)) else Frames(before)
  }

  function Joined(segments: seq<seq<bv8>>): seq<bv8> {
    if segments == [] then []
    else Joined(segments[..|segments| - 1]) + segments[|segments| - 1] + [NEWLINE]
  }

  function AllFrames(segments: seq<seq<bv8>>): seq<Framed> {
    if segments == [] then [] else AllFrames(segments[..|segments| - 1]) + FrameOf(segments[|segments| - 1])
  }

  lemma {:induction false} SegmentIsUnfinished(stream: seq<bv8>, segment: seq<bv8>)
    requires NEWLINE !in segment && Unfinished(stream) == []
    ensures Unfinished(stream + segment) == segment
    ensures Frames(stream + segment) == Frames(stream)
  {
    if segment == [] {
      assert stream + segment == stream;
    } else {
      var n := |segment| - 1;
      var whole := stream + segment;
      assert whole[..|whole| - 1] == stream + segment[..n];
      SegmentIsUnfinished(stream, segment[..n]);
      assert segment[n] in segment;
    }
  }

  /** Framing inverts joining: exactly the non-empty lines within the bound are
      delivered, an overlong one only as a complaint, in order. */
  lemma {:induction false} FramesOfJoined(segments: seq<seq<bv8>>)
    requires forall segment :: segment in segments ==> NEWLINE !in segment
    ensures Frames(Joined(segments)) == AllFrames(segments)
    ensures Unfinished(Joined(segments)) == []
  {
    if segments != [] {
      var n := |segments| - 1;
      FramesOfJoined(segments[..n]);
      SegmentIsUnfinished(Joined(segments[..n]), segments[n]);
      var whole := Joined(segments);
      assert whole[..|whole| - 1] == Joined(segments[..n]) + segments[n];
    }
  }

  class LineReceiver {
    var receiveBuffer: seq<bv8>
    var discarding: bool
    ghost var received: seq<bv8>
    ghost var delivered: seq<Framed>

    /** The buffer never exceeds the bound and everything so far was framed right. */
    ghost predicate Valid()
      reads this
    {
      && delivered == Frames(received)
      && |receiveBuffer| <= MAX_LINE_BYTES
      && (if discarding then receiveBuffer == [] && |Unfinished(received)| > MAX_LINE_BYTES
          else receiveBuffer == Unfinished(received))
    }

    constructor ()
      ensures Valid() && received == [] && delivered == []
    {
      receiveBuffer, discarding, received, delivered := [], false, [], [];
    }

    method Consume(data: seq<bv8>) returns (framed: seq<Framed>)
      requires Valid()
      modifies this
      ensures Valid()
      ensures received == old(received) + data
      ensures delivered == old(delivered) + framed
    {
      framed := [];
      for i := 0 to |data|
        invariant Valid()
        invariant received == old(received) + data[..i]
        invariant delivered == old(delivered) + framed
      {
        var b := data[i];
        ghost var before := received;
        received := received + [b];
        assert received[..|received| - 1] == before;
        assert data[..i + 1] == data[..i] + [b];
        if discarding {
          if b == NEWLINE {
            discarding := false;
            framed := framed + [LineTooLong];
            delivered := delivered + [LineTooLong];
          }
        } else if b == NEWLINE {
          if receiveBuffer != [] {
            framed := framed + [LineIn(receiveBuffer)];
            delivered := delivered + [LineIn(receiveBuffer)];
            receiveBuffer := [];
          }
        } else {
          receiveBuffer := receiveBuffer + [b];
          if |receiveBuffer| > MAX_LINE_BYTES {
            receiveBuffer := [];
            discarding := true;
          }
        }
      }
      assert data[..|data|] == data;
    }
  }
}
