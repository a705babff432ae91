// The bridge broker's line framing over a socket that delivers bytes in arbitrary chunks
// (crates/wroid-inject/src/bridge_broker.rs). A frame's JSON text is an uninterpreted payload.

module Framing {
  import opened Wrappers

  const NEWLINE: Byte := 10
  const MAX_FRAME_BYTES := 4096

  datatype FrameFault = TimedOut | Malformed | TooLong | ReadFailed | WriteFailed

  // ---------------------------------------------------------------------------------------
  // What a read means on the bytes themselves.

  datatype Cut = Cut(frame: Result<Option<seq<Byte>>, FrameFault>, rest: seq<Byte>)

  function FirstNewline(bytes: seq<Byte>): (k: nat)
    ensures k <= |bytes|
    ensures k < |bytes| ==> bytes[k] == NEWLINE
    ensures NEWLINE !in bytes[..k]
  {
    if bytes == [] || bytes[0] == NEWLINE then 0
    else
      var k := FirstNewline(bytes[1..]);
      assert bytes[..k + 1] == [bytes[0]] + bytes[1..][..k];
      k + 1
  }

  // A frame is a line of at most 4096 bytes, its newline included. After a malformed one the
  // connection is given up, so nothing is said about what is left.
  function CutFrame(stream: seq<Byte>): Cut {
    var k := FirstNewline(stream);
    if stream == [] then Cut(Ok(None), [])
    else if k < |stream| && k + 1 <= MAX_FRAME_BYTES then Cut(Ok(Some(stream[..k])), stream[k + 1..])
    else Cut(Err(Malformed), [])
  }

  // ---------------------------------------------------------------------------------------

  function Flatten(chunks: seq<seq<Byte>>): seq<Byte> {
    if chunks == [] then [] else chunks[0] + Flatten(chunks[1..])
  }

  lemma FirstNewlineIs(bytes: seq<Byte>, k: nat)
    requires k <= |bytes| && NEWLINE !in bytes[..k] && (k < |bytes| ==> bytes[k] == NEWLINE)
    ensures FirstNewline(bytes) == k
  {
  }

  // The socket behind a buffered reader: the chunks still to come, the buffered one first.
  class SocketReader {
    var chunks: seq<seq<Byte>>
    // Whether no read fails.
    const reliable: bool

    ghost predicate Valid()
      reads this
    {
      forall i | 0 <= i < |chunks| :: chunks[i] != []
    }

    ghost function Pending(): seq<Byte>
      reads this
    {
      Flatten(chunks)
    }

    constructor (chunks: seq<seq<Byte>>, reliable: bool)
      requires forall i | 0 <= i < |chunks| :: chunks[i] != []
      ensures Valid() && this.chunks == chunks && this.reliable == reliable
    {
      this.chunks, this.reliable := chunks, reliable;
    }

    // fill_buf: the buffered bytes, none at the end of the stream, unless the socket fails.
    method FillBuf() returns (r: Result<seq<Byte>, FrameFault>)
      requires Valid()
      ensures r.Err? ==> r.error == ReadFailed && !reliable
      ensures r.Ok? ==> r.value <= Pending() && (r.value == [] <==> Pending() == [])
      ensures r.Ok? ==> r.value == if chunks == [] then [] else chunks[0]
    {
      var failed: bool := *;
      if failed && !reliable {
        return Err(ReadFailed);
      }
      return Ok(if chunks == [] then [] else chunks[0]);
    }

    method Consume(count: nat)
      requires Valid() && chunks != [] && 0 < count <= |chunks[0]|
      modifies this
      ensures Valid() && Pending() == old(Pending())[count..]
      ensures |Pending()| < old(|Pending()|)
      ensures count == |old(chunks)[0]| ==> chunks == old(chunks)[1..]
    {
      assert Flatten(chunks) == chunks[0] + Flatten(chunks[1..]);
      if count == |chunks[0]| {
        chunks := chunks[1..];
      } else {
        ghost var tail := chunks[1..];
        chunks := [chunks[0][count..]] + chunks[1..];
        assert chunks[1..] == tail;
      }
    }

    // read_frame_until. However the bytes were split on the way, the frame is the one the bytes
    // spell, and what follows it is left for the next call. Only a socket that fails, or a deadline that
    // passes after so many reads, can interfere.
    method ReadFrameUntil(deadline: Option<nat>) returns (r: Result<Option<seq<Byte>>, FrameFault>)
      requires Valid()
      modifies this
      ensures Valid()
      ensures r == Err(TimedOut) ==> deadline.Some? && deadline.value == |old(chunks)| - |chunks|
      ensures deadline == Some(0) ==> r == Err(TimedOut)
      ensures r == Err(ReadFailed) ==> !reliable
      ensures r != Err(TimedOut) && r != Err(ReadFailed) ==> r == CutFrame(old(Pending())).frame
      ensures r.Ok? ==> Pending() == CutFrame(old(Pending())).rest
    {
      hide Growing, Complete, Flatten, CutFrame;
      ghost var stream := Pending();
      var bytes: seq<Byte> := [];
      var ended := false;
      var attempts: nat := 0;
      NothingYet();
      while !ended
        invariant Valid() && stream == bytes + Pending()
        invariant if ended then Complete(bytes) else Growing(bytes)
        invariant !ended ==> attempts + |chunks| == |old(chunks)|
        invariant ended ==> attempts > 0
        invariant attempts > 0 ==> deadline != Some(0)
        decreases !ended, |Pending()|
      {
        if deadline == Some(attempts) {
          return Err(TimedOut);
        }
        var filled := FillBuf();
        if filled.Err? {
          return Err(filled.error);
        }
        var available := filled.value;
        if available == [] {
          break;
        }
        var newline := FirstNewline(available);
        var count := if newline < |available| then newline + 1 else |available|;
        Grow(bytes, available);
        Shift(stream, bytes, Pending(), available, count);
        bytes := bytes + available[..count];
        Consume(count);
        attempts := attempts + 1;
        ended := |bytes| > MAX_FRAME_BYTES || newline < |available|;
      }
      if ended {
        CompleteCut(stream, bytes, Pending());
      } else {
        assert Pending() == [] && stream == bytes;
        EndedCut(bytes);
      }
      if bytes == [] {
        return Ok(None);
      }
      if |bytes| > MAX_FRAME_BYTES || bytes[|bytes| - 1] != NEWLINE {
        return Err(Malformed);
      }
      return Ok(Some(bytes[..|bytes| - 1]));
    }
  }

  // What read_frame_until has gathered: part of a line, or all it will take.
  ghost predicate Growing(bytes: seq<Byte>) { NEWLINE !in bytes && |bytes| <= MAX_FRAME_BYTES }

  ghost predicate Complete(bytes: seq<Byte>) {
    && bytes != [] && NEWLINE !in bytes[..|bytes| - 1]
    && (|bytes| > MAX_FRAME_BYTES || bytes[|bytes| - 1] == NEWLINE)
  }

  lemma NothingYet()
    ensures Growing([])
  {
  }

  lemma Grow(bytes: seq<Byte>, available: seq<Byte>)
    requires Growing(bytes) && available != []
    ensures var newline := FirstNewline(available);
            var more := bytes + available[..if newline < |available| then newline + 1 else |available|];
            if |more| > MAX_FRAME_BYTES || newline < |available| then Complete(more) else Growing(more)
  {
  }

  lemma Shift(stream: seq<Byte>, bytes: seq<Byte>, pending: seq<Byte>, available: seq<Byte>, count: nat)
    requires stream == bytes + pending && available <= pending && count <= |available|
    ensures stream == bytes + available[..count] + pending[count..]
  {
  }

  lemma EndedCut(bytes: seq<Byte>)
    requires Growing(bytes)
    ensures CutFrame(bytes) == if bytes == [] then Cut(Ok(None), []) else Cut(Err(Malformed), [])
    ensures bytes != [] ==> bytes[|bytes| - 1] != NEWLINE
  {
  }

  lemma CompleteCut(stream: seq<Byte>, bytes: seq<Byte>, rest: seq<Byte>)
    requires stream == bytes + rest && Complete(bytes)
    ensures bytes != [] && (|bytes| > MAX_FRAME_BYTES || bytes[|bytes| - 1] == NEWLINE)
    ensures CutFrame(stream) == if |bytes| > MAX_FRAME_BYTES then Cut(Err(Malformed), [])
                                else Cut(Ok(Some(bytes[..|bytes| - 1])), rest)
  {
    var last := |bytes| - 1;
    assert stream[..last] == bytes[..last] && stream[last] == bytes[last];
    if bytes[last] == NEWLINE {
      FirstNewlineIs(stream, last);
      assert stream[last + 1..] == rest;
    } else {
      LateNewline(stream, last);
    }
  }

  lemma LateNewline(stream: seq<Byte>, k: nat)
    requires k <= |stream| && NEWLINE !in stream[..k]
    ensures k <= FirstNewline(stream)
  {
  }

  // ---------------------------------------------------------------------------------------
  // Writing.

  ghost predicate Sendable(payload: seq<Byte>) {
    NEWLINE !in payload && |payload| + 1 <= MAX_FRAME_BYTES
  }

  class SocketWriter {
    var sent: seq<Byte>
    // Whether no write fails.
    const reliable: bool

    constructor (reliable: bool)
      ensures sent == [] && this.reliable == reliable
    {
      sent, this.reliable := [], reliable;
    }

    // write_all and flush: all of the bytes or, if that fails, any front of them.
    method WriteAll(bytes: seq<Byte>) returns (ok: bool)
      modifies this
      ensures ok ==> sent == old(sent) + bytes
      ensures exists n | 0 <= n <= |bytes| :: sent == old(sent) + bytes[..n]
      ensures reliable ==> ok
    {
      ok := *;
      ok := ok || reliable;
      assert bytes[..|bytes|] == bytes;
      var n :| 0 <= n <= |bytes| && (ok ==> n == |bytes|);
      sent := sent + bytes[..n];
    }

    // write_frame: none of a frame that is too long, and of any other all, or a front if the socket
    // fails.
    method WriteFrame(payload: seq<Byte>) returns (r: Result<(), FrameFault>)
      modifies this
      ensures r.Ok? ==> sent == old(sent) + payload + [NEWLINE]
      ensures r == Err(TooLong) <==> |payload| + 1 > MAX_FRAME_BYTES
      ensures r == Err(TooLong) ==> sent == old(sent)
      ensures r.Err? ==> r.error.TooLong? || r.error.WriteFailed?
      ensures r == Err(WriteFailed) ==>
                exists n | 0 <= n <= |payload| + 1 :: sent == old(sent) + (payload + [NEWLINE])[..n]
      ensures reliable ==> r != Err(WriteFailed)
    {
      var bytes := payload + [NEWLINE];
      if |bytes| > MAX_FRAME_BYTES {
        return Err(TooLong);
      }
      var written := WriteAll(bytes);
      return if written then Ok(()) else Err(WriteFailed);
    }
  }

  function Written(payloads: seq<seq<Byte>>): seq<Byte> {
    if payloads == [] then [] else payloads[0] + [NEWLINE] + Written(payloads[1..])
  }

  // Everything a peer reads until the end of the stream: the frames, and whether it ended cleanly.
  function ReadAll(stream: seq<Byte>): (seq<seq<Byte>>, bool)
    decreases |stream|
  {
    var cut := CutFrame(stream);
    match cut.frame
    case Ok(None) => ([], true)
    case Err(_) => ([], false)
    case Ok(Some(payload)) =>
      var (more, clean) := ReadAll(cut.rest);
      ([payload] + more, clean)
  }

  lemma CutOne(payload: seq<Byte>, rest: seq<Byte>)
    requires Sendable(payload)
    ensures CutFrame(payload + [NEWLINE] + rest) == Cut(Ok(Some(payload)), rest)
  {
    var stream := payload + [NEWLINE] + rest;
    assert stream[..|payload|] == payload;
    FirstNewlineIs(stream, |payload|);
    assert stream[|payload| + 1..] == rest;
  }

  lemma CutWhole(stream: seq<Byte>)
    ensures var cut := CutFrame(stream);
            cut.frame.Ok? && cut.frame.value.Some? ==>
              Sendable(cut.frame.value.value) && stream == cut.frame.value.value + [NEWLINE] + cut.rest
  {
  }

  lemma CutPartial(partial: seq<Byte>)
    requires partial != [] && NEWLINE !in partial
    ensures CutFrame(partial).frame == Err(Malformed)
  {
  }

  // What was written is what is read, frame by frame.
  lemma {:induction false} WrittenIsRead(payloads: seq<seq<Byte>>)
    requires forall i | 0 <= i < |payloads| :: Sendable(payloads[i])
    ensures ReadAll(Written(payloads)) == (payloads, true)
  {
    hide CutFrame;
    if payloads == [] {
      EndedCut([]);
    } else {
      CutOne(payloads[0], Written(payloads[1..]));
      WrittenIsRead(payloads[1..]);
      assert payloads == [payloads[0]] + payloads[1..];
    }
  }

  // ... and a stream that reads cleanly was written that way: no byte is lost or made up.
  lemma {:induction false} ReadWasWritten(stream: seq<Byte>)
    requires ReadAll(stream).1
    ensures Written(ReadAll(stream).0) == stream
    ensures forall i | 0 <= i < |ReadAll(stream).0| :: Sendable(ReadAll(stream).0[i])
    decreases |stream|
  {
    hide Sendable, FirstNewline;
    CutWhole(stream);
    var cut := CutFrame(stream);
    if cut.frame.value.Some? {
      ReadWasWritten(cut.rest);
      FrontWritten(cut.frame.value.value, ReadAll(cut.rest).0);
    }
  }

  lemma FrontWritten(payload: seq<Byte>, more: seq<seq<Byte>>)
    ensures Written([payload] + more) == payload + [NEWLINE] + Written(more)
  {
  }

  // A peer that stops in the middle of a frame: what came before is read, then an error.
  lemma {:induction false} CutOffIsNoticed(payloads: seq<seq<Byte>>, partial: seq<Byte>)
    requires forall i | 0 <= i < |payloads| :: Sendable(payloads[i])
    requires partial != [] && NEWLINE !in partial
    ensures ReadAll(Written(payloads) + partial) == (payloads, false)
  {
    hide CutFrame, FirstNewline;
    if payloads == [] {
      CutPartial(partial);
      assert Written(payloads) + partial == partial;
    } else {
      var rest := Written(payloads[1..]) + partial;
      CutOne(payloads[0], rest);
      assert Written(payloads) + partial == payloads[0] + [NEWLINE] + rest;
      CutOffIsNoticed(payloads[1..], partial);
      assert payloads == [payloads[0]] + payloads[1..];
    }
  }

  // Whatever front of a frame a failing write delivered, the peer reads the frames before it, and the
  // frame itself only if it is whole; otherwise it reads an error, or a clean end if nothing of it
  // was sent.
  lemma FailedWriteIsNoticed(payloads: seq<seq<Byte>>, payload: seq<Byte>, n: nat)
    requires forall i | 0 <= i < |payloads| :: Sendable(payloads[i])
    requires Sendable(payload) && n <= |payload| + 1
    ensures ReadAll(Written(payloads) + (payload + [NEWLINE])[..n])
         == (if n == |payload| + 1 then payloads + [payload] else payloads, n == 0 || n == |payload| + 1)
  {
    hide ReadAll, CutFrame;
    var front := (payload + [NEWLINE])[..n];
    if n == |payload| + 1 {
      WrittenIsRead(payloads + [payload]);
      WrittenAppend(payloads, payload);
      assert front == payload + [NEWLINE];
    } else if n == 0 {
      WrittenIsRead(payloads);
      assert Written(payloads) + front == Written(payloads);
    } else {
      assert front == payload[..n];
      CutOffIsNoticed(payloads, front);
    }
  }

  lemma {:induction false} WrittenAppend(payloads: seq<seq<Byte>>, payload: seq<Byte>)
    ensures Written(payloads + [payload]) == Written(payloads) + (payload + [NEWLINE])
  {
    if payloads == [] {
      assert payloads + [payload] == [payload] && Written([]) == [];
    } else {
      WrittenAppend(payloads[1..], payload);
      assert (payloads + [payload])[1..] == payloads[1..] + [payload];
    }
  }
}
