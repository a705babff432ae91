// The bridge broker's client and server, and the privileged helper behind the server, as
// processes that take steps (crates/wroid-inject/src/{bridge_broker,privileged_bridge}.rs).
// Whether a write, a read, a spawn or a verification succeeds is up to the environment.

module Bridge {
  import opened Wrappers

  const PROTOCOL_VERSION := 1

  // Whether the event node is an acceptable path is decided outside this model.
  datatype Request = Open(allowed: bool) | Verify | Finish(waydroidStopped: bool)

  datatype ErrorCode =
    | InvalidFrame | VersionMismatch | InvalidEventNode | HelperStartFailed
    | AndroidVerifyFailed | HelperFinishFailed | InvalidState

  datatype Response = Opened | AndroidInputReady | Finished | Refused(code: ErrorCode)

  // What the server's frame reader yields.
  datatype Incoming = Message(version: nat, request: Request) | BadFrame | EndOfStream

  datatype Progress = Initial | IsOpened | IsVerified {
    function Rank(): nat {
      match this
      case Initial => 0
      case IsOpened => 1
      case IsVerified => 2
    }
  }

  function Needs(request: Request): nat {
    match request
    case Open(_) => 0
    case Verify => 1
    case Finish(_) => 2
  }

  function Expected(request: Request): Response {
    match request
    case Open(_) => Opened
    case Verify => AndroidInputReady
    case Finish(_) => Finished
  }

  // ---------------------------------------------------------------------------------------
  // The helper as the server holds it.

  datatype Line = VerifyLine | CleanupLine | OtherLine

  datatype Call = CallOpen | CallVerify(ok: bool) | CallFinish(waydroidStopped: bool, ok: bool) | CallDrop

  datatype WaitOutcome = WaitFailed | ExitedBadly | ExitedWell

  // A child that was waited for: once, or once more by the drop after a wait that failed.
  ghost predicate Reaped(waits: seq<WaitOutcome>) {
    |waits| == 1 || (|waits| == 2 && waits[0] == WaitFailed)
  }

  class PrivilegedBridgeHelper {
    // Whether verification inside the child succeeds and its reply is written.
    const works: bool
    // Whether the child starts, takes what is written to it, answers and exits well.
    const willing: bool
    // What went into the helper's standard input, and whether that is still open.
    var lines: seq<Line>
    var stdinOpen: bool
    var active: bool
    // Whether a child said it was ready.
    var started: bool
    // How each wait for the child came out.
    ghost var waits: seq<WaitOutcome>
    // How often it was to be started, and what was asked of it since.
    ghost var starts: nat
    ghost var calls: seq<Call>

    ghost predicate Fresh()
      reads this
    {
      lines == [] && !stdinOpen && !active && !started && waits == [] && calls == [] && starts == 0
    }

    constructor (works: bool, willing: bool)
      ensures Fresh() && this.works == works && this.willing == willing
    {
      this.works, this.willing := works, willing;
      lines, stdinOpen, active, started, waits := [], false, false, false, [];
      calls, starts := [], 0;
    }

    // start: only a helper that said it was ready is kept; one that did not is waited for.
    method Start() returns (ok: bool)
      requires lines == [] && !active && waits == []
      modifies this
      ensures active == stdinOpen == started == ok && lines == []
      ensures if ok then waits == [] else |waits| <= 1
      ensures starts == old(starts) + 1 && calls == old(calls) + (if ok then [CallOpen] else [])
      ensures willing ==> ok
    {
      ok := *;
      ok := ok || willing;
      starts := starts + 1;
      calls := calls + if ok then [CallOpen] else [];
      stdinOpen, active, started := ok, ok, ok;
      if !ok {
        var spawned: bool := *;
        if spawned {
          var _ := Wait();
        }
      }
    }

    method Wait() returns (outcome: WaitOutcome)
      modifies this`waits
      ensures waits == old(waits) + [outcome]
      ensures willing ==> outcome == ExitedWell
    {
      outcome := *;
      outcome := if willing then ExitedWell else outcome;
      waits := waits + [outcome];
    }

    // A write that fails may have delivered all of the line, part of it, or nothing.
    method Write(line: Line) returns (ok: bool)
      requires stdinOpen
      modifies this`lines
      ensures ok ==> lines == old(lines) + [line]
      ensures lines == old(lines) || lines == old(lines) + [line] || lines == old(lines) + [OtherLine]
      ensures willing ==> ok
    {
      ok := *;
      ok := ok || willing;
      var part: bool := *;
      if ok {
        lines := lines + [line];
      } else if part {
        lines := lines + [OtherLine];
      }
    }

    // A reply that says ready was written after a verification that worked; it may still be lost.
    method VerifyAndroidInput() returns (ok: bool)
      requires stdinOpen
      modifies this`lines, this`calls
      ensures ok ==> works && lines == old(lines) + [VerifyLine]
      ensures lines == old(lines) || lines == old(lines) + [VerifyLine] || lines == old(lines) + [OtherLine]
      ensures calls == old(calls) + [CallVerify(ok)]
      ensures willing && works ==> ok
    {
      ok := Write(VerifyLine);
      if ok {
        ok := *;
        ok := (ok || willing) && works;
      }
      calls := calls + [CallVerify(ok)];
    }

    // finish consumes the handle; whatever happens its pipe is closed and the child waited for, once
    // unless the wait itself failed. It succeeds exactly if what was to be written was and the child
    // exited well.
    method Finish(waydroidStopped: bool) returns (ok: bool)
      requires active && stdinOpen && waits == []
      modifies this`lines, this`stdinOpen, this`active, this`waits, this`calls
      ensures !stdinOpen && !active && Reaped(waits)
      ensures ok ==> lines == old(lines) + (if waydroidStopped then [CleanupLine] else [])
      ensures ok ==> waits == [ExitedWell]
      ensures !ok && !waydroidStopped ==> waits[0] != ExitedWell
      ensures !waydroidStopped ==> lines == old(lines)
      ensures lines == old(lines) || lines == old(lines) + [CleanupLine] || lines == old(lines) + [OtherLine]
      ensures calls == old(calls) + [CallFinish(waydroidStopped, ok)]
      ensures willing ==> ok
    {
      ok := true;
      if waydroidStopped {
        ok := Write(CleanupLine);
      }
      if ok {
        stdinOpen := false;
        var status := Wait();
        active := status == WaitFailed;
        ok := status == ExitedWell;
      }
      calls := calls + [CallFinish(waydroidStopped, ok)];
      Close();
    }

    // What dropping the handle does: a helper still active has its pipe closed and is waited for.
    method Close()
      modifies this`stdinOpen, this`active, this`waits
      ensures !active
      ensures old(active) ==> !stdinOpen && |waits| == |old(waits)| + 1 && old(waits) <= waits
      ensures !old(active) ==> stdinOpen == old(stdinOpen) && waits == old(waits)
    {
      if active {
        stdinOpen := false;
        var _ := Wait();
        active := false;
      }
    }

    // drop, of a handle that was not finished.
    method Drop()
      modifies this`stdinOpen, this`active, this`waits, this`calls
      ensures !active
      ensures old(active) ==> !stdinOpen && |waits| == |old(waits)| + 1 && old(waits) <= waits
      ensures !old(active) ==> stdinOpen == old(stdinOpen) && waits == old(waits)
      ensures calls == old(calls) + [CallDrop]
    {
      calls := calls + [CallDrop];
      Close();
    }
  }

  // ---------------------------------------------------------------------------------------
  // serve_bridge_broker

  // The traces a helper may see: open, verify, then finish or drop, cut anywhere.
  ghost predicate Underway(calls: seq<Call>) {
    && |calls| <= 2
    && (|calls| > 0 ==> calls[0] == CallOpen)
    && (|calls| > 1 ==> calls[1] == CallVerify(true))
  }

  // ... and once the server is gone: never started, or consumed exactly once, at the end.
  ghost predicate Consumed(calls: seq<Call>) {
    || |calls| == 0
    || (|calls| == 2 && calls[0] == CallOpen && calls[1] == CallDrop)
    || (|calls| == 3 && calls[0] == CallOpen && calls[1].CallVerify? && calls[2] == CallDrop)
    || (|calls| == 3 && calls[0] == CallOpen && calls[1] == CallVerify(true) && calls[2].CallFinish?)
  }

  // What the trace put into the helper's standard input.
  ghost predicate Explains(calls: seq<Call>, lines: seq<Line>) {
    && (|calls| < 2 || !calls[1].CallVerify? ==> lines == [])
    && (|calls| >= 2 && calls[1] == CallVerify(false) ==> lines == [] || lines == [VerifyLine] || lines == [OtherLine])
    && (|calls| >= 2 && calls[1] == CallVerify(true) && !Finishes(calls) ==> lines == [VerifyLine])
    && (|calls| >= 2 && calls[1] == CallVerify(true) && Finishes(calls) ==>
          && (calls[2].ok && calls[2].waydroidStopped ==> lines == [VerifyLine, CleanupLine])
          && (!calls[2].waydroidStopped ==> lines == [VerifyLine])
          && (lines == [VerifyLine] || lines == [VerifyLine, CleanupLine] || lines == [VerifyLine, OtherLine]))
  }

  ghost predicate Finishes(calls: seq<Call>) { |calls| == 3 && calls[2].CallFinish? }

  ghost predicate Verifies(calls: seq<Call>) { |calls| >= 2 && calls[1] == CallVerify(true) }

  // One turn of the server, case by case, in what was asked of the helper before and after.
  ghost predicate Answered(willing: bool, works: bool, before: seq<Call>, incoming: Incoming, written: bool,
                           reply: Option<Response>, done: Option<bool>, after: seq<Call>) {
    match incoming
    case EndOfStream => reply == None && done == Some(true) && after == before + Dropped(before)
    case BadFrame => Refuses(before, InvalidFrame, written, reply, done, after)
    case Message(version, request) =>
      if version != 1 then Refuses(before, VersionMismatch, written, reply, done, after)
      else
        match request
        case Open(allowed) =>
          if |before| != 0 then Refuses(before, InvalidState, written, reply, done, after)
          else if !allowed then Refuses(before, InvalidEventNode, written, reply, done, after)
          else if after == [] then !willing && Refuses([], HelperStartFailed, written, reply, done, after)
          else Replies([CallOpen], Opened, written, reply, done, after)
        case Verify =>
          if |before| != 1 then Refuses(before, InvalidState, written, reply, done, after)
          else if Verifies(after) then
            works && Replies(before + [CallVerify(true)], AndroidInputReady, written, reply, done, after)
          else
            && !(willing && works)
            && Refuses(before + [CallVerify(false)], AndroidVerifyFailed, written, reply, done, after)
        case Finish(waydroidStopped) =>
          if |before| != 2 then Refuses(before, InvalidState, written, reply, done, after)
          else if after == before + [CallFinish(waydroidStopped, true)] then
            if written then reply == Some(Finished) && done == Some(true) else reply == None && done == Some(false)
          else
            && !willing && after == before + [CallFinish(waydroidStopped, false)]
            && Refuses(after, HelperFinishFailed, written, reply, done, after)
  }

  // A helper that was opened and not finished is dropped when the server goes.
  ghost function Dropped(calls: seq<Call>): seq<Call> {
    if 1 <= |calls| <= 2 then [CallDrop] else []
  }

  ghost predicate Refuses(calls: seq<Call>, code: ErrorCode, written: bool, reply: Option<Response>,
                          done: Option<bool>, after: seq<Call>) {
    && reply == (if written then Some(Response.Refused(code)) else None)
    && done == Some(false) && after == calls + Dropped(calls)
  }

  ghost predicate Replies(calls: seq<Call>, response: Response, written: bool, reply: Option<Response>,
                          done: Option<bool>, after: seq<Call>) {
    if written then reply == Some(response) && done == None && after == calls
    else reply == None && done == Some(false) && after == calls + Dropped(calls)
  }

  class BridgeBroker {
    const helper: PrivilegedBridgeHelper
    var state: Progress
    var owns: bool
    // None while serving, then whether it ended well.
    var done: Option<bool>
    ghost var calls: seq<Call>
    // How many requests were answered as asked.
    ghost var answered: nat

    ghost predicate Valid()
      reads this, helper
    {
      && calls == helper.calls && Explains(calls, helper.lines)
      && (Verifies(calls) ==> helper.works)
      && (helper.started <==> calls != [])
      && answered <= 3
      && (done.None? ==>
            && Underway(calls) && |calls| == state.Rank() == answered
            && owns == helper.active == helper.stdinOpen == (state != Initial)
            && helper.waits == [])
      && (done.Some? ==>
            && Consumed(calls) && !owns && !helper.active && !helper.stdinOpen
            && (if calls == [] then |helper.waits| <= 1 else Reaped(helper.waits)))
      && (answered == 3 ==> done == Some(true) && Finishes(calls) && calls[2].ok)
    }

    constructor (helper: PrivilegedBridgeHelper)
      requires helper.Fresh()
      ensures Valid() && this.helper == helper
      ensures done.None? && state == Initial && calls == [] && answered == 0
    {
      this.helper := helper;
      state, owns, done := Initial, false, None;
      calls, answered := [], 0;
    }

    // Leaving the loop drops a helper that was not finished.
    method Leave(ok: bool)
      requires done.None? && calls == helper.calls && Explains(calls, helper.lines) && answered <= 2
      requires owns == helper.active == helper.stdinOpen
      requires owns ==> 1 <= |calls| <= 2 && calls[0] == CallOpen && (|calls| == 2 ==> calls[1].CallVerify?)
      requires (Verifies(calls) ==> helper.works) && (helper.started <==> calls != [])
      requires owns ==> helper.waits == []
      requires !owns ==> Consumed(calls) && if calls == [] then |helper.waits| <= 1 else Reaped(helper.waits)
      modifies this`done, this`owns, this`calls, helper`stdinOpen, helper`active, helper`waits, helper`calls
      ensures Valid() && done == Some(ok)
      ensures calls == old(calls) + (if old(owns) then [CallDrop] else [])
    {
      if owns {
        helper.Drop();
        calls := helper.calls;
        owns := false;
      }
      done := Some(ok);
    }

    // The result of writing an error is ignored.
    method Refuse(code: ErrorCode, written: bool) returns (reply: Option<Response>)
      ensures reply == if written then Some(Response.Refused(code)) else None
    {
      reply := if written then Some(Response.Refused(code)) else None;
    }

    // One turn of the server loop: a request in, at most one reply out, if it can be written.
    method Serve(incoming: Incoming, written: bool) returns (reply: Option<Response>)
      requires Valid() && done.None?
      modifies this, helper
      ensures Valid()
      // A request is answered as asked only where the protocol allows it, and then moves it on.
      ensures answered == old(answered) || answered == old(answered) + 1
      ensures answered == old(answered) + 1 ==>
                && incoming.Message? && incoming.version == PROTOCOL_VERSION
                && Needs(incoming.request) == old(state).Rank() == old(answered)
                && reply == Some(Expected(incoming.request))
                && (incoming.request.Finish? ==>
                      calls == [CallOpen, CallVerify(true), CallFinish(incoming.request.waydroidStopped, true)])
      // Anything else ends the session.
      ensures answered == old(answered) ==> done.Some? && (reply.Some? ==> reply.value.Refused?)
      ensures done.None? ==> answered == old(answered) + 1 && !incoming.request.Finish?
      ensures done == Some(true) ==> incoming == EndOfStream || (incoming.Message? && incoming.request.Finish?)
      ensures incoming == EndOfStream ==> done == Some(true) && reply == None
      ensures incoming.Message? && (incoming.version != PROTOCOL_VERSION
                                    || Needs(incoming.request) != old(state).Rank()) ==>
                done == Some(false) && calls == old(calls) + (if old(owns) then [CallDrop] else [])
      // Case by case: what is asked of the helper, and which answer the client gets.
      ensures Answered(helper.willing, helper.works, old(calls), incoming, written, reply, done, calls)
      ensures helper.starts == old(helper.starts)
                               + (if old(calls) == [] && incoming == Message(1, Open(true)) then 1 else 0)
    {
      reply := None;
      if incoming == EndOfStream {
        Leave(true);
        return;
      }
      if incoming == BadFrame {
        reply := Refuse(InvalidFrame, written);
        Leave(false);
        return;
      }
      if incoming.version != PROTOCOL_VERSION {
        reply := Refuse(VersionMismatch, written);
        Leave(false);
        return;
      }
      if state == Initial && incoming.request.Open? {
        reply := ServeOpen(incoming.request.allowed, written);
      } else if state == IsOpened && incoming.request.Verify? {
        reply := ServeVerify(written);
      } else if state == IsVerified && incoming.request.Finish? {
        reply := ServeFinish(incoming.request.waydroidStopped, written);
      } else {
        reply := Refuse(InvalidState, written);
        Leave(false);
      }
    }

    method ServeOpen(allowed: bool, written: bool) returns (reply: Option<Response>)
      requires Valid() && done.None? && state == Initial
      modifies this, helper
      ensures Valid()
      ensures done.None? ==> answered == 1 && reply == Some(Opened) && allowed
      ensures done.Some? ==> done == Some(false) && answered == 0 && (reply.Some? ==> reply.value.Refused?)
      ensures Answered(helper.willing, helper.works, [], Message(1, Open(allowed)), written, reply, done, calls)
      ensures helper.starts == old(helper.starts) + (if allowed then 1 else 0)
    {
      if !allowed {
        reply := Refuse(InvalidEventNode, written);
        Leave(false);
        return;
      }
      var started := helper.Start();
      if !started {
        reply := Refuse(HelperStartFailed, written);
        Leave(false);
        return;
      }
      owns := true;
      calls := helper.calls;
      if !written {
        reply := None;
        Leave(false);
        return;
      }
      reply := Some(Opened);
      state := IsOpened;
      answered := 1;
    }

    method ServeVerify(written: bool) returns (reply: Option<Response>)
      requires Valid() && done.None? && state == IsOpened
      modifies this, helper
      ensures Valid()
      ensures done.None? ==> answered == 2 && reply == Some(AndroidInputReady)
      ensures done.Some? ==> done == Some(false) && answered == 1 && (reply.Some? ==> reply.value.Refused?)
      ensures Answered(helper.willing, helper.works, old(calls), Message(1, Verify), written, reply, done, calls)
      ensures helper.starts == old(helper.starts)
    {
      var verified := helper.VerifyAndroidInput();
      calls := helper.calls;
      if !verified {
        reply := Refuse(AndroidVerifyFailed, written);
        Leave(false);
        return;
      }
      if !written {
        reply := None;
        Leave(false);
        return;
      }
      reply := Some(AndroidInputReady);
      state := IsVerified;
      answered := 2;
    }

    method ServeFinish(waydroidStopped: bool, written: bool) returns (reply: Option<Response>)
      requires Valid() && done.None? && state == IsVerified
      modifies this, helper
      ensures Valid() && done.Some?
      ensures done.value ==>
                && answered == 3 && reply == Some(Finished)
                && calls == [CallOpen, CallVerify(true), CallFinish(waydroidStopped, true)]
      ensures !done.value ==> answered == 2 && (reply.Some? ==> reply.value.Refused?)
      ensures Answered(helper.willing, helper.works, old(calls), Message(1, Finish(waydroidStopped)), written, reply,
                       done, calls)
      ensures helper.starts == old(helper.starts)
    {
      var finished := helper.Finish(waydroidStopped);
      calls := helper.calls;
      owns := false;
      if !finished {
        reply := Refuse(HelperFinishFailed, written);
        Leave(false);
        return;
      }
      if !written {
        reply := None;
        Leave(false);
        return;
      }
      reply := Some(Finished);
      answered := 3;
      done := Some(true);
    }

    // The server against any client at all: whatever arrives, in whatever order, the helper sees
    // open, verify, and finish or drop, and is consumed exactly once. Every request up to the end is
    // answered as its case says, and at the end of them the client hangs up.
    method ServeAll(script: seq<Delivery>) returns (replies: seq<Option<Response>>, ghost trail: seq<seq<Call>>)
      requires Valid() && done.None? && state == Initial
      modifies this, helper
      ensures Valid() && done.Some?
      ensures Consumed(calls) && Explains(calls, helper.lines) && !helper.stdinOpen
      ensures calls != [] ==> Reaped(helper.waits)
      ensures Conversation(helper.willing, helper.works, script, replies, trail, done.value)
      ensures trail[0] == [] && trail[|trail| - 1] == calls
      // Only the last reply can be an error.
      ensures forall k | 0 <= k < |replies| - 1 :: replies[k].Some? && !replies[k].value.Refused?
    {
      replies, trail := [], [calls];
      var k := 0;
      while k < |script| && done.None?
        invariant 0 <= k == |replies| <= |script| && Valid() && (done.Some? ==> k > 0)
        invariant |trail| == |replies| + 1 && trail[0] == [] && trail[k] == calls
        invariant forall j | 0 <= j < k ::
                    Answered(helper.willing, helper.works, trail[j], script[j].incoming, script[j].written, replies[j],
                             if j < k - 1 then None else done, trail[j + 1])
        invariant forall j | 0 <= j < k && (done.None? || j < k - 1) :: replies[j].Some? && !replies[j].value.Refused?
      {
        var reply := Serve(script[k].incoming, script[k].written);
        replies, trail := replies + [reply], trail + [calls];
        k := k + 1;
      }
      if done.None? {
        var _ := Serve(EndOfStream, true);
        trail := trail + [calls];
      }
    }
  }

  // What arrives at the server, and whether the answer to it can be written.
  datatype Delivery = Delivery(incoming: Incoming, written: bool)

  // Every delivery is answered as its case says until one of them ends the session, or, if none does, the
  // end of the stream.
  ghost predicate Conversation(willing: bool, works: bool, script: seq<Delivery>, replies: seq<Option<Response>>,
                               trail: seq<seq<Call>>, well: bool) {
    var n := |replies|;
    && n <= |script| && n + 1 <= |trail| <= n + 2
    && (forall k | 0 <= k < n - 1 ::
          Answered(willing, works, trail[k], script[k].incoming, script[k].written, replies[k], None, trail[k + 1]))
    && (if |trail| == n + 1 then
          n > 0 && Answered(willing, works, trail[n - 1], script[n - 1].incoming, script[n - 1].written, replies[n - 1],
                            Some(well), trail[n])
        else
          && n == |script| && well && trail[n + 1] == trail[n] + Dropped(trail[n])
          && (n > 0 ==> Answered(willing, works, trail[n - 1], script[n - 1].incoming, script[n - 1].written,
                                 replies[n - 1], None, trail[n])))
  }

  // ---------------------------------------------------------------------------------------
  // The client

  // What the client's frame reader yields.
  datatype Answer = Reply(version: nat, response: Response) | Closed | TimedOut

  datatype ClientResult = Done | TransportError | WrongVersion | Rejected(code: ErrorCode) | Unexpected

  class BridgeBrokerClient {
    var state: Progress

    constructor ()
      ensures state == Initial
    {
      state := Initial;
    }

    // open, verify_android_input and finish: refused outright in the wrong state.
    predicate MaySend(request: Request)
      reads this
    {
      state.Rank() == Needs(request)
    }

    // The second half of exchange.
    method Complete(request: Request, answer: Answer) returns (result: ClientResult)
      requires MaySend(request)
      modifies this
      ensures result == Done <==> answer == Reply(PROTOCOL_VERSION, Expected(request))
      ensures result == WrongVersion <==> answer.Reply? && answer.version != PROTOCOL_VERSION
      ensures result.TransportError? <==> answer.Closed? || answer.TimedOut?
      ensures answer.Reply? && answer.version == 1 ==>
                match answer.response
                case Refused(code) => result == Rejected(code)
                case Opened => result == if request.Open? then Done else Unexpected
                case AndroidInputReady => result == if request.Verify? then Done else Unexpected
                case Finished => result == if request.Finish? then Done else Unexpected
      ensures state == if result == Done && request.Open? then IsOpened
                       else if result == Done && request.Verify? then IsVerified
                       else old(state)
    {
      if !answer.Reply? {
        return TransportError;
      }
      if answer.version != PROTOCOL_VERSION {
        return WrongVersion;
      }
      if answer.response.Refused? {
        return Rejected(answer.response.code);
      }
      if answer.response != Expected(request) {
        return Unexpected;
      }
      if request.Open? {
        state := IsOpened;
      } else if request.Verify? {
        state := IsVerified;
      }
      return Done;
    }
  }

  // ---------------------------------------------------------------------------------------
  // Client and server with the socket between them.

  datatype Move =
    | Ask(request: Request, written: bool)       // the client writes a request
    | Hear(patient: bool)                        // the client reads the reply, or gives up
    | ServeNext(expired: bool, written: bool)    // the server takes a request, or its deadline expires
    | HangUp                                     // the client goes away

  // The server is where the client is, or one step ahead with the reply on its way.
  ghost predicate InStep(rank: nat, answered: nat, pending: Option<Request>, up: seq<Request>, down: seq<Response>,
                         over: bool, finished: Option<bool>) {
    && (pending.Some? ==> Needs(pending.value) == rank)
    && (finished.Some? ==> answered == 3 && pending.None? && over)
    && (finished.None? ==> rank <= answered <= rank + 1)
    && (finished.None? && answered == rank + 1 ==>
          && pending.Some? && up == [] && 1 <= |down| <= 2 && down[0] == Expected(pending.value)
          && (|down| == 2 ==> down[1].Refused? && over))
    && (finished.None? && answered == rank ==> |down| <= 1 && (|down| == 1 ==> down[0].Refused? && over))
    && (!over ==> if pending.Some? && answered == rank then up == [pending.value] else up == [])
  }

  // One turn of the server keeps step.
  lemma ServeKeepsStep(rank: nat, answered: nat, pending: Option<Request>, up: seq<Request>, down: seq<Response>,
                       finished: Option<bool>, taken: Option<Request>, reply: Option<Response>, answered': nat,
                           over': bool)
    requires InStep(rank, answered, pending, up, down, false, finished)
    requires taken == if up == [] then None else Some(up[0])
    requires answered' == answered || (answered' == answered + 1 && taken.Some? && reply == Some(Expected(taken.value)))
    requires answered' == answered ==> over' && (reply.Some? ==> reply.value.Refused?)
    ensures InStep(rank, answered', pending, if up == [] then [] else up[1..],
                   if reply.Some? then down + [reply.value] else down, over', finished)
  {
  }

  // Everything there is between the two ends, and what each end has done.
  datatype LinkState = LinkState(up: seq<Request>, down: seq<Response>, pending: Option<Request>, gone: bool,
                                 broken: bool, finished: Option<bool>, client: Progress, calls: seq<Call>,
                                 done: Option<bool>) {
    // The client has asked, and may still be answered.
    ghost predicate Waits() { pending.Some? && client.Rank() == Needs(pending.value) }

    // The server has something to do: a request, or the end of the stream, or a deadline that expired.
    ghost predicate Due(expired: bool) { done.None? && (up != [] || gone || (expired && |calls| < 2)) }
  }

  ghost predicate Heard(left: LinkState, request: Request, response: Response, after: LinkState) {
    match (request, response)
    case (Open(_), Opened) => after == left.(client := IsOpened)
    case (Verify, AndroidInputReady) => after == left.(client := IsVerified)
    case (Finish(stopped), Finished) => after == left.(finished := Some(stopped))
    case _ => after == left
  }

  // What each move does.
  ghost predicate Moved(willing: bool, works: bool, before: LinkState, move: Move, after: LinkState) {
    match move
    // A request goes out if it may be sent now; a finish that is refused takes the client with it.
    case Ask(request, written) =>
      if before.gone || before.pending.Some? then after == before
      else if before.client.Rank() != Needs(request) then after == before.(gone := request.Finish?)
      else if !written then after == before.(broken := true, gone := request.Finish?)
      else after == before.(up := before.up + [request], pending := Some(request))
    // Only the answer that was asked for takes the client on; a lost answer breaks the link.
    case Hear(patient) =>
      if !before.Waits() || (before.down == [] && before.done.None? && patient) then after == before
      else
        var left := before.(pending := None, gone := before.gone || before.pending.value.Finish?);
        if before.down == [] then after == left.(broken := true)
        else
          Heard(left.(down := before.down[1..]), before.pending.value, before.down[0], after)
    // The request is answered as its case says; none means that the client went or took too long.
    case ServeNext(expired, written) =>
      if !before.Due(expired) then after == before
      else
        && after == before.(up := if before.up == [] then [] else before.up[1..], down := after.down,
                            calls := after.calls, done := after.done)
        && (after.down == before.down || (|after.down| == |before.down| + 1 && before.down <= after.down))
        && Answered(willing, works, before.calls,
                    if before.up != [] then Message(1, before.up[0]) else if before.gone then EndOfStream else BadFrame,
                    written, if after.down == before.down then None else Some(after.down[|before.down|]), after.done,
                    after.calls)
    case HangUp => after == before.(gone := true)
  }

  ghost predicate InOrder(state: LinkState, answered: nat) {
    && InStep(state.client.Rank(), answered, state.pending, state.up, state.down, state.done.Some?, state.finished)
    && (state.finished.Some? ==>
          state.gone && Finishes(state.calls) && state.calls[2] == CallFinish(state.finished.value, true))
    && (state.finished.None? && answered == 3 ==>
          Finishes(state.calls) && state.pending == Some(Finish(state.calls[2].waydroidStopped)) && state.calls[2].ok)
  }

  lemma HeardInOrder(willing: bool, works: bool, before: LinkState, patient: bool, after: LinkState, answered: nat)
    requires InOrder(before, answered) && Moved(willing, works, before, Move.Hear(patient), after) && !after.broken
    requires answered == 3 ==> before.done == Some(true)
    ensures InOrder(after, answered)
  {
    hide Answered;
  }

  lemma ServedInOrder(before: LinkState, answered: nat, reply: Option<Response>, calls: seq<Call>, done: Option<bool>,
                      answered': nat)
    requires InOrder(before, answered) && before.done.None? && answered <= 2
    requires answered' == answered
             || (answered' == answered + 1 && before.up != [] && reply == Some(Expected(before.up[0]))
                 && (before.up[0].Finish? ==>
                       calls == [CallOpen, CallVerify(true), CallFinish(before.up[0].waydroidStopped, true)]))
    requires answered' == answered ==> done.Some? && (reply.Some? ==> reply.value.Refused?)
    ensures InOrder(before.(up := if before.up == [] then [] else before.up[1..],
                            down := if reply.Some? then before.down + [reply.value] else before.down,
                            calls := calls, done := done), answered')
  {
    ServeKeepsStep(before.client.Rank(), answered, before.pending, before.up, before.down, before.finished,
                   if before.up == [] then None else Some(before.up[0]), reply, answered', done.Some?);
  }

  lemma ServedIsMove(willing: bool, works: bool, before: LinkState, expired: bool, written: bool, incoming: Incoming,
                     reply: Option<Response>, calls: seq<Call>, done: Option<bool>)
    requires before.Due(expired) && Answered(willing, works, before.calls, incoming, written, reply, done, calls)
    requires incoming == if before.up != [] then Message(1, before.up[0]) else if before.gone then EndOfStream
             else BadFrame
    ensures Moved(willing, works, before, Move.ServeNext(expired, written),
                  before.(up := if before.up == [] then [] else before.up[1..],
                          down := if reply.Some? then before.down + [reply.value] else before.down,
                          calls := calls, done := done))
  {
    hide Answered;
  }

  class BridgeLink {
    const client: BridgeBrokerClient
    const broker: BridgeBroker
    var up: seq<Request>
    var down: seq<Response>
    var pending: Option<Request>
    var gone: bool
    // A write failed, the peer vanished, or a reply came too late.
    var broken: bool
    // What a successful finish told the helper.
    var finished: Option<bool>

    ghost predicate Valid()
      reads this, client, broker, broker.helper
    {
      broker.Valid() && (!broken ==> InOrder(Now(), broker.answered))
    }

    ghost function Now(): LinkState
      reads this, client, broker
    {
      LinkState(up, down, pending, gone, broken, finished, client.state, broker.calls, broker.done)
    }

    ghost predicate MovedBy(before: LinkState, move: Move)
      reads this, client, broker
    {
      Moved(broker.helper.willing, broker.helper.works, before, move, Now())
    }

    constructor (client: BridgeBrokerClient, broker: BridgeBroker)
      requires client.state == Initial && broker.Valid() && broker.done.None? && broker.state == Initial
      ensures Valid() && !broken && this.client == client && this.broker == broker
    {
      this.client, this.broker := client, broker;
      up, down, pending, gone, broken, finished := [], [], None, false, false, None;
    }

    method Ask(request: Request, written: bool)
      requires Valid()
      modifies this`up, this`pending, this`broken, this`gone
      ensures Valid()
      ensures MovedBy(old(Now()), Move.Ask(request, written))
      ensures old(broken) ==> broken
    {
      hide BridgeBroker.Valid;
      if gone || pending.Some? {
        return;
      }
      if !client.MaySend(request) {
        // finish takes the client with it even when it is refused.
        gone := request.Finish?;
        return;
      }
      if written {
        up := up + [request];
        pending := Some(request);
      } else {
        broken := true;
        gone := gone || request.Finish?;
      }
    }

    lemma NotDue(expired: bool, written: bool)
      ensures broker.done.Some? ==> !Now().Due(expired)
      ensures !Now().Due(expired) ==> MovedBy(Now(), Move.ServeNext(expired, written))
    {
    }

    lemma AnsweredSome()
      requires broker.Valid() && broker.done.None?
      ensures broker.answered <= 2
    {
    }

    lemma AnsweredAll()
      requires broker.Valid() && broker.answered == 3
      ensures broker.done == Some(true) && Finishes(broker.calls) && broker.calls[2].ok
    {
    }

    method Hear(patient: bool)
      requires Valid()
      modifies this`down, this`pending, this`broken, this`gone, this`finished, client
      ensures Valid()
      ensures MovedBy(old(Now()), Move.Hear(patient))
      ensures old(broken) ==> broken
    {
      hide BridgeBroker.Valid, InOrder, Answered, Heard, Needs, Progress.Rank;
      if pending.None? || !client.MaySend(pending.value) {
        return;
      }
      var answer: Answer;
      if down != [] {
        answer := Reply(PROTOCOL_VERSION, down[0]);
        down := down[1..];
      } else if broker.done.Some? {
        answer := Closed;
      } else if !patient {
        answer := TimedOut;
      } else {
        return;
      }
      Take(answer);
      if !broken {
        if broker.answered == 3 {
          AnsweredAll();
        }
        HeardInOrder(broker.helper.willing, broker.helper.works, old(Now()), patient, Now(), broker.answered);
      }
    }

    method Take(answer: Answer)
      requires pending.Some? && client.MaySend(pending.value) && (answer.Reply? ==> answer.version == PROTOCOL_VERSION)
      modifies this`pending, this`broken, this`gone, this`finished, client
      ensures var left := old(Now()).(pending := None, gone := old(gone) || old(pending).value.Finish?);
              if answer.Reply? then Heard(left, old(pending).value, answer.response, Now())
              else Now() == left.(broken := true)
    {
      var result := client.Complete(pending.value, answer);
      broken := broken || result.TransportError?;
      if pending.value.Finish? {
        gone := true;
        if result.Done? {
          finished := Some(pending.value.waydroidStopped);
        }
      }
      pending := None;
    }

    method ServeNext(expired: bool, written: bool)
      requires Valid()
      modifies this`up, this`down, broker, broker.helper
      ensures Valid()
      ensures MovedBy(old(Now()), Move.ServeNext(expired, written))
    {
      hide Answered, InOrder, BridgeBroker.Valid, Needs, Progress.Rank, Expected, LinkState.Due, Moved;
      NotDue(expired, written);
      if broker.done.Some? {
        return;
      }
      AnsweredSome();
      var incoming := NextIncoming(expired);
      if incoming.None? {
        return;
      }
      ghost var answered := broker.answered;
      var reply := broker.Serve(incoming.value, written);
      ServedIsMove(broker.helper.willing, broker.helper.works, old(Now()), expired, written, incoming.value, reply,
                   broker.calls, broker.done);
      if !broken {
        ServedInOrder(old(Now()), answered, reply, broker.calls, broker.done, broker.answered);
      }
      if reply.Some? {
        down := down + [reply.value];
      }
    }

    // What the server's frame reader yields; while verified it waits for ever.
    method NextIncoming(expired: bool) returns (incoming: Option<Incoming>)
      requires broker.Valid() && broker.done.None?
      modifies this`up
      ensures incoming.Some? <==> old(Now()).Due(expired)
      ensures incoming.None? ==> Now() == old(Now())
      ensures Now() == if old(up) == [] then old(Now()) else old(Now()).(up := old(up)[1..])
      ensures incoming.Some? ==>
                incoming.value == if old(up) != [] then Message(1, old(up)[0])
                                  else if gone then EndOfStream
                                  else BadFrame
    {
      if up != [] {
        incoming := Some(Message(PROTOCOL_VERSION, up[0]));
        up := up[1..];
      } else if gone {
        incoming := Some(EndOfStream);
      } else if expired && broker.state != IsVerified {
        incoming := Some(BadFrame);
      } else {
        incoming := None;
      }
    }

    // Any interleaving of the client's calls, the server's turns, lost replies and hang-ups.
    method Run(moves: seq<Move>) returns (ghost trail: seq<LinkState>)
      requires Valid()
      modifies this, client, broker, broker.helper
      ensures Valid()
      ensures old(broken) ==> broken
      ensures |trail| == |moves| + 1 && trail[0] == old(Now()) && trail[|moves|] == Now()
      ensures forall k | 0 <= k < |moves| ::
                Moved(broker.helper.willing, broker.helper.works, trail[k], moves[k], trail[k + 1])
    {
      hide BridgeBroker.Valid, Moved, InOrder;
      trail := [Now()];
      var k := 0;
      while k < |moves|
        invariant Valid() && 0 <= k <= |moves|
        invariant old(broken) ==> broken
        invariant |trail| == k + 1 && trail[0] == old(Now()) && trail[k] == Now()
        invariant forall j | 0 <= j < k ::
                    Moved(broker.helper.willing, broker.helper.works, trail[j], moves[j], trail[j + 1])
      {
        match moves[k] {
          case Ask(request, written) => Ask(request, written);
          case Hear(patient) => Hear(patient);
          case ServeNext(expired, written) => ServeNext(expired, written);
          case HangUp => HangUp();
        }
        trail := trail + [Now()];
        k := k + 1;
      }
    }

    method HangUp()
      requires Valid()
      modifies this`gone
      ensures Valid() && MovedBy(old(Now()), Move.HangUp)
    {
      gone := true;
    }
  }

  // A session as the launcher leads it. If nothing is lost on the way and the helper works, it goes through,
  // and the helper was told.
  method UseBridge(link: BridgeLink, waydroidStopped: bool)
    requires link.Valid() && Quiet(link, 0)
    requires link.broker.helper.willing && link.broker.helper.works
    modifies link, link.client, link.broker, link.broker.helper
    ensures link.Valid() && !link.broken && link.finished == Some(waydroidStopped)
    ensures link.broker.helper.lines == [VerifyLine] + (if waydroidStopped then [CleanupLine] else [])
  {
    hide BridgeBroker.Valid, InOrder, BridgeLink.Valid;
    Exchange(link, Open(true));
    Exchange(link, Verify);
    Exchange(link, Finish(waydroidStopped));
    FinishWasDone(link);
  }

  // Nobody waits for anything.
  ghost predicate Quiet(link: BridgeLink, rank: nat)
    reads link, link.client, link.broker
  {
    && !link.broken && link.up == [] && link.down == [] && link.pending.None? && !link.gone && link.finished.None?
    && link.broker.done.None? && link.client.state.Rank() == rank == |link.broker.calls|
  }

  method Exchange(link: BridgeLink, request: Request)
    requires link.Valid() && Quiet(link, Needs(request)) && (request.Open? ==> request.allowed)
    requires link.broker.helper.willing && link.broker.helper.works
    modifies link, link.client, link.broker, link.broker.helper
    ensures link.Valid()
    ensures match request
            case Finish(stopped) => !link.broken && link.finished == Some(stopped)
            case _ => Quiet(link, Needs(request) + 1)
  {
    link.Ask(request, true);
    link.ServeNext(false, true);
    link.Hear(true);
  }

  // ---------------------------------------------------------------------------------------
  // The helper process

  datatype HelperFault = AlreadyVerified | BadCommand | VerificationFailed

  // serve_helper_protocol, with the outcome of the one verification it performs.
  function Protocol(lines: seq<Line>, verified: bool, works: bool): Result<bool, HelperFault>
    decreases |lines|
  {
    if lines == [] then Ok(false)
    else
      match lines[0]
      case CleanupLine => Ok(true)
      case OtherLine => Err(BadCommand)
      case VerifyLine =>
        if verified then Err(AlreadyVerified)
        else if !works then Err(VerificationFailed)
        else Protocol(lines[1..], true, works)
  }

  // Every answer of the helper, spelled out: at most one verification, then cleanup or the end.
  lemma ProtocolMeans(lines: seq<Line>, works: bool)
    ensures Protocol(lines, false, works) ==
            if lines == [] then Ok(false)
            else if lines[0] == CleanupLine then Ok(true)
            else if lines[0] == OtherLine then Err(BadCommand)
            else if !works then Err(VerificationFailed)
            else if |lines| == 1 then Ok(false)
            else if lines[1] == CleanupLine then Ok(true)
            else if lines[1] == VerifyLine then Err(AlreadyVerified)
            else Err(BadCommand)
  {
  }

  method ServeHelperProtocol(lines: seq<Line>, works: bool) returns (r: Result<bool, HelperFault>)
    ensures r == Protocol(lines, false, works)
  {
    var verified := false;
    var k := 0;
    while k < |lines|
      invariant 0 <= k <= |lines|
      invariant Protocol(lines[k..], verified, works) == Protocol(lines, false, works)
    {
      assert lines[k..][1..] == lines[k + 1..];
      match lines[k] {
        case CleanupLine => return Ok(true);
        case OtherLine => return Err(BadCommand);
        case VerifyLine =>
          if verified {
            return Err(AlreadyVerified);
          }
          if !works {
            return Err(VerificationFailed);
          }
          verified := true;
      }
      k := k + 1;
    }
    return Ok(false);
  }

  // A session that ends cleanly: cleanup, after at most one verification that worked.
  predicate EndsInCleanup(lines: seq<Line>, works: bool) {
    || (|lines| >= 1 && lines[0] == CleanupLine)
    || (|lines| >= 2 && lines[0] == VerifyLine && works && lines[1] == CleanupLine)
  }

  lemma ProtocolEndsInCleanup(lines: seq<Line>, works: bool)
    ensures Protocol(lines, false, works) == Ok(true) <==> EndsInCleanup(lines, works)
  {
  }

  datatype Action = InstallBridge | ReadyLine | ForceStop | RemoveBridge | RestoreAccess

  // run_privileged_bridge_helper from the ready line on, with what the stop and the two cleanups come
  // to. The container is stopped by force before any cleanup unless the session ended cleanly, both
  // cleanups are attempted whatever failed, and any failure is reported.
  method RunHelper(lines: seq<Line>, works: bool, stops: bool, removes: bool, restores: bool)
    returns (actions: seq<Action>, ok: bool)
    ensures actions == [InstallBridge, ReadyLine] + (if EndsInCleanup(lines, works) then [] else [ForceStop])
                       + [RemoveBridge, RestoreAccess]
    ensures ok <==> && Protocol(lines, false, works).Ok? && (EndsInCleanup(lines, works) || stops)
                    && removes && restores
    ensures (lines in [[], [CleanupLine], [VerifyLine], [VerifyLine, CleanupLine]] && works && stops && removes
             && restores) ==>
              ok
  {
    actions := [InstallBridge, ReadyLine];
    var protocol := ServeHelperProtocol(lines, works);
    ProtocolEndsInCleanup(lines, works);
    var stopped := true;
    if protocol != Ok(true) {
      actions := actions + [ForceStop];
      stopped := stops;
    }
    var removed := removes;
    actions := actions + [RemoveBridge];
    var restored := restores;
    actions := actions + [RestoreAccess];
    ok := protocol.Ok? && stopped && removed && restored;
  }

  // From one end to the other: once the server is gone, the helper forgoes the forced stop only if a
  // client's finish said that Waydroid had stopped, and does forgo it if the word reached the helper.
  // That the verification worked is known from the server's own trace.
  lemma ForcedUnlessFinished(broker: BridgeBroker)
    requires broker.Valid() && broker.done.Some? && broker.calls != []
    ensures var calls, helper := broker.calls, broker.helper;
            && (EndsInCleanup(helper.lines, helper.works) ==>
                  Verifies(calls) && Finishes(calls) && calls[2].waydroidStopped)
            && (Finishes(calls) && calls[2].waydroidStopped && calls[2].ok ==>
                  EndsInCleanup(helper.lines, helper.works))
            && (EndsInCleanup(helper.lines, helper.works) <==> helper.lines == [VerifyLine, CleanupLine])
  {
  }

  // The whole of it: a server with any client, and the helper it started. The container is stopped by
  // force unless a client's finish said that Waydroid had stopped, after a verification that worked; a
  // finish that said so and went through makes it needless. A server that never had a helper does nothing.
  method ServeAndHelp(broker: BridgeBroker, script: seq<Delivery>, stops: bool, removes: bool, restores: bool)
    returns (replies: seq<Option<Response>>, actions: seq<Action>)
    requires broker.Valid() && broker.done.None? && broker.state == Initial
    modifies broker, broker.helper
    ensures broker.Valid() && broker.done.Some?
    ensures actions == [] <==> broker.calls == []
    ensures var calls := broker.calls;
            && (calls != [] && ForceStop !in actions ==>
                  Verifies(calls) && Finishes(calls) && calls[2].waydroidStopped)
            && (Finishes(calls) && calls[2].waydroidStopped && calls[2].ok ==> calls != [] && ForceStop !in actions)
    // With a forced stop or without, it comes before the bridge is removed and access restored.
    ensures actions != [] ==>
              && |actions| >= 4 && actions[|actions| - 2..] == [RemoveBridge, RestoreAccess]
              && (ForceStop in actions ==> actions[|actions| - 3] == ForceStop)
  {
    ghost var trail;
    replies, trail := broker.ServeAll(script);
    actions := [];
    if broker.helper.started {
      ForcedUnlessFinished(broker);
      var ok;
      actions, ok := RunHelper(broker.helper.lines, broker.helper.works, stops, removes, restores);
    }
  }

  // A finish that came back as done was carried out, with the flag the client passed.
  lemma FinishWasDone(link: BridgeLink)
    requires link.Valid() && !link.broken && link.finished.Some?
    ensures Finishes(link.broker.calls) && link.broker.calls[1] == CallVerify(true)
    ensures link.broker.calls[2] == CallFinish(link.finished.value, true)
    ensures link.broker.helper.lines == [VerifyLine] + (if link.finished.value then [CleanupLine] else [])
  {
  }
}
