/** server.rs: the capture, the key dispatch, and the per-connection protocol of
    the realtime endpoint (first a `slidesInfo` snapshot, then the broadcast
    forward loop beside the inbound loop that watches for a close). */
module Server {
  import opened Wrappers
  import opened Decimal
  import opened Wire
  import opened Presentation
  import opened Utility

  /** `take_screenshot_and_save`. Both counters advance under the counter's lock
      before any capture is tried; the asset, the `new_slide` event and the
      `slideAdded` broadcast follow only when a monitor exists. A failed
      broadcast is only logged. */
  method TakeScreenshotAndSave(st: AppState, monitorPresent: bool)
    requires Fits(st.Value())
    requires st.Valid()
    modifies st
    ensures st.Value() == Capture(old(st.Value()), monitorPresent)
    ensures st.Valid()
  {
    CapturePreservesInv(st.Value(), monitorPresent);
    st.slideNumber := st.slideNumber + 1;
    st.ChangeVolatileSlideNumber(true);
    var slideNumber := st.slideNumber;
    if monitorPresent {
      st.files := st.files + {AssetPath(slideNumber)};
      st.ui := st.ui + [NewSlide(slideNumber)];
      var _ := st.Send(SlideAddedMessage(slideNumber));
    }
  }

  /** `handle_key_press`, one key release handled to completion. The capture a
      RightArrow schedules waits in `pending` until `FireDelayedCapture`. */
  method HandleKeyPress(st: AppState, key: Key, monitorPresent: bool)
    requires key == KeyJ ==> Fits(st.Value())
    requires key == RightArrow && st.volatile != st.slideNumber ==> st.volatile < U16_MAX
    requires st.Valid()
    modifies st
    ensures st.Value() == Dispatch(old(st.Value()), key, monitorPresent)
    ensures st.Valid()
  {
    ghost var before := st.Value();
    match key {
      case KeyJ =>
        TakeScreenshotAndSave(st, monitorPresent);
      case RightArrow =>
        var slideNumber := st.slideNumber;
        var volatileSlideNumber := st.volatile;
        if volatileSlideNumber == slideNumber {
          st.pending := st.pending + 1;
        } else {
          st.ChangeVolatileSlideNumber(true);
        }
      case LeftArrow =>
        st.ChangeVolatileSlideNumber(false);
      case OtherEvent =>
    }
    StepPreservesInv(before, Press(key, monitorPresent));
  }

  /** The task a RightArrow spawned, after its one-second sleep. */
  method FireDelayedCapture(st: AppState, monitorPresent: bool)
    requires st.pending > 0 && Fits(st.Value())
    requires st.Valid()
    modifies st
    ensures st.Value() == Presentation.FireDelayedCapture(old(st.Value()), monitorPresent)
    ensures st.Valid()
  {
    ghost var before := st.Value();
    st.pending := st.pending - 1;
    TakeScreenshotAndSave(st, monitorPresent);
    StepPreservesInv(before, DelayElapsed(monitorPresent));
  }

  /** The upgrade closure of `ws_handler` up to `subscribe`. The snapshot is
      built and sent first; when that send fails the connection ends without
      subscribing, otherwise `position` is where its receiver starts. */
  method AcceptConnection(st: AppState, initialSendOk: bool) returns (first: string, position: Option<nat>)
    requires st.Valid()
    modifies st
    ensures first == Serialize(Snapshot(old(st.Value())))
    ensures (st.Value(), position) == Accept(old(st.Value()), initialSendOk)
    ensures st.Valid()
  {
    var slideNumber := st.slideNumber;
    var deletedSlides := st.deleted;
    first := Serialize(ServerMessage(SlidesInfo, CurrentState(Some(slideNumber), Some(deletedSlides))));
    if !initialSendOk {
      position := None;
      return;
    }
    var p := st.Subscribe();
    position := Some(p);
    StepPreservesInv(old(st.Value()), Connect(true));
  }

  // ---------------------------------------------------------------------------
  // The forward loop

  /** One return of `rx.recv()`; for a message, also whether the socket send
      that forwards it succeeded. */
  datatype Recv = Delivered(msg: ServerMessage, sendOk: bool) | Lagged(skipped: nat) | Closed

  datatype ForwardEnd = SendFailed | ChannelClosed | StillRunning

  /** The text frames the loop wrote, and why it stopped (`StillRunning` when the
      trace ends with the loop still waiting on `recv`). */
  datatype Forwarding = Forwarding(sent: seq<string>, end: ForwardEnd)

  /** The frames that carry `msgs`, in order. */
  function Frames(msgs: seq<ServerMessage>): (r: seq<string>)
    ensures |r| == |msgs|
    ensures forall i :: 0 <= i < |msgs| ==> r[i] == Serialize(msgs[i])
  {
    if msgs == [] then [] else [Serialize(msgs[0])] + Frames(msgs[1..])
  }

  /** The messages a trace hands to the loop. */
  function Received(trace: seq<Recv>): seq<ServerMessage> {
    if trace == [] then []
    else if trace[0].Delivered? then [trace[0].msg] + Received(trace[1..])
    else Received(trace[1..])
  }

  /** What the forward loop does with a trace of `recv` results. */
  function Forward(trace: seq<Recv>): Forwarding {
    if trace == [] then Forwarding([], StillRunning)
    else
      match trace[0]
      case Delivered(m, ok) =>
        if ok then
          var rest := Forward(trace[1..]);
          Forwarding([Serialize(m)] + rest.sent, rest.end)
        else Forwarding([], SendFailed)
      case Lagged(_) => Forward(trace[1..])
      case Closed => Forwarding([], ChannelClosed)
  }

  /** The forward task's `loop`. */
  method ForwardLoop(trace: seq<Recv>) returns (sent: seq<string>, end: ForwardEnd)
    ensures Forwarding(sent, end) == Forward(trace)
  {
    sent := [];
    var i := 0;
    while i < |trace|
      invariant 0 <= i <= |trace|
      invariant Forward(trace) == Forwarding(sent + Forward(trace[i..]).sent, Forward(trace[i..]).end)
      decreases |trace| - i
    {
      assert trace[i..][1..] == trace[i + 1..];
      match trace[i] {
        case Delivered(m, ok) =>
          if !ok {
            return sent, SendFailed;
          }
          sent := sent + [Serialize(m)];
        case Lagged(_) =>
        case Closed =>
          return sent, ChannelClosed;
      }
      i := i + 1;
    }
    assert trace[i..] == [];
    end := StillRunning;
  }

  /** The `recv` results that end the loop: a closed channel (`break` on any
      error but `Lagged`) and a message whose socket send fails. */
  predicate Stops(r: Recv) {
    r.Closed? || (r.Delivered? && !r.sendOk)
  }

  /** The loop forwards the messages it receives, in order, as long as it runs;
      it keeps running exactly as long as no closed channel and no failed send
      has come, so a lag never stops it. */
  lemma {:induction false} ForwardKeepsOrder(trace: seq<Recv>)
    ensures |Forward(trace).sent| <= |Received(trace)|
    ensures Forward(trace).sent == Frames(Received(trace)[..|Forward(trace).sent|])
    ensures Forward(trace).end == ChannelClosed ==> exists i :: 0 <= i < |trace| && trace[i].Closed?
    ensures Forward(trace).end == SendFailed ==> exists i :: 0 <= i < |trace| && trace[i].Delivered? && !trace[i].sendOk
    ensures Forward(trace).end == StillRunning ==> Forward(trace).sent == Frames(Received(trace))
  {
    if trace != [] {
      ForwardKeepsOrder(trace[1..]);
      var r, rest := Forward(trace), Forward(trace[1..]);
      if trace[0].Delivered? && trace[0].sendOk {
        var recv := Received(trace[1..]);
        assert Received(trace) == [trace[0].msg] + recv;
        assert Received(trace)[..|r.sent|] == [trace[0].msg] + recv[..|rest.sent|];
      }
      if r.end == ChannelClosed && !trace[0].Closed? {
        var i :| 0 <= i < |trace[1..]| && trace[1..][i].Closed?;
        assert trace[i + 1].Closed?;
      }
      if r.end == SendFailed && !trace[0].Delivered? {
        var i :| 0 <= i < |trace[1..]| && trace[1..][i].Delivered? && !trace[1..][i].sendOk;
        assert trace[i + 1].Delivered?;
      }
      if r.end == SendFailed && trace[0].Delivered? && trace[0].sendOk {
        var i :| 0 <= i < |trace[1..]| && trace[1..][i].Delivered? && !trace[1..][i].sendOk;
        assert trace[i + 1].Delivered?;
      }
    }
  }

  /** The loop is still running exactly when no closed channel and no failed
      send has come: a lag never stops it, and each of those two always does. */
  lemma {:induction false} ForwardRunning(trace: seq<Recv>)
    ensures Forward(trace).end == StillRunning <==> forall i :: 0 <= i < |trace| ==> !Stops(trace[i])
  {
    if trace != [] {
      ForwardRunning(trace[1..]);
      if !Stops(trace[0]) {
        assert Forward(trace).end == Forward(trace[1..]).end;
        if Forward(trace[1..]).end != StillRunning {
          var i :| 0 <= i < |trace[1..]| && Stops(trace[1..][i]);
          assert Stops(trace[i + 1]);
        } else {
          forall i | 0 <= i < |trace|
            ensures !Stops(trace[i])
          {
            if i > 0 {
              assert trace[i] == trace[1..][i - 1];
            }
          }
        }
      }
    }
  }

  /** At the first closed channel or failed send the loop stops: it has then
      written the messages received before that point, and nothing after it. */
  lemma {:induction false} ForwardStopsAtFirst(trace: seq<Recv>, k: nat)
    requires k < |trace| && Stops(trace[k])
    requires forall j :: 0 <= j < k ==> !Stops(trace[j])
    ensures Forward(trace) == Forwarding(Frames(Received(trace[..k])), if trace[k].Closed? then ChannelClosed else SendFailed)
    decreases k
  {
    if k > 0 {
      var tail := trace[1..];
      assert tail[k - 1] == trace[k];
      ForwardStopsAtFirst(tail, k - 1);
      var pre := trace[..k];
      assert pre[0] == trace[0] && pre[1..] == tail[..k - 1];
      assert !Stops(trace[0]);
      var rest := Forward(tail);
      match trace[0] {
        case Delivered(m, ok) =>
          assert Received(pre) == [m] + Received(tail[..k - 1]);
          assert Forward(trace) == Forwarding([Serialize(m)] + rest.sent, rest.end);
          assert Frames([m] + Received(tail[..k - 1])) == [Serialize(m)] + Frames(Received(tail[..k - 1])) by {
            assert ([m] + Received(tail[..k - 1]))[1..] == Received(tail[..k - 1]);
          }
        case Lagged(_) =>
          assert Received(pre) == Received(tail[..k - 1]);
        case Closed =>
      }
    } else {
      assert trace[..0] == [];
    }
  }

  /** A receiver that neither lags nor meets a failed send or a closed channel:
      every message arrives, each with a send that succeeds. */
  function DeliverAll(msgs: seq<ServerMessage>): (trace: seq<Recv>)
    ensures |trace| == |msgs|
  {
    if msgs == [] then [] else [Delivered(msgs[0], true)] + DeliverAll(msgs[1..])
  }

  lemma {:induction false} ForwardDeliverAll(msgs: seq<ServerMessage>)
    ensures Forward(DeliverAll(msgs)) == Forwarding(Frames(msgs), StillRunning)
    decreases |msgs|
  {
    if msgs != [] {
      ForwardDeliverAll(msgs[1..]);
      assert DeliverAll(msgs)[1..] == DeliverAll(msgs[1..]);
    }
  }

  /** A viewer that connects at state `s` and then stays connected while `evs`
      happen gets the snapshot of `s` first and then, in publish order, exactly
      the messages published after it subscribed: none from before, none
      missing. Its deletion list then equals the server's. */
  lemma ConnectionTranscript(s: State, evs: seq<Event>)
    requires Inv(s) && s.slideNumber + Captures(evs) <= U16_MAX
    requires StaysRegistered(s.receivers + 1, evs)
    ensures var s1 := Accept(s, true).0;
      var r := Run(s1, evs);
      && Accept(s, true).1 == Some(|s.published|)
      && s.published <= r.published
      && [Serialize(Snapshot(s))] + Forward(DeliverAll(r.published[|s.published|..])).sent
         == Frames([Snapshot(s)] + r.published[|s.published|..])
      && ViewedDeletions(s.deleted, r.published[|s.published|..]) == r.deleted
  {
    var s1 := Accept(s, true).0;
    StepPreservesInv(s, Connect(true));
    assert s1 == Step(s, Connect(true));
    RunExtends(s1, evs);
    ViewerTracksDeletions(s1, evs);
    var r := Run(s1, evs);
    var tail := r.published[|s.published|..];
    ForwardDeliverAll(tail);
    assert Frames([Snapshot(s)] + tail) == [Serialize(Snapshot(s))] + Frames(tail) by {
      assert ([Snapshot(s)] + tail)[1..] == tail;
    }
  }

  /** Every frame of a connection reads back as the message it carries. */
  lemma FramesParse(msgs: seq<ServerMessage>, i: nat)
    requires i < |msgs|
    ensures Parse(Frames(msgs)[i]) == Some(msgs[i])
  {
    ParseSerialize(msgs[i]);
  }

  // ---------------------------------------------------------------------------
  // The inbound loop

  /** One item `receiver.next()` yields. */
  datatype Frame = Text | Binary | Ping | Pong | CloseFrame | ReceiveError

  predicate EndsInbound(f: Frame) {
    f == CloseFrame || f == ReceiveError
  }

  datatype InboundEnd = ClientClosed | StreamEnded

  /** The `while let` over inbound frames: a Close or an error ends it, every
      other frame is ignored; `consumed` frames were read. */
  method InboundLoop(frames: seq<Frame>) returns (consumed: nat, end: InboundEnd)
    ensures consumed <= |frames|
    ensures forall i :: 0 <= i < consumed && i < |frames| && (end == StreamEnded || i < consumed - 1) ==> !EndsInbound(frames[i])
    ensures end == ClientClosed <==> exists i :: 0 <= i < |frames| && EndsInbound(frames[i])
    ensures end == ClientClosed ==> 1 <= consumed && EndsInbound(frames[consumed - 1])
    ensures end == StreamEnded ==> consumed == |frames|
  {
    consumed := 0;
    while consumed < |frames|
      invariant consumed <= |frames|
      invariant forall i :: 0 <= i < consumed ==> !EndsInbound(frames[i])
    {
      var msg := frames[consumed];
      consumed := consumed + 1;
      if EndsInbound(msg) {
        return consumed, ClientClosed;
      }
    }
    end := StreamEnded;
  }
}
