/** The presentation state and every handler that changes it, as pure steps.
    Each handler of the source (a capture, a key release, a fired delayed
    capture, a deletion, a viewer connecting or going away) is one atomic step
    from one `State` to the next; `Run` replays a trace of such events. The
    class `Utility.AppState` performs the same steps in place. */
module Presentation {
  import opened Wrappers
  import opened Decimal
  import opened Wire

  /** The key releases the global hook distinguishes; any other input event is `OtherEvent`. */
  datatype Key = KeyJ | RightArrow | LeftArrow | OtherEvent

  /** Events emitted to the desktop frontend. */
  datatype UiEvent = VolatileSlideChanged(position: u16) | NewSlide(slide: u16) | SlideRemoved(slide: u16)

  /** Outcome of `broadcast_tx.send`: the number of receivers, or an error when there are none. */
  datatype SendResult = Sent(receivers: nat) | NoReceivers

  /** `AppState` (utility.rs) together with what the core changes around it:
      the asset files, the broadcast channel's receiver count and the messages
      it accepted, the frontend events, and the delayed captures not yet fired. */
  datatype State = State(
    slideNumber: u16,
    volatile: u16,
    deleted: seq<u16>,
    files: set<string>,
    receivers: nat,
    published: seq<ServerMessage>,
    ui: seq<UiEvent>,
    pending: nat)

  /** The state `run` (lib.rs) starts from: counters at 0, nothing deleted, and
      the channel's only receiver dropped, so no receiver at all. */
  function Initial(): (s: State)
    ensures s.slideNumber == 0 && s.volatile == 0 && s.deleted == [] && s.receivers == 0
  {
    State(0, 0, [], {}, 0, [], [], 0)
  }

  // ---------------------------------------------------------------------------
  // Messages

  function SlideAddedMessage(n: u16): ServerMessage {
    ServerMessage(SlideAdded, CurrentState(Some(n), None))
  }

  function SlideDeletedMessage(deleted: seq<u16>): ServerMessage {
    ServerMessage(SlideDeleted, CurrentState(None, Some(deleted)))
  }

  /** The `slidesInfo` message a new connection gets first: the whole current state. */
  function Snapshot(s: State): (m: ServerMessage)
    ensures m.messageType == SlidesInfo
    ensures m.currentState == CurrentState(Some(s.slideNumber), Some(s.deleted))
  {
    ServerMessage(SlidesInfo, CurrentState(Some(s.slideNumber), Some(s.deleted)))
  }

  predicate IsSlideAdded(m: ServerMessage) {
    m.messageType == SlideAdded && m.currentState.numSlides.Some? && m.currentState.deletedSlides.None?
  }

  predicate IsSlideDeleted(m: ServerMessage) {
    m.messageType == SlideDeleted && m.currentState.numSlides.None? && m.currentState.deletedSlides.Some?
  }

  // ---------------------------------------------------------------------------
  // Steps

  /** `change_volatile_slide_number`, with the floor taken as `<= 1` (see
      `Findings` for the guard as written, which lets 0 underflow). */
  function ChangeVolatile(s: State, increment: bool): (r: State)
    requires increment ==> s.volatile < U16_MAX
    ensures r == s.(volatile := r.volatile, ui := r.ui)
    ensures increment ==> r.volatile == s.volatile + 1
    ensures !increment && s.volatile > 1 ==> r.volatile == s.volatile - 1
    ensures !increment && s.volatile <= 1 ==> r == s
    ensures r.volatile != s.volatile ==> r.ui == s.ui + [VolatileSlideChanged(r.volatile)]
    ensures r.volatile == s.volatile ==> r.ui == s.ui
  {
    if !increment && s.volatile <= 1 then s
    else
      var v := if increment then s.volatile + 1 else s.volatile - 1;
      s.(volatile := v, ui := s.ui + [VolatileSlideChanged(v)])
  }

  /** `broadcast_tx.send(m)`: only a channel with a receiver accepts a message,
      and only accepted messages reach anyone. */
  function Publish(s: State, m: ServerMessage): (r: (State, SendResult))
    ensures r.0 == s.(published := r.0.published)
    ensures s.receivers > 0 ==> r.0.published == s.published + [m] && r.1 == Sent(s.receivers)
    ensures s.receivers == 0 ==> r.0.published == s.published && r.1 == NoReceivers
  {
    if s.receivers > 0 then (s.(published := s.published + [m]), Sent(s.receivers))
    else (s, NoReceivers)
  }

  /** Room for one more capture in the `u16` counters. */
  predicate Fits(s: State) {
    s.slideNumber < U16_MAX && s.volatile < U16_MAX
  }

  /** `take_screenshot_and_save`: both counters advance before the capture is
      tried; with a monitor the asset is written and `slideAdded` is published. */
  function Capture(s: State, monitorPresent: bool): (r: State)
    requires Fits(s)
    ensures r.slideNumber == s.slideNumber + 1 && r.volatile == s.volatile + 1
    ensures r.deleted == s.deleted && r.receivers == s.receivers && r.pending == s.pending
    ensures r.files == if monitorPresent then s.files + {AssetPath(r.slideNumber)} else s.files
    ensures r.published == s.published + (if monitorPresent && s.receivers > 0 then [SlideAddedMessage(r.slideNumber)] else [])
    ensures r.ui == s.ui + [VolatileSlideChanged(r.volatile)] + (if monitorPresent then [NewSlide(r.slideNumber)] else [])
  {
    var n := s.slideNumber + 1;
    var advanced := ChangeVolatile(s.(slideNumber := n), true);
    if !monitorPresent then advanced
    else
      var saved := advanced.(files := advanced.files + {AssetPath(n)}, ui := advanced.ui + [NewSlide(n)]);
      Publish(saved, SlideAddedMessage(n)).0
  }

  /** `handle_key_press`. A RightArrow decides on the committed counters only,
      so a capture that is still waiting out its delay is not seen. */
  function Dispatch(s: State, key: Key, monitorPresent: bool): (r: State)
    requires key == KeyJ ==> Fits(s)
    requires key == RightArrow && s.volatile != s.slideNumber ==> s.volatile < U16_MAX
    ensures key == KeyJ ==> r == Capture(s, monitorPresent)
    ensures key == RightArrow && s.volatile == s.slideNumber ==> r == s.(pending := s.pending + 1)
    ensures key == RightArrow && s.volatile != s.slideNumber ==> r == ChangeVolatile(s, true)
    ensures key == LeftArrow ==> r == ChangeVolatile(s, false)
    ensures key == OtherEvent ==> r == s
  {
    match key
    case KeyJ => Capture(s, monitorPresent)
    case RightArrow =>
      if s.volatile == s.slideNumber then s.(pending := s.pending + 1) else ChangeVolatile(s, true)
    case LeftArrow => ChangeVolatile(s, false)
    case OtherEvent => s
  }

  /** The delayed capture a RightArrow scheduled, once its second has passed. */
  function FireDelayedCapture(s: State, monitorPresent: bool): (r: State)
    requires s.pending > 0 && Fits(s)
    ensures r.pending == s.pending - 1
    ensures r.(pending := s.pending) == Capture(s, monitorPresent)
  {
    Capture(s.(pending := s.pending - 1), monitorPresent)
  }

  /** `delete_slide` (commands.rs). */
  function DeleteSlide(s: State, n: u16): (r: (State, Result<string, string>))
    ensures AssetPath(n) !in s.files ==> r == (s, Err("Could not delete the slide"))
    ensures AssetPath(n) in s.files ==>
      && r.0.deleted == s.deleted + [n]
      && r.0.files == s.files - {AssetPath(n)}
      && r.0.ui == s.ui + [SlideRemoved(n)]
      && r.0.published == s.published + (if s.receivers > 0 then [SlideDeletedMessage(r.0.deleted)] else [])
      && r.1 == (if s.receivers > 0 then Ok("Notified " + Digits(s.receivers) + " clients") else Err("Broadcast failed"))
    ensures r.0.slideNumber == s.slideNumber && r.0.volatile == s.volatile
    ensures r.0.receivers == s.receivers && r.0.pending == s.pending
  {
    var path := AssetPath(n);
    if path !in s.files then (s, Err("Could not delete the slide"))
    else
      var removed := s.(files := s.files - {path}, ui := s.ui + [SlideRemoved(n)]);
      var recorded := removed.(deleted := removed.deleted + [n]);
      var (published, sent) := Publish(recorded, SlideDeletedMessage(recorded.deleted));
      match sent
      case Sent(k) => (published, Ok("Notified " + Digits(k) + " clients"))
      case NoReceivers => (published, Err("Broadcast failed"))
  }

  /** The upgrade closure of `ws_handler` up to `subscribe`: `Snapshot(s)` is sent
      first; only when that send succeeds does the connection subscribe, and it
      then sees the messages published from position `r.1.value` on. */
  function Accept(s: State, initialSendOk: bool): (r: (State, Option<nat>))
    ensures initialSendOk ==> r == (s.(receivers := s.receivers + 1), Some(|s.published|))
    ensures !initialSendOk ==> r == (s, None)
  {
    if initialSendOk then (s.(receivers := s.receivers + 1), Some(|s.published|)) else (s, None)
  }

  /** A connection's forward loop ends and drops its receiver. */
  function Unsubscribe(s: State): (r: State)
    requires s.receivers > 0
    ensures r == s.(receivers := s.receivers - 1)
  {
    s.(receivers := s.receivers - 1)
  }

  // ---------------------------------------------------------------------------
  // Traces

  /** One event the core reacts to. A `DelayElapsed` with no capture pending and a
      `Disconnect` with no receiver cannot happen; `Step` leaves the state alone for them. */
  datatype Event =
    | Press(key: Key, monitorPresent: bool)
    | DelayElapsed(monitorPresent: bool)
    | Delete(slide: u16)
    | Connect(initialSendOk: bool)
    | Disconnect

  /** The `u16` room the event needs: a capture needs room in both counters, a
      RightArrow that only moves the position needs room in the position. */
  predicate CanStep(s: State, e: Event) {
    match e
    case Press(key, _) =>
      && (key == KeyJ ==> Fits(s))
      && (key == RightArrow && s.volatile != s.slideNumber ==> s.volatile < U16_MAX)
    case DelayElapsed(_) => s.pending > 0 ==> Fits(s)
    case _ => true
  }

  function Step(s: State, e: Event): State
    requires CanStep(s, e)
  {
    match e
    case Press(key, m) => Dispatch(s, key, m)
    case DelayElapsed(m) => if s.pending > 0 then FireDelayedCapture(s, m) else s
    case Delete(n) => DeleteSlide(s, n).0
    case Connect(ok) => Accept(s, ok).0
    case Disconnect => if s.receivers > 0 then Unsubscribe(s) else s
  }

  /** Every slide a message of the log names exists or existed: each `slideAdded`
      carries a captured number, each `slideDeleted` a prefix of the deletion list;
      `slideAdded` numbers rise and `slideDeleted` lists grow along the log. */
  ghost predicate LogInv(log: seq<ServerMessage>, slideNumber: u16, deleted: seq<u16>) {
    && (forall i :: 0 <= i < |log| ==>
          || (IsSlideAdded(log[i]) && log[i].currentState.numSlides.value <= slideNumber)
          || (IsSlideDeleted(log[i]) && log[i].currentState.deletedSlides.value <= deleted))
    && (forall i, j :: 0 <= i < j < |log| && IsSlideAdded(log[i]) && IsSlideAdded(log[j]) ==>
          log[i].currentState.numSlides.value < log[j].currentState.numSlides.value)
    && (forall i, j :: 0 <= i < j < |log| && IsSlideDeleted(log[i]) && IsSlideDeleted(log[j]) ==>
          |log[i].currentState.deletedSlides.value| < |log[j].currentState.deletedSlides.value|)
  }

  /** What holds after every completed step. */
  ghost predicate Inv(s: State) {
    && s.volatile <= s.slideNumber
    && (forall i :: 0 <= i < |s.deleted| ==> 1 <= s.deleted[i] <= s.slideNumber)
    && (forall i, j :: 0 <= i < j < |s.deleted| ==> s.deleted[i] != s.deleted[j])
    && (forall k: u16 {:trigger AssetPath(k)} :: AssetPath(k) in s.files ==> 1 <= k <= s.slideNumber && k !in s.deleted)
    && LogInv(s.published, s.slideNumber, s.deleted)
  }

  lemma InitialInv()
    ensures Inv(Initial())
  {
  }

  lemma CapturePreservesInv(s: State, monitorPresent: bool)
    requires Inv(s) && Fits(s)
    ensures AssetPath(s.slideNumber + 1) !in s.files
    ensures Inv(Capture(s, monitorPresent))
  {
    var r := Capture(s, monitorPresent);
    var n := r.slideNumber;
    forall k: u16 | AssetPath(k) in r.files
      ensures 1 <= k <= n && k !in r.deleted
    {
      if AssetPath(k) !in s.files {
        AssetPathInjective(k, n);
      }
    }
    var log := r.published;
    if monitorPresent && s.receivers > 0 {
      assert log == s.published + [SlideAddedMessage(n)];
      forall i, j | 0 <= i < j < |log| && IsSlideAdded(log[i]) && IsSlideAdded(log[j])
        ensures log[i].currentState.numSlides.value < log[j].currentState.numSlides.value
      {
        if j == |log| - 1 {
          assert log[i] == s.published[i];
        }
      }
    }
  }

  lemma DeletePreservesInv(s: State, n: u16)
    requires Inv(s)
    ensures Inv(DeleteSlide(s, n).0)
  {
    if AssetPath(n) in s.files {
      var r := DeleteSlide(s, n).0;
      assert n !in s.deleted;
      assert r.deleted == s.deleted + [n];
      forall i, j | 0 <= i < j < |r.deleted|
        ensures r.deleted[i] != r.deleted[j]
      {
        if j == |s.deleted| {
          assert r.deleted[i] in s.deleted;
        }
      }
      forall k: u16 | AssetPath(k) in r.files
        ensures 1 <= k <= r.slideNumber && k !in r.deleted
      {
        assert AssetPath(k) != AssetPath(n);
      }
      var log := r.published;
      forall i | 0 <= i < |s.published| && IsSlideDeleted(s.published[i])
        ensures s.published[i].currentState.deletedSlides.value <= r.deleted
      {
        assert s.deleted <= r.deleted;
      }
      if s.receivers > 0 {
        assert log == s.published + [SlideDeletedMessage(r.deleted)];
        forall i, j | 0 <= i < j < |log| && IsSlideDeleted(log[i]) && IsSlideDeleted(log[j])
          ensures |log[i].currentState.deletedSlides.value| < |log[j].currentState.deletedSlides.value|
        {
          if j == |log| - 1 {
            assert log[i] == s.published[i];
          }
        }
      }
    }
  }

  /** The events that may run `take_screenshot_and_save`: a J release and a
      fired delayed capture. */
  predicate MayCapture(e: Event) {
    (e.Press? && e.key == KeyJ) || e.DelayElapsed?
  }

  /** Number of events of a trace that may capture; only these advance the counter. */
  function Captures(evs: seq<Event>): (k: nat)
    ensures k <= |evs|
  {
    if evs == [] then 0 else (if MayCapture(evs[0]) then 1 else 0) + Captures(evs[1..])
  }

  /** Every step keeps `Inv`; only a capturing event advances the capture
      counter, and by one at most. */
  lemma StepPreservesInv(s: State, e: Event)
    requires Inv(s) && CanStep(s, e)
    ensures Inv(Step(s, e))
    ensures s.slideNumber <= Step(s, e).slideNumber <= s.slideNumber + (if MayCapture(e) then 1 else 0)
  {
    match e
    case Press(key, m) =>
      if key == KeyJ {
        CapturePreservesInv(s, m);
      }
    case DelayElapsed(m) =>
      if s.pending > 0 {
        CapturePreservesInv(s.(pending := s.pending - 1), m);
      }
    case Delete(n) =>
      DeletePreservesInv(s, n);
    case Connect(_) =>
    case Disconnect =>
  }

  /** The state after a trace of events; traces with more captures than the
      `u16` counter has room for are excluded, however many other events they hold. */
  function Run(s: State, evs: seq<Event>): (r: State)
    requires Inv(s) && s.slideNumber + Captures(evs) <= U16_MAX
    ensures Inv(r)
    ensures s.slideNumber <= r.slideNumber <= s.slideNumber + Captures(evs)
    decreases |evs|
  {
    if evs == [] then s
    else
      StepPreservesInv(s, evs[0]);
      Run(Step(s, evs[0]), evs[1..])
  }

  // ---------------------------------------------------------------------------
  // Properties of traces

  lemma StepExtends(s: State, e: Event)
    requires CanStep(s, e)
    ensures s.published <= Step(s, e).published
    ensures s.deleted <= Step(s, e).deleted
  {
  }

  /** Nothing is ever taken back: the log only grows, the deletion list only
      grows at its end, and the capture counter never decreases. */
  lemma {:induction false} RunExtends(s: State, evs: seq<Event>)
    requires Inv(s) && s.slideNumber + Captures(evs) <= U16_MAX
    ensures s.published <= Run(s, evs).published
    ensures s.deleted <= Run(s, evs).deleted
    decreases |evs|
  {
    if evs != [] {
      StepPreservesInv(s, evs[0]);
      StepExtends(s, evs[0]);
      var s1 := Step(s, evs[0]);
      RunExtends(s1, evs[1..]);
      PrefixTransitive(s.published, s1.published, Run(s1, evs[1..]).published);
      PrefixTransitive(s.deleted, s1.deleted, Run(s1, evs[1..]).deleted);
    }
  }

  lemma PrefixTransitive<T>(a: seq<T>, b: seq<T>, c: seq<T>)
    requires a <= b && b <= c
    ensures a <= c
  {
    assert c[..|a|] == c[..|b|][..|a|];
  }

  /** `n` releases of J, the i-th finding a monitor exactly when `monitors[i]`. */
  function JPresses(monitors: seq<bool>): (evs: seq<Event>)
    ensures |evs| == |monitors| && Captures(evs) == |monitors|
  {
    if monitors == [] then [] else [Press(KeyJ, monitors[0])] + JPresses(monitors[1..])
  }

  /** After N captures the counter has advanced by exactly N, whether or not a
      monitor was found, and the position with it. */
  lemma {:induction false} CapturesCount(s: State, monitors: seq<bool>)
    requires Inv(s) && s.slideNumber + |monitors| <= U16_MAX
    ensures Run(s, JPresses(monitors)).slideNumber == s.slideNumber + |monitors|
    ensures Run(s, JPresses(monitors)).volatile == s.volatile + |monitors|
    decreases |monitors|
  {
    if monitors != [] {
      var evs := JPresses(monitors);
      assert evs[0] == Press(KeyJ, monitors[0]) && evs[1..] == JPresses(monitors[1..]);
      StepPreservesInv(s, evs[0]);
      CapturesCount(Step(s, evs[0]), monitors[1..]);
    }
  }

  /** The receiver count after one event. */
  function NextReceivers(receivers: nat, e: Event): nat {
    match e
    case Connect(ok) => if ok then receivers + 1 else receivers
    case Disconnect => if receivers > 0 then receivers - 1 else receivers
    case _ => receivers
  }

  /** A viewer holding one of `receivers` registered receivers keeps it through
      `evs`: a `Disconnect` always leaves some other receiver behind, since the
      viewer's own receiver is dropped only when its forward loop ends. */
  predicate StaysRegistered(receivers: nat, evs: seq<Event>)
    decreases |evs|
  {
    && receivers > 0
    && (evs != [] ==>
          && (evs[0] == Disconnect ==> receivers > 1)
          && StaysRegistered(NextReceivers(receivers, evs[0]), evs[1..]))
  }

  lemma StepReceivers(s: State, e: Event)
    requires CanStep(s, e)
    ensures Step(s, e).receivers == NextReceivers(s.receivers, e)
  {
  }

  /** The deletion list a viewer holds when it starts from `base` and takes the
      list of every `slideDeleted` message of `msgs`, in order. */
  function ViewedDeletions(base: seq<u16>, msgs: seq<ServerMessage>): seq<u16>
    decreases |msgs|
  {
    if msgs == [] then base
    else
      var m := msgs[0];
      var next := if m.messageType == SlideDeleted && m.currentState.deletedSlides.Some? then m.currentState.deletedSlides.value else base;
      ViewedDeletions(next, msgs[1..])
  }

  lemma {:induction false} ViewedDeletionsAppend(base: seq<u16>, a: seq<ServerMessage>, b: seq<ServerMessage>)
    ensures ViewedDeletions(base, a + b) == ViewedDeletions(ViewedDeletions(base, a), b)
    decreases |a|
  {
    if a == [] {
      assert a + b == b;
    } else {
      assert (a + b)[0] == a[0] && (a + b)[1..] == a[1..] + b;
      var m := a[0];
      var next := if m.messageType == SlideDeleted && m.currentState.deletedSlides.Some? then m.currentState.deletedSlides.value else base;
      ViewedDeletionsAppend(next, a[1..], b);
    }
  }

  /** While some receiver is registered, what one step publishes carries its
      change of the deletion list. */
  lemma StepPublishesDeletions(s: State, e: Event)
    requires CanStep(s, e) && s.receivers > 0
    ensures s.published <= Step(s, e).published
    ensures ViewedDeletions(s.deleted, Step(s, e).published[|s.published|..]) == Step(s, e).deleted
  {
    var r := Step(s, e);
    var added := r.published[|s.published|..];
    assert |added| <= 1;
    if |added| == 1 {
      assert added == [added[0]];
      assert ViewedDeletions(s.deleted, added) == ViewedDeletions(ViewedDeletions(s.deleted, [added[0]]), []);
    }
  }

  /** A viewer whose receiver stays registered (fewer other connections go away
      than there are receivers) and that gets every message published after it
      subscribed holds the server's deletion list: the snapshot's list, updated
      by each `slideDeleted` it received, is the current list. */
  lemma {:induction false} ViewerTracksDeletions(s: State, evs: seq<Event>)
    requires Inv(s) && s.slideNumber + Captures(evs) <= U16_MAX
    requires StaysRegistered(s.receivers, evs)
    ensures |s.published| <= |Run(s, evs).published|
    ensures ViewedDeletions(s.deleted, Run(s, evs).published[|s.published|..]) == Run(s, evs).deleted
    decreases |evs|
  {
    RunExtends(s, evs);
    var r := Run(s, evs);
    if evs == [] {
      assert r.published[|s.published|..] == [];
    } else {
      StepPreservesInv(s, evs[0]);
      StepPublishesDeletions(s, evs[0]);
      var s1 := Step(s, evs[0]);
      StepReceivers(s, evs[0]);
      ViewerTracksDeletions(s1, evs[1..]);
      RunExtends(s1, evs[1..]);
      assert r == Run(s1, evs[1..]);
      var a := s1.published[|s.published|..];
      var b := r.published[|s1.published|..];
      assert r.published[|s.published|..] == a + b;
      ViewedDeletionsAppend(s.deleted, a, b);
    }
  }

  /** A successful deletion removes the asset, so repeating it fails and cannot
      record the slide twice. */
  lemma RepeatedDeleteFails(s: State, n: u16)
    requires AssetPath(n) in s.files
    ensures DeleteSlide(DeleteSlide(s, n).0, n) == (DeleteSlide(s, n).0, Err("Could not delete the slide"))
  {
  }

  /** Two RightArrows while the position equals the counter both schedule a
      capture, since neither sees the other's capture before its delay has passed;
      once both fire, two slides have been captured. */
  lemma TwoRightArrowsScheduleTwoCaptures(s: State, m1: bool, m2: bool)
    requires s.volatile == s.slideNumber && s.slideNumber + 2 <= U16_MAX
    ensures Dispatch(Dispatch(s, RightArrow, m1), RightArrow, m2) == s.(pending := s.pending + 2)
    ensures var s4 := FireDelayedCapture(FireDelayedCapture(s.(pending := s.pending + 2), m1), m2);
      s4.slideNumber == s.slideNumber + 2 && s4.volatile == s.volatile + 2 && s4.pending == s.pending
  {
  }

  // ---------------------------------------------------------------------------
  // Scenarios

  /** From the start, with one viewer subscribed: J captures slide 1 and
      broadcasts `slideAdded` with 1. */
  lemma ScenarioFirstCapture()
    ensures var s := Capture(Accept(Initial(), true).0, true);
      && s.slideNumber == 1 && s.volatile == 1
      && s.published == [SlideAddedMessage(1)]
      && AssetPath(1) in s.files
  {
  }

  /** Behind the counter, RightArrow only advances the position: no capture, no broadcast. */
  lemma ScenarioCatchUp(s: State)
    requires s.slideNumber == 3 && s.volatile == 1
    ensures var r := Dispatch(s, RightArrow, true);
      r.volatile == 2 && r.slideNumber == 3 && r.published == s.published && r.pending == s.pending
  {
  }

  /** The first viewer stays registered while a second one joins and leaves
      again; a `Disconnect` while it is the only receiver is its own. */
  lemma ScenarioSecondViewerComesAndGoes()
    ensures StaysRegistered(1, [Connect(true), Disconnect])
    ensures StaysRegistered(1, [Connect(true), Connect(false), Disconnect, Press(OtherEvent, true)])
    ensures !StaysRegistered(1, [Disconnect])
  {
    assert [Connect(true), Disconnect][1..] == [Disconnect];
  }

  /** Deleting slide 2 with a viewer present broadcasts the list `[2]`, and a viewer
      connecting afterwards gets it in its snapshot. */
  lemma ScenarioDeleteThenConnect(s: State)
    requires s.deleted == [] && s.receivers == 1 && AssetPath(2) in s.files
    ensures DeleteSlide(s, 2).1 == Ok("Notified 1 clients")
    ensures DeleteSlide(s, 2).0.published == s.published + [SlideDeletedMessage([2])]
    ensures Snapshot(DeleteSlide(s, 2).0).currentState.deletedSlides == Some([2])
  {
    assert Digits(1) == "1";
    assert "Notified " + Digits(1) + " clients" == "Notified 1 clients";
    assert s.deleted + [2] == [2];
  }
}
