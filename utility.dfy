/** The shared `AppState` of utility.rs as an object updated in place, created as
    `run` in lib.rs creates it. Every method performs one step of
    `Presentation` on the object's fields. */
module Utility {
  import opened Decimal
  import opened Wire
  import opened Presentation

  class AppState {
    /** `slide_number`: the capture counter, used to name the assets. */
    var slideNumber: u16
    /** `volatile_slide_number`: the slide the presenter is at. */
    var volatile: u16
    /** `deleted_slides`, in the order the deletions happened. */
    var deleted: seq<u16>
    /** The asset files that exist. */
    var files: set<string>
    /** Receivers of `broadcast_tx`. */
    var receivers: nat
    /** The messages `broadcast_tx` accepted, in order. */
    var published: seq<ServerMessage>
    /** The events emitted to the desktop frontend, in order. */
    var ui: seq<UiEvent>
    /** Captures scheduled by a RightArrow whose one-second delay has not passed yet. */
    var pending: nat

    function Value(): State
      reads this
    {
      State(slideNumber, volatile, deleted, files, receivers, published, ui, pending)
    }

    ghost predicate Valid()
      reads this
    {
      Inv(Value())
    }

    /** `run` (lib.rs): both counters at 0, nothing deleted, and the channel's
        first receiver dropped at once. */
    constructor ()
      ensures Value() == Initial()
      ensures Valid()
    {
      slideNumber, volatile, deleted := 0, 0, [];
      files, receivers, published, ui, pending := {}, 0, [], [], 0;
      InitialInv();
    }

    /** `change_volatile_slide_number`, with the floor at `<= 1`. */
    method ChangeVolatileSlideNumber(increment: bool)
      requires increment ==> volatile < U16_MAX
      modifies this
      ensures Value() == ChangeVolatile(old(Value()), increment)
    {
      if !increment && volatile <= 1 {
        return;
      }
      if increment {
        volatile := volatile + 1;
      } else {
        volatile := volatile - 1;
      }
      var newValue := volatile;
      ui := ui + [VolatileSlideChanged(newValue)];
    }

    /** `broadcast_tx.send(m)`. */
    method Send(m: ServerMessage) returns (r: SendResult)
      modifies this
      ensures (Value(), r) == Publish(old(Value()), m)
    {
      if receivers > 0 {
        published := published + [m];
        r := Sent(receivers);
      } else {
        r := NoReceivers;
      }
    }

    /** `broadcast_tx.subscribe()`: the new receiver sees what is published from
        `position` on. */
    method Subscribe() returns (position: nat)
      modifies this
      ensures position == |published| && published == old(published)
      ensures Value() == old(Value()).(receivers := old(receivers) + 1)
    {
      position := |published|;
      receivers := receivers + 1;
    }

    /** A receiver is dropped. */
    method DropReceiver()
      requires receivers > 0
      requires Valid()
      modifies this
      ensures Value() == Unsubscribe(old(Value()))
      ensures Valid()
    {
      receivers := receivers - 1;
      StepPreservesInv(old(Value()), Disconnect);
    }
  }
}
