/** `change_volatile_slide_number` as utility.rs writes it. The early return
    tests `*num == 1`, so a LeftArrow released before the first capture, while
    `volatile_slide_number` still holds its start value 0, reaches `*num -= 1`
    on a `u16`. A release build wraps the value to 65535 (a debug build panics
    and ends the key-dispatch task). The rest of the model uses
    `Presentation.ChangeVolatile`, whose floor is `<= 1`. */
module Findings {
  import opened Decimal
  import opened Presentation

  /** The new `volatile_slide_number` as written, with `u16` arithmetic wrapping. */
  function ChangeVolatileAsWritten(v: u16, increment: bool): (r: u16)
    ensures !increment ==> (r == v <==> v == 1)
    ensures !increment && v == 0 ==> r == U16_MAX
    ensures increment && v == U16_MAX ==> r == 0
  {
    if !increment && v == 1 then v
    else if increment then (v + 1) % 0x1_0000
    else (v - 1) % 0x1_0000
  }

  /** The input that shows it: from the start state a LeftArrow moves the
      position to 65535, past the 0 slides captured, and the position no longer
      satisfies `volatile <= slide_number`. The corrected step leaves it at 0. */
  lemma LeftArrowAtStartUnderflows()
    ensures ChangeVolatileAsWritten(Initial().volatile, false) == U16_MAX
    ensures ChangeVolatileAsWritten(Initial().volatile, false) > Initial().slideNumber
    ensures ChangeVolatile(Initial(), false) == Initial()
  {
  }

  /** With the corrected floor a LeftArrow never takes the position below 1 once
      it has reached 1, never leaves 0 at all, and keeps every invariant. */
  lemma CorrectedLeftArrowKeepsInv(s: State)
    requires Inv(s)
    ensures Inv(Dispatch(s, LeftArrow, false))
    ensures Dispatch(s, LeftArrow, false).volatile == if s.volatile <= 1 then s.volatile else s.volatile - 1
  {
    StepPreservesInv(s, Press(LeftArrow, false));
  }
}
