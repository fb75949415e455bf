/** commands.rs: the `delete_slide` command the desktop frontend invokes. */
module Commands {
  import opened Wrappers
  import opened Decimal
  import opened Wire
  import opened Presentation
  import opened Utility

  /** `delete_slide`. The asset is removed first; only if that works is
      `slide_removed` emitted, the number appended to the deletion list and the
      whole list broadcast. With no receiver the broadcast fails and the command
      reports it, although the list has already changed. */
  method DeleteSlide(st: AppState, slideNumber: u16) returns (r: Result<string, string>)
    requires st.Valid()
    modifies st
    ensures (st.Value(), r) == Presentation.DeleteSlide(old(st.Value()), slideNumber)
    ensures st.Valid()
  {
    var filePath := AssetPath(slideNumber);
    if filePath !in st.files {
      return Err("Could not delete the slide");
    }
    st.files := st.files - {filePath};
    st.ui := st.ui + [SlideRemoved(slideNumber)];
    st.deleted := st.deleted + [slideNumber];
    var deletedList := st.deleted;
    var sent := st.Send(SlideDeletedMessage(deletedList));
    match sent {
      case Sent(num) => r := Ok("Notified " + Digits(num) + " clients");
      case NoReceivers => r := Err("Broadcast failed");
    }
    DeletePreservesInv(old(st.Value()), slideNumber);
  }
}
