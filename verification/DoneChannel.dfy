/** A done channel that is closed at the moment `closeAt`, or never, as a loop that polls it sees it. */
module DoneChannel {
  import opened Wrappers

  predicate Closed(closeAt: Option<nat>, time: nat) {
    closeAt.Some? && closeAt.value <= time
  }
}
