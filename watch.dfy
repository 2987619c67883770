/**
 * Watch handles and notifiers (crates/rachat-config/src/lib.rs, lines 37-63).
 */
module Watch {
  import opened IdGenerator

  /** Watch ids are the 128-bit ids of the id generator. */
  type Id = U128

  /** `tokio::sync::Notify`, reduced to its stored permit: `notify_one` with
      no task waiting leaves one permit, however often it is called. */
  class Notify {
    var permit: bool

    constructor()
      ensures !permit
    {
      permit := false;
    }

    method NotifyOne()
      modifies this
      ensures permit
    {
      permit := true;
    }
  }

  /** `WatcherHandle`: the id of the watch, the source it belongs to (a weak
      reference in the program) and the notifier it waits on. The handle is
      generic in the kind of source so that each source can build one for
      itself. */
  datatype WatcherHandle<S> = WatcherHandle(watchId: Id, config: S, notify: Notify)

  /** How a call that may reach `todo!()` ends. */
  datatype Outcome = Completed | Panicked
}
