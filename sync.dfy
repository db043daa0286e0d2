/** The Go concurrency primitives the engines touch, reduced to what is observable. */
module Sync {

  /**
   * A Go channel seen from its senders: every value sent on it, in order.
   * Receivers are modelled by the sequences their loops are given.
   */
  class Channel<T> {
    var sent: seq<T>

    constructor ()
      ensures sent == []
    {
      sent := [];
    }

    method Send(x: T)
      modifies this
      ensures sent == old(sent) + [x]
    {
      sent := sent + [x];
    }
  }

  /** sync.WaitGroup: only its counter. */
  class WaitGroup {
    var counter: int

    constructor ()
      ensures counter == 0
    {
      counter := 0;
    }

    method Done()
      modifies this
      ensures counter == old(counter) - 1
    {
      counter := counter - 1;
    }
  }

  /** The cancel side of context.WithCancel: whether it was cancelled, and how often cancel was called. */
  class CancelContext {
    var cancelled: bool
    var cancelCalls: nat

    constructor ()
      ensures !cancelled && cancelCalls == 0
    {
      cancelled, cancelCalls := false, 0;
    }

    method Cancel()
      modifies this
      ensures cancelled && cancelCalls == old(cancelCalls) + 1
    {
      cancelled, cancelCalls := true, cancelCalls + 1;
    }
  }
}
