/** The component that owns a form. Its `triggerUpdate` re-renders it with its
    current state; the model counts the calls. */
module Host {
  /** What a form handle's `setLoading` returns: the observable of the state
      update, or `never()` when the handle is not bound to a form. */
  datatype LoadingResult = StateUpdate | Never

  class Host {
    var updates: nat

    constructor()
      ensures updates == 0
    {
      updates := 0;
    }

    method TriggerUpdate()
      modifies this
      ensures updates == old(updates) + 1
    {
      updates := updates + 1;
    }
  }
}
