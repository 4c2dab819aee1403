/**
 * The Redux slice that remembers which option the user last picked: a store
 * with the single field `value`, updated in place by its two reducers.
 */
module VoteSlice {

  class VoteState {
    /** The option last dispatched through `setValue`, or `""`. */
    var value: string

    /** The slice's initial state. */
    constructor ()
      ensures value == ""
    {
      value := "";
    }

    /** The `setValue` reducer: the payload becomes the stored value. */
    method SetValue(payload: string)
      modifies this
      ensures value == payload
    {
      value := payload;
    }

    /** The `reset` reducer: back to the empty string, whatever was stored. */
    method Reset()
      modifies this
      ensures value == ""
    {
      value := "";
    }
  }

  /**
   * Dispatching the same `setValue` twice leaves the store exactly as
   * dispatching it once does.
   */
  method SetValueIdempotent(twice: VoteState, once: VoteState, payload: string)
    requires twice != once
    modifies twice, once
    ensures twice.value == once.value == payload
  {
    twice.SetValue(payload);
    twice.SetValue(payload);
    once.SetValue(payload);
  }
}
