/**
 * The process-wide tooltip-anchor id source (`get_id`), made an explicit
 * object that callers thread through. Ids are consecutive naturals from the
 * counter's current value; troubadour/id.py is not part of this model, so
 * the starting value is a constructor parameter.
 */
module Ids {

  class IdCounter {
    /** The id the next call hands out. */
    var next: nat

    constructor(start: nat)
      ensures next == start
    {
      next := start;
    }

    /** `get_id()`: the current value, and the counter moves past it. */
    method Fresh() returns (id: nat)
      modifies this
      ensures id == old(next) && next == old(next) + 1
    {
      id := next;
      next := next + 1;
    }
  }
}
