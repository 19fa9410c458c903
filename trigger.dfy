/**
 * The process-wide "reload the authorization cache" flag (TRIGGER_DB_UPDATE).
 * Only its `set()` operation is used by the modelled code, so that is all
 * this class offers.
 */
module Trigger {

  class UpdateTrigger {
    var raised: bool

    constructor (initial: bool)
      ensures raised == initial
    {
      raised := initial;
    }

    /** Raises the flag; idempotent. */
    method Set()
      modifies this
      ensures raised
    {
      raised := true;
    }
  }
}
