/** Calls to another system: the MQTT broker, its management API, the database. */
module Calls {

  /** The result of one call. A call that reports an error may still have taken effect. */
  datatype Call = Accepted | Failed(applied: bool)

  predicate TakesEffect(call: Call) {
    call.Accepted? || call.applied
  }
}
