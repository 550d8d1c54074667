/** How a call to a store, a source or a sink can end, and how a run can. */
module Calls {
  /** What a call did and what it reported: LostReply took effect but reported an error. */
  datatype Outcome = Done | Failed | LostReply

  /** A run succeeds, returns an error, or dies with its process. */
  datatype Exit = Success | Error | Crashed
}
