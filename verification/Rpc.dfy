/** What becomes of a remote call. */
module Rpc {
  import opened Json

  datatype Outcome = Answered(response: Json) | Expired | Dropped
}
