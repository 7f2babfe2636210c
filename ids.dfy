/**
 * Makepad's `LiveId` is a hash of a name. The model identifies an id with the
 * name it was made from, so ids compare equal exactly when their names do.
 */
module Ids {
  type LiveId = string

  /** `LiveId(0)`, which the router widget reads as "not configured". */
  const NoId: LiveId := ""
}
