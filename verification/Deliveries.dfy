/** How the delivery of a batch to a plugin ends. */
module Deliveries {

  /** A failure comes before the index height is cached, or after, when the transaction rolls back. */
  datatype Delivery = FailsBefore | FailsAfter | Commits
}
