/** How the loops of the sources end. */
module Endings {

  /** When there is nothing more, with an error, or because a check finds the context cancelled. */
  datatype Ending = Completed | Failed | Cancelled
}
