/** How a statement or a COMMIT ends for its caller. */
module Answers {
  datatype Answer =
    | Answered     // it took effect, or not, as it reports
    | RolledBack   // an error, without any effect
    | Lost         // an error, although it took effect
}
