/** Values shared by the proposal operators. */
module Operators {

  /** What an operator's proposal returns to the MCMC driver. `Rejected` is the
      log Hastings ratio negative infinity (the move is refused unconditionally);
      `Ratio(value)` is a move whose log Hastings ratio is Math.log(value). */
  datatype HastingsRatio = Rejected | Ratio(value: real)

  datatype Option<T> = None | Some(value: T)
}
