/** The rating engine's prior: where, and how uncertain, a player without history is placed. */
module RatingPrior {
  const UNRATED_MU: real := 25.0
  const UNRATED_SIGMA: real := 25.0 / 3.0
}
