/** Option and Result, used by every other module for Go's (value, error) pairs; and closed sets. */
module Results {
  datatype Option<+T> = None | Some(value: T)

  datatype Result<+T, +E> = Ok(value: T) | Err(error: E)

  /**
    Some sets of outcomes are closed. What holds of an element is said for every `k` with `Asked(k)`,
    and the quantifier is only instantiated where a proof mentions `Asked`. So a proof that merely
    passes a membership on does not have the verifier unfold what is in the set, and one that needs it
    says `assert Asked(0)`. The condition is always true: a closed set has the elements that it would
    have without it, and nothing is assumed or left unproved.
   */
  predicate Asked(k: nat) {
    true
  }
}
