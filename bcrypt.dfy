/**
 * An ideal stand-in for the bcrypt crate: `hash` with a cost factor and a
 * random salt, and `verify` of a password against a stored hash. The key
 * derivation is an injective constructor, so a digest matches exactly the
 * password, salt and cost it was made from.
 */
module Bcrypt {
  import opened Wrappers

  const DEFAULT_COST: nat := 12
  const MIN_COST: nat := 4
  const MAX_COST: nat := 31

  type Salt = seq<bv8>

  /** The derived key, standing for the output of EksBlowfish. */
  datatype Digest = EksBlowfish(cost: nat, salt: Salt, password: string)

  /** A stored password column: a well-formed bcrypt hash, or any other text. */
  datatype HashString = Modular(cost: nat, salt: Salt, digest: Digest) | Other(text: string)

  datatype BcryptError = CostNotAllowed(cost: nat) | InvalidHash

  predicate CostAllowed(cost: nat) {
    MIN_COST <= cost <= MAX_COST
  }

  function Hash(password: string, cost: nat, salt: Salt): (r: Result<HashString, BcryptError>)
    ensures r.Failure? <==> !CostAllowed(cost)
    ensures r.Failure? ==> r.error == CostNotAllowed(cost)
    ensures r.Success? ==> r.value.Modular? && r.value.cost == cost
  {
    if CostAllowed(cost) then Success(Modular(cost, salt, EksBlowfish(cost, salt, password)))
    else Failure(CostNotAllowed(cost))
  }

  function Verify(password: string, hash: HashString): (r: Result<bool, BcryptError>)
    ensures hash.Other? ==> r == Failure(InvalidHash)
  {
    match hash
    case Other(_) => Failure(InvalidHash)
    case Modular(cost, salt, digest) =>
      if CostAllowed(cost) then Success(digest == EksBlowfish(cost, salt, password))
      else Failure(CostNotAllowed(cost))
  }

  /** A fresh hash verifies exactly the password it was made from. */
  lemma VerifyHash(password: string, attempt: string, cost: nat, salt: Salt)
    requires CostAllowed(cost)
    ensures Verify(attempt, Hash(password, cost, salt).value) == Success(attempt == password)
  {
  }
}
