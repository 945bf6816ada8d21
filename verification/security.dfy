/** The credential vault (`generate_api_key`, `hash_api_key`,
    `verify_api_key`). Key generation is random and is a parameter of the
    operations that need a new key; hashing and verification are kept
    abstract: a vault is any pair of functions, and the one property the
    rest of the model relies on is that a key verifies against its own
    digest. Salting and constant-time comparison are not modelled. */
module Security {

  datatype Vault = Vault(hash: string -> string, verify: (string, string) -> bool)

  /** Every key verifies against the digest computed from it. */
  ghost predicate Sound(v: Vault)
  {
    forall k: string {:trigger v.hash(k)} :: v.verify(k, v.hash(k))
  }
}
