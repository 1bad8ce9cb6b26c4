/** Password hashing, standing in for the bcrypt library. The hash is abstract:
    it records the salt and hides the password behind the datatype, and checking
    a candidate succeeds exactly for the password that was hashed (an ideal,
    collision-free hash). */
module Bcrypt {

  datatype Hash = Hash(salt: int, secret: string)

  /** `bcrypt.hashSync(password, 8)`; the random salt is a parameter. */
  function HashSync(password: string, salt: int): Hash
  {
    Hash(salt, password)
  }

  /** `bcrypt.compareSync(candidate, hash)` */
  function CompareSync(candidate: string, h: Hash): bool
  {
    candidate == h.secret
  }

  /** Checking a candidate against a hash succeeds iff it is the password that was hashed, whatever the salt. */
  lemma CompareHashed(password: string, candidate: string, salt: int)
    ensures CompareSync(candidate, HashSync(password, salt)) <==> candidate == password
  {
  }
}
