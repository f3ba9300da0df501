/** The salted password hash, treated as a symbolic value: a hash records the
    password it was made from and its salt, and only `Compare` looks inside. */
module Credentials {

  /** A salt. The caller supplies it; how it is drawn is not modelled. */
  datatype Salt = Salt(seed: nat)

  /** The hash of `secret` under `salt`. The stored password field has this
      type, so a plaintext password can never be stored in its place. */
  datatype PasswordHash = Hash(secret: string, salt: Salt)

  /** Checks a plaintext password against a stored hash: it matches exactly
      when the hash was made from that password, under whatever salt. */
  function Compare(password: string, hash: PasswordHash): (ok: bool)
    ensures ok <==> exists salt :: hash == Hash(password, salt)
  {
    if hash.secret == password then
      assert hash == Hash(password, hash.salt);
      true
    else
      false
  }

  /** A password matches its own hash, and no other password does. */
  lemma CompareHashed(password: string, other: string, salt: Salt)
    ensures Compare(password, Hash(password, salt))
    ensures other != password ==> !Compare(other, Hash(password, salt))
  {
  }
}
