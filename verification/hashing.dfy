/**
 * The password-hashing extension, kept opaque: the model sees only a hash
 * operation and a check operation, passed in as values.
 */
module Hashing {
  import opened Wrappers

  /** The random salt the hash operation draws; randomness becomes a parameter. */
  type Salt = nat

  /**
   * `generate(salt, p)` is the encoded hash of password `p`, or `None` when
   * the extension refuses the password with a `ValueError`;
   * `check(h, p)` says whether `p` matches the stored hash `h`.
   */
  datatype Bcrypt = Bcrypt(generate: (Salt, string) -> Option<string>, check: (string, string) -> bool)

  /**
   * The one assumption made about the extension: a hash it produces is a
   * non-empty string, and checking the hashed password against it succeeds.
   */
  ghost predicate Sound(b: Bcrypt) {
    forall salt, p :: b.generate(salt, p).Some? ==>
      b.generate(salt, p).value != "" && b.check(b.generate(salt, p).value, p)
  }
}
