/** Password hashing.  bcrypt itself is a library; the model receives it as
    a pair of functions and keeps only the rule the wrapper adds: a missing
    or empty stored hash never matches. */
module Hashing {
  import opened Results

  /** `hash` is `pwd_context.hash`, `check` is `pwd_context.verify`. */
  datatype Hasher = Hasher(hash: string -> string, check: (string, string) -> bool)

  /** What a correct bcrypt guarantees: a hash is never empty and the
      password it was made from verifies against it. */
  ghost predicate Sound(h: Hasher) {
    forall p :: h.hash(p) != "" && h.check(p, h.hash(p))
  }

  /** `verify_password(plain, hashed)`. */
  function VerifyPassword(h: Hasher, plain: string, stored: Option<string>): (ok: bool)
    ensures stored.None? ==> !ok
    ensures stored == Some("") ==> !ok
    ensures stored.Some? && stored.value != "" ==> (ok <==> h.check(plain, stored.value))
  {
    if stored.None? || stored.value == "" then false else h.check(plain, stored.value)
  }

  /** With a sound hasher, a password verifies against its own hash. */
  lemma VerifyOwnHash(h: Hasher, p: string)
    requires Sound(h)
    ensures VerifyPassword(h, p, Some(h.hash(p)))
  {
    assert h.hash(p) != "" && h.check(p, h.hash(p));
  }
}
