/** The `Verifiable` mixin: a self-reported validity check whose default
    implementation accepts everything. */
module Verifiable {

  /** The default `verify`: a type that does not override it (an empty
      `impl Verifiable`) is always valid. Being a function of the value, it
      reads nothing else and changes nothing, and asking twice gives the same
      answer. */
  predicate DefaultVerify<S>(s: S)
    ensures DefaultVerify(s)
  {
    true
  }
}
