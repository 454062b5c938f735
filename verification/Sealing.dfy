/** Ideal authenticated encryption: a sealed value opens under the key that sealed it and under no other. */
module Sealing {
  import opened Common

  /** Keys are drawn at random or derived from a password and a salt; derivation never collides. */
  datatype Key = Random(id: nat) | Derived(password: string, salt: nat)

  datatype Sealed<+T> = Sealed(key: Key, plain: T)

  function Open<T>(k: Key, s: Sealed<T>): (r: Option<T>) {
    if k == s.key then Some(s.plain) else None
  }
}
