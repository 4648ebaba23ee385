/** Vocabulary shared by every model: optional values, identities and time. */
module Core {
  datatype Option<+T> = None | Some(value: T)

  /** Identities stand for UUIDs; a store hands out each one at most once. */
  type Id = nat

  type WorkerId = nat

  /** Seconds. Every clock reading in the system comes from one nondecreasing clock. */
  type Time = real

  function Later(a: Time, b: Time): Time {
    if a < b then b else a
  }

  /** There is always a key that is not in use. */
  lemma {:induction false} Unused(keys: set<nat>) returns (key: nat)
    ensures key !in keys && forall k :: k in keys ==> k < key
  {
    key := 0;
    if keys != {} {
      var k :| k in keys;
      var above := Unused(keys - {k});
      key := if above <= k then k + 1 else above;
      forall x | x in keys ensures x < key {
        assert x == k || x in keys - {k};
      }
    }
  }
}
