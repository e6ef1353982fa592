/**
 * The countdown of a QTE button as values: its age, when it has expired, and
 * the fill fraction its progress image shows while it is alive.
 */
module Countdown {

  /** A button expires once its age reaches its lifetime. */
  predicate Expired(age: real, lifetime: real)
  {
    age >= lifetime
  }

  /**
   * The fill fraction of a live button: 1 at birth, draining linearly towards
   * 0 as the age approaches the lifetime. It never reaches 0 while the button
   * is alive.
   */
  function Fill(age: real, lifetime: real): (r: real)
    requires 0.0 <= age && !Expired(age, lifetime)
    ensures 0.0 < r <= 1.0
    ensures r == 1.0 <==> age == 0.0
  {
    1.0 - age / lifetime
  }

  /** As the button ages the fill never increases. */
  lemma FillNeverIncreases(age1: real, age2: real, lifetime: real)
    requires 0.0 <= age1 <= age2 && !Expired(age2, lifetime)
    ensures Fill(age2, lifetime) <= Fill(age1, lifetime)
    ensures age1 < age2 ==> Fill(age2, lifetime) < Fill(age1, lifetime)
  {
    assert age1 / lifetime <= age2 / lifetime by {
      assert age1 * (1.0 / lifetime) <= age2 * (1.0 / lifetime);
    }
  }
}
