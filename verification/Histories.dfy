/** Conditions that one event brings about and another one ends. */
module Histories {

  /** Some event before `n` started it, and none since has stopped it. */
  ghost predicate Since(n: nat, start: nat -> bool, stop: nat -> bool) {
    exists i: nat :: i < n && start(i) && forall j: nat :: i < j < n ==> !stop(j)
  }

  lemma SinceNext(n: nat, start: nat -> bool, stop: nat -> bool)
    ensures Since(n + 1, start, stop) <==> start(n) || (Since(n, start, stop) && !stop(n))
  {
  }

  /** Each of the first steps starts it, or keeps it and does not stop it. */
  ghost predicate Evolves(n: nat, holds: nat -> bool, start: nat -> bool, stop: nat -> bool) {
    !holds(0) && forall k: nat :: k < n ==> (holds(k + 1) <==> start(k) || (holds(k) && !stop(k)))
  }

  lemma EvolvesNext(n: nat, holds: nat -> bool, start: nat -> bool, stop: nat -> bool)
    requires Evolves(n, holds, start, stop)
    requires holds(n + 1) <==> start(n) || (holds(n) && !stop(n))
    ensures Evolves(n + 1, holds, start, stop)
  {
  }

  /** What evolves in this way holds exactly since it was started. */
  lemma {:induction false} HoldsSince(n: nat, holds: nat -> bool, start: nat -> bool, stop: nat -> bool)
    requires Evolves(n, holds, start, stop)
    ensures holds(n) <==> Since(n, start, stop)
  {
    if n > 0 {
      HoldsSince(n - 1, holds, start, stop);
      SinceNext(n - 1, start, stop);
      assert holds(n - 1 + 1) <==> start(n - 1) || (holds(n - 1) && !stop(n - 1));
    }
  }

  /** It was started and not stopped since, or held from the beginning and was never stopped. */
  ghost predicate Lasts(n: nat, initially: bool, start: nat -> bool, stop: nat -> bool) {
    Since(n, start, stop) || (initially && forall j: nat :: j < n ==> !stop(j))
  }

  lemma LastsNext(n: nat, initially: bool, start: nat -> bool, stop: nat -> bool)
    ensures Lasts(n + 1, initially, start, stop) <==> start(n) || (Lasts(n, initially, start, stop) && !stop(n))
  {
    SinceNext(n, start, stop);
  }
}
