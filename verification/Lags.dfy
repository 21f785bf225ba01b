/** How far an informer cache is behind, counted in steps of whatever it watches. */
module Lags {

  /** lag(i) is how many steps the cache has seen done when step i reads from it; a cache never goes back. */
  ghost predicate IsLag(lag: nat -> nat) {
    && (forall i :: lag(i) <= i)
    && (forall i, j :: i <= j ==> lag(i) <= lag(j))
  }

  ghost predicate NeverLags(lag: nat -> nat) {
    forall i :: lag(i) == i
  }

  /** A cache that shows the start all the time. */
  function Stuck(): nat -> nat {
    _ => 0
  }
}
