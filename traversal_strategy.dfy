/**
 * Equality and hashing of traversal strategies: a strategy is identified by
 * its run-time class alone, whatever its instance state.
 */
module TraversalStrategies {
  import opened Wrappers

  /** A Java object as `equals` and `hashCode` see it: its run-time class and its instance identity. */
  datatype JavaObject = JavaObject(runtimeClass: string, identity: nat)

  /** `object.getClass()` on a null argument. */
  datatype StrategyError = NullPointer

  /** `equals`: the same run-time class; a null argument throws. */
  function Equals(strategy: JavaObject, other: Option<JavaObject>): (r: Result<bool, StrategyError>)
    ensures other.None? ==> r == Failure(NullPointer)
    ensures other.Some? ==> r.Success? && (r.value <==> strategy.runtimeClass == other.value.runtimeClass)
  {
    match other
    case None => Failure(NullPointer)
    case Some(o) => Success(strategy.runtimeClass == o.runtimeClass)
  }

  /** `hashCode`: the hash of the run-time class, `classHash` standing for `Class.hashCode`. */
  function HashCode(strategy: JavaObject, classHash: string -> int): (h: int)
    ensures h == classHash(strategy.runtimeClass)
  {
    classHash(strategy.runtimeClass)
  }

  /** Two strategies compare equal. */
  predicate SameStrategy(a: JavaObject, b: JavaObject)
  {
    Equals(a, Some(b)) == Success(true)
  }

  lemma EqualsReflexive(a: JavaObject)
    ensures SameStrategy(a, a)
  {
  }

  lemma EqualsSymmetric(a: JavaObject, b: JavaObject)
    ensures SameStrategy(a, b) <==> SameStrategy(b, a)
  {
  }

  lemma EqualsTransitive(a: JavaObject, b: JavaObject, c: JavaObject)
    requires SameStrategy(a, b) && SameStrategy(b, c)
    ensures SameStrategy(a, c)
  {
  }

  /** Equal strategies have equal hash codes, and instances of one class are always equal. */
  lemma HashConsistentWithEquals(a: JavaObject, b: JavaObject, classHash: string -> int)
    ensures SameStrategy(a, b) ==> HashCode(a, classHash) == HashCode(b, classHash)
    ensures a.runtimeClass == b.runtimeClass ==> SameStrategy(a, b)
  {
  }
}
