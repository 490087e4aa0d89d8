/** The specification pattern: predicates over candidates, combined with `and`,
    `or` and `not`. */
module Specifications {

  /** A leaf predicate, or one of the three combinators built by the interface's
      default methods. */
  datatype Spec<!T(!new)> =
    | Leaf(test: T -> bool)
    | AndSpec(left: Spec<T>, right: Spec<T>)
    | OrSpec(left: Spec<T>, right: Spec<T>)
    | NotSpec(spec: Spec<T>)
  {
    /** `isSatisfiedBy`: a leaf runs its test; `AndSpecification` and `OrSpecification`
        combine their sides with `&&` and `||`; `NotSpecification` negates. */
    predicate IsSatisfiedBy(candidate: T)
      decreases this
    {
      match this
      case Leaf(test) => test(candidate)
      case AndSpec(l, r) => l.IsSatisfiedBy(candidate) && r.IsSatisfiedBy(candidate)
      case OrSpec(l, r) => l.IsSatisfiedBy(candidate) || r.IsSatisfiedBy(candidate)
      case NotSpec(s) => !s.IsSatisfiedBy(candidate)
    }

    /** `and`: satisfied exactly when both are. */
    function And(other: Spec<T>): (r: Spec<T>)
      ensures forall x :: r.IsSatisfiedBy(x) <==> IsSatisfiedBy(x) && other.IsSatisfiedBy(x)
    {
      AndSpec(this, other)
    }

    /** `or`: satisfied exactly when either is. */
    function Or(other: Spec<T>): (r: Spec<T>)
      ensures forall x :: r.IsSatisfiedBy(x) <==> IsSatisfiedBy(x) || other.IsSatisfiedBy(x)
    {
      OrSpec(this, other)
    }

    /** `not`: satisfied exactly when this is not. */
    function Not(): (r: Spec<T>)
      ensures forall x :: r.IsSatisfiedBy(x) <==> !IsSatisfiedBy(x)
    {
      NotSpec(this)
    }
  }

  /** Negating twice gives back the same verdicts. */
  lemma DoubleNegation<T(!new)>(s: Spec<T>, x: T)
    ensures s.Not().Not().IsSatisfiedBy(x) == s.IsSatisfiedBy(x)
  {
  }

  /** De Morgan: the negation of a conjunction is the disjunction of the negations. */
  lemma DeMorgan<T(!new)>(a: Spec<T>, b: Spec<T>, x: T)
    ensures a.And(b).Not().IsSatisfiedBy(x) == a.Not().Or(b.Not()).IsSatisfiedBy(x)
    ensures a.Or(b).Not().IsSatisfiedBy(x) == a.Not().And(b.Not()).IsSatisfiedBy(x)
  {
  }

  /** The verdicts of `and` and `or` do not depend on the order of the sides. */
  lemma Commutative<T(!new)>(a: Spec<T>, b: Spec<T>, x: T)
    ensures a.And(b).IsSatisfiedBy(x) == b.And(a).IsSatisfiedBy(x)
    ensures a.Or(b).IsSatisfiedBy(x) == b.Or(a).IsSatisfiedBy(x)
  {
  }

  /** For any candidate exactly one of a specification and its negation holds. */
  lemma ExactlyOne<T(!new)>(s: Spec<T>, x: T)
    ensures s.IsSatisfiedBy(x) != s.Not().IsSatisfiedBy(x)
  {
  }
}
