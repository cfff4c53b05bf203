/**
 * AssemblyReferenceNameComparer: equality and hashing of (nullable) assembly
 * references by their full name alone.
 *
 * The framework's invariant-culture string comparer is linguistic, not
 * ordinal; it is not modelled but given to the comparer as a value whose
 * laws (an equivalence with a consistent hash) are stated as predicates.
 */
module Comparers {
  import opened Wrappers

  /** An IEqualityComparer<string>: an equality test and a hash. */
  datatype StringComparer = StringComparer(equals: (string, string) -> bool, hash: string -> int)

  ghost predicate IsEquivalence(c: StringComparer)
  {
    && (forall s :: c.equals(s, s))
    && (forall s, t :: c.equals(s, t) ==> c.equals(t, s))
    && (forall s, t, u :: c.equals(s, t) && c.equals(t, u) ==> c.equals(s, u))
  }

  ghost predicate HashConsistent(c: StringComparer)
  {
    forall s, t :: c.equals(s, t) ==> c.hash(s) == c.hash(t)
  }

  /**
   * An IAssemblyReference as the comparer sees it: its FullName string, and a
   * handle standing for the rest of the object (the metadata it was read from).
   */
  datatype AssemblyReference = AssemblyReference(fullName: string, handle: nat)

  /** The comparer, holding the invariant-culture string comparer it delegates to. */
  datatype AssemblyReferenceNameComparer = AssemblyReferenceNameComparer(invariantCulture: StringComparer)
  {
    /**
     * Equals(x, y), None standing for a null reference: with a null on either
     * side the two are equal exactly when both are null; otherwise the
     * invariant-culture comparer decides on the full names.
     */
    predicate Equals(x: Option<AssemblyReference>, y: Option<AssemblyReference>)
      ensures x.None? || y.None? ==> (Equals(x, y) <==> x == y)
      ensures x.Some? && y.Some? ==> (Equals(x, y) <==> invariantCulture.equals(x.value.fullName, y.value.fullName))
    {
      if x.None? && y.None? then true
      else if x.None? || y.None? then false
      else invariantCulture.equals(x.value.fullName, y.value.fullName)
    }

    /**
     * GetHashCode(obj): the invariant-culture hash of the full name, shared by
     * every reference Equals equates with `obj` when that hash is consistent.
     */
    function GetHashCode(obj: AssemblyReference): (h: int)
      ensures HashConsistent(invariantCulture) ==>
        forall other: AssemblyReference :: Equals(Some(obj), Some(other)) ==> invariantCulture.hash(other.fullName) == h
    {
      invariantCulture.hash(obj.fullName)
    }
  }

  /** The shared comparer built over the invariant-culture string comparer. */
  function Default(invariantCulture: StringComparer): (c: AssemblyReferenceNameComparer)
    ensures c.invariantCulture == invariantCulture
    ensures IsEquivalence(invariantCulture) ==> forall x :: c.Equals(x, x)
  {
    AssemblyReferenceNameComparer(invariantCulture)
  }

  /** Two null references are equal. */
  lemma EqualsNullNull(c: AssemblyReferenceNameComparer)
    ensures c.Equals(None, None)
  {
  }

  /** A null reference never equals a non-null one, in either position. */
  lemma EqualsOneNull(c: AssemblyReferenceNameComparer, x: AssemblyReference)
    ensures !c.Equals(None, Some(x)) && !c.Equals(Some(x), None)
  {
  }

  /**
   * For two non-null references, Equals is the string comparer on their full
   * names; Equals and GetHashCode read no field but the full name.
   */
  lemma EqualsByFullNameOnly(c: AssemblyReferenceNameComparer, x: AssemblyReference, y: AssemblyReference,
                             x': AssemblyReference, y': AssemblyReference)
    requires x.fullName == x'.fullName && y.fullName == y'.fullName
    ensures c.Equals(Some(x), Some(y)) <==> c.invariantCulture.equals(x.fullName, y.fullName)
    ensures c.Equals(Some(x), Some(y)) == c.Equals(Some(x'), Some(y'))
    ensures c.GetHashCode(x) == c.GetHashCode(x')
  {
  }

  /** Equals is an equivalence on nullable references when the string comparer is one. */
  lemma EqualsIsEquivalence(c: AssemblyReferenceNameComparer, x: Option<AssemblyReference>,
                            y: Option<AssemblyReference>, z: Option<AssemblyReference>)
    requires IsEquivalence(c.invariantCulture)
    ensures c.Equals(x, x)
    ensures c.Equals(x, y) ==> c.Equals(y, x)
    ensures c.Equals(x, y) && c.Equals(y, z) ==> c.Equals(x, z)
  {
  }

  /** References that compare equal hash equal when the string comparer's hash is consistent. */
  lemma HashAgreesWithEquals(c: AssemblyReferenceNameComparer, x: AssemblyReference, y: AssemblyReference)
    requires HashConsistent(c.invariantCulture)
    ensures c.Equals(Some(x), Some(y)) ==> c.GetHashCode(x) == c.GetHashCode(y)
  {
  }

  /** Two references with the same full name are equal and hash equal, whatever else they hold. */
  lemma SameFullNameIsSameReference(invariantCulture: StringComparer, x: AssemblyReference, y: AssemblyReference)
    requires IsEquivalence(invariantCulture)
    requires x.fullName == y.fullName
    ensures Default(invariantCulture).Equals(Some(x), Some(y))
    ensures Default(invariantCulture).GetHashCode(x) == Default(invariantCulture).GetHashCode(y)
  {
  }
}
