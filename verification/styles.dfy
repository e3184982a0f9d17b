/**
 * The closed set of parenting styles the quiz classifies into, together with
 * the fixed order in which the score record lists them.  That order is the
 * insertion order of the record's keys, and it decides ties.
 */
module Styles {

  datatype Category = Authoritative | Authoritarian | Permissive | Neglectful

  /** The key order of the score record: every style exactly once. */
  const Order: seq<Category> := [Authoritative, Authoritarian, Permissive, Neglectful]

  /** Position of a style in `Order`. */
  function Rank(c: Category): (k: nat)
    ensures k < |Order| && Order[k] == c
  {
    match c
    case Authoritative => 0
    case Authoritarian => 1
    case Permissive => 2
    case Neglectful => 3
  }

  /** `Order` lists each style once: positions and styles are in one-to-one correspondence. */
  lemma OrderIsEnumeration()
    ensures forall i :: 0 <= i < |Order| ==> Rank(Order[i]) == i
    ensures forall c, d :: Rank(c) == Rank(d) ==> c == d
  {
  }
}
