/**
 * The per-style score record and the result computation: the largest score,
 * and the first key in record order that holds it.
 */
module Scores {

  import opened Wrappers
  import opened Styles

  /** One non-negative counter per style. */
  datatype Tally = Tally(authoritative: nat, authoritarian: nat, permissive: nat, neglectful: nat)
  {
    /** The counter of style `c`. */
    function Get(c: Category): nat {
      match c
      case Authoritative => authoritative
      case Authoritarian => authoritarian
      case Permissive => permissive
      case Neglectful => neglectful
    }
  }

  /** The record the quiz starts from: every style at zero. */
  const Zero: Tally := Tally(0, 0, 0, 0)

  /** Sum of all four counters. */
  function Total(t: Tally): nat {
    t.authoritative + t.authoritarian + t.permissive + t.neglectful
  }

  /** Adds one to the counter of `c`; the record keeps its key order. */
  function Inc(t: Tally, c: Category): (r: Tally)
    ensures r.Get(c) == t.Get(c) + 1
    ensures forall d :: d != c ==> r.Get(d) == t.Get(d)
  {
    match c
    case Authoritative => t.(authoritative := t.authoritative + 1)
    case Authoritarian => t.(authoritarian := t.authoritarian + 1)
    case Permissive => t.(permissive := t.permissive + 1)
    case Neglectful => t.(neglectful := t.neglectful + 1)
  }

  /** Each increment adds exactly one to the sum of the counters. */
  lemma IncTotal(t: Tally, c: Category)
    ensures Total(Inc(t, c)) == Total(t) + 1
  {
  }

  /** No counter exceeds the counter of `c`. */
  ghost predicate IsMaximal(t: Tally, c: Category) {
    forall d :: t.Get(d) <= t.Get(c)
  }

  /** `c` holds the largest score and every style listed before it scores strictly less. */
  ghost predicate FirstWins(t: Tally, c: Category) {
    IsMaximal(t, c) && forall d :: Rank(d) < Rank(c) ==> t.Get(d) < t.Get(c)
  }

  /** The largest of the counters of the styles in `cs` (a spread into a maximum). */
  function MaxOver(t: Tally, cs: seq<Category>): (m: nat)
    requires |cs| > 0
    ensures exists i :: 0 <= i < |cs| && t.Get(cs[i]) == m
    ensures forall i :: 0 <= i < |cs| ==> t.Get(cs[i]) <= m
  {
    if |cs| == 1 then t.Get(cs[0])
    else
      var rest := MaxOver(t, cs[1..]);
      assert forall i :: 1 <= i < |cs| ==> cs[i] == cs[1..][i - 1];
      if t.Get(cs[0]) >= rest then t.Get(cs[0]) else rest
  }

  /** The maximum over all four values of the record. */
  function MaxScore(t: Tally): (m: nat)
    ensures forall c :: t.Get(c) <= m
    ensures exists c :: t.Get(c) == m
  {
    var m := MaxOver(t, Order);
    forall c ensures t.Get(c) <= m {
      assert Order[Rank(c)] == c;
    }
    m
  }

  /** The first style in `cs` whose counter equals `m`, or None (a linear find). */
  function FindKey(t: Tally, cs: seq<Category>, m: nat): (r: Option<Category>)
    ensures r.None? <==> forall i :: 0 <= i < |cs| ==> t.Get(cs[i]) != m
    ensures r.Some? ==> exists i :: 0 <= i < |cs| && cs[i] == r.value && t.Get(cs[i]) == m &&
                                    forall j :: 0 <= j < i ==> t.Get(cs[j]) != m
  {
    if |cs| == 0 then None
    else if t.Get(cs[0]) == m then Some(cs[0])
    else
      var r := FindKey(t, cs[1..], m);
      assert forall i :: 1 <= i < |cs| ==> cs[i] == cs[1..][i - 1];
      r
  }

  /**
   * The quiz result: the first key in record order whose score equals the
   * maximum.  A find may come back empty in general; here it never does.
   */
  function GetResult(t: Tally): (r: Option<Category>)
    ensures r.Some?
    ensures r.Some? ==> FirstWins(t, r.value)
  {
    var m := MaxScore(t);
    var r := FindKey(t, Order, m);
    OrderIsEnumeration();
    r
  }

  /** At most one style satisfies the first-wins rule. */
  lemma FirstWinsUnique(t: Tally, a: Category, b: Category)
    requires FirstWins(t, a) && FirstWins(t, b)
    ensures a == b
  {
    assert t.Get(a) == t.Get(b);
    assert Rank(a) == Rank(b);
  }

  /** The result is exactly the style the first-wins rule singles out. */
  lemma GetResultCharacterized(t: Tally, c: Category)
    ensures GetResult(t) == Some(c) <==> FirstWins(t, c)
  {
    if FirstWins(t, c) {
      FirstWinsUnique(t, GetResult(t).value, c);
    }
  }

  /** With every counter equal, including the all-zero start, the first style in order wins. */
  lemma TieGoesToFirst(t: Tally)
    requires forall c :: t.Get(c) == t.Get(Authoritative)
    ensures GetResult(t) == Some(Authoritative)
  {
    GetResultCharacterized(t, Authoritative);
  }
}
