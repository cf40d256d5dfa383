/**
 * The validator's vocabulary, shared with the Cypher quality score:
 * labels too generic to name a domain entity, and the write keywords a setup
 * script must never contain.
 */
module ValidatorRules {

  const GenericLabels: set<string> :=
    {"Entity", "Object", "Item", "Thing", "Node", "Data", "Record", "Element", "Resource", "Entry"}

  const ForbiddenKeywords: set<string> := {"DELETE", "DETACH", "DROP", "REMOVE", "FOREACH", "CALL {"}

  /**
   * `FORBIDDEN_KEYWORDS` is a set, so Python visits it in an order fixed for
   * one process but not by the program. Every loop over it takes that order
   * as an argument: a list holding each keyword exactly once.
   */
  predicate IsKeywordOrder(order: seq<string>)
  {
    && |order| == |ForbiddenKeywords|
    && (forall i :: 0 <= i < |order| ==> order[i] in ForbiddenKeywords)
    && (forall i, j :: 0 <= i < j < |order| ==> order[i] != order[j])
  }

  /** One admissible visiting order. */
  const SomeKeywordOrder: seq<string> := ["DELETE", "DETACH", "DROP", "REMOVE", "FOREACH", "CALL {"]

  lemma SomeKeywordOrderIsOrder()
    ensures IsKeywordOrder(SomeKeywordOrder)
  {
  }

  /** A keyword order visits every keyword. */
  lemma KeywordOrderCovers(order: seq<string>)
    requires IsKeywordOrder(order)
    ensures forall k :: k in ForbiddenKeywords <==> k in order
  {
    var s := set i | 0 <= i < |order| :: order[i];
    assert s <= ForbiddenKeywords;
    DistinctCount(order);
    if s != ForbiddenKeywords {
      assert s < ForbiddenKeywords;
      SubsetSmaller(s, ForbiddenKeywords);
      assert false;
    }
    forall k | k in order ensures k in s {
      var i :| 0 <= i < |order| && order[i] == k;
    }
  }

  lemma SubsetSmaller(a: set<string>, b: set<string>)
    requires a < b
    ensures |a| < |b|
  {
    assert !(forall y :: y in a <==> y in b);
    var x :| x in b && x !in a;
    assert a <= b - {x};
    assert |b - {x}| == |b| - 1;
    SubsetAtMost(a, b - {x});
  }

  lemma SubsetAtMost(a: set<string>, b: set<string>)
    requires a <= b
    ensures |a| <= |b|
  {
    assert b == a + (b - a);
  }

  lemma {:induction false} DistinctCount(order: seq<string>)
    requires forall i, j :: 0 <= i < j < |order| ==> order[i] != order[j]
    ensures |set i | 0 <= i < |order| :: order[i]| == |order|
    decreases |order|
  {
    if |order| > 0 {
      var init := order[..|order| - 1];
      DistinctCount(init);
      var a := set i | 0 <= i < |init| :: init[i];
      var b := set i | 0 <= i < |order| :: order[i];
      assert b == a + {order[|order| - 1]} by {
        forall x | x in b ensures x in a + {order[|order| - 1]} {
          var i :| 0 <= i < |order| && order[i] == x;
          if i < |init| { assert init[i] == x; }
        }
        forall x | x in a ensures x in b {
          var i :| 0 <= i < |init| && init[i] == x;
          assert order[i] == x;
        }
      }
      assert order[|order| - 1] !in a;
    }
  }
}
