/**
 * The connector dispatch table: connector classes registered for an ordered
 * pair (element class, line class), looked up by walking both classes'
 * `__mro__` (gaphor/diagram/connectors.py, `Connector` and `can_connect`).
 */
module Dispatch {
  import opened Wrappers
  import opened Modeling

  /** What a type pair is registered with: the forbidding `NoConnector`, or a connector class. */
  datatype Factory = NoConnector | Registered(name: string)

  type Table = map<(TypeName, TypeName), Factory>

  /**
   * The table as the connectors module leaves it: `NoConnector` for
   * `(object, object)` and `MetadataRelationConnect` for
   * `(ElementPresentation, LinePresentation)`.
   */
  function DefaultTable(): (t: Table)
    ensures ("object", "object") in t && t[("object", "object")] == NoConnector
  {
    map[("object", "object") := NoConnector,
        ("ElementPresentation", "LinePresentation") := Registered("MetadataRelationConnect")]
  }

  /** The registration of the first `(t1, m2[j])` pair in the table. */
  function FirstIn(table: Table, t1: TypeName, m2: seq<TypeName>): Option<Factory> {
    if |m2| == 0 then None
    else if (t1, m2[0]) in table then Some(table[(t1, m2[0])])
    else FirstIn(table, t1, m2[1..])
  }

  /** The registration of the first pair of `m1 x m2` in product order that the table holds. */
  function FirstRegistration(table: Table, m1: seq<TypeName>, m2: seq<TypeName>): Option<Factory> {
    if |m1| == 0 then None
    else match FirstIn(table, m1[0], m2)
      case Some(f) => Some(f)
      case None => FirstRegistration(table, m1[1..], m2)
  }

  /** `Connector(element, line)`: the class to instantiate, `NoConnector` when nothing matches. */
  function Resolve(table: Table, m1: seq<TypeName>, m2: seq<TypeName>): Factory {
    match FirstRegistration(table, m1, m2)
    case Some(f) => f
    case None => NoConnector
  }

  /** Pair `(i, j)` of the product is registered. */
  predicate RegisteredAt(table: Table, m1: seq<TypeName>, m2: seq<TypeName>, i: int, j: int) {
    0 <= i < |m1| && 0 <= j < |m2| && (m1[i], m2[j]) in table
  }

  /** Pair `(i', j')` comes before `(i, j)` in `itertools.product` order. */
  predicate Before(i': int, j': int, i: int, j: int) {
    i' < i || (i' == i && j' < j)
  }

  /** The registration found is the one of the first registered pair, and none is found only if no pair is registered. */
  lemma {:induction false} FirstInIsFirst(table: Table, t1: TypeName, m2: seq<TypeName>)
    ensures FirstIn(table, t1, m2).None? <==> forall j :: 0 <= j < |m2| ==> (t1, m2[j]) !in table
    ensures FirstIn(table, t1, m2).Some? ==>
      exists j :: 0 <= j < |m2| && (t1, m2[j]) in table && FirstIn(table, t1, m2) == Some(table[(t1, m2[j])]) &&
        forall j' :: 0 <= j' < j ==> (t1, m2[j']) !in table
  {
    if |m2| > 0 {
      FirstInIsFirst(table, t1, m2[1..]);
      if (t1, m2[0]) !in table {
        assert forall j :: 1 <= j < |m2| ==> m2[j] == m2[1..][j - 1];
        if FirstIn(table, t1, m2[1..]).Some? {
          var j :| 0 <= j < |m2[1..]| && (t1, m2[1..][j]) in table && FirstIn(table, t1, m2[1..]) == Some(table[(t1, m2[1..][j])]) &&
            forall j' :: 0 <= j' < j ==> (t1, m2[1..][j']) !in table;
          assert (t1, m2[j + 1]) in table;
          assert forall j' :: 0 <= j' < j + 1 ==> (t1, m2[j']) !in table by {
            forall j' | 0 <= j' < j + 1 ensures (t1, m2[j']) !in table {
              if j' > 0 { assert m2[j'] == m2[1..][j' - 1]; }
            }
          }
        }
      }
    }
  }

  /**
   * `can_connect`'s search, stated without recursion: the result is the
   * registration of the first registered pair in product order, and there is
   * none exactly when no pair of the two ancestor lists is registered.
   */
  lemma {:induction false} FirstRegistrationIsFirst(table: Table, m1: seq<TypeName>, m2: seq<TypeName>)
    ensures FirstRegistration(table, m1, m2).None? <==>
      forall i, j :: !RegisteredAt(table, m1, m2, i, j)
    ensures FirstRegistration(table, m1, m2).Some? ==>
      exists i, j :: RegisteredAt(table, m1, m2, i, j) &&
        FirstRegistration(table, m1, m2) == Some(table[(m1[i], m2[j])]) &&
        forall i', j' :: Before(i', j', i, j) ==> !RegisteredAt(table, m1, m2, i', j')
  {
    if |m1| > 0 {
      FirstInIsFirst(table, m1[0], m2);
      FirstRegistrationIsFirst(table, m1[1..], m2);
      assert forall i :: 1 <= i < |m1| ==> m1[i] == m1[1..][i - 1];
      if FirstIn(table, m1[0], m2).Some? {
        var j :| 0 <= j < |m2| && (m1[0], m2[j]) in table && FirstIn(table, m1[0], m2) == Some(table[(m1[0], m2[j])]) &&
          forall j' :: 0 <= j' < j ==> (m1[0], m2[j']) !in table;
        assert RegisteredAt(table, m1, m2, 0, j);
        assert forall i', j' :: Before(i', j', 0, j) ==> !RegisteredAt(table, m1, m2, i', j');
      } else {
        assert forall j :: !RegisteredAt(table, m1, m2, 0, j);
        if FirstRegistration(table, m1[1..], m2).Some? {
          var i, j :| RegisteredAt(table, m1[1..], m2, i, j) &&
            FirstRegistration(table, m1[1..], m2) == Some(table[(m1[1..][i], m2[j])]) &&
            forall i', j' :: Before(i', j', i, j) ==> !RegisteredAt(table, m1[1..], m2, i', j');
          assert RegisteredAt(table, m1, m2, i + 1, j);
          forall i', j' | Before(i', j', i + 1, j) ensures !RegisteredAt(table, m1, m2, i', j') {
            if i' > 0 {
              assert Before(i' - 1, j', i, j);
              assert !RegisteredAt(table, m1[1..], m2, i' - 1, j');
            }
          }
        } else {
          forall i, j ensures !RegisteredAt(table, m1, m2, i, j) {
            if i > 0 { assert !RegisteredAt(table, m1[1..], m2, i - 1, j); }
          }
        }
      }
    }
  }

  /** An exact registration for the two classes themselves wins over every ancestor pair. */
  lemma ExactPairWins(table: Table, m1: seq<TypeName>, m2: seq<TypeName>)
    requires |m1| > 0 && |m2| > 0 && (m1[0], m2[0]) in table
    ensures Resolve(table, m1, m2) == table[(m1[0], m2[0])]
  {
  }

  /**
   * With `(object, object)` registered, as the default table has it, and both
   * ancestor lists ending in `object`, the search always finds a registration:
   * the final `return False` of `can_connect` is then never reached.
   */
  lemma {:induction false} ObjectPairAlwaysFound(table: Table, m1: seq<TypeName>, m2: seq<TypeName>)
    requires ("object", "object") in table
    requires |m1| > 0 && m1[|m1| - 1] == "object" && |m2| > 0 && m2[|m2| - 1] == "object"
    ensures FirstRegistration(table, m1, m2).Some?
  {
    FirstRegistrationIsFirst(table, m1, m2);
    assert RegisteredAt(table, m1, m2, |m1| - 1, |m2| - 1);
  }

  /**
   * `can_connect(parent, element_type)`: walk `m1 x m2` (the `__mro__` of the
   * parent's class and of the line class) in product order and answer, for
   * the first registered pair, whether it is registered with something other
   * than `NoConnector`; answer false when no pair is registered.
   */
  method CanConnect(table: Table, m1: seq<TypeName>, m2: seq<TypeName>) returns (r: bool)
    ensures r == (Resolve(table, m1, m2) != NoConnector)
    ensures r <==> exists i, j :: RegisteredAt(table, m1, m2, i, j) && table[(m1[i], m2[j])] != NoConnector &&
                     forall i', j' :: Before(i', j', i, j) ==> !RegisteredAt(table, m1, m2, i', j')
  {
    FirstRegistrationIsFirst(table, m1, m2);
    var i := 0;
    while i < |m1|
      invariant 0 <= i <= |m1|
      invariant FirstRegistration(table, m1, m2) == FirstRegistration(table, m1[i..], m2)
    {
      var j := 0;
      while j < |m2|
        invariant 0 <= j <= |m2|
        invariant FirstIn(table, m1[i], m2) == FirstIn(table, m1[i], m2[j..])
      {
        if (m1[i], m2[j]) in table {
          return table[(m1[i], m2[j])] != NoConnector;
        }
        assert m2[j..][1..] == m2[j + 1..];
        j := j + 1;
      }
      assert m1[i..][1..] == m1[i + 1..];
      i := i + 1;
    }
    return false;
  }
}
