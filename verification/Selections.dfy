/** Choosing some positions of a list, in order. */
module Selections {
  /** Exactly the chosen positions, in ascending order. */
  ghost predicate Selects(picked: seq<nat>, chosen: set<nat>)
  {
    && (forall i, j :: 0 <= i < j < |picked| ==> picked[i] < picked[j])
    && (forall n :: n in picked <==> n in chosen)
  }

  /** The elements at the picked positions. */
  ghost predicate PicksOut<T>(source: seq<T>, picked: seq<nat>, result: seq<T>)
  {
    && |result| == |picked|
    && forall i :: 0 <= i < |picked| ==> picked[i] < |source| && result[i] == source[picked[i]]
  }

  lemma SelectsNothing()
    ensures Selects([], {})
  {
  }

  lemma SelectsOneMore(picked: seq<nat>, chosen: set<nat>, n: nat)
    requires Selects(picked, chosen) && forall c :: c in chosen ==> c < n
    ensures Selects(picked + [n], chosen + {n})
  {
    var more := picked + [n];
    forall i, j | 0 <= i < j < |more|
      ensures more[i] < more[j]
    {
      assert picked[i] in picked;
    }
    assert forall m :: m in more <==> m in picked || m == n;
  }

  /** There is only one selection of given positions. */
  lemma {:induction false} SelectionIsUnique(a: seq<nat>, b: seq<nat>, chosen: set<nat>)
    requires Selects(a, chosen) && Selects(b, chosen)
    ensures a == b
  {
    assert b != [] ==> b[0] in b && b[0] in a;
    if a == [] {
      assert b == [];
    } else {
      assert a[0] in a && a[0] in b;
      var i :| 0 <= i < |b| && b[i] == a[0];
      var j :| 0 <= j < |a| && a[j] == b[0];
      assert a[0] == b[0];
      WithoutFirst(a, chosen);
      WithoutFirst(b, chosen);
      SelectionIsUnique(a[1..], b[1..], chosen - {a[0]});
      assert a == [a[0]] + a[1..] && b == [b[0]] + b[1..];
    }
  }

  lemma WithoutFirst(a: seq<nat>, chosen: set<nat>)
    requires a != [] && Selects(a, chosen)
    ensures Selects(a[1..], chosen - {a[0]})
  {
    forall n
      ensures n in a[1..] <==> n in chosen - {a[0]}
    {
      assert n in a <==> n == a[0] || n in a[1..];
    }
  }
}
