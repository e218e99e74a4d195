/** The insertion order of the language's `Map`: a deleted key leaves it, a set one that was not there goes last. */
module MapOrder {

  function Removed(order: seq<nat>, key: nat): (rest: seq<nat>)
    ensures forall x :: x in rest <==> x in order && x != key
  {
    if order == [] then []
    else if order[0] == key then Removed(order[1..], key)
    else [order[0]] + Removed(order[1..], key)
  }

  ghost predicate NoRepeats(order: seq<nat>) {
    forall i, j :: 0 <= i < j < |order| ==> order[i] != order[j]
  }

  lemma NoRepeatsCons(key: nat, order: seq<nat>)
    requires NoRepeats(order) && key !in order
    ensures NoRepeats([key] + order) && NoRepeats(order + [key])
  {
    assert forall i | 0 <= i < |order| :: order[i] in order;
  }

  lemma {:induction false} RemovedNoRepeats(order: seq<nat>, key: nat)
    requires NoRepeats(order)
    ensures NoRepeats(Removed(order, key))
  {
    if order != [] {
      var rest := order[1..];
      RemovedNoRepeats(rest, key);
      assert order[0] !in rest;
      var kept := Removed(rest, key);
      assert order[0] !in kept;
      NoRepeatsCons(order[0], kept);
    }
  }

  lemma {:induction false} RemovedSize(order: seq<nat>, key: nat)
    requires NoRepeats(order)
    ensures |Removed(order, key)| == |order| - if key in order then 1 else 0
    ensures key !in order ==> Removed(order, key) == order
  {
    if order != [] {
      assert order[0] !in order[1..];
      RemovedSize(order[1..], key);
    }
  }

  lemma PutSize<V>(m: map<nat, V>, key: nat, v: V)
    ensures |m[key := v]| == |m| + if key in m then 0 else 1
  {
    assert m[key := v].Keys == m.Keys + {key};
  }

  lemma DropSize<V>(m: map<nat, V>, key: nat)
    requires key in m
    ensures |m - {key}| == |m| - 1
  {
    assert (m - {key}).Keys == m.Keys - {key};
  }
}
