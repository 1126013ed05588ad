/** Sets of block numbers in ascending order, as ordered containers iterate over them. */
module Order {
  function Least(s: set<nat>): (x: nat)
    requires s != {}
    ensures x in s && forall y :: y in s ==> x <= y
  {
    LeastExists(s);
    var x :| x in s && forall y :: y in s ==> x <= y;
    x
  }

  lemma LeastExists(s: set<nat>)
    requires s != {}
    ensures exists x :: x in s && forall y :: y in s ==> x <= y
  {
    var x :| x in s;
    var rest := s - {x};
    if rest == {} {
      assert s == {x};
    } else {
      LeastExists(rest);
      var z :| z in rest && forall y :: y in rest ==> z <= y;
      var least := if x <= z then x else z;
      assert forall y :: y in s ==> y == x || y in rest;
      assert least in s && forall y :: y in s ==> least <= y;
    }
  }

  /** Keys in ascending order, as `std::map` iterates. */
  function Ascending(s: set<nat>): (r: seq<nat>)
    ensures |r| == |s|
    ensures forall x :: x in r <==> x in s
    ensures forall i, j :: 0 <= i < j < |r| ==> r[i] < r[j]
    decreases |s|
  {
    if s == {} then []
    else
      var x := Least(s);
      var rest := Ascending(s - {x});
      LeastFirst(s, x, rest);
      [x] + rest
  }

  lemma LeastFirst(s: set<nat>, x: nat, rest: seq<nat>)
    requires x in s && (forall y :: y in s ==> x <= y) && |rest| == |s| - 1
    requires forall y :: y in rest <==> y in s - {x}
    requires forall i, j :: 0 <= i < j < |rest| ==> rest[i] < rest[j]
    ensures forall y :: y in [x] + rest <==> y in s
    ensures forall i, j :: 0 <= i < j < |[x] + rest| ==> ([x] + rest)[i] < ([x] + rest)[j]
  {
    forall i | 0 <= i < |rest|
      ensures x < rest[i]
    {
      assert rest[i] in rest;
    }
  }
}
