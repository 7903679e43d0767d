/** Client identifiers in descending order, the order of the wire. */
module Orders {
  import opened Prelude

  predicate Descending(q: seq<u32>) {
    forall i, j :: 0 <= i < j < |q| ==> q[i] > q[j]
  }

  lemma {:induction false} DescendingUnique(a: seq<u32>, b: seq<u32>)
    requires Descending(a) && Descending(b)
    requires forall k :: k in a <==> k in b
    ensures a == b
  {
    assert a != [] ==> a[0] in a && a[0] in b;
    assert b != [] ==> b[0] in b && b[0] in a;
    if a != [] && b != [] {
      assert a[0] == b[0];
      forall k
        ensures k in a[1..] <==> k in b[1..]
      {
        assert k in a <==> k == a[0] || k in a[1..];
        assert k in b <==> k == b[0] || k in b[1..];
      }
      DescendingUnique(a[1..], b[1..]);
      assert a == [a[0]] + a[1..] && b == [b[0]] + b[1..];
    }
  }

  function InsertDesc(q: seq<u32>, k: u32): (r: seq<u32>)
    requires Descending(q) && k !in q
    ensures Descending(r) && forall x :: x in r <==> x == k || x in q
  {
    if q == [] || k > q[0] then [k] + q
    else
      var rest := InsertDesc(q[1..], k);
      assert forall x :: x in q <==> x == q[0] || x in q[1..];
      assert k < q[0] by { assert q[0] in q; }
      assert forall j :: 0 <= j < |rest| ==> rest[j] < q[0] by {
        assert forall j :: 0 <= j < |rest| ==> rest[j] in rest;
        assert forall x :: x in q[1..] ==> x < q[0];
      }
      [q[0]] + rest
  }

  /** The elements of a set, largest first. */
  ghost function Desc(s: set<u32>): (q: seq<u32>)
    ensures Descending(q) && forall k :: k in q <==> k in s
  {
    if s == {} then [] else
      var k :| k in s;
      InsertDesc(Desc(s - {k}), k)
  }

  lemma DescSize(s: set<u32>)
    ensures |Desc(s)| == |s|
  {
    SizeOf(Desc(s), s);
  }

  lemma {:induction false} SizeOf(q: seq<u32>, s: set<u32>)
    requires Descending(q) && forall k :: k in q <==> k in s
    ensures |q| == |s|
  {
    if q == [] {
      assert s == {};
    } else {
      assert forall k :: k in q[1..] <==> k in s - {q[0]} by {
        assert forall k :: k in q <==> k == q[0] || k in q[1..];
      }
      SizeOf(q[1..], s - {q[0]});
    }
  }

  /** Collects the keys in whatever order they come, and sorts them. */
  method SortDesc(s: set<u32>) returns (q: seq<u32>)
    ensures q == Desc(s)
  {
    q := [];
    var todo := s;
    while todo != {}
      invariant Descending(q) && todo <= s
      invariant forall k :: k in q <==> k in s && k !in todo
      decreases todo
    {
      var k :| k in todo;
      todo := todo - {k};
      q := InsertDesc(q, k);
    }
    DescendingUnique(q, Desc(s));
  }
}
