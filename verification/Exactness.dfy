/** Merges told apart down to the code unit: updates that agree wherever two of
    them have a unit are merged without a single change. */
module Exactness {
  import opened Prelude
  import opened Structs
  import opened Sources
  import opened Merge
  import opened Updates

  // ----- No edge inside a pair -----

  lemma {:induction false} UnitHere(client: u32, l: seq<Struct>, c: nat)
    requires Chain(client, l)
    ensures FullAt(l, c).Some? <==> exists i :: 0 <= i < |l| && !l[i].Skip? && l[i].id.clock <= c < l[i].End()
  {
    hide FullStructAt;
    if FullAt(l, c).Some? {
      var i := FullCovers(client, l, c);
    } else if i :| 0 <= i < |l| && !l[i].Skip? && l[i].id.clock <= c < l[i].End() {
      ChainSuffix(client, l, i);
      FullCovered(client, l, i, c);
      HasUnit(l[i], c);
    }
  }

  /** The second half of a pair follows the first, in the same struct. */
  lemma BehindFirst(client: u32, l: seq<Struct>, c: nat)
    requires Chain(client, l) && SecondHalf(FullAt(l, c))
    ensures c > 0 && FirstHalf(FullAt(l, c - 1)) && !Edge(l, c)
  {
    hide FullStructAt, FirstHalf, FullAt;
    assert FullAt(l, c).Some?;
    hide SecondHalf;
    var i := FullCovers(client, l, c);
    HalvesInside(l[i], c);
    FullCovered(client, l, i, c - 1);
    NoEdgeInside(client, l, i, c);
  }

  lemma BeforeSecond(client: u32, l: seq<Struct>, c: nat)
    requires Chain(client, l) && FirstHalf(FullAt(l, c))
    ensures SecondHalf(FullAt(l, c + 1)) && !Edge(l, c + 1)
  {
    hide FullStructAt, SecondHalf, FullAt;
    assert FullAt(l, c).Some?;
    hide FirstHalf;
    var i := FullCovers(client, l, c);
    HalvesInside(l[i], c);
    FullCovered(client, l, i, c + 1);
    NoEdgeInside(client, l, i, c + 1);
  }

  /** Structs of a list do not overlap: strictly inside one there is no edge. */
  lemma NoEdgeInside(client: u32, l: seq<Struct>, i: nat, c: nat)
    requires Chain(client, l) && i < |l| && l[i].id.clock < c < l[i].End()
    ensures !Edge(l, c)
  {
    forall j | 0 <= j < |l|
      ensures l[j].id.clock != c && l[j].End() != c
    {
      if j < i {
        InOrder(client, l, j, i);
      } else if i < j {
        InOrder(client, l, i, j);
      }
    }
  }

  lemma InOrder(client: u32, l: seq<Struct>, i: nat, j: nat)
    requires Chain(client, l) && i < j < |l|
    ensures l[i].End() <= l[j].id.clock && l[j].id.clock < l[j].End()
  {
    ChainSuffix(client, l, i);
    ChainSuffix(client, l, j);
    ChainOrder(client, l[i..], j - i);
  }

  lemma EdgeNextToUnit(client: u32, l: seq<Struct>, c: nat)
    requires Chain(client, l) && Edge(l, c)
    ensures FullAt(l, c).Some? || (c > 0 && FullAt(l, c - 1).Some?)
  {
    var i :| 0 <= i < |l| && !l[i].Skip? && (l[i].id.clock == c || l[i].End() == c);
    ChainSuffix(client, l, i);
    if l[i].id.clock == c {
      UnitHere(client, l, c);
    } else {
      UnitHere(client, l, c - 1);
    }
  }

  // ----- Updates that agree -----

  /** All entries agree wherever two of them have a unit, to the code unit. */
  ghost predicate FullConsistent(es: seq<Entry>) {
    forall i, j, id: ID :: 0 <= i < |es| && 0 <= j < |es| ==>
      Agree(FullUnitOf(es[i].blocks, id), FullUnitOf(es[j].blocks, id))
  }

  /** No edge of a struct in one entry separates the halves of a pair in
      another. */
  ghost predicate PairsWhole(es: seq<Entry>) {
    NoPairCut(EntrySources(es), EntryCuts(es))
  }

  /** What agrees with a pair has no edge inside it. */
  lemma AgreeingHasNoEdge(client: u32, a: seq<Struct>, b: seq<Struct>, c: nat)
    requires Chain(client, a) && Chain(client, b) && SecondHalf(FullAt(a, c))
    requires forall n: nat :: n <= MAX_U32 ==> Agree(FullAt(a, n), FullAt(b, n))
    ensures !Edge(b, c)
  {
    hide FullAt, Edge;
    BehindFirst(client, a, c);
    if Edge(b, c) {
      EdgeNextToUnit(client, b, c);
      AtMost(client, a, c);
      assert Agree(FullAt(a, c), FullAt(b, c)) && Agree(FullAt(a, c - 1), FullAt(b, c - 1));
      if FullAt(b, c).Some? {
        BehindFirst(client, b, c);
      } else {
        BeforeSecond(client, b, c - 1);
      }
      assert false;
    }
  }

  lemma AtMost(client: u32, l: seq<Struct>, c: nat)
    requires Chain(client, l) && FullAt(l, c).Some?
    ensures c < MAX_U32
  {
    var i := FullCovers(client, l, c);
    ChainSuffix(client, l, i);
  }

  lemma PairHasNoEdge(es: seq<Entry>, i: nat, id: ID)
    requires (forall e :: e in es ==> WellFormedBlocks(e.blocks)) && FullConsistent(es) && i < |es|
    requires SecondHalf(FullUnitOf(es[i].blocks, id))
    ensures !EdgeOf(es, id)
  {
    hide Edge, FullAt, Chain, HasUnits, SecondHalf, Agree;
    var a := es[i].blocks;
    assert id.client in a by { NoneIsNoHalf(FullUnitOf(a, id)); }
    assert WellFormed(id.client, a[id.client]);
    forall j | 0 <= j < |es| && id.client in es[j].blocks
      ensures !Edge(es[j].blocks[id.client], id.clock)
    {
      var b := es[j].blocks;
      assert WellFormed(id.client, b[id.client]);
      forall n: nat | n <= MAX_U32
        ensures Agree(FullAt(a[id.client], n), FullAt(b[id.client], n))
      {
        assert Agree(FullUnitOf(es[i].blocks, ID(id.client, n)), FullUnitOf(es[j].blocks, ID(id.client, n)));
      }
      AgreeingHasNoEdge(id.client, a[id.client], b[id.client], id.clock);
    }
  }

  lemma NoneIsNoHalf(u: Option<Unit>)
    ensures SecondHalf(u) || FirstHalf(u) ==> u.Some?
  {
  }

  lemma FirstHasSecond(b: Blocks, id: ID)
    requires WellFormedBlocks(b) && FirstHalf(FullUnitOf(b, id)) && id.clock < MAX_U32
    ensures SecondHalf(FullUnitOf(b, ID(id.client, id.clock + 1)))
  {
    hide FullAt, Chain, HasUnits, FirstHalf, SecondHalf;
    NoneIsNoHalf(FullUnitOf(b, id));
    assert WellFormed(id.client, b[id.client]);
    BeforeSecond(id.client, b[id.client], id.clock);
  }

  /** In updates that agree no pair is cut. */
  lemma ConsistentPairsWhole(es: seq<Entry>)
    requires (forall e :: e in es ==> WellFormedBlocks(e.blocks)) && FullConsistent(es)
    ensures PairsWhole(es)
  {
    hide FullConsistent, FullUnitOf, SecondHalf, FirstHalf, EdgeOf, WellFormedBlocks;
    var sources, cuts := EntrySources(es), EntryCuts(es);
    forall i, id | 0 <= i < |sources|
      ensures !(SecondHalf(sources[i](id)) && cuts(id)) && !(FirstHalf(sources[i](id)) && CutAfter(cuts, id))
    {
      assert sources[i](id) == FullUnitOf(es[i].blocks, id) && es[i] in es;
      if SecondHalf(sources[i](id)) {
        PairHasNoEdge(es, i, id);
      }
      if FirstHalf(sources[i](id)) && id.clock < MAX_U32 {
        FirstHasSecond(es[i].blocks, id);
        PairHasNoEdge(es, i, ID(id.client, id.clock + 1));
      }
    }
  }

  // ----- Merges of what agrees -----

  /** Where no pair is cut, each unit of a merge is exactly that of an entry. */
  lemma MergeExactly(m: Entry, es: seq<Entry>, id: ID)
    requires FullMergeOf(m, es) && PairsWhole(es) && FullUnitOf(m.blocks, id).Some?
    ensures exists i :: 0 <= i < |es| && FullUnitOf(es[i].blocks, id) == FullUnitOf(m.blocks, id)
  {
    hide FullUnitOf, EdgeOf;
    ExactlyFrom(EntrySources(es), EntryCuts(es), id, FullUnitOf(m.blocks, id));
    var i :| 0 <= i < |es| && EntrySources(es)[i](id) == FullUnitOf(m.blocks, id);
    assert FullUnitOf(es[i].blocks, id) == FullUnitOf(m.blocks, id);
  }

  /** Updates that agree are merged without a change: the merge has a unit
      exactly where one of them has, and it is that unit to the last code unit. */
  lemma MergeOfConsistent(m: Entry, es: seq<Entry>, i: nat, id: ID)
    requires (forall e :: e in es ==> WellFormedBlocks(e.blocks)) && FullConsistent(es)
    requires MergeOf(m, es) && FullMergeOf(m, es) && i < |es|
    ensures FullUnitOf(es[i].blocks, id).Some? ==> FullUnitOf(m.blocks, id) == FullUnitOf(es[i].blocks, id)
    ensures FullUnitOf(m.blocks, id).Some? ==> exists j :: 0 <= j < |es| && FullUnitOf(es[j].blocks, id) == FullUnitOf(m.blocks, id)
  {
    ConsistentPairsWhole(es);
    hide FullMergeOf, PairsWhole, WellFormedBlocks, WellFormedEntry;
    if FullUnitOf(es[i].blocks, id).Some? {
      assert UnitOf(es[i].blocks, id).Some?;
      assert UnitOf(m.blocks, id).Some?;
    }
    if FullUnitOf(m.blocks, id).Some? {
      MergeExactly(m, es, id);
      var j :| 0 <= j < |es| && FullUnitOf(es[j].blocks, id) == FullUnitOf(m.blocks, id);
      assert Agree(FullUnitOf(es[i].blocks, id), FullUnitOf(es[j].blocks, id));
    }
  }

  /** So neither order nor repetition can change a code unit. */
  lemma ExactInAnyOrder(a: seq<Entry>, ma: Entry, b: seq<Entry>, mb: Entry, id: ID)
    requires (forall e :: e in a ==> WellFormedBlocks(e.blocks)) && FullConsistent(a)
    requires MergeOf(ma, a) && FullMergeOf(ma, a) && MergeOf(mb, b) && FullMergeOf(mb, b)
    requires forall e :: e in a <==> e in b
    ensures FullUnitOf(ma.blocks, id) == FullUnitOf(mb.blocks, id)
  {
    SameConsistent(a, b);
    hide FullConsistent, MergeOf, FullMergeOf, WellFormedBlocks, FullUnitOf;
    HeldExactly(a, ma, b, mb, id);
    HeldExactly(b, mb, a, ma, id);
  }

  lemma SameConsistent(a: seq<Entry>, b: seq<Entry>)
    requires FullConsistent(a) && forall e :: e in a <==> e in b
    ensures FullConsistent(b)
  {
    hide FullUnitOf;
    forall i, j, id: ID | 0 <= i < |b| && 0 <= j < |b|
      ensures Agree(FullUnitOf(b[i].blocks, id), FullUnitOf(b[j].blocks, id))
    {
      assert b[i] in a && b[j] in a;
      var k :| 0 <= k < |a| && a[k] == b[i];
      var n :| 0 <= n < |a| && a[n] == b[j];
      assert Agree(FullUnitOf(a[k].blocks, id), FullUnitOf(a[n].blocks, id));
    }
  }

  lemma HeldExactly(a: seq<Entry>, ma: Entry, b: seq<Entry>, mb: Entry, id: ID)
    requires (forall e :: e in a ==> WellFormedBlocks(e.blocks)) && FullConsistent(a) && FullConsistent(b)
    requires MergeOf(ma, a) && FullMergeOf(ma, a) && MergeOf(mb, b) && FullMergeOf(mb, b)
    requires forall e :: e in a <==> e in b
    ensures FullUnitOf(ma.blocks, id).Some? ==> FullUnitOf(mb.blocks, id) == FullUnitOf(ma.blocks, id)
  {
    if FullUnitOf(ma.blocks, id).Some? {
      assert UnitOf(ma.blocks, id).Some?;
      var k :| 0 <= k < |a| && UnitOf(a[k].blocks, id).Some?;
      hide FullConsistent, MergeOf, FullMergeOf, WellFormedBlocks, FullUnitOf;
      MergeOfConsistent(ma, a, k, id);
      var i :| 0 <= i < |a| && FullUnitOf(a[i].blocks, id) == FullUnitOf(ma.blocks, id);
      assert a[i] in b;
      var j :| 0 <= j < |b| && b[j] == a[i];
      MergeOfConsistent(mb, b, j, id);
    }
  }
}
