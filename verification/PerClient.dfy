/** Operations that treat each client's list on its own: what they make of a
    grouped update, and what is read back once that is written. */
module PerClient {
  import opened Prelude
  import opened Orders
  import opened Structs
  import opened IdSetObject
  import opened Updates
  import opened CodecV1
  import opened DeleteSets
  import opened UpdateV1

  type ListFunction = (u32, seq<Struct>) -> seq<Struct>

  /** The results by client, empty ones left out. */
  ghost function Mapped(b: Blocks, f: ListFunction): Blocks {
    map k | k in b && f(k, b[k]) != [] :: f(k, b[k])
  }

  /** The results one after the other. */
  function FlattenMap(order: seq<u32>, b: Blocks, f: ListFunction): seq<Struct>
    requires forall k :: k in order ==> k in b
  {
    if order == [] then [] else f(order[0], b[order[0]]) + FlattenMap(order[1..], b, f)
  }

  /** The clients with something left, in the same order. */
  function Kept(order: seq<u32>, b: Blocks, f: ListFunction): seq<u32>
    requires forall k :: k in order ==> k in b
  {
    if order == [] then []
    else (if f(order[0], b[order[0]]) != [] then [order[0]] else []) + Kept(order[1..], b, f)
  }

  lemma {:induction false} KeptMembers(order: seq<u32>, b: Blocks, f: ListFunction)
    requires (forall k :: k in order ==> k in b) && Distinct(order)
    ensures Distinct(Kept(order, b, f)) && |Kept(order, b, f)| <= |order|
    ensures forall k :: k in Kept(order, b, f) <==> k in order && f(k, b[k]) != []
  {
    if order != [] {
      var rest := order[1..];
      KeptMembers(rest, b, f);
      assert forall k :: k in order <==> k == order[0] || k in rest;
      assert order[0] !in rest;
    }
  }

  lemma KeptKnown(order: seq<u32>, b: Blocks, f: ListFunction)
    requires (forall k :: k in order ==> k in b) && Distinct(order)
    ensures Distinct(Kept(order, b, f)) && |Kept(order, b, f)| <= |order|
    ensures forall k :: k in Kept(order, b, f) ==> k in Mapped(b, f) && k in NormBlocks(Mapped(b, f))
    ensures (forall k :: k in b ==> k in order) ==> forall k :: k in Mapped(b, f) ==> k in Kept(order, b, f)
  {
    KeptMembers(order, b, f);
    hide NormList, Distinct, Kept;
  }

  lemma KeptHead(order: seq<u32>, b: Blocks, f: ListFunction)
    requires (forall k :: k in order ==> k in b) && order != []
    requires forall k :: k in Kept(order, b, f) ==> k in Mapped(b, f)
    requires forall k :: k in Kept(order[1..], b, f) ==> k in Mapped(b, f)
    ensures Flatten(Kept(order, b, f), Mapped(b, f)) ==
            f(order[0], b[order[0]]) + Flatten(Kept(order[1..], b, f), Mapped(b, f))
  {
    var kept := Kept(order, b, f);
    if f(order[0], b[order[0]]) != [] {
      assert kept[0] == order[0] && kept[1..] == Kept(order[1..], b, f);
    } else {
      assert kept == Kept(order[1..], b, f);
      var tail := Flatten(kept, Mapped(b, f));
      assert [] + tail == tail;
    }
  }

  lemma {:induction false} FlattenMapped(order: seq<u32>, b: Blocks, f: ListFunction)
    requires (forall k :: k in order ==> k in b) && Distinct(order)
    ensures forall k :: k in Kept(order, b, f) ==> k in Mapped(b, f)
    ensures FlattenMap(order, b, f) == Flatten(Kept(order, b, f), Mapped(b, f))
  {
    KeptKnown(order, b, f);
    if order != [] {
      FlattenMapped(order[1..], b, f);
      hide Kept, Mapped;
      KeptHead(order, b, f);
    }
  }

  lemma {:induction false} Subset(a: set<u32>, b: set<u32>)
    requires a <= b
    ensures |a| <= |b|
  {
    if a != {} {
      var k :| k in a;
      Subset(a - {k}, b - {k});
    }
  }

  /** A list has no more structs than clocks. */
  lemma {:induction false} ChainLength(client: u32, l: seq<Struct>)
    requires Chain(client, l) && l != []
    ensures |l| <= ListEnd(l) - l[0].id.clock <= MAX_U32
  {
    ChainBounds(client, l, 0);
    if |l| > 1 {
      ChainLength(client, l[1..]);
    }
  }

  /** What `f` must do for its results to be well formed and writable. */
  ghost predicate KeepsForm(b: Blocks, f: ListFunction) {
    forall k :: k in b ==>
      var d := f(k, b[k]);
      Chain(k, d) && (d != [] ==> HasUnits(d)) && forall s :: s in d ==> Writable(s)
  }

  lemma MappedWritable(b: Blocks, f: ListFunction)
    requires |b| <= MAX_U32 && KeepsForm(b, f)
    ensures WritableBlocks(Mapped(b, f)) && WellFormedBlocks(Mapped(b, f))
  {
    hide Chain, Writable, HasUnits;
    var d := Mapped(b, f);
    assert d.Keys <= b.Keys;
    Subset(d.Keys, b.Keys);
    assert |d.Keys| == |d| && |b.Keys| == |b|;
    forall k | k in d
      ensures |d[k]| <= MAX_U32
    {
      ChainLength(k, d[k]);
    }
  }

  /** The structs read back: one list for each client with something left. */
  ghost function ReadBack(b: Blocks, f: ListFunction): seq<Struct> {
    DistinctDesc(b.Keys);
    KeptKnown(Desc(b.Keys), b, f);
    Flatten(Kept(Desc(b.Keys), b, f), NormBlocks(Mapped(b, f)))
  }

  /** Written and decoded, the results are as they were up to redundant
      parents, and grouping them gives one list per client. */
  lemma MappedRoundTrip(b: Blocks, f: ListFunction, deletes: RangeMap)
    requires |b| <= MAX_U32 && KeepsForm(b, f) && WireDeletes(deletes, Absolute)
    ensures Decode(EncFragments(FlattenMap(Desc(b.Keys), b, f)) + EncDeletes(deletes, Absolute)) ==
            Ok(Update(ReadBack(b, f), deletes))
    ensures Group(ReadBack(b, f)) == NormBlocks(Mapped(b, f))
    ensures forall id: ID :: UnitOf(NormBlocks(Mapped(b, f)), id) == UnitOf(Mapped(b, f), id)
    ensures forall id: ID :: FullUnitOf(NormBlocks(Mapped(b, f)), id) == FullUnitOf(Mapped(b, f), id)
  {
    var order := Desc(b.Keys);
    DistinctDesc(b.Keys);
    DescSize(b.Keys);
    assert |b.Keys| == |b|;
    MappedWritable(b, f);
    KeptKnown(order, b, f);
    FlattenMapped(order, b, f);
    var d := Mapped(b, f);
    NormBlocksSame(d);
    WireIsWellFormed(NormBlocks(d));
    NormKeys(d);
    hide Group, NormBlocks, Mapped, Kept, WritableBlocks, WellFormedBlocks, WireBlocks, Distinct, Descending,
         EncFragments, EncDeletes, Decode, Flatten, FlattenMap, KeepsForm, WireDeletes, UnitOf, FullUnitOf;
    WrittenRoundTrip(Kept(order, b, f), d, deletes);
    GroupOfFlatten(Kept(order, b, f), NormBlocks(d));
  }
}
