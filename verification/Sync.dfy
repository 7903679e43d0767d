/** What a diff holds, and the sync step: the old update merged with the diff
    against its own state vector. */
module Sync {
  import opened Prelude
  import opened Wire
  import opened Orders
  import opened Structs
  import opened Merge
  import opened IdSetObject
  import opened Updates
  import opened CodecV1
  import opened DeleteSets
  import opened UpdateV1
  import opened PerClient
  import opened Sources
  import opened Exactness
  import opened StateVectors
  import opened Diffs

  lemma TailUnits(s: Struct, n: nat)
    requires s.Valid() && n < s.End()
    ensures var t := Tail(s, n);
            && t.Valid() && t.id == ID(s.id.client, Max(s.id.clock, n)) && t.End() == s.End() && t.Skip? == s.Skip?
            && forall c :: t.id.clock <= c < t.End() ==> StructAt(t, c) == StructAt(s, c)
  {
    hide SliceStruct, StructAt;
    if s.id.clock < n {
      SliceKeepsUnits(s, n - s.id.clock, 0);
    }
  }

  lemma TailWritable(s: Struct, n: nat)
    requires s.Valid() && n < s.End() && Writable(s)
    ensures Writable(Tail(s, n))
  {
    hide SliceStruct, Writable;
    if s.id.clock < n {
      SliceWritable(s, n - s.id.clock, 0);
    }
  }

  lemma {:induction false} DiffOpen(client: u32, l: seq<Struct>, v: Vector)
    requires Chain(client, l)
    ensures Diff(l, v, Some(client)) == l
  {
    if l != [] {
      DiffOpen(client, l[1..], v);
      assert l == [l[0]] + l[1..];
    }
  }

  /** The diff of one client's list: a list of that client which holds exactly
      the units from the vector's clock on. */
  lemma {:induction false} DiffOfList(client: u32, l: seq<Struct>, v: Vector)
    requires Chain(client, l)
    ensures var d := Diff(l, v, None);
            && Chain(client, d) && |d| <= |l| && (d != [] ==> HasUnits(d))
            && (forall c: nat :: At(d, c) == if c >= ClockOf(v, client) then At(l, c) else None)
            && ((forall s :: s in l ==> Writable(s)) ==> forall s :: s in d ==> Writable(s))
  {
    hide Tail, Writable, StructAt;
    if l != [] {
      var n := ClockOf(v, client);
      var s, rest := l[0], l[1..];
      assert l == [s] + rest;
      ChainBounds(client, l, 0);
      if s.Skip? || s.End() <= n {
        assert Diff(l, v, None) == Diff(rest, v, None);
        DiffOfList(client, rest, v);
        PassedUnits(client, l, n);
      } else {
        DiffOpen(client, rest, v);
        TailUnits(s, n);
        if Writable(s) {
          TailWritable(s, n);
        }
        TailFirst(client, l, n);
        assert !Diff(l, v, None)[0].Skip?;
      }
    }
  }

  /** A Skip, or a struct below `n`, has nothing from `n` on. */
  lemma PassedUnits(client: u32, l: seq<Struct>, n: nat)
    requires Chain(client, l) && l != [] && (l[0].Skip? || l[0].End() <= n)
    ensures forall c: nat :: c >= n ==> At(l, c) == At(l[1..], c)
  {
    forall c: nat | c >= n
      ensures At(l, c) == At(l[1..], c)
    {
      if l[1..] != [] {
        ChainBounds(client, l[1..], c);
      }
    }
  }

  lemma TailFirst(client: u32, l: seq<Struct>, n: nat)
    requires Chain(client, l) && l != [] && n < l[0].End()
    ensures var d := [Tail(l[0], n)] + l[1..];
            && Chain(client, d)
            && (forall c: nat :: At(d, c) == if c >= n then At(l, c) else None)
  {
    TailUnits(l[0], n);
    hide Tail;
    var d := [Tail(l[0], n)] + l[1..];
    ChainHead(client, Tail(l[0], n), l[1..]);
    forall c: nat
      ensures At(d, c) == if c >= n then At(l, c) else None
    {
      assert d[1..] == l[1..];
      if l[1..] != [] {
        ChainBounds(client, l[1..], c);
      }
    }
  }

  // ----- The same with every code unit told apart -----

  /** A struct cut at `n` loses nothing but the first half of a pair there. */
  lemma TailExactly(s: Struct, n: nat, c: nat)
    requires s.Valid() && n < s.End() && Max(s.id.clock, n) <= c < s.End()
    ensures FullStructAt(Tail(s, n), c) == CutOff(FullStructAt(s, c), c == n, false)
  {
    TailIs(s, n);
    hide FullStructAt, StructAt, SliceStruct, Tail, CutOff;
    HalvesInside(s, c);
    hide SecondHalf, FirstHalf;
    var u := FullStructAt(s, c);
    if s.id.clock < n {
      TailOfLonger(s, n, c);
    } else {
      OneCut(u, false, false, c == n, false);
      NotCut(u);
    }
  }

  lemma TailOfLonger(s: Struct, n: nat, c: nat)
    requires s.Valid() && s.id.clock < n <= c < s.End()
    ensures SliceStruct(s, n - s.id.clock, 0).Ok?
    ensures FullStructAt(SliceStruct(s, n - s.id.clock, 0).value, c) == CutOff(FullStructAt(s, c), c == n, false)
  {
    hide FullStructAt, StructAt, SliceStruct, CutOff;
    HalvesInside(s, c);
    hide SecondHalf, FirstHalf;
    SliceBounds(s, n - s.id.clock, 0);
    SliceKeepsExactly(s, n - s.id.clock, 0, c);
    OneCut(FullStructAt(s, c), c == n, c == s.End() - 1, c == n, false);
  }

  lemma TailIs(s: Struct, n: nat)
    requires s.Valid() && n < s.End()
    ensures s.id.clock < n ==> SliceStruct(s, n - s.id.clock, 0) == Ok(Tail(s, n))
    ensures s.id.clock >= n ==> Tail(s, n) == s
  {
    hide SliceStruct;
    if s.id.clock < n {
      SliceBounds(s, n - s.id.clock, 0);
    }
  }

  lemma PassedExactly(client: u32, l: seq<Struct>, n: nat, c: nat)
    requires Chain(client, l) && l != [] && (l[0].Skip? || l[0].End() <= n) && c >= n
    ensures FullAt(l, c) == FullAt(l[1..], c)
  {
    if l[0].Skip? && l[0].id.clock <= c < l[0].End() && l[1..] != [] {
      ChainBounds(client, l[1..], c);
    }
  }

  lemma TailFirstExactly(client: u32, l: seq<Struct>, n: nat, c: nat)
    requires Chain(client, l) && l != [] && n < l[0].End()
    ensures FullAt([Tail(l[0], n)] + l[1..], c) == if c >= n then CutOff(FullAt(l, c), c == n, false) else None
  {
    TailUnits(l[0], n);
    TailFirst(client, l, n);
    var d := [Tail(l[0], n)] + l[1..];
    assert d[1..] == l[1..];
    hide Tail, FullStructAt, StructAt, CutOff;
    if Max(l[0].id.clock, n) <= c < l[0].End() {
      TailExactly(l[0], n, c);
    } else if c < n {
      assert At(d, c) == None;
    } else if c < l[0].id.clock {
      ChainBounds(client, l, c);
      assert At(d, c) == None;
      CutNone(c == n, false);
    } else {
      NotCut(FullAt(l, c));
    }
  }

  lemma {:induction false} DiffListExactly(client: u32, l: seq<Struct>, v: Vector, c: nat)
    requires Chain(client, l)
    ensures var n := ClockOf(v, client);
            FullAt(Diff(l, v, None), c) == if c >= n then CutOff(FullAt(l, c), c == n, false) else None
  {
    hide Tail, StructAt, FullStructAt, CutOff;
    if l == [] {
      CutNone(c == ClockOf(v, client), false);
    } else {
      var n := ClockOf(v, client);
      var s, rest := l[0], l[1..];
      if s.Skip? || s.End() <= n {
        assert Diff(l, v, None) == Diff(rest, v, None);
        DiffListExactly(client, rest, v, c);
        if c >= n {
          PassedExactly(client, l, n, c);
        }
      } else {
        DiffOpen(client, rest, v);
        assert Diff(l, v, None) == [Tail(s, n)] + rest;
        TailFirstExactly(client, l, n, c);
      }
    }
  }

  // ----- The diff of a grouped update -----

  /** The diff as an operation on lists. */
  function DiffWith(v: Vector): ListFunction {
    (client, l) => Diff(l, v, None)
  }

  ghost function DiffBlocks(b: Blocks, v: Vector): Blocks {
    Mapped(b, DiffWith(v))
  }

  /** A list of another client follows: whatever was open is closed. */
  lemma {:induction false} DiffConcat(client: u32, a: seq<Struct>, b: seq<Struct>, v: Vector, open: Option<u32>)
    requires (forall s :: s in a ==> s.id.client == client) && (b != [] ==> b[0].id.client != client)
    requires open == None || open == Some(client)
    ensures Diff(a + b, v, open) == Diff(a, v, open) + Diff(b, v, None)
    decreases |a|
  {
    if a == [] {
      assert a + b == b;
    } else {
      assert (a + b)[1..] == a[1..] + b && a[0] in a;
      var (part, next) := Part(a[0], v, open);
      DiffConcat(client, a[1..], b, v, next);
      Assoc(part, Diff(a[1..], v, next), Diff(b, v, None));
    }
  }

  lemma FirstOfFlatten(order: seq<u32>, b: Blocks)
    requires (forall k :: k in order ==> k in b) && WellFormedBlocks(b) && order != []
    ensures Flatten(order, b) != [] && Flatten(order, b)[0].id.client == order[0]
  {
    assert order[0] in order;
  }

  lemma {:induction false} DiffOfFlatten(order: seq<u32>, b: Blocks, v: Vector)
    requires (forall k :: k in order ==> k in b) && WellFormedBlocks(b) && Distinct(order)
    ensures Diff(Flatten(order, b), v, None) == FlattenMap(order, b, DiffWith(v))
  {
    if order != [] {
      var k, rest := order[0], order[1..];
      assert k in order;
      ChainAscending(k, b[k]);
      if rest != [] {
        FirstOfFlatten(rest, b);
      }
      DiffConcat(k, b[k], Flatten(rest, b), v, None);
      DiffOfFlatten(rest, b, v);
    }
  }

  /** A diff holds exactly the units at or above the vector, down to the code
      unit: only a pair that the vector cuts in two leaves U+FFFD in its place. */
  lemma DiffExact(b: Blocks, v: Vector, id: ID)
    requires WellFormedBlocks(b)
    ensures WellFormedBlocks(DiffBlocks(b, v))
    ensures var n := ClockOf(v, id.client);
            FullUnitOf(DiffBlocks(b, v), id) == if id.clock >= n then CutOff(FullUnitOf(b, id), id.clock == n, false)
                else None
    ensures UnitOf(DiffBlocks(b, v), id) == if id.clock >= ClockOf(v, id.client) then UnitOf(b, id) else None
  {
    DiffFormed(b, v, id);
    hide Diff, FullAt, At, Chain, CutOff;
    if id.client in b {
      assert WellFormed(id.client, b[id.client]);
      DiffListExactly(id.client, b[id.client], v, id.clock);
    } else {
      CutNone(id.clock == ClockOf(v, id.client), false);
    }
    NothingAt(id.clock);
  }

  lemma DiffFormed(b: Blocks, v: Vector, id: ID)
    requires WellFormedBlocks(b)
    ensures WellFormedBlocks(DiffBlocks(b, v))
    ensures UnitOf(DiffBlocks(b, v), id) == if id.clock >= ClockOf(v, id.client) then UnitOf(b, id) else None
  {
    hide Diff, At, Chain;
    forall k | k in b
      ensures Chain(k, Diff(b[k], v, None))
      ensures Diff(b[k], v, None) != [] ==> HasUnits(Diff(b[k], v, None))
      ensures forall c: nat :: At(Diff(b[k], v, None), c) == if c >= ClockOf(v, k) then At(b[k], c) else None
    {
      DiffOfList(k, b[k], v);
    }
    NothingAt(id.clock);
  }

  lemma NothingAt(c: nat)
    ensures At([], c) == None && FullAt([], c) == None
  {
  }

  lemma DiffKeepsForm(b: Blocks, v: Vector)
    requires WritableBlocks(b)
    ensures KeepsForm(b, DiffWith(v))
  {
    hide Diff, At, Chain, Writable, HasUnits;
    forall k | k in b
      ensures Chain(k, Diff(b[k], v, None)) && (Diff(b[k], v, None) != [] ==> HasUnits(Diff(b[k], v, None)))
      ensures forall s :: s in Diff(b[k], v, None) ==> Writable(s)
    {
      assert WellFormed(k, b[k]);
      DiffOfList(k, b[k], v);
    }
  }

  lemma DiffInParts(update: bytes, vector: bytes, u: Update, v: Vector)
    requires Decode(update) == Ok(u) && DecodeVector(vector) == Ok(v)
    ensures DiffBytes(update, vector) == Ok(EncFragments(Diff(u.structs, v, None)) + EncDeletes(u.deletes, Absolute))
  {
    hide EncFragments, EncDeletes, Diff;
  }

  /** The bytes of a diff, read back: the delete set as it was, and lists that
      hold exactly the units at or above the vector. */
  lemma DiffReadBack(b: Blocks, deletes: RangeMap, v: Vector)
    requires WireBlocks(b) && WireDeletes(deletes, Absolute) && |v| <= MAX_U32
    ensures var reply := DiffBytes(EncFragments(Canonical(b)) + EncDeletes(deletes, Absolute), EncVector(v));
            reply.Ok? && Decode(reply.value) == Ok(Update(ReadBack(b, DiffWith(v)), deletes))
    ensures Group(ReadBack(b, DiffWith(v))) == NormBlocks(DiffBlocks(b, v))
  {
    assert |b| <= MAX_U32;
    WireIsWritable(b);
    DiffKeepsForm(b, v);
    hide WireBlocks, WritableBlocks, WellFormedBlocks, WireDeletes, EncFragments, EncDeletes, EncVector, Decode,
         DecodeVector, Diff, DiffWith, Mapped, NormBlocks, Flatten, FlattenMap, Distinct, DiffBytes, Descending,
         KeepsForm, ReadBack, Group;
    CanonicalReadBack(b, deletes);
    VectorRoundTrip(v, []);
    assert EncVector(v) + [] == EncVector(v);
    DiffInParts(EncFragments(Canonical(b)) + EncDeletes(deletes, Absolute), EncVector(v),
        Update(Canonical(b), deletes), v);
    DiffOfFlatten(Desc(b.Keys), b, v);
    MappedRoundTrip(b, DiffWith(v), deletes);
  }

  // ----- The sync step -----

  /** The list counted first, if it starts with a Skip at clock 0. */
  ghost predicate Miscounted(b: Blocks, id: ID) {
    var order := Desc(b.Keys);
    && order != [] && id.client == order[0] && order[0] in b
    && SkipFirst(b[order[0]]) && id.clock < b[order[0]][0].End()
  }

  lemma VectorOfCanonical(b: Blocks, k: u32)
    requires WellFormedBlocks(b)
    ensures var order, v := Desc(b.Keys), ClockOf(VectorOf(Canonical(b)), k);
            && (k !in b ==> v == 0)
            && (k in b ==> order != [] && (v == GapFree(b[k]) <==> !(k == order[0] && SkipFirst(b[k]))))
            && (k in b && v != GapFree(b[k]) ==> v == b[k][0].End() && GapFree(b[k]) == 0)
  {
    DistinctDesc(b.Keys);
    VectorExact(Desc(b.Keys), b, k);
    hide VectorOf, Flatten, Distinct, GapFree, SkipFirst, WellFormedBlocks;
  }

  /** Below the vector of `b` there is a unit of `b`, unless it is miscounted. */
  lemma CoveredByVector(b: Blocks, id: ID)
    requires WellFormedBlocks(b)
    ensures id.clock < ClockOf(VectorOf(Canonical(b)), id.client) ==> UnitOf(b, id).Some? || Miscounted(b, id)
    ensures Miscounted(b, id) ==> UnitOf(b, id).None? && id.clock < ClockOf(VectorOf(Canonical(b)), id.client)
  {
    VectorOfCanonical(b, id.client);
    hide VectorOf, Canonical, GapFree, Desc;
    if id.client in b {
      assert WellFormed(id.client, b[id.client]);
      hide WellFormedBlocks, SkipFirst, Chain;
      GapFreeExact(id.client, b[id.client]);
    }
  }

  /** Merging an update with the diff of another against its own vector: the
      units of both, short of those the vector wrongly claims. The merge is the
      full union exactly when no unit of the other update is so claimed. */
  lemma SyncExact(mine: Entry, other: Blocks, deletes: RangeMap, m: Entry)
    requires WellFormedEntry(mine) && WritableBlocks(other)
    requires var reply := Entry(NormBlocks(DiffBlocks(other, VectorOf(Canonical(mine.blocks)))), deletes);
             MergeOf(m, [mine, reply])
    ensures forall id: ID :: UnitOf(m.blocks, id).Some? <==>
              UnitOf(mine.blocks, id).Some? || (UnitOf(other, id).Some? && !Miscounted(mine.blocks, id))
    ensures forall id: ID :: UnitOf(m.blocks, id).Some? ==>
              UnitOf(m.blocks, id) == UnitOf(mine.blocks, id) || UnitOf(m.blocks, id) == UnitOf(other, id)
    ensures (forall id: ID :: UnitOf(m.blocks, id).Some? <==> UnitOf(mine.blocks, id).Some? || UnitOf(other, id).Some?)
            <==> !exists id: ID :: Miscounted(mine.blocks, id) && UnitOf(other, id).Some?
  {
    var v := VectorOf(Canonical(mine.blocks));
    var d := DiffBlocks(other, v);
    var reply := Entry(NormBlocks(d), deletes);
    DiffKeepsForm(other, v);
    MappedWritable(other, DiffWith(v));
    NormBlocksSame(d);
    hide NormBlocks, DiffBlocks, VectorOf, Canonical, WritableBlocks, WellFormedBlocks, UnitOf, Miscounted;
    forall id: ID
      ensures UnitOf(m.blocks, id).Some? <==>
                UnitOf(mine.blocks, id).Some? || (UnitOf(other, id).Some? && !Miscounted(mine.blocks, id))
      ensures UnitOf(m.blocks, id).Some? ==>
                UnitOf(m.blocks, id) == UnitOf(mine.blocks, id) || UnitOf(m.blocks, id) == UnitOf(other, id)
      ensures Miscounted(mine.blocks, id) ==> UnitOf(mine.blocks, id).None?
    {
      DiffExact(other, v, id);
      CoveredByVector(mine.blocks, id);
      MergeOfTwo(m, mine, reply, id);
    }
  }

  lemma MergeOfTwo(m: Entry, a: Entry, b: Entry, id: ID)
    requires MergeOf(m, [a, b])
    ensures Picks(UnitOf(m.blocks, id), UnitOf(a.blocks, id), UnitOf(b.blocks, id))
  {
    var es := [a, b];
    assert es[0] == a && es[1] == b;
  }

  lemma VectorSize(b: Blocks)
    requires WellFormedBlocks(b)
    ensures |VectorOf(Canonical(b))| <= |b|
  {
    DistinctDesc(b.Keys);
    VectorNonZero(Canonical(b));
    hide VectorOf, Flatten, Distinct, Descending, WellFormedBlocks, GapFree, SkipFirst;
    var v := VectorOf(Canonical(b));
    forall k | k in v
      ensures k in b
    {
      VectorExact(Desc(b.Keys), b, k);
    }
    assert v.Keys <= b.Keys;
    Subset(v.Keys, b.Keys);
    assert |v.Keys| == |v| && |b.Keys| == |b|;
  }

  lemma ReplyKnown(mine: Blocks, other: Blocks, deletes: RangeMap, reply: bytes, x: Update)
    requires WellFormedBlocks(mine) && |mine| <= MAX_U32
    requires WireBlocks(other) && WireDeletes(deletes, Absolute)
    requires DiffBytes(EncFragments(Canonical(other)) + EncDeletes(deletes, Absolute),
                       EncVector(VectorOf(Canonical(mine)))) == Ok(reply)
    requires Decode(reply) == Ok(x)
    ensures x.deletes == deletes && Group(x.structs) == NormBlocks(DiffBlocks(other, VectorOf(Canonical(mine))))
  {
    VectorSize(mine);
    WireIsWritable(other);
    hide WireBlocks, WireDeletes, EncFragments, EncDeletes, EncVector, VectorOf, Canonical, ReadBack, DiffBlocks,
         NormBlocks, Group, WritableBlocks, Decode, DiffBytes;
    DiffReadBack(other, deletes, VectorOf(Canonical(mine)));
  }

  /** A whole sync step over the wire: state vector sent, diff computed from the
      other side's bytes, reply decoded and merged. For consistent updates the
      result holds the union of both, with all deletions of both. */
  lemma SyncConverges(mine: Entry, other: Blocks, deletes: RangeMap, reply: bytes, x: Update, m: Entry)
    requires WellFormedEntry(mine) && |mine.blocks| <= MAX_U32
    requires WireBlocks(other) && WireDeletes(deletes, Absolute)
    requires DiffBytes(EncFragments(Canonical(other)) + EncDeletes(deletes, Absolute),
                       EncVector(VectorOf(Canonical(mine.blocks)))) == Ok(reply)
    requires Decode(reply) == Ok(x) && MergeOf(m, [mine, Entry(Group(x.structs), x.deletes)])
    requires forall id: ID :: Agree(UnitOf(mine.blocks, id), UnitOf(other, id))
    requires !exists id: ID :: Miscounted(mine.blocks, id) && UnitOf(other, id).Some?
    ensures forall id: ID :: UnitOf(m.blocks, id) == OrElse(UnitOf(mine.blocks, id), UnitOf(other, id))
    ensures forall client: u32, c: int :: Member(m.deletes, client, c) <==>
              Member(mine.deletes, client, c) || Member(deletes, client, c)
  {
    WireIsWritable(other);
    hide WireBlocks, WireDeletes, EncFragments, EncDeletes, EncVector, VectorOf, Canonical, DiffBlocks, NormBlocks,
         Group, WritableBlocks, Decode, DiffBytes, UnitOf, Member, Miscounted, MergeOf, WellFormedBlocks;
    ReplyKnown(mine.blocks, other, deletes, reply, x);
    hide NormalMap;
    SyncUnits(mine, other, deletes, m);
    DeletesOfTwo(m, mine, Entry(Group(x.structs), x.deletes));
  }

  lemma SyncUnits(mine: Entry, other: Blocks, deletes: RangeMap, m: Entry)
    requires WellFormedEntry(mine) && WritableBlocks(other)
    requires var reply := Entry(NormBlocks(DiffBlocks(other, VectorOf(Canonical(mine.blocks)))), deletes);
             MergeOf(m, [mine, reply])
    requires forall id: ID :: Agree(UnitOf(mine.blocks, id), UnitOf(other, id))
    requires !exists id: ID :: Miscounted(mine.blocks, id) && UnitOf(other, id).Some?
    ensures forall id: ID :: UnitOf(m.blocks, id) == OrElse(UnitOf(mine.blocks, id), UnitOf(other, id))
  {
    hide DiffBlocks, NormBlocks, VectorOf, Canonical, WritableBlocks, UnitOf, Miscounted, MergeOf, WellFormedEntry;
    SyncExact(mine, other, deletes, m);
  }

  lemma DeletesOfTwo(m: Entry, a: Entry, b: Entry)
    requires MergeOf(m, [a, b])
    ensures forall client: u32, c: int :: Member(m.deletes, client, c) <==>
              Member(a.deletes, client, c) || Member(b.deletes, client, c)
  {
    var es := [a, b];
    assert es[0] == a && es[1] == b;
    hide Member;
    forall client: u32, c: int
      ensures Member(m.deletes, client, c) <==> Member(a.deletes, client, c) || Member(b.deletes, client, c)
    {
      assert Member(m.deletes, client, c) <==> exists i :: 0 <= i < |es| && Member(es[i].deletes, client, c);
    }
  }

  // ----- Without loss -----

  /** The clock up to which an update has everything is not inside a pair of
      anything that agrees with it. */
  lemma VectorCutsNoPair(mine: Blocks, other: Blocks, id: ID)
    requires WellFormedBlocks(mine) && WellFormedBlocks(other)
    requires forall x: ID :: Agree(FullUnitOf(mine, x), FullUnitOf(other, x))
    requires forall x: ID :: Miscounted(mine, x) ==> UnitOf(other, x).None?
    requires id.clock == ClockOf(VectorOf(Canonical(mine)), id.client)
    ensures !SecondHalf(FullUnitOf(other, id))
  {
    hide VectorOf, Canonical, FullAt, At, Chain, HasUnits, Miscounted, WellFormedBlocks;
    if SecondHalf(FullUnitOf(other, id)) {
      hide FirstHalf, SecondHalf;
      var before := FirstOfSecond(other, id);
      assert Agree(FullUnitOf(mine, before), FullUnitOf(other, before));
      CoveredByVector(mine, before);
      FirstHasSecond(mine, before);
      NoneIsNoHalf(FullUnitOf(mine, id));
      NothingAtVector(mine, before);
      assert false;
    }
  }

  lemma FirstOfSecond(b: Blocks, id: ID) returns (before: ID)
    requires WellFormedBlocks(b) && SecondHalf(FullUnitOf(b, id))
    ensures id.clock > 0 && before == ID(id.client, id.clock - 1)
    ensures FirstHalf(FullUnitOf(b, before)) && FullUnitOf(b, before).Some? && UnitOf(b, before).Some?
  {
    hide FullAt, Chain, HasUnits, FirstHalf, SecondHalf;
    NoneIsNoHalf(FullUnitOf(b, id));
    assert WellFormed(id.client, b[id.client]);
    BehindFirst(id.client, b[id.client], id.clock);
    before := ID(id.client, id.clock - 1);
    NoneIsNoHalf(FullUnitOf(b, before));
  }

  /** At its own vector an update has nothing, unless it is miscounted. */
  lemma NothingAtVector(b: Blocks, before: ID)
    requires WellFormedBlocks(b) && before.clock < MAX_U32
    requires before.clock + 1 == ClockOf(VectorOf(Canonical(b)), before.client)
    ensures UnitOf(b, ID(before.client, before.clock + 1)).None? || Miscounted(b, before)
  {
    var k := before.client;
    VectorOfCanonical(b, k);
    hide VectorOf, Canonical, GapFree, Desc, SkipFirst, Chain, At, NoSkips, ListEnd;
    if k in b {
      assert WellFormed(k, b[k]);
      GapFreeExact(k, b[k]);
    }
  }

  lemma ReplyExactly(mine: Blocks, other: Blocks, id: ID)
    requires WellFormedBlocks(mine) && WellFormedBlocks(other)
    requires forall x: ID :: Agree(FullUnitOf(mine, x), FullUnitOf(other, x))
    requires forall x: ID :: Miscounted(mine, x) ==> UnitOf(other, x).None?
    ensures var v := VectorOf(Canonical(mine));
            FullUnitOf(DiffBlocks(other, v), id) == if id.clock >= ClockOf(v, id.client) then FullUnitOf(other, id)
                else None
  {
    var v := VectorOf(Canonical(mine));
    hide VectorOf, Canonical, FullUnitOf, UnitOf, Miscounted, WellFormedBlocks, DiffBlocks, SecondHalf, FirstHalf;
    DiffExact(other, v, id);
    if id.clock == ClockOf(v, id.client) {
      VectorCutsNoPair(mine, other, id);
    }
  }

  /** A sync step between updates that agree changes no code unit: what is
      merged is the one update's unit or else the other's, exactly. */
  lemma SyncWithoutLoss(mine: Entry, other: Blocks, deletes: RangeMap, m: Entry, id: ID)
    requires WellFormedEntry(mine) && WritableBlocks(other)
    requires var es := [mine, Entry(NormBlocks(DiffBlocks(other, VectorOf(Canonical(mine.blocks)))), deletes)];
             MergeOf(m, es) && FullMergeOf(m, es)
    requires forall x: ID :: Agree(FullUnitOf(mine.blocks, x), FullUnitOf(other, x))
    requires forall x: ID :: Miscounted(mine.blocks, x) ==> UnitOf(other, x).None?
    ensures FullUnitOf(m.blocks, id) == OrElse(FullUnitOf(mine.blocks, id), FullUnitOf(other, id))
  {
    var v := VectorOf(Canonical(mine.blocks));
    var reply := Entry(NormBlocks(DiffBlocks(other, v)), deletes);
    NormBlocksSame(other);
    ReplyFormed(other, v);
    hide NormBlocks, DiffBlocks, VectorOf, Canonical, WritableBlocks, WireBlocks, WellFormedBlocks, FullUnitOf,
        UnitOf, Miscounted,
         MergeOf, FullMergeOf, NormalMap, FullConsistent, Agree;
    ReplyAgrees(mine.blocks, other, reply.blocks);
    PairConsistent(mine, reply);
    UnitsOfTwo(m, mine, reply, id);
    ReplyOrElse(mine.blocks, other, reply.blocks, id);
  }

  lemma ReplyAgrees(mine: Blocks, other: Blocks, reply: Blocks)
    requires WellFormedBlocks(mine) && WellFormedBlocks(other)
    requires forall x: ID :: Agree(FullUnitOf(mine, x), FullUnitOf(other, x))
    requires forall x: ID :: Miscounted(mine, x) ==> UnitOf(other, x).None?
    requires forall x: ID :: FullUnitOf(reply, x) == FullUnitOf(DiffBlocks(other, VectorOf(Canonical(mine))), x)
    ensures forall x: ID :: Agree(FullUnitOf(mine, x), FullUnitOf(reply, x))
  {
    hide DiffBlocks, VectorOf, Canonical, WellFormedBlocks, FullUnitOf, UnitOf, Miscounted;
    forall x: ID
      ensures Agree(FullUnitOf(mine, x), FullUnitOf(reply, x))
    {
      ReplyExactly(mine, other, x);
    }
  }

  lemma ReplyOrElse(mine: Blocks, other: Blocks, reply: Blocks, id: ID)
    requires WellFormedBlocks(mine) && WellFormedBlocks(other)
    requires forall x: ID :: Agree(FullUnitOf(mine, x), FullUnitOf(other, x))
    requires forall x: ID :: Miscounted(mine, x) ==> UnitOf(other, x).None?
    requires FullUnitOf(reply, id) == FullUnitOf(DiffBlocks(other, VectorOf(Canonical(mine))), id)
    ensures OrElse(FullUnitOf(mine, id), FullUnitOf(reply, id)) == OrElse(FullUnitOf(mine, id), FullUnitOf(other, id))
  {
    hide DiffBlocks, VectorOf, Canonical, WellFormedBlocks, FullUnitOf, UnitOf, Miscounted;
    ReplyExactly(mine, other, id);
    CoveredByVector(mine, id);
    UnitToo(mine, id);
    UnitToo(other, id);
  }

  lemma ReplyFormed(other: Blocks, v: Vector)
    requires WritableBlocks(other)
    ensures var d := DiffBlocks(other, v);
            && WellFormedBlocks(NormBlocks(d))
            && forall x: ID :: FullUnitOf(NormBlocks(d), x) == FullUnitOf(d, x)
  {
    var d := DiffBlocks(other, v);
    DiffKeepsForm(other, v);
    MappedWritable(other, DiffWith(v));
    hide DiffBlocks, NormBlocks, WritableBlocks, FullUnitOf, UnitOf, WellFormedBlocks, KeepsForm, DiffWith, Mapped,
        WireBlocks;
    assert d == Mapped(other, DiffWith(v)) by {
      SameBlocks(other, v);
    }
    NormBlocksSame(d);
    WireIsWellFormed(NormBlocks(d));
  }

  lemma SameBlocks(b: Blocks, v: Vector)
    ensures DiffBlocks(b, v) == Mapped(b, DiffWith(v))
  {
  }

  /** A merge of two updates that agree. */
  lemma UnitsOfTwo(m: Entry, a: Entry, b: Entry, id: ID)
    requires WellFormedBlocks(a.blocks) && WellFormedBlocks(b.blocks) && FullConsistent([a, b])
    requires MergeOf(m, [a, b]) && FullMergeOf(m, [a, b])
    ensures FullUnitOf(m.blocks, id) == OrElse(FullUnitOf(a.blocks, id), FullUnitOf(b.blocks, id))
  {
    hide WellFormedBlocks, FullUnitOf, MergeOf, FullMergeOf, FullConsistent;
    var es := [a, b];
    assert forall e :: e in es ==> WellFormedBlocks(e.blocks);
    assert es[0] == a && es[1] == b;
    MergeOfConsistent(m, es, 0, id);
    MergeOfConsistent(m, es, 1, id);
  }

  lemma UnitToo(b: Blocks, id: ID)
    ensures UnitOf(b, id).Some? <==> FullUnitOf(b, id).Some?
  {
  }

  lemma PairConsistent(a: Entry, b: Entry)
    requires forall x: ID :: Agree(FullUnitOf(a.blocks, x), FullUnitOf(b.blocks, x))
    ensures FullConsistent([a, b])
  {
    hide FullUnitOf;
    var es := [a, b];
    forall i, j, x: ID | 0 <= i < |es| && 0 <= j < |es|
      ensures Agree(FullUnitOf(es[i].blocks, x), FullUnitOf(es[j].blocks, x))
    {
      assert Agree(FullUnitOf(a.blocks, x), FullUnitOf(b.blocks, x));
    }
  }

  /** The whole step over the wire, between updates that agree to the last code
      unit and with nothing miscounted: no code unit of either is changed. */
  lemma SyncConvergesExactly(mine: Entry, other: Blocks, deletes: RangeMap, reply: bytes, x: Update, m: Entry, id: ID)
    requires WellFormedEntry(mine) && |mine.blocks| <= MAX_U32
    requires WireBlocks(other) && WireDeletes(deletes, Absolute)
    requires DiffBytes(EncFragments(Canonical(other)) + EncDeletes(deletes, Absolute),
                       EncVector(VectorOf(Canonical(mine.blocks)))) == Ok(reply)
    requires Decode(reply) == Ok(x)
    requires MergeOf(m, [mine, Entry(Group(x.structs), x.deletes)])
          && FullMergeOf(m, [mine, Entry(Group(x.structs), x.deletes)])
    requires forall x: ID :: Agree(FullUnitOf(mine.blocks, x), FullUnitOf(other, x))
    requires forall x: ID :: Miscounted(mine.blocks, x) ==> UnitOf(other, x).None?
    ensures FullUnitOf(m.blocks, id) == OrElse(FullUnitOf(mine.blocks, id), FullUnitOf(other, id))
  {
    WireIsWritable(other);
    hide WireBlocks, WireDeletes, EncFragments, EncDeletes, EncVector, VectorOf, Canonical, DiffBlocks, NormBlocks,
         Group, WritableBlocks, Decode, DiffBytes, UnitOf, FullUnitOf, Agree, Miscounted, MergeOf, FullMergeOf,
             WellFormedBlocks;
    ReplyKnown(mine.blocks, other, deletes, reply, x);
    SyncWithoutLoss(mine, other, deletes, m, id);
  }
}
