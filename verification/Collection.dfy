/** Garbage collection of deleted content before an update is stored. */
module Collection {
  import opened Prelude
  import opened Structs
  import opened Merge
  import opened IdSets
  import opened IdSetObject
  import opened Updates
  import opened UpdateV1

  type Clocks = map<u32, seq<u32>>

  function ClocksOf(m: Clocks, client: u32): seq<u32> {
    if client in m then m[client] else []
  }

  /** sliceStructByClock: the part of `s` within [start, end). */
  function Cut(s: Struct, start: nat, end: nat): Struct {
    if start == s.id.clock && end == s.End() then s
    else if s.id.clock <= start < end <= s.End() && SliceStruct(s, start - s.id.clock, s.End() - end).Ok?
    then SliceStruct(s, start - s.id.clock, s.End() - end).value
    else s
  }

  /** No window with a referenced clock, and no item marked to be kept, is collected. */
  predicate Collects(s: Struct, start: nat, end: nat, refs: seq<u32>) {
    !(s.Item? && s.keep) && forall x :: x in refs ==> !(start <= x < end)
  }

  function Window(s: Struct, start: nat, end: nat, refs: seq<u32>): Struct
    requires s.id.clock <= start < end <= s.End() <= MAX_U32
  {
    if Collects(s, start, end, refs) then GC(ID(s.id.client, start), end - start) else Cut(s, start, end)
  }

  /** The rest of `s` from `cursor` on, split at the ranges from `i` on. */
  function Pieces(s: Struct, ranges: seq<Range>, i: nat, cursor: nat, refs: seq<u32>): seq<Struct>
    requires s.Valid() && s.id.clock <= cursor <= s.End()
    decreases |ranges| - i
  {
    if i >= |ranges| || ranges[i].clock >= s.End() || cursor == s.End() then
      if cursor < s.End() then [Cut(s, cursor, s.End())] else []
    else if ranges[i].End() <= cursor then Pieces(s, ranges, i + 1, cursor, refs)
    else
      var r := ranges[i];
      var start, end := Max(cursor, r.clock), Min(s.End(), r.End());
      if start >= end then Pieces(s, ranges, i + 1, cursor, refs)
      else
        (if r.clock > cursor then [Cut(s, cursor, r.clock)] else []) +
        ([Window(s, start, end, refs)] + Pieces(s, ranges, i + 1, end, refs))
  }

  function Sweep(s: Struct, ranges: seq<Range>, refs: seq<u32>): seq<Struct>
    requires s.Valid()
  {
    Pieces(s, ranges, 0, s.id.clock, refs)
  }

  // ----- What sweeping one struct does -----

  /** The clock is in a deleted stretch of `s` that is collected as a whole. */
  ghost predicate Swept(s: Struct, ranges: seq<Range>, refs: seq<u32>, c: nat) {
    exists i :: 0 <= i < |ranges| && ranges[i].Contains(c) &&
                Collects(s, Max(s.id.clock, ranges[i].clock), Min(s.End(), ranges[i].End()), refs)
  }

  /** A deleted range begins or ends just before `c`. */
  ghost predicate Border(ranges: seq<Range>, c: nat) {
    Covers(ranges, c) != Covers(ranges, c - 1)
  }

  /** What is left of the unit: structs are cut where deleted ranges end. */
  ghost function After(s: Struct, ranges: seq<Range>, refs: seq<u32>, c: nat): Option<Unit> {
    if Swept(s, ranges, refs, c) then Some(Collected)
    else CutOff(FullStructAt(s, c), Border(ranges, c), Border(ranges, c + 1))
  }

  /** The ranges before `i` lie behind the cursor, the others start after it
      unless it is still at the start of `s`. */
  predicate Behind(s: Struct, ranges: seq<Range>, i: nat, cursor: nat) {
    && i <= |ranges| && (forall j :: 0 <= j < i ==> ranges[j].End() <= cursor || cursor == s.End())
    && (cursor > s.id.clock && i < |ranges| ==> cursor < ranges[i].clock || cursor == s.End())
    && (cursor > s.id.clock ==> (i > 0 && ranges[i - 1].End() == cursor) || cursor == s.End())
  }

  /** A list covering [from, s.End()) with the units there should be. */
  ghost predicate SweptFrom(s: Struct, ranges: seq<Range>, refs: seq<u32>, from: nat, l: seq<Struct>) {
    && Chain(s.id.client, l)
    && (if from == s.End() then l == [] else l != [] && l[0].id.clock == from && ListEnd(l) == s.End())
    && forall c: nat :: from <= c < s.End() ==> FullAt(l, c) == After(s, ranges, refs, c)
  }

  lemma CutUnits(s: Struct, start: nat, end: nat)
    requires s.Valid() && s.id.clock <= start < end <= s.End()
    ensures var t := Cut(s, start, end);
            && t.Valid() && t.id == ID(s.id.client, start) && t.End() == end
            && forall c: nat :: start <= c < end ==> FullStructAt(t, c) == CutOff(FullStructAt(s, c), c == start, c == end - 1)
  {
    hide SliceStruct, StructAt, FullStructAt;
    SliceKeepsUnits(s, start - s.id.clock, s.End() - end);
    forall c: nat | start <= c < end
      ensures FullStructAt(Cut(s, start, end), c) == CutOff(FullStructAt(s, c), c == start, c == end - 1)
    {
      CutUnit(s, start, end, c);
    }
  }

  lemma CutUnit(s: Struct, start: nat, end: nat, c: nat)
    requires s.Valid() && s.id.clock <= start <= c < end <= s.End()
    ensures FullStructAt(Cut(s, start, end), c) == CutOff(FullStructAt(s, c), c == start, c == end - 1)
  {
    hide SliceStruct, StructAt, FullStructAt, CutOff;
    HalvesInside(s, c);
    hide SecondHalf, FirstHalf;
    if start == s.id.clock && end == s.End() {
      OneCut(FullStructAt(s, c), c == start, c == end - 1, false, false);
      NotCut(FullStructAt(s, c));
    } else {
      SliceBounds(s, start - s.id.clock, s.End() - end);
      SliceKeepsExactly(s, start - s.id.clock, s.End() - end, c);
    }
  }

  /** One more piece in front. */
  lemma FrontPiece(s: Struct, ranges: seq<Range>, refs: seq<u32>, from: nat, piece: Struct, rest: seq<Struct>)
    requires s.Valid() && piece.Valid() && piece.id.client == s.id.client && piece.id.clock == from
          && piece.End() <= s.End()
    requires SweptFrom(s, ranges, refs, piece.End(), rest)
    requires forall c: nat :: from <= c < piece.End() ==> FullStructAt(piece, c) == After(s, ranges, refs, c)
    ensures SweptFrom(s, ranges, refs, from, [piece] + rest)
  {
    hide FullStructAt, After;
    ChainHead(s.id.client, piece, rest);
    var l := [piece] + rest;
    assert l[1..] == rest;
  }

  lemma NotSwept(s: Struct, ranges: seq<Range>, refs: seq<u32>, i: nat, c: nat)
    requires Normal(ranges) && i <= |ranges|
    requires forall j :: 0 <= j < i ==> ranges[j].End() <= c
    requires i < |ranges| ==> c < ranges[i].clock
    ensures !Swept(s, ranges, refs, c) && !Covers(ranges, c)
  {
    forall j | 0 <= j < |ranges|
      ensures !ranges[j].Contains(c)
    {
      assert j > i ==> ranges[i].End() < ranges[j].clock;
    }
  }

  lemma SweptInRange(s: Struct, ranges: seq<Range>, refs: seq<u32>, i: nat, c: nat)
    requires Normal(ranges) && i < |ranges| && ranges[i].Contains(c)
    ensures Swept(s, ranges, refs, c) <==>
              Collects(s, Max(s.id.clock, ranges[i].clock), Min(s.End(), ranges[i].End()), refs)
  {
    forall j | 0 <= j < |ranges| && j != i
      ensures !ranges[j].Contains(c)
    {
      assert j > i ==> ranges[i].End() < ranges[j].clock;
      assert j < i ==> ranges[j].End() < ranges[i].clock;
    }
  }

  /** Sweeping splits a struct without a hole; outside the deleted ranges every
      unit is kept, and a deleted stretch is either kept or collected whole. */
  lemma {:induction false} PiecesExact(s: Struct, ranges: seq<Range>, i: nat, cursor: nat, refs: seq<u32>)
    requires s.Valid() && s.id.clock <= cursor <= s.End() && Normal(ranges) && Behind(s, ranges, i, cursor)
    ensures SweptFrom(s, ranges, refs, cursor, Pieces(s, ranges, i, cursor, refs))
    decreases |ranges| - i
  {
    hide Cut, FullStructAt, Collects, After;
    if i == |ranges| || ranges[i].clock >= s.End() || cursor == s.End() {
      if cursor < s.End() {
        KeptPiece(s, ranges, refs, i, cursor, s.End(), []);
        assert [Cut(s, cursor, s.End())] + [] == [Cut(s, cursor, s.End())];
      }
    } else if ranges[i].End() <= cursor {
      PiecesExact(s, ranges, i + 1, cursor, refs);
    } else {
      var r := ranges[i];
      var start, end := Max(cursor, r.clock), Min(s.End(), r.End());
      assert r.Valid();
      PiecesExact(s, ranges, i + 1, end, refs);
      var rest := Pieces(s, ranges, i + 1, end, refs);
      WindowPiece(s, ranges, refs, i, cursor, rest);
      if r.clock > cursor {
        KeptPiece(s, ranges, refs, i, cursor, r.clock, [Window(s, start, end, refs)] + rest);
      } else {
        assert [] + ([Window(s, start, end, refs)] + rest) == [Window(s, start, end, refs)] + rest;
      }
    }
  }

  lemma KeptPiece(s: Struct, ranges: seq<Range>, refs: seq<u32>, i: nat, from: nat, to: nat, rest: seq<Struct>)
    requires s.Valid() && Normal(ranges) && Behind(s, ranges, i, from) && s.id.clock <= from < to <= s.End()
    requires i < |ranges| ==> to <= ranges[i].clock
    requires to == s.End() || (i < |ranges| && to == ranges[i].clock)
    requires SweptFrom(s, ranges, refs, to, rest)
    ensures SweptFrom(s, ranges, refs, from, [Cut(s, from, to)] + rest)
  {
    hide FullStructAt, Swept, After, SweptFrom, Cut, CutOff;
    CutUnits(s, from, to);
    forall c: nat | from <= c < to
      ensures FullStructAt(Cut(s, from, to), c) == After(s, ranges, refs, c)
    {
      KeptUnit(s, ranges, refs, i, from, to, c);
    }
    FrontPiece(s, ranges, refs, from, Cut(s, from, to), rest);
  }

  /** Between two deleted ranges: the borders are at the ends. */
  lemma KeptUnit(s: Struct, ranges: seq<Range>, refs: seq<u32>, i: nat, from: nat, to: nat, c: nat)
    requires s.Valid() && Normal(ranges) && Behind(s, ranges, i, from) && s.id.clock <= from <= c < to <= s.End()
    requires i < |ranges| ==> to <= ranges[i].clock
    requires to == s.End() || (i < |ranges| && to == ranges[i].clock)
    ensures After(s, ranges, refs, c) == CutOff(FullStructAt(s, c), c == from, c == to - 1)
  {
    hide FullStructAt, Swept, CutOff;
    HalvesInside(s, c);
    hide SecondHalf, FirstHalf;
    NotSwept(s, ranges, refs, i, c);
    if c > from {
      NotSwept(s, ranges, refs, i, c - 1);
    } else if c > s.id.clock {
      assert ranges[i - 1].Valid() && ranges[i - 1].Contains(c - 1);
    }
    if c + 1 < to {
      NotSwept(s, ranges, refs, i, c + 1);
    } else if to < s.End() {
      assert ranges[i].Valid() && ranges[i].Contains(to);
    }
    OneCut(FullStructAt(s, c), c == from, c == to - 1, Border(ranges, c), Border(ranges, c + 1));
  }

  /** Inside one: so they are too. */
  lemma CoveredUnit(s: Struct, ranges: seq<Range>, refs: seq<u32>, i: nat, c: nat)
    requires s.Valid() && Normal(ranges) && i < |ranges| && s.id.clock <= c < s.End() && ranges[i].Contains(c)
    ensures var start, end := Max(s.id.clock, ranges[i].clock), Min(s.End(), ranges[i].End());
            After(s, ranges, refs, c) == if Collects(s, start, end, refs) then Some(Collected)
                                         else CutOff(FullStructAt(s, c), c == start, c == end - 1)
  {
    hide FullStructAt, Swept, CutOff, Collects;
    HalvesInside(s, c);
    hide SecondHalf, FirstHalf;
    var r := ranges[i];
    var start, end := Max(s.id.clock, r.clock), Min(s.End(), r.End());
    SweptInRange(s, ranges, refs, i, c);
    assert Covers(ranges, c);
    InsideRange(ranges, i);
    if c > r.clock {
      assert r.Contains(c - 1);
    }
    if c + 1 < r.End() {
      assert r.Contains(c + 1);
    }
    OneCut(FullStructAt(s, c), c == start, c == end - 1, Border(ranges, c), Border(ranges, c + 1));
  }

  lemma WindowPiece(s: Struct, ranges: seq<Range>, refs: seq<u32>, i: nat, cursor: nat, rest: seq<Struct>)
    requires s.Valid() && Normal(ranges) && Behind(s, ranges, i, cursor) && i < |ranges|
    requires s.id.clock <= cursor < s.End() && cursor < ranges[i].End() && ranges[i].clock < s.End()
    requires SweptFrom(s, ranges, refs, Min(s.End(), ranges[i].End()), rest)
    ensures var start, end := Max(cursor, ranges[i].clock), Min(s.End(), ranges[i].End());
            start < end && SweptFrom(s, ranges, refs, start, [Window(s, start, end, refs)] + rest)
  {
    hide Collects, Cut, After, SweptFrom, FullStructAt, CutOff;
    var r := ranges[i];
    var start, end := Max(cursor, r.clock), Min(s.End(), r.End());
    assert r.Valid() && start == Max(s.id.clock, r.clock);
    CutUnits(s, start, end);
    var w := Window(s, start, end, refs);
    forall c: nat | start <= c < end
      ensures FullStructAt(w, c) == After(s, ranges, refs, c)
    {
      CoveredUnit(s, ranges, refs, i, c);
      if Collects(s, start, end, refs) {
        PlainUnits(w, c);
      }
    }
    FrontPiece(s, ranges, refs, start, w, rest);
  }

  // ----- The loops -----

  /** hasReferencedClock. */
  method HasReferenced(refs: seq<u32>, start: nat, end: nat) returns (found: bool)
    ensures found <==> exists x :: x in refs && start <= x < end
  {
    for i := 0 to |refs|
      invariant forall j :: 0 <= j < i ==> !(start <= refs[j] < end)
    {
      if refs[i] >= start && refs[i] < end {
        assert refs[i] in refs;
        return true;
      }
    }
    found := false;
  }

  /** garbageCollectStructWindow; its error returns are out of reach. */
  method CollectWindow(s: Struct, start: nat, end: nat, refs: seq<u32>) returns (out: Struct)
    requires s.Valid() && s.id.clock <= start < end <= s.End()
    ensures out == Window(s, start, end, refs)
  {
    if s.Item? && s.keep {
      return Cut(s, start, end);
    }
    var referenced := HasReferenced(refs, start, end);
    if referenced {
      return Cut(s, start, end);
    }
    out := GC(ID(s.id.client, start), end - start);
  }

  lemma PiecesTurn(s: Struct, ranges: seq<Range>, i: nat, cursor: nat, refs: seq<u32>, result: seq<Struct>)
    requires s.Valid() && s.id.clock <= cursor < s.End() && Normal(ranges) && i < |ranges|
    requires cursor < ranges[i].End() && ranges[i].clock < s.End()
    ensures var r := ranges[i];
            var start, end := Max(cursor, r.clock), Min(s.End(), r.End());
            var keep := if r.clock > cursor then [Cut(s, cursor, r.clock)] else [];
            start < end && result + Pieces(s, ranges, i, cursor, refs) ==
            result + keep + [Window(s, start, end, refs)] + Pieces(s, ranges, i + 1, end, refs)
  {
    hide Cut, Collects;
    assert ranges[i].Valid();
    var r := ranges[i];
    var start, end := Max(cursor, r.clock), Min(s.End(), r.End());
    var keep := if r.clock > cursor then [Cut(s, cursor, r.clock)] else [];
    var w, rest := [Window(s, start, end, refs)], Pieces(s, ranges, i + 1, end, refs);
    Assoc(keep, w, rest);
    Assoc(result, keep, w);
    Assoc(result, keep + w, rest);
  }

  lemma NothingOverlaps(s: Struct, ranges: seq<Range>, i: nat, refs: seq<u32>)
    requires s.Valid() && (i >= |ranges| || ranges[i].clock >= s.End())
    ensures Pieces(s, ranges, i, s.id.clock, refs) == [s]
  {
  }

  /** garbageCollectStruct: keep up to the next range, collect or keep within
      it, keep the rest; the struct itself when no range overlaps it. */
  method CollectStruct(s: Struct, ranges: seq<Range>, refs: seq<u32>) returns (result: seq<Struct>)
    requires s.Valid() && Normal(ranges)
    ensures result == Sweep(s, ranges, refs)
  {
    ghost var want := Sweep(s, ranges, refs);
    hide Sweep, Cut, Collects;
    result := [];
    var cursor: nat := s.id.clock;
    var overlapped := false;
    var i := 0;
    assert [] + want == want;
    while i < |ranges| && cursor < s.End()
      invariant i <= |ranges| && s.id.clock <= cursor <= s.End()
      invariant want == result + Pieces(s, ranges, i, cursor, refs)
      invariant !overlapped ==> cursor == s.id.clock && result == []
      decreases |ranges| - i
    {
      var r := ranges[i];
      if r.End() <= cursor {
        i := i + 1;
        continue;
      }
      if r.clock >= s.End() {
        break;
      }
      PiecesTurn(s, ranges, i, cursor, refs, result);
      var end := Min(s.End(), r.End());
      if r.clock > cursor {
        result := result + [Cut(s, cursor, r.clock)];
        cursor := r.clock;
      } else {
        assert result + [] == result;
      }
      var segment := CollectWindow(s, cursor, end, refs);
      result := result + [segment];
      cursor := end;
      overlapped := true;
      i := i + 1;
    }
    if !overlapped {
      NothingOverlaps(s, ranges, i, refs);
      return [s];
    }
    if cursor < s.End() {
      result := result + [Cut(s, cursor, s.End())];
    } else {
      assert result + [] == result;
    }
  }

  // ----- References -----

  /** Some item names `id` as its origin or right origin. */
  ghost predicate Referenced(structs: seq<Struct>, id: ID) {
    exists s :: s in structs && s.Item? && (s.origin == Some(id) || s.rightOrigin == Some(id))
  }

  function AddRef(m: Clocks, id: Option<ID>): Clocks {
    if id.None? then m else m[id.value.client := ClocksOf(m, id.value.client) + [id.value.clock]]
  }

  ghost predicate RefsOf(m: Clocks, structs: seq<Struct>) {
    forall id: ID :: id.clock in ClocksOf(m, id.client) <==> Referenced(structs, id)
  }

  lemma AddRefExact(m: Clocks, id: Option<ID>, k: ID)
    ensures k.clock in ClocksOf(AddRef(m, id), k.client) <==> k.clock in ClocksOf(m, k.client) || id == Some(k)
  {
  }

  lemma RefsStep(m: Clocks, structs: seq<Struct>, s: Struct)
    requires RefsOf(m, structs)
    ensures RefsOf(if s.Item? then AddRef(AddRef(m, s.origin), s.rightOrigin) else m, structs + [s])
  {
    hide ClocksOf, AddRef;
    var next := if s.Item? then AddRef(AddRef(m, s.origin), s.rightOrigin) else m;
    forall id: ID
      ensures id.clock in ClocksOf(next, id.client) <==> Referenced(structs + [s], id)
    {
      if s.Item? {
        AddRefExact(m, s.origin, id);
        AddRefExact(AddRef(m, s.origin), s.rightOrigin, id);
      }
      assert forall x :: x in structs + [s] <==> x in structs || x == s;
    }
  }

  /** referencedItemClocks. */
  method ReferencedClocks(structs: seq<Struct>) returns (m: Clocks)
    ensures RefsOf(m, structs)
  {
    m := map[];
    for i := 0 to |structs|
      invariant RefsOf(m, structs[..i])
    {
      var s := structs[i];
      RefsStep(m, structs[..i], s);
      assert structs[..i + 1] == structs[..i] + [s];
      hide RefsOf;
      if s.Item? {
        m := AddRef(m, s.origin);
        m := AddRef(m, s.rightOrigin);
      }
    }
    assert structs[..|structs|] == structs;
  }

  /** All structs swept, in order. */
  function SweepAll(l: seq<Struct>, deletes: RangeMap, refs: Clocks): seq<Struct> {
    if l == [] then []
    else
      (if l[0].Valid() then Sweep(l[0], RangesOf(deletes, l[0].id.client), ClocksOf(refs, l[0].id.client))
          else [l[0]]) +
      SweepAll(l[1..], deletes, refs)
  }

  lemma {:induction false} SweepConcat(a: seq<Struct>, b: seq<Struct>, deletes: RangeMap, refs: Clocks)
    ensures SweepAll(a + b, deletes, refs) == SweepAll(a, deletes, refs) + SweepAll(b, deletes, refs)
  {
    hide Sweep;
    if a == [] {
      assert a + b == b;
    } else {
      SweepConcat(a[1..], b, deletes, refs);
      assert (a + b)[1..] == a[1..] + b;
      var first := if a[0].Valid() then Sweep(a[0], RangesOf(deletes, a[0].id.client), ClocksOf(refs, a[0].id.client))
                   else [a[0]];
      Assoc(first, SweepAll(a[1..], deletes, refs), SweepAll(b, deletes, refs));
    }
  }

  lemma SweepOne(s: Struct, deletes: RangeMap, refs: Clocks)
    requires s.Valid()
    ensures SweepAll([s], deletes, refs) == Sweep(s, RangesOf(deletes, s.id.client), ClocksOf(refs, s.id.client))
  {
    hide Sweep;
    assert [s][1..] == [];
    var out := Sweep(s, RangesOf(deletes, s.id.client), ClocksOf(refs, s.id.client));
    assert out + [] == out;
  }

  /** garbageCollectDeletedContent. */
  method GarbageCollect(u: Update) returns (out: Update, ghost refs: Clocks)
    requires Sound(u.structs) && NormalMap(u.deletes)
    ensures RefsOf(refs, u.structs) && out.deletes == u.deletes
    ensures out.structs == SweepAll(u.structs, u.deletes, refs)
  {
    if u.deletes == map[] {
      refs := ReferencedClocks(u.structs);
      SweepNothing(u.structs, refs);
      return u, refs;
    }
    var referenced := ReferencedClocks(u.structs);
    refs := referenced;
    var structs: seq<Struct> := [];
    for i := 0 to |u.structs|
      invariant structs == SweepAll(u.structs[..i], u.deletes, refs)
    {
      var s := u.structs[i];
      assert s in u.structs && u.structs[..i + 1] == u.structs[..i] + [s];
      SweepConcat(u.structs[..i], [s], u.deletes, refs);
      SweepOne(s, u.deletes, refs);
      hide Sweep, SweepAll;
      var next := CollectStruct(s, RangesOf(u.deletes, s.id.client), ClocksOf(referenced, s.id.client));
      structs := structs + next;
    }
    assert u.structs[..|u.structs|] == u.structs;
    out := Update(structs, u.deletes);
  }

  lemma {:induction false} SweepNothing(l: seq<Struct>, refs: Clocks)
    requires Sound(l)
    ensures SweepAll(l, map[], refs) == l
  {
    if l != [] {
      assert l[0] in l && forall s :: s in l[1..] ==> s in l;
      SweepNothing(l[1..], refs);
      NothingOverlaps(l[0], [], 0, ClocksOf(refs, l[0].id.client));
      assert l == [l[0]] + l[1..];
    }
  }

  // ----- What collection does to an update -----

  /** The unit of the collected list at `c`. */
  ghost function SweptAt(l: seq<Struct>, ranges: seq<Range>, refs: seq<u32>, c: nat): Option<Unit> {
    if l == [] then None
    else if l[0].id.clock <= c < l[0].End() then After(l[0], ranges, refs, c)
    else SweptAt(l[1..], ranges, refs, c)
  }

  lemma {:induction false} SweepList(client: u32, l: seq<Struct>, deletes: RangeMap, refs: Clocks)
    requires Chain(client, l) && NormalMap(deletes)
    ensures var out := SweepAll(l, deletes, refs);
            && Chain(client, out) && (l == [] <==> out == [])
            && (l != [] ==> out[0].id.clock == l[0].id.clock && ListEnd(out) == ListEnd(l))
            && forall c: nat :: FullAt(out, c) == SweptAt(l, RangesOf(deletes, client), ClocksOf(refs, client), c)
  {
    if l != [] {
      var s, rest := l[0], l[1..];
      var ranges, clocks := RangesOf(deletes, client), ClocksOf(refs, client);
      SweepList(client, rest, deletes, refs);
      PiecesExact(s, ranges, 0, s.id.clock, clocks);
      hide Sweep, SweepAll, FullStructAt, Swept, After, Normal, Collects;
      SweepHead(l, deletes, refs);
      SweptJoin(client, l, ranges, clocks, Sweep(s, ranges, clocks), SweepAll(rest, deletes, refs));
    }
  }

  lemma SweepHead(l: seq<Struct>, deletes: RangeMap, refs: Clocks)
    requires l != [] && l[0].Valid()
    ensures SweepAll(l, deletes, refs) ==
            Sweep(l[0], RangesOf(deletes, l[0].id.client), ClocksOf(refs, l[0].id.client)) +
            SweepAll(l[1..], deletes, refs)
  {
  }

  lemma SweptJoin(client: u32, l: seq<Struct>, ranges: seq<Range>, refs: seq<u32>, part: seq<Struct>, rest: seq<Struct>)
    requires Chain(client, l) && l != [] && SweptFrom(l[0], ranges, refs, l[0].id.clock, part)
    requires Chain(client, rest) && (l[1..] == [] <==> rest == [])
    requires l[1..] != [] ==> rest[0].id.clock == l[1].id.clock && ListEnd(rest) == ListEnd(l[1..])
    requires forall c: nat :: FullAt(rest, c) == SweptAt(l[1..], ranges, refs, c)
    ensures var out := part + rest;
            && Chain(client, out) && out != [] && out[0].id.clock == l[0].id.clock && ListEnd(out) == ListEnd(l)
            && forall c: nat :: FullAt(out, c) == SweptAt(l, ranges, refs, c)
  {
    hide After, FullStructAt;
    var out := part + rest;
    ChainBounds(client, l, 0);
    forall c: nat
      ensures Chain(client, out) && FullAt(out, c) == SweptAt(l, ranges, refs, c)
    {
      ChainConcat(client, part, rest, c);
      FullConcat(client, part, rest, c);
      ChainBounds(client, part, c);
      if rest != [] {
        ChainBounds(client, rest, c);
      }
    }
    ChainConcat(client, part, rest, 0);
    if rest != [] {
      assert ListEnd(out) == ListEnd(rest) && ListEnd(l[1..]) == ListEnd(l);
    } else {
      assert out == part;
    }
  }

  /** The clock is in a deleted stretch, of a struct not marked to be kept,
      none of whose clocks is named. */
  ghost predicate Collectable(l: seq<Struct>, ranges: seq<Range>, refs: seq<u32>, c: nat) {
    exists k :: 0 <= k < |l| && l[k].id.clock <= c < l[k].End() && Swept(l[k], ranges, refs, c)
  }

  lemma {:induction false} CollectableRest(client: u32, l: seq<Struct>, ranges: seq<Range>, refs: seq<u32>, c: nat)
    requires Chain(client, l) && l != []
    ensures Collectable(l, ranges, refs, c) <==>
            if l[0].id.clock <= c < l[0].End() then Swept(l[0], ranges, refs, c)
                else Collectable(l[1..], ranges, refs, c)
  {
    hide Swept;
    if l[0].id.clock <= c < l[0].End() {
      forall k | 0 < k < |l|
        ensures l[k].id.clock > c
      {
        ChainOrder(client, l, k);
      }
    } else {
      assert forall k :: 0 < k < |l| ==> l[k] == l[1..][k - 1];
    }
  }

  /** A clock is collected exactly in such a stretch; any other keeps its unit,
      short of a pair that the end of a deleted range cuts in two. */
  lemma {:induction false} SweptAtExact(client: u32, l: seq<Struct>, ranges: seq<Range>, refs: seq<u32>, c: nat)
    requires Chain(client, l)
    ensures SweptAt(l, ranges, refs, c) ==
            if Collectable(l, ranges, refs, c) then Some(Collected)
            else CutOff(FullAt(l, c), Border(ranges, c), Border(ranges, c + 1))
  {
    hide Swept, FullStructAt, Border, CutOff;
    if l == [] {
      CutNone(Border(ranges, c), Border(ranges, c + 1));
    } else {
      CollectableRest(client, l, ranges, refs, c);
      if !(l[0].id.clock <= c < l[0].End()) {
        SweptAtExact(client, l[1..], ranges, refs, c);
      }
    }
  }

  ghost function SweptBlocks(b: Blocks, deletes: RangeMap, refs: Clocks): Blocks {
    map k | k in b :: SweepAll(b[k], deletes, refs)
  }

  /** Collection works list by list and keeps the lists well formed. */
  lemma {:induction false} SweepFlatten(order: seq<u32>, b: Blocks, deletes: RangeMap, refs: Clocks)
    requires forall k :: k in order ==> k in b
    ensures SweepAll(Flatten(order, b), deletes, refs) == Flatten(order, SweptBlocks(b, deletes, refs))
  {
    hide SweepAll;
    if order != [] {
      SweepConcat(b[order[0]], Flatten(order[1..], b), deletes, refs);
      SweepFlatten(order[1..], b, deletes, refs);
    } else {
      SweepEmpty(deletes, refs);
    }
  }

  lemma SweepEmpty(deletes: RangeMap, refs: Clocks)
    ensures SweepAll([], deletes, refs) == []
  {
  }

  lemma SweptWellFormed(client: u32, l: seq<Struct>, deletes: RangeMap, refs: Clocks)
    requires WellFormed(client, l) && NormalMap(deletes)
    ensures WellFormed(client, SweepAll(l, deletes, refs))
  {
    SweepList(client, l, deletes, refs);
  }

  /** No item's origin or right origin lies in [from, to). */
  ghost predicate Unnamed(structs: seq<Struct>, client: u32, from: nat, to: nat) {
    forall x: u32 :: from <= x < to ==> !Referenced(structs, ID(client, x))
  }

  /** What the range deletes of the struct can go. */
  ghost predicate Dispensable(s: Struct, r: Range, structs: seq<Struct>) {
    !(s.Item? && s.keep) && Unnamed(structs, s.id.client, Max(s.id.clock, r.clock), Min(s.End(), r.End()))
  }

  /** Nothing needs the clock, nor any other in the deleted stretch of the
      struct it belongs to. */
  ghost predicate Unneeded(l: seq<Struct>, ranges: seq<Range>, structs: seq<Struct>, c: nat) {
    exists k, i :: 0 <= k < |l| && 0 <= i < |ranges| && l[k].id.clock <= c < l[k].End() && ranges[i].Contains(c) &&
                   Dispensable(l[k], ranges[i], structs)
  }

  lemma DispensableCollects(s: Struct, r: Range, structs: seq<Struct>, refs: seq<u32>)
    requires forall x: u32 :: x in refs <==> Referenced(structs, ID(s.id.client, x))
    ensures Dispensable(s, r, structs) <==> Collects(s, Max(s.id.clock, r.clock), Min(s.End(), r.End()), refs)
  {
    hide Referenced, Struct.Length;
  }

  lemma UnneededIsCollectable(client: u32, l: seq<Struct>, ranges: seq<Range>, structs: seq<Struct>, refs: seq<u32>,
        c: nat)
    requires Chain(client, l) && forall x: u32 :: x in refs <==> Referenced(structs, ID(client, x))
    ensures Unneeded(l, ranges, structs, c) <==> Collectable(l, ranges, refs, c)
  {
    hide Referenced, Dispensable, Collects, Chain;
    if Unneeded(l, ranges, structs, c) {
      var k, i :| 0 <= k < |l| && 0 <= i < |ranges| && l[k].id.clock <= c < l[k].End() && ranges[i].Contains(c) &&
                  Dispensable(l[k], ranges[i], structs);
      ChainSuffix(client, l, k);
      DispensableCollects(l[k], ranges[i], structs, refs);
      assert Swept(l[k], ranges, refs, c);
    }
    if Collectable(l, ranges, refs, c) {
      var k :| 0 <= k < |l| && l[k].id.clock <= c < l[k].End() && Swept(l[k], ranges, refs, c);
      var i :| 0 <= i < |ranges| && ranges[i].Contains(c) &&
               Collects(l[k], Max(l[k].id.clock, ranges[i].clock), Min(l[k].End(), ranges[i].End()), refs);
      ChainSuffix(client, l, k);
      DispensableCollects(l[k], ranges[i], structs, refs);
    }
  }

  lemma RefsOfClient(m: Clocks, structs: seq<Struct>, client: u32)
    requires RefsOf(m, structs)
    ensures forall x: u32 :: x in ClocksOf(m, client) <==> Referenced(structs, ID(client, x))
  {
    hide Referenced, ClocksOf;
    forall x: u32
      ensures x in ClocksOf(m, client) <==> Referenced(structs, ID(client, x))
    {
      var n := ID(client, x);
      assert n.clock in ClocksOf(m, n.client) <==> Referenced(structs, n);
    }
  }

  /** The list of one client after collection. */
  lemma ListExact(client: u32, l: seq<Struct>, deletes: RangeMap, refs: Clocks, structs: seq<Struct>, c: nat)
    requires Chain(client, l) && NormalMap(deletes) && RefsOf(refs, structs)
    ensures var ranges := RangesOf(deletes, client);
            FullAt(SweepAll(l, deletes, refs), c) ==
            if Unneeded(l, ranges, structs, c) then Some(Collected)
            else CutOff(FullAt(l, c), Border(ranges, c), Border(ranges, c + 1))
  {
    RefsOfClient(refs, structs, client);
    hide SweepAll, Referenced, Chain, FullAt, SweptAt, NormalMap, Border, CutOff, Collectable, Unneeded, RangesOf,
        ClocksOf, RefsOf;
    var ranges, clocks := RangesOf(deletes, client), ClocksOf(refs, client);
    UnneededIsCollectable(client, l, ranges, structs, clocks, c);
    SweepList(client, l, deletes, refs);
    SweptAtExact(client, l, ranges, clocks, c);
  }

  /** Compaction of a grouped update: a clock is collected exactly where nothing
      needs it; any other keeps its unit to the last code unit, unless a deleted
      range ends inside a surrogate pair. */
  lemma CollectionExact(b: Blocks, deletes: RangeMap, structs: seq<Struct>, refs: Clocks, id: ID)
    requires WellFormedBlocks(b) && NormalMap(deletes) && RefsOf(refs, structs)
    ensures var ranges := RangesOf(deletes, id.client);
            FullUnitOf(SweptBlocks(b, deletes, refs), id) ==
            if id.client in b && Unneeded(b[id.client], ranges, structs, id.clock) then Some(Collected)
            else CutOff(FullUnitOf(b, id), Border(ranges, id.clock), Border(ranges, id.clock + 1))
  {
    hide SweepAll, Chain, FullAt, NormalMap, Border, CutOff, RefsOf, Unneeded, RangesOf, StructAt, UnitOf;
    var ranges := RangesOf(deletes, id.client);
    if id.client in b {
      assert WellFormed(id.client, b[id.client]);
      hide WellFormedBlocks, HasUnits;
      ListExact(id.client, b[id.client], deletes, refs, structs, id.clock);
    } else {
      CutNone(Border(ranges, id.clock), Border(ranges, id.clock + 1));
    }
  }

  /** Compaction takes no unit away, and gives one to exactly those clocks that lie
      in a Skip and are collected with it. */
  lemma GainedUnits(b: Blocks, deletes: RangeMap, structs: seq<Struct>, refs: Clocks, id: ID)
    requires WellFormedBlocks(b) && NormalMap(deletes) && RefsOf(refs, structs)
    ensures FullUnitOf(b, id).Some? ==> FullUnitOf(SweptBlocks(b, deletes, refs), id).Some?
    ensures FullUnitOf(b, id).None? ==>
              (FullUnitOf(SweptBlocks(b, deletes, refs), id).Some? <==>
               id.client in b && Unneeded(b[id.client], RangesOf(deletes, id.client), structs, id.clock))
  {
    CollectionExact(b, deletes, structs, refs, id);
    hide SweepAll, Chain, FullAt, NormalMap, Border, RefsOf, Unneeded, RangesOf, SweptBlocks, FullUnitOf;
  }

  /** And every list keeps its extent. */
  lemma SweptExtent(b: Blocks, deletes: RangeMap, refs: Clocks)
    requires WellFormedBlocks(b) && NormalMap(deletes)
    ensures var out := SweptBlocks(b, deletes, refs);
            && WellFormedBlocks(out) && out.Keys == b.Keys
            && (forall k :: k in b ==> b[k] != [] && out[k] != [] && out[k][0].id.clock == b[k][0].id.clock && ListEnd(out[k]) == ListEnd(b[k]))
  {
    hide SweepAll, Chain, HasUnits, FullAt, SweptAt, NormalMap;
    forall k | k in b
      ensures WellFormed(k, SweepAll(b[k], deletes, refs)) && b[k] != []
      ensures var out := SweepAll(b[k], deletes, refs);
              out != [] && out[0].id.clock == b[k][0].id.clock && ListEnd(out) == ListEnd(b[k])
    {
      assert WellFormed(k, b[k]);
      SweptWellFormed(k, b[k], deletes, refs);
      SweepList(k, b[k], deletes, refs);
    }
  }

  /** So a clock that is not deleted, or that an item names as origin or right
      origin, or that is marked to be kept, is needed. */
  lemma NeededStays(client: u32, l: seq<Struct>, ranges: seq<Range>, structs: seq<Struct>, c: u32)
    requires Chain(client, l)
    requires !Covers(ranges, c) || Referenced(structs, ID(client, c)) ||
             (At(l, c).Some? && At(l, c).value.Unit? && At(l, c).value.keep)
    ensures !Unneeded(l, ranges, structs, c)
  {
    hide Referenced, Chain, Covers;
    if k, i :| 0 <= k < |l| && 0 <= i < |ranges| && l[k].id.clock <= c < l[k].End() && ranges[i].Contains(c) &&
               Dispensable(l[k], ranges[i], structs) {
      ChainSuffix(client, l, k);
      FullCovered(client, l, k, c);
      CoversAt(ranges, i, c);
      assert false;
    }
  }

  lemma CoversAt(ranges: seq<Range>, i: nat, c: int)
    requires i < |ranges| && ranges[i].Contains(c)
    ensures Covers(ranges, c)
  {
  }
}

