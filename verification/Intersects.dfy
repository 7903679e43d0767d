/** Keeping only the clocks named by a content-id pattern. */
module Intersects {
  import opened Prelude
  import opened Wire
  import opened Orders
  import opened Structs
  import opened Merge
  import opened IdSets
  import opened IdSetObject
  import opened Updates
  import opened CodecV1
  import opened DeleteSets
  import opened UpdateV1
  import opened PerClient
  import opened LazyReaderV1
  import opened Contents

  /** Where the scan of one client stands: the range it has reached, the clock
      up to which it has written, and whether the rest is dropped. */
  datatype Scan = Scan(index: nat, next: nat, wrote: bool, dropped: bool)

  /** Passes the ranges that end at or before `clock`. */
  function Advance(ranges: seq<Range>, i: nat, clock: nat): (j: nat)
    ensures i <= j && (i <= |ranges| ==> j <= |ranges|)
    ensures j < |ranges| ==> ranges[j].End() > clock
    ensures i <= |ranges| ==> forall k :: i <= k < j ==> ranges[k].End() <= clock
    decreases |ranges| - i
  {
    if i < |ranges| && ranges[i].End() <= clock then Advance(ranges, i + 1, clock) else i
  }

  /** The part of `s` within [start, end). */
  function Piece(s: Struct, start: nat, end: nat): Struct {
    if s.id.clock <= start < end <= s.End() && SliceStruct(s, start - s.id.clock, s.End() - end).Ok?
    then SliceStruct(s, start - s.id.clock, s.End() - end).value else s
  }

  /** A Skip over the clocks since the last write, if there are any. */
  function Bridge(client: u32, sc: Scan, start: nat): seq<Struct> {
    if sc.wrote && sc.next < start <= MAX_U32 then [Skip(ID(client, sc.next), start - sc.next)] else []
  }

  /** The inner loop for one struct: every range that meets it yields a piece. */
  function Emit(s: Struct, ranges: seq<Range>, sc: Scan): (seq<Struct>, Scan)
    decreases |ranges| - sc.index
  {
    if sc.index >= |ranges| then ([], sc)
    else
      var r := ranges[sc.index];
      if r.clock >= s.End() then ([], sc.(dropped := !sc.wrote && r.clock == s.End()))
      else
        var start, end := Max(r.clock, s.id.clock), Min(r.End(), s.End());
        var written := Bridge(s.id.client, sc, start) + [Piece(s, start, end)];
        if r.End() <= s.End() then
          var (more, out) := Emit(s, ranges, Scan(sc.index + 1, end, true, false));
          (written + more, out)
        else (written, Scan(sc.index, end, true, false))
  }

  /** One struct of the client being scanned. */
  function Visit(s: Struct, ranges: seq<Range>, sc: Scan): (seq<Struct>, Scan) {
    if sc.dropped then ([], sc) else Emit(s, ranges, sc.(index := Advance(ranges, sc.index, s.id.clock)))
  }

  /** A client's scan starts anew when its structs begin. */
  datatype Place = Place(client: u32, scan: Scan)

  function Enter(s: Struct, at: Option<Place>): Scan {
    if at.Some? && at.value.client == s.id.client then at.value.scan else Scan(0, s.id.clock, false, false)
  }

  /** What is written of the structs shown, in order. */
  function Select(l: seq<Struct>, ids: RangeMap, at: Option<Place>): seq<Struct>
    decreases |l|
  {
    if l == [] then [] else
      var (part, sc) := Visit(l[0], RangesOf(ids, l[0].id.client), Enter(l[0], at));
      part + Select(l[1..], ids, Some(Place(l[0].id.client, sc)))
  }

  // ----- One struct -----

  /** The unit of `s` at `c` if a range from `i` on covers it. */
  ghost function Wanted(s: Struct, ranges: seq<Range>, i: nat, c: nat): Option<Unit> {
    if i <= |ranges| && Covers(ranges[i..], c) then StructAt(s, c) else None
  }

  lemma PieceUnits(s: Struct, start: nat, end: nat)
    requires s.Valid() && s.id.clock <= start < end <= s.End()
    ensures var t := Piece(s, start, end);
            && t.Valid() && t.id == ID(s.id.client, start) && t.End() == end && t.Skip? == s.Skip?
            && forall c :: start <= c < end ==> StructAt(t, c) == StructAt(s, c)
  {
    hide StructAt, SliceStruct;
    SliceKeepsUnits(s, start - s.id.clock, s.End() - end);
  }

  /** The scan has not written past `s` or past the range it has reached. */
  predicate NotBeyond(s: Struct, ranges: seq<Range>, sc: Scan) {
    && sc.index <= |ranges| && !sc.dropped
    && (sc.index < |ranges| ==> ranges[sc.index].End() > s.id.clock)
    && (sc.wrote && sc.index < |ranges| ==> sc.next <= Max(s.id.clock, ranges[sc.index].clock))
  }

  /** What one run of the inner loop guarantees. */
  ghost predicate Emitted(s: Struct, ranges: seq<Range>, sc: Scan, part: seq<Struct>, out: Scan) {
    && Chain(s.id.client, part)
    && (forall c: nat :: At(part, c) == Wanted(s, ranges, sc.index, c))
    && sc.index <= out.index <= |ranges|
    && (forall j :: sc.index <= j < out.index ==> ranges[j].End() <= s.End())
    && (out.index < |ranges| ==> ranges[out.index].End() > s.End())
    && (if part == [] then out == sc.(index := out.index, dropped := out.dropped) && out.index == sc.index
        else out.wrote && ListEnd(part) == out.next <= s.End() && HasUnits(part) &&
             (if sc.wrote then part[0].id.clock == sc.next else part[0].id.clock >= s.id.clock))
    && (out.dropped <==> !out.wrote && out.index < |ranges| && ranges[out.index].clock == s.End())
  }

  lemma CoversFrom(ranges: seq<Range>, i: nat, c: int)
    requires Normal(ranges) && i < |ranges|
    ensures Covers(ranges[i..], c) <==> ranges[i].Contains(c) || Covers(ranges[i + 1..], c)
    ensures Covers(ranges[i + 1..], c) ==> c > ranges[i].End()
    ensures Covers(ranges[i..], c) ==> c >= ranges[i].clock
  {
    CoversCons(ranges[i..], c);
    assert ranges[i..][1..] == ranges[i + 1..];
    if Covers(ranges[i + 1..], c) {
      var j :| 0 <= j < |ranges[i + 1..]| && ranges[i + 1..][j].Contains(c);
      assert ranges[i + 1 + j].Contains(c);
    }
  }

  lemma WantedNone(s: Struct, ranges: seq<Range>, i: nat)
    requires Normal(ranges) && i <= |ranges| && (i < |ranges| ==> ranges[i].clock >= s.End())
    ensures forall c: nat :: Wanted(s, ranges, i, c) == None
  {
    forall c: nat
      ensures Wanted(s, ranges, i, c) == None
    {
      if i < |ranges| {
        CoversFrom(ranges, i, c);
      }
    }
  }

  /** Bridge and piece for the range at the index. */
  lemma WrittenUnits(s: Struct, ranges: seq<Range>, sc: Scan)
    requires s.Valid() && !s.Skip? && Normal(ranges) && NotBeyond(s, ranges, sc)
    requires sc.index < |ranges| && ranges[sc.index].clock < s.End()
    ensures var r := ranges[sc.index];
            var start, end := Max(r.clock, s.id.clock), Min(r.End(), s.End());
            var written := Bridge(s.id.client, sc, start) + [Piece(s, start, end)];
            && s.id.clock <= start < end <= s.End()
            && Chain(s.id.client, written) && HasUnits(written) && ListEnd(written) == end
            && written[0].id.clock == (if sc.wrote then sc.next else start)
            && forall c: nat :: At(written, c) == if start <= c < end then StructAt(s, c) else None
  {
    var r := ranges[sc.index];
    var start, end := Max(r.clock, s.id.clock), Min(r.End(), s.End());
    PieceUnits(s, start, end);
    hide Piece, StructAt;
    var piece := Piece(s, start, end);
    var bridge := Bridge(s.id.client, sc, start);
    var written := bridge + [piece];
    assert written[|written| - 1] == piece;
    forall c: nat
      ensures Chain(s.id.client, written)
      ensures At(written, c) == if start <= c < end then StructAt(s, c) else None
    {
      BridgeThenPiece(s.id.client, bridge, piece, c);
    }
    BridgeThenPiece(s.id.client, bridge, piece, 0);
  }

  lemma BridgeThenPiece(client: u32, bridge: seq<Struct>, piece: Struct, c: nat)
    requires bridge == [] || (|bridge| == 1 && bridge[0].Skip? && bridge[0].Valid() && bridge[0].id.client == client
                              && bridge[0].End() == piece.id.clock)
    requires piece.Valid() && piece.id.client == client
    ensures Chain(client, bridge + [piece])
    ensures At(bridge + [piece], c) == if piece.id.clock <= c < piece.End() then StructAt(piece, c) else None
  {
    if bridge == [] {
      assert bridge + [piece] == [piece];
    } else {
      ChainAppend(client, bridge, piece, c);
    }
    assert [piece][1..] == [];
  }

  /** Every clock of `s` within the ranges is kept, none outside. */
  lemma {:induction false} EmitExact(s: Struct, ranges: seq<Range>, sc: Scan)
    requires s.Valid() && !s.Skip? && Normal(ranges) && NotBeyond(s, ranges, sc)
    ensures var (part, out) := Emit(s, ranges, sc); Emitted(s, ranges, sc, part, out)
    decreases |ranges| - sc.index
  {
    var i := sc.index;
    if i == |ranges| || ranges[i].clock >= s.End() {
      WantedNone(s, ranges, i);
    } else {
      WrittenUnits(s, ranges, sc);
      var r := ranges[i];
      var start, end := Max(r.clock, s.id.clock), Min(r.End(), s.End());
      var written := Bridge(s.id.client, sc, start) + [Piece(s, start, end)];
      hide Piece, StructAt, Bridge;
      if r.End() <= s.End() {
        var next := Scan(i + 1, end, true, false);
        assert NotBeyond(s, ranges, next);
        EmitExact(s, ranges, next);
        var (more, out) := Emit(s, ranges, next);
        EmitJoin(s, ranges, sc, written, more, out);
      } else {
        EmitLast(s, ranges, sc, written);
      }
    }
  }

  /** The range at `i` reaches past `s`: no later one matters. */
  lemma EmitLast(s: Struct, ranges: seq<Range>, sc: Scan, written: seq<Struct>)
    requires s.Valid() && Normal(ranges) && NotBeyond(s, ranges, sc) && sc.index < |ranges|
    requires ranges[sc.index].clock < s.End() < ranges[sc.index].End()
    requires var start := Max(ranges[sc.index].clock, s.id.clock);
             && Chain(s.id.client, written) && HasUnits(written) && ListEnd(written) == s.End()
             && written[0].id.clock == (if sc.wrote then sc.next else start)
             && forall c: nat :: At(written, c) == if start <= c < s.End() then StructAt(s, c) else None
    ensures Emitted(s, ranges, sc, written, Scan(sc.index, s.End(), true, false))
  {
    var i := sc.index;
    forall c: nat
      ensures At(written, c) == Wanted(s, ranges, i, c)
    {
      CoversFrom(ranges, i, c);
    }
  }

  lemma JoinUnits(s: Struct, ranges: seq<Range>, i: nat, written: seq<Struct>, more: seq<Struct>)
    requires Normal(ranges) && i < |ranges| && written != []
    requires Chain(s.id.client, written) && Chain(s.id.client, more)
    requires more != [] ==> more[0].id.clock == ListEnd(written)
    requires ListEnd(written) == ranges[i].End()
    requires forall c: nat :: At(written, c) ==
               if Max(ranges[i].clock, s.id.clock) <= c < ranges[i].End() then StructAt(s, c) else None
    requires forall c: nat :: At(more, c) == Wanted(s, ranges, i + 1, c)
    ensures Chain(s.id.client, written + more)
    ensures forall c: nat :: At(written + more, c) == Wanted(s, ranges, i, c)
  {
    hide StructAt, At, Covers, Normal, Wanted;
    forall c: nat
      ensures At(written + more, c) == Wanted(s, ranges, i, c)
    {
      ChainConcat(s.id.client, written, more, c);
      WantedSplit(s, ranges, i, c);
    }
    ChainConcat(s.id.client, written, more, 0);
  }

  lemma EmitJoin(s: Struct, ranges: seq<Range>, sc: Scan, written: seq<Struct>, more: seq<Struct>, out: Scan)
    requires s.Valid() && Normal(ranges) && NotBeyond(s, ranges, sc) && sc.index < |ranges|
    requires ranges[sc.index].clock < s.End() && ranges[sc.index].End() <= s.End()
    requires var start, end := Max(ranges[sc.index].clock, s.id.clock), ranges[sc.index].End();
             && Chain(s.id.client, written) && HasUnits(written) && ListEnd(written) == end
             && written[0].id.clock == (if sc.wrote then sc.next else start)
             && (forall c: nat :: At(written, c) == if start <= c < end then StructAt(s, c) else None)
             && Emitted(s, ranges, Scan(sc.index + 1, end, true, false), more, out)
    ensures Emitted(s, ranges, sc, written + more, out)
  {
    hide StructAt, At, Normal, Chain, Wanted;
    var all := written + more;
    JoinUnits(s, ranges, sc.index, written, more);
    var k :| 0 <= k < |written| && !written[k].Skip?;
    assert all[k] == written[k];
    assert more == [] ==> all == written;
    assert more != [] ==> ListEnd(all) == ListEnd(more);
  }

  /** The range at `i`, then the later ones. */
  lemma WantedSplit(s: Struct, ranges: seq<Range>, i: nat, c: nat)
    requires Normal(ranges) && i < |ranges|
    ensures var r := ranges[i];
            Wanted(s, ranges, i, c) ==
            if c < r.End() then (if Max(r.clock, s.id.clock) <= c then StructAt(s, c) else None)
                else Wanted(s, ranges, i + 1, c)
  {
    hide StructAt;
    CoversFrom(ranges, i, c);
    OutsideStruct(s, c);
  }

  lemma OutsideStruct(s: Struct, c: nat)
    ensures !(s.id.clock <= c < s.End()) ==> StructAt(s, c) == None
  {
  }

  // ----- One client -----

  /** Nothing of `s` is asked for. */
  ghost predicate Untouched(s: Struct, ranges: seq<Range>) {
    forall c: nat :: s.id.clock <= c < s.End() ==> !Covers(ranges, c)
  }

  ghost predicate StartsAt(ranges: seq<Range>, c: nat) {
    exists j :: 0 <= j < |ranges| && ranges[j].clock == c
  }

  /** The boundary rule: up to and including some struct nothing is asked for,
      and a range starts exactly where that struct ends. */
  ghost predicate Dropped(l: seq<Struct>, ranges: seq<Range>) {
    exists i :: 0 <= i < |l| && !l[i].Skip? && StartsAt(ranges, l[i].End()) &&
                forall j :: 0 <= j <= i ==> l[j].Skip? || Untouched(l[j], ranges)
  }

  /** All ranges before `i` end at or before `clock`. */
  predicate Passed(ranges: seq<Range>, i: nat, clock: nat) {
    i <= |ranges| && forall j :: 0 <= j < i ==> ranges[j].End() <= clock
  }

  lemma CoversSuffix(ranges: seq<Range>, i: nat, c: nat)
    requires Passed(ranges, i, c)
    ensures Covers(ranges[i..], c) <==> Covers(ranges, c)
  {
    if Covers(ranges, c) {
      var j :| 0 <= j < |ranges| && ranges[j].Contains(c);
      assert ranges[i..][j - i].Contains(c);
    }
    if Covers(ranges[i..], c) {
      var j :| 0 <= j < |ranges[i..]| && ranges[i..][j].Contains(c);
      assert ranges[i + j].Contains(c);
    }
  }

  ghost function Asked(u: Option<Unit>, ranges: seq<Range>, c: nat): Option<Unit> {
    if Covers(ranges, c) then u else None
  }

  /** What visiting one struct does, in terms of the ranges alone. */
  ghost predicate Visited(s: Struct, ranges: seq<Range>, sc: Scan, part: seq<Struct>, out: Scan) {
    && Chain(s.id.client, part)
    && (forall c: nat :: At(part, c) == Asked(StructAt(s, c), ranges, c))
    && Passed(ranges, out.index, s.End())
    && (if part == []
        then out.wrote == sc.wrote && out.next == sc.next && Untouched(s, ranges) &&
             (out.dropped <==> !sc.wrote && StartsAt(ranges, s.End()))
        else out.wrote && !out.dropped && ListEnd(part) == out.next <= s.End() && HasUnits(part) && !Untouched(s, ranges) &&
             (if sc.wrote then part[0].id.clock == sc.next else part[0].id.clock >= s.id.clock))
  }

  lemma StartsAtIndex(s: Struct, ranges: seq<Range>, i: nat)
    requires Normal(ranges) && Passed(ranges, i, s.End()) && (i < |ranges| ==> ranges[i].End() > s.End())
    ensures StartsAt(ranges, s.End()) ==> i < |ranges| && ranges[i].clock <= s.End()
    ensures i < |ranges| && ranges[i].clock == s.End() ==> StartsAt(ranges, s.End())
    ensures StartsAt(ranges, s.End()) && !Covers(ranges, s.End() - 1) && s.Valid() ==> ranges[i].clock == s.End()
  {
    if StartsAt(ranges, s.End()) {
      var j :| 0 <= j < |ranges| && ranges[j].clock == s.End();
      assert j >= i;
    }
  }

  lemma TouchedByUnits(s: Struct, ranges: seq<Range>, part: seq<Struct>)
    requires s.Valid() && Chain(s.id.client, part)
    requires forall c: nat :: At(part, c) == Asked(StructAt(s, c), ranges, c)
    ensures HasUnits(part) ==> !Untouched(s, ranges)
    ensures part == [] && !s.Skip? ==> Untouched(s, ranges)
  {
    if HasUnits(part) {
      var i :| 0 <= i < |part| && !part[i].Skip?;
      NonSkipHasUnit(s.id.client, part, i);
      OutsideStruct(s, part[i].id.clock);
    }
    if part == [] && !s.Skip? {
      forall c: nat | s.id.clock <= c < s.End()
        ensures !Covers(ranges, c)
      {
        assert StructAt(s, c).Some?;
        assert At(part, c) == None;
      }
    }
  }

  lemma WantedIsAsked(s: Struct, ranges: seq<Range>, i: nat)
    requires Passed(ranges, i, s.id.clock)
    ensures forall c: nat :: Wanted(s, ranges, i, c) == Asked(StructAt(s, c), ranges, c)
  {
    hide StructAt, Covers;
    forall c: nat
      ensures Wanted(s, ranges, i, c) == Asked(StructAt(s, c), ranges, c)
    {
      OutsideStruct(s, c);
      if s.id.clock <= c {
        CoversSuffix(ranges, i, c);
      }
    }
  }

  lemma VisitExact(s: Struct, ranges: seq<Range>, sc: Scan)
    requires s.Valid() && !s.Skip? && Normal(ranges) && Passed(ranges, sc.index, s.id.clock)
    requires !sc.dropped && (sc.wrote ==> sc.next <= s.id.clock)
    ensures var (part, out) := Visit(s, ranges, sc); Visited(s, ranges, sc, part, out)
  {
    var i := Advance(ranges, sc.index, s.id.clock);
    var start := sc.(index := i);
    EmitExact(s, ranges, start);
    var (part, out) := Emit(s, ranges, start);
    hide Emit, StructAt, At, Chain, Normal, Covers;
    WantedIsAsked(s, ranges, i);
    TouchedByUnits(s, ranges, part);
    StartsAtIndex(s, ranges, out.index);
    hide StartsAt;
    assert part == [] ==> !Covers(ranges, s.End() - 1);
  }

  /** Skips are not shown to the scan. */
  function SelectShown(client: u32, l: seq<Struct>, ids: RangeMap, sc: Scan): seq<Struct> {
    Select(NonSkips(l), ids, Some(Place(client, sc)))
  }

  lemma ShownSkip(client: u32, l: seq<Struct>, ids: RangeMap, sc: Scan)
    requires l != [] && l[0].Skip?
    ensures SelectShown(client, l, ids, sc) == SelectShown(client, l[1..], ids, sc)
  {
    assert NonSkips(l) == NonSkips(l[1..]);
  }

  lemma ShownStruct(client: u32, l: seq<Struct>, ids: RangeMap, sc: Scan)
    requires l != [] && !l[0].Skip? && l[0].id.client == client
    ensures var (part, out) := Visit(l[0], RangesOf(ids, client), sc);
            SelectShown(client, l, ids, sc) == part + SelectShown(client, l[1..], ids, out)
  {
    hide Visit;
    assert NonSkips(l)[0] == l[0] && NonSkips(l)[1..] == NonSkips(l[1..]);
  }

  lemma {:induction false} DroppedNothing(client: u32, l: seq<Struct>, ids: RangeMap, sc: Scan)
    requires Chain(client, l) && sc.dropped
    ensures SelectShown(client, l, ids, sc) == []
  {
    if l != [] {
      DroppedNothing(client, l[1..], ids, sc);
      if l[0].Skip? {
        ShownSkip(client, l, ids, sc);
      } else {
        ShownStruct(client, l, ids, sc);
      }
    }
  }

  lemma DroppedStep(l: seq<Struct>, ranges: seq<Range>)
    requires l != []
    ensures Dropped(l, ranges) <==>
              (l[0].Skip? || Untouched(l[0], ranges)) &&
              ((!l[0].Skip? && StartsAt(ranges, l[0].End())) || Dropped(l[1..], ranges))
  {
    hide Untouched, StartsAt;
    if Dropped(l[1..], ranges) && (l[0].Skip? || Untouched(l[0], ranges)) {
      var i :| 0 <= i < |l[1..]| && !l[1..][i].Skip? && StartsAt(ranges, l[1..][i].End()) &&
               forall j :: 0 <= j <= i ==> l[1..][j].Skip? || Untouched(l[1..][j], ranges);
      assert forall j :: 0 < j <= i + 1 ==> l[j] == l[1..][j - 1];
      assert !l[i + 1].Skip? && StartsAt(ranges, l[i + 1].End());
    }
    if Dropped(l, ranges) {
      var i :| 0 <= i < |l| && !l[i].Skip? && StartsAt(ranges, l[i].End()) &&
               forall j :: 0 <= j <= i ==> l[j].Skip? || Untouched(l[j], ranges);
      if i > 0 {
        assert forall j :: 0 <= j <= i - 1 ==> l[1..][j] == l[j + 1];
        assert !l[1..][i - 1].Skip? && StartsAt(ranges, l[1..][i - 1].End());
      }
    }
  }

  /** The result for one client from some point of the scan on. */
  ghost predicate Selected(client: u32, l: seq<Struct>, ranges: seq<Range>, sc: Scan, out: seq<Struct>) {
    && Chain(client, out) && (out != [] ==> HasUnits(out))
    && (out != [] && l != [] ==> if sc.wrote then out[0].id.clock == sc.next else out[0].id.clock >= l[0].id.clock)
    && (out != [] ==> l != [])
    && (forall c: nat :: At(out, c) ==
          if sc.dropped || (!sc.wrote && Dropped(l, ranges)) then None else Asked(At(l, c), ranges, c))
  }

  /** The first struct of a list and the rest, clock by clock. */
  lemma FirstAndRest(client: u32, l: seq<Struct>, c: nat)
    requires Chain(client, l) && l != []
    ensures At(l, c) == OrElse(StructAt(l[0], c), At(l[1..], c))
    ensures c < l[0].End() ==> At(l[1..], c) == None
    ensures c >= l[0].End() ==> StructAt(l[0], c) == None
  {
    OutsideStruct(l[0], c);
    if l[1..] != [] {
      ChainBounds(client, l[1..], c);
    }
  }

  lemma SkipHasNothing(s: Struct, c: nat)
    requires s.Skip?
    ensures StructAt(s, c) == None
  {
  }

  lemma SelectedSkip(client: u32, l: seq<Struct>, ranges: seq<Range>, sc: Scan, out: seq<Struct>)
    requires Chain(client, l) && l != [] && l[0].Skip? && !sc.dropped
    requires Selected(client, l[1..], ranges, sc, out)
    requires Dropped(l, ranges) == Dropped(l[1..], ranges)
    ensures Selected(client, l, ranges, sc, out)
  {
    ChainBounds(client, l, 0);
    hide StructAt, Covers, Dropped, HasUnits;
    forall c: nat
      ensures At(l, c) == At(l[1..], c)
    {
      FirstAndRest(client, l, c);
      SkipHasNothing(l[0], c);
    }
  }

  lemma SelectedStruct(client: u32, l: seq<Struct>, ranges: seq<Range>, sc: Scan, part: seq<Struct>, next: Scan,
                       rest: seq<Struct>)
    requires Chain(client, l) && l != [] && !l[0].Skip? && !sc.dropped
    requires Visited(l[0], ranges, sc, part, next) && Selected(client, l[1..], ranges, next, rest)
    requires Dropped(l, ranges) <==>
               Untouched(l[0], ranges) && (StartsAt(ranges, l[0].End()) || Dropped(l[1..], ranges))
    ensures Selected(client, l, ranges, sc, part + rest)
  {
    ChainBounds(client, l, 0);
    hide StructAt, At, Covers, Dropped, StartsAt;
    var out := part + rest;
    forall c: nat
      ensures Chain(client, out)
      ensures At(out, c) == if !sc.wrote && Dropped(l, ranges) then None else Asked(At(l, c), ranges, c)
    {
      ChainConcat(client, part, rest, c);
      FirstAndRest(client, l, c);
      if part != [] {
        ChainBounds(client, part, c);
      }
    }
    ChainConcat(client, part, rest, 0);
    hide Chain, Untouched;
    assert part == [] ==> out == rest;
    if part != [] {
      var k :| 0 <= k < |part| && !part[k].Skip?;
      assert out[k] == part[k];
    }
  }

  lemma {:induction false} SelectExact(client: u32, l: seq<Struct>, ids: RangeMap, sc: Scan)
    requires Chain(client, l) && Normal(RangesOf(ids, client))
    requires l != [] ==> Passed(RangesOf(ids, client), sc.index, l[0].id.clock) && (sc.wrote ==> sc.next <= l[0].id.clock)
    ensures Selected(client, l, RangesOf(ids, client), sc, SelectShown(client, l, ids, sc))
  {
    var ranges := RangesOf(ids, client);
    if sc.dropped {
      DroppedNothing(client, l, ids, sc);
    } else if l != [] {
      hide Visit, Select, NonSkips, StructAt, Covers, Untouched, StartsAt;
      DroppedStep(l, ranges);
      ChainBounds(client, l, 0);
      if l[0].Skip? {
        ShownSkip(client, l, ids, sc);
        SelectExact(client, l[1..], ids, sc);
        SelectedSkip(client, l, ranges, sc, SelectShown(client, l, ids, sc));
      } else {
        ShownStruct(client, l, ids, sc);
        VisitExact(l[0], ranges, sc);
        var (part, next) := Visit(l[0], ranges, sc);
        SelectExact(client, l[1..], ids, next);
        SelectedStruct(client, l, ranges, sc, part, next, SelectShown(client, l[1..], ids, next));
      }
    }
  }

  // ----- Every code unit told apart -----

  ghost predicate Meeting(s: Struct, r: Range) {
    Max(r.clock, s.id.clock) < Min(r.End(), s.End())
  }

  /** A Skip, or what one range asks for of `s`. */
  ghost predicate PartOf(t: Struct, s: Struct, ranges: seq<Range>) {
    t.Skip? || exists j :: 0 <= j < |ranges| && Meeting(s, ranges[j]) &&
                           t == Piece(s, Max(ranges[j].clock, s.id.clock), Min(ranges[j].End(), s.End()))
  }

  lemma BridgeParts(s: Struct, ranges: seq<Range>, sc: Scan)
    requires s.Valid() && Normal(ranges) && sc.index < |ranges|
    requires ranges[sc.index].clock < s.End() && ranges[sc.index].End() > s.id.clock
    ensures var r := ranges[sc.index];
            var start, end := Max(r.clock, s.id.clock), Min(r.End(), s.End());
            forall t :: t in Bridge(s.id.client, sc, start) + [Piece(s, start, end)] ==> PartOf(t, s, ranges)
  {
    hide Piece;
    assert ranges[sc.index].Valid() && Meeting(s, ranges[sc.index]);
  }

  lemma {:induction false} EmitParts(s: Struct, ranges: seq<Range>, sc: Scan)
    requires s.Valid() && Normal(ranges) && (sc.index < |ranges| ==> ranges[sc.index].End() > s.id.clock)
    ensures forall t :: t in Emit(s, ranges, sc).0 ==> PartOf(t, s, ranges)
    decreases |ranges| - sc.index
  {
    hide Piece, Bridge, PartOf;
    if sc.index < |ranges| && ranges[sc.index].clock < s.End() {
      BridgeParts(s, ranges, sc);
      var r := ranges[sc.index];
      if r.End() <= s.End() {
        assert sc.index + 1 < |ranges| ==> r.End() < ranges[sc.index + 1].clock;
        EmitParts(s, ranges, Scan(sc.index + 1, Min(r.End(), s.End()), true, false));
      }
    }
  }

  lemma VisitParts(s: Struct, ranges: seq<Range>, sc: Scan)
    requires s.Valid() && Normal(ranges)
    ensures forall t :: t in Visit(s, ranges, sc).0 ==> PartOf(t, s, ranges)
  {
    hide Emit, PartOf;
    if !sc.dropped {
      EmitParts(s, ranges, sc.(index := Advance(ranges, sc.index, s.id.clock)));
    }
  }

  lemma {:induction false} SelectParts(client: u32, l: seq<Struct>, ids: RangeMap, at: Option<Place>,
        t: Struct) returns (k: nat)
    requires (forall s :: s in l ==> s.Valid() && s.id.client == client) && Normal(RangesOf(ids, client))
    requires t in Select(l, ids, at)
    ensures k < |l| && PartOf(t, l[k], RangesOf(ids, client))
    decreases |l|
  {
    hide Visit, PartOf, Normal;
    var s := l[0];
    assert s in l;
    var (part, sc) := Visit(s, RangesOf(ids, s.id.client), Enter(s, at));
    if t in part {
      VisitParts(s, RangesOf(ids, client), Enter(s, at));
      k := 0;
    } else {
      var j := SelectParts(client, l[1..], ids, Some(Place(s.id.client, sc)), t);
      k := j + 1;
    }
  }

  lemma PieceExactly(s: Struct, start: nat, end: nat, c: nat)
    requires s.Valid() && s.id.clock <= start <= c < end <= s.End()
    ensures FullStructAt(Piece(s, start, end), c) == CutOff(FullStructAt(s, c), c == start, c == end - 1)
  {
    hide SliceStruct, StructAt, FullStructAt, CutOff;
    SliceBounds(s, start - s.id.clock, s.End() - end);
    SliceKeepsExactly(s, start - s.id.clock, s.End() - end, c);
  }

  /** A unit asked for, short of the half of a pair that is not. */
  ghost function Clipped(u: Option<Unit>, ranges: seq<Range>, c: nat): Option<Unit> {
    if Covers(ranges, c) then CutOff(u, !Covers(ranges, c - 1), !Covers(ranges, c + 1)) else None
  }

  lemma ClippedInside(s: Struct, ranges: seq<Range>, j: nat, c: nat)
    requires s.Valid() && Normal(ranges) && j < |ranges| && s.id.clock <= c < s.End() && ranges[j].Contains(c)
    ensures Clipped(FullStructAt(s, c), ranges, c) ==
            CutOff(FullStructAt(s, c), c == Max(ranges[j].clock, s.id.clock), c == Min(ranges[j].End(), s.End()) - 1)
  {
    hide FullStructAt, CutOff;
    HalvesInside(s, c);
    hide SecondHalf, FirstHalf;
    var r := ranges[j];
    InsideRange(ranges, j);
    if c > r.clock {
      assert r.Contains(c - 1);
    }
    if c + 1 < r.End() {
      assert r.Contains(c + 1);
    }
    OneCut(FullStructAt(s, c), c == Max(r.clock, s.id.clock), c == Min(r.End(), s.End()) - 1,
           !Covers(ranges, c - 1), !Covers(ranges, c + 1));
  }

  lemma PartUnit(t: Struct, s: Struct, ranges: seq<Range>, c: nat)
    requires s.Valid() && Normal(ranges) && PartOf(t, s, ranges) && !t.Skip? && t.id.clock <= c < t.End()
    ensures s.id.clock <= c < s.End() && FullStructAt(t, c) == Clipped(FullStructAt(s, c), ranges, c)
  {
    hide Piece, FullStructAt, CutOff, Clipped;
    var j :| 0 <= j < |ranges| && Meeting(s, ranges[j]) &&
             t == Piece(s, Max(ranges[j].clock, s.id.clock), Min(ranges[j].End(), s.End()));
    var start, end := Max(ranges[j].clock, s.id.clock), Min(ranges[j].End(), s.End());
    PieceUnits(s, start, end);
    PieceExactly(s, start, end, c);
    ClippedInside(s, ranges, j, c);
  }

  // ----- Whole updates -----

  /** What has been written, then the selection from what is still unread. */
  ghost function Selecting(log: seq<Struct>, p: Ahead, ids: RangeMap, at: Option<Place>): Ahead {
    match p
    case Ok((l, rest)) => Ok((log + Select(l, ids, at), rest))
    case Err(e) => Err(e)
  }

  lemma SelectingStep(log: seq<Struct>, s: Struct, p: Ahead, ids: RangeMap, at: Option<Place>)
    ensures var (part, sc) := Visit(s, RangesOf(ids, s.id.client), Enter(s, at));
            Selecting(log, Prepend([s], p), ids, at) == Selecting(log + part, p, ids, Some(Place(s.id.client, sc)))
  {
    hide Visit;
    if p.Ok? {
      var (part, sc) := Visit(s, RangesOf(ids, s.id.client), Enter(s, at));
      assert ([s] + p.value.0)[1..] == p.value.0;
      Assoc(log, part, Select(p.value.0, ids, Some(Place(s.id.client, sc))));
    }
  }

  lemma SelectingClose(log: seq<Struct>, p: Ahead, ids: RangeMap, at: Option<Place>)
    requires p.Ok? && p.value.0 != [] ==> at.None? || at.value.client != p.value.0[0].id.client
    ensures Selecting(log, p, ids, at) == Selecting(log, p, ids, None)
  {
    hide Visit;
  }

  lemma SelectingDone(log: seq<Struct>, rest: bytes, ids: RangeMap)
    ensures Selecting(log, Ok(([], rest)), ids, None) == Ok((log, rest))
  {
    assert log + [] == log;
  }

  lemma SelectingAll(p: Ahead, ids: RangeMap)
    ensures Selecting([], p, ids, None) == if p.Ok? then Ok((Select(p.value.0, ids, None), p.value.1)) else p
  {
    if p.Ok? {
      assert [] + Select(p.value.0, ids, None) == Select(p.value.0, ids, None);
    }
  }

  method SeekRange(ranges: seq<Range>, i: nat, clock: nat) returns (j: nat)
    requires i <= |ranges|
    ensures j == Advance(ranges, i, clock)
  {
    j := i;
    while j < |ranges| && ranges[j].End() <= clock
      invariant j <= |ranges| && Advance(ranges, i, clock) == Advance(ranges, j, clock)
    {
      j := j + 1;
    }
  }

  /** Emitted so far: `done`; from `sc` on the rest is still to be emitted. */
  ghost predicate EmitsRest(s: Struct, ranges: seq<Range>, want: (seq<Struct>, Scan), done: seq<Struct>, sc: Scan) {
    want == (done + Emit(s, ranges, sc).0, Emit(s, ranges, sc).1)
  }

  predicate Meets(s: Struct, ranges: seq<Range>, sc: Scan) {
    sc.index <= |ranges| && !sc.dropped && (sc.index < |ranges| ==> ranges[sc.index].End() > s.id.clock)
  }

  /** One turn of the inner loop. */
  lemma EmitTurn(s: Struct, ranges: seq<Range>, want: (seq<Struct>, Scan), done: seq<Struct>, sc: Scan)
    requires s.Valid() && Normal(ranges) && EmitsRest(s, ranges, want, done, sc) && Meets(s, ranges, sc)
    ensures sc.index == |ranges| ==> want == (done, sc)
    ensures sc.index < |ranges| && ranges[sc.index].clock >= s.End() ==>
              want == (done, sc.(dropped := !sc.wrote && ranges[sc.index].clock == s.End()))
    ensures sc.index < |ranges| && ranges[sc.index].clock < s.End() ==>
              var r := ranges[sc.index];
              var start, end := Max(r.clock, s.id.clock), Min(r.End(), s.End());
              var more := done + (Bridge(s.id.client, sc, start) + [Piece(s, start, end)]);
              var next := Scan(sc.index + 1, end, true, false);
              && s.id.clock <= start < end <= s.End()
              && (if r.End() > s.End() then want == (more, next.(index := sc.index))
                  else EmitsRest(s, ranges, want, more, next) && Meets(s, ranges, next))
  {
    hide Piece, Bridge;
    assert done + [] == done;
    if sc.index < |ranges| {
      var r := ranges[sc.index];
      var start, end := Max(r.clock, s.id.clock), Min(r.End(), s.End());
      assert r.Valid();
      Assoc(done, Bridge(s.id.client, sc, start) + [Piece(s, start, end)],
            Emit(s, ranges, Scan(sc.index + 1, end, true, false)).0);
    }
  }

  /** The segments of one struct, each after the Skip that leads up to it. */
  method IntersectStruct(writer: LazyWriter, s: Struct, ranges: seq<Range>, sc: Scan) returns (out: Scan)
    requires writer.Valid() && Encodable(s) && Normal(ranges) && sc.index <= |ranges| && !sc.dropped
    modifies writer
    ensures writer.Valid()
    ensures var (part, end) := Visit(s, ranges, sc); writer.log == old(writer.log) + part && out == end
  {
    ghost var log, want := writer.log, Visit(s, ranges, sc);
    var first := SeekRange(ranges, sc.index, s.id.clock);
    out := sc.(index := first);
    NothingDone(s, ranges, out);
    ghost var done: seq<Struct> := [];
    assert s.Valid() && log + done == log;
    hide Encodable, Emit, Visit, LazyWriter.Valid, Piece, Normal, EmitsRest;
    while out.index < |ranges|
      invariant Meets(s, ranges, out) && EmitsRest(s, ranges, want, done, out)
      invariant writer.Valid() && writer.log == log + done
      decreases |ranges| - out.index
    {
      EmitTurn(s, ranges, want, done, out);
      var r := ranges[out.index];
      if r.clock >= s.End() {
        out := out.(dropped := !out.wrote && r.clock == s.End());
        return;
      }
      var start, end := Max(r.clock, s.id.clock), Min(r.End(), s.End());
      ghost var part := Bridge(s.id.client, out, start) + [Piece(s, start, end)];
      WriteSegment(writer, s, out, start, end);
      Assoc(log, done, part);
      done := done + part;
      if r.End() > s.End() {
        out := Scan(out.index, end, true, false);
        return;
      }
      out := Scan(out.index + 1, end, true, false);
    }
    EmitTurn(s, ranges, want, done, out);
  }

  lemma NothingDone(s: Struct, ranges: seq<Range>, sc: Scan)
    ensures EmitsRest(s, ranges, Emit(s, ranges, sc), [], sc)
  {
    hide Emit;
    assert [] + Emit(s, ranges, sc).0 == Emit(s, ranges, sc).0;
  }

  method WriteSegment(writer: LazyWriter, s: Struct, sc: Scan, start: nat, end: nat)
    requires writer.Valid() && Encodable(s) && s.id.clock <= start < end <= s.End()
    modifies writer
    ensures writer.Valid()
    ensures writer.log == old(writer.log) + (Bridge(s.id.client, sc, start) + [Piece(s, start, end)])
  {
    hide EncStruct, LazyWriter.Valid, SliceStruct;
    ghost var log := writer.log;
    if sc.wrote && start > sc.next {
      var skip := Skip(ID(s.id.client, sc.next), start - sc.next);
      SkipEncodable(skip);
      var bridged := writer.Write(skip, 0, 0);
      assert bridged.Ok?;
    } else {
      assert log + [] == log;
    }
    Assoc(log, Bridge(s.id.client, sc, start), [Piece(s, start, end)]);
    SliceEncodable(s, start - s.id.clock, s.End() - end);
    var written := writer.Write(s, start - s.id.clock, s.End() - end);
    assert written.Ok?;
  }

  lemma SkipEncodable(s: Struct)
    requires s.Skip? && s.Valid()
    ensures Encodable(s) && Writable(s) && SliceStruct(s, 0, 0) == Ok(s)
  {
  }

  lemma {:induction false} WrittenNotDropped(s: Struct, ranges: seq<Range>, sc: Scan)
    requires !sc.dropped
    ensures var (part, out) := Emit(s, ranges, sc);
            (sc.wrote ==> !out.dropped) && (part != [] ==> !out.dropped) && out.index <= Max(sc.index, |ranges|)
    decreases |ranges| - sc.index
  {
    hide Piece, Bridge;
    if sc.index < |ranges| {
      var r := ranges[sc.index];
      if r.clock < s.End() && r.End() <= s.End() {
        WrittenNotDropped(s, ranges, Scan(sc.index + 1, Min(r.End(), s.End()), true, false));
      }
    }
  }

  /** Once a client is dropped, its struct at hand may be passed like the rest. */
  lemma DroppedStays(log: seq<Struct>, s: Struct, p: Ahead, ids: RangeMap, sc: Scan)
    requires !sc.dropped
    ensures var (part, out) := Visit(s, RangesOf(ids, s.id.client), sc);
            out.dropped ==>
              part == [] &&
              Selecting(log, Prepend([s], p), ids, Some(Place(s.id.client, sc))) ==
              Selecting(log, Prepend([s], p), ids, Some(Place(s.id.client, out)))
  {
    var ranges := RangesOf(ids, s.id.client);
    WrittenNotDropped(s, ranges, sc.(index := Advance(ranges, sc.index, s.id.clock)));
    SelectingStep(log, s, p, ids, Some(Place(s.id.client, sc)));
    var out := Visit(s, ranges, sc).1;
    if out.dropped {
      assert Visit(s, ranges, out) == ([], out);
      SelectingStep(log, s, p, ids, Some(Place(s.id.client, out)));
    }
  }

  lemma SelectingOpen(log: seq<Struct>, s: Struct, p: Ahead, ids: RangeMap)
    ensures Selecting(log, Prepend([s], p), ids, None) ==
            Selecting(log, Prepend([s], p), ids, Some(Place(s.id.client, Scan(0, s.id.clock, false, false))))
  {
    hide Visit;
  }

  /** skipCurrentClient: everything left of a dropped client. */
  method SkipClient(reader: LazyReader, client: u32, ids: RangeMap, sc: Scan, ghost want: Ahead, ghost log: seq<Struct>)
    returns (r: Result<()>)
    requires reader.Valid() && sc.dropped && reader.current.Some? && reader.current.value.id.client == client
    requires want == Selecting(log, reader.Unread(), ids, Some(Place(client, sc)))
    modifies reader
    ensures match r
            case Err(e) => want == Err(e)
            case Ok(_) => reader.Valid() && want == Selecting(log, reader.Unread(), ids, None)
    ensures unchanged(reader`deleteSetConsumed)
    ensures r.Ok? ==> reader.Progress(old(reader.remainingClients), old(reader.remainingStructs))
  {
    hide Encodable, LazyReader.Behind, Select, Emit;
    while reader.current.Some? && reader.current.value.id.client == client
      invariant reader.Valid() && want == Selecting(log, reader.Unread(), ids, Some(Place(client, sc)))
      invariant unchanged(reader`deleteSetConsumed)
      invariant reader.Progress(old(reader.remainingClients), old(reader.remainingStructs)) ||
                (reader.current == old(reader.current) && reader.remainingClients == old(reader.remainingClients) &&
                 reader.remainingStructs == old(reader.remainingStructs))
      decreases reader.remainingClients, reader.remainingStructs, reader.current.Some?
    {
      var current := reader.current.value;
      var next := reader.Next();
      if next.Err? {
        return Err(next.error);
      }
      SelectingStep(log, current, reader.Unread(), ids, Some(Place(client, sc)));
      assert log + [] == log;
    }
    SelectingClose(log, reader.Unread(), ids, Some(Place(client, sc)));
    r := Ok(());
  }

  /** All structs shown of one client. */
  method IntersectClient(reader: LazyReader, writer: LazyWriter, ids: RangeMap, ghost want: Ahead)
    returns (r: Result<()>)
    requires reader.Valid() && writer.Valid() && NormalMap(ids) && reader.current.Some?
    requires want == Selecting(writer.log, reader.Unread(), ids, None)
    modifies reader, writer
    ensures match r
            case Err(e) => want == Err(e)
            case Ok(_) => reader.Valid() && writer.Valid() && want == Selecting(writer.log, reader.Unread(), ids, None)
    ensures unchanged(reader`deleteSetConsumed)
    ensures r.Ok? ==> reader.Progress(old(reader.remainingClients), old(reader.remainingStructs))
  {
    hide Encodable, LazyReader.Behind, LazyWriter.Valid, Select, Visit, NormalMap, Normal;
    var client := reader.current.value.id.client;
    var ranges := RangesOf(ids, client);
    RangesNormal(ids, client);
    var sc := Scan(0, reader.current.value.id.clock, false, false);
    SelectingOpen(writer.log, reader.current.value, reader.Behind(), ids);
    while reader.current.Some? && reader.current.value.id.client == client
      invariant reader.Valid() && writer.Valid() && !sc.dropped && sc.index <= |ranges|
      invariant want == Selecting(writer.log, reader.Unread(), ids, Some(Place(client, sc)))
      invariant unchanged(reader`deleteSetConsumed)
      invariant reader.Progress(old(reader.remainingClients), old(reader.remainingStructs)) ||
                (reader.current == old(reader.current) && reader.remainingClients == old(reader.remainingClients) &&
                 reader.remainingStructs == old(reader.remainingStructs))
      decreases reader.remainingClients, reader.remainingStructs, reader.current.Some?
    {
      var current := reader.current.value;
      ghost var log, before := writer.log, sc;
      VisitIndex(current, ranges, sc);
      DroppedStays(log, current, reader.Behind(), ids, before);
      sc := IntersectStruct(writer, current, ranges, sc);
      if sc.dropped {
        assert log + [] == log;
        r := SkipClient(reader, client, ids, sc, want, log);
        return;
      }
      var next := reader.Next();
      if next.Err? {
        return Err(next.error);
      }
      SelectingStep(log, current, reader.Unread(), ids, Some(Place(client, before)));
    }
    SelectingClose(writer.log, reader.Unread(), ids, Some(Place(client, sc)));
    r := Ok(());
  }

  lemma RangesNormal(ids: RangeMap, client: u32)
    requires NormalMap(ids)
    ensures Normal(RangesOf(ids, client))
  {
  }

  lemma VisitIndex(s: Struct, ranges: seq<Range>, sc: Scan)
    requires !sc.dropped && sc.index <= |ranges|
    ensures Visit(s, ranges, sc).1.index <= |ranges|
  {
    WrittenNotDropped(s, ranges, sc.(index := Advance(ranges, sc.index, s.id.clock)));
  }

  /** The bytes of an intersection. */
  ghost function IntersectBytes(update: bytes, ids: ContentIds): Result<bytes> {
    var u :- Decode(update);
    Ok(EncFragments(Select(NonSkips(u.structs), ids.inserts, None)) +
       EncDeletes(Common(u.deletes, ids.deletes), Absolute))
  }

  /** IntersectUpdateWithContentIDsV1Context without the context. */
  method IntersectUpdate(update: bytes, ids: ContentIds) returns (r: Result<bytes>)
    requires NormalIds(ids)
    requires Decode(update).Ok? ==> NormalMap(Decode(update).value.deletes)
    ensures r == IntersectBytes(update, ids)
  {
    DecodeInParts(update);
    hide AllStructs, Decode, LazyReader.Behind, LazyWriter.Valid, Encodable, DeletesAtEnd, Select, EncFragments,
         NormalMap, NonSkips, Common;
    var start := Open(update, true);
    if start.Err? {
      return Err(start.error);
    }
    var reader := start.value;
    var writer := new LazyWriter();
    ghost var all := Shown(AllStructs(update), true);
    ghost var want := Selecting([], all, ids.inserts, None);
    SelectingAll(all, ids.inserts);
    while reader.current.Some?
      invariant fresh(reader) && reader.Valid() && !reader.deleteSetConsumed
      invariant fresh(writer) && writer.Valid()
      invariant want == Selecting(writer.log, reader.Unread(), ids.inserts, None)
      decreases reader.remainingClients, reader.remainingStructs, reader.current.Some?
    {
      var next := IntersectClient(reader, writer, ids.inserts, want);
      if next.Err? {
        return Err(next.error);
      }
    }
    SelectingDone(writer.log, reader.rest, ids.inserts);
    var ds := reader.ReadDeleteSet();
    if ds.Err? {
      return Err(ds.error);
    }
    var deletes := IntersectSets(ds.value.value, ids.deletes);
    var body := writer.Finish();
    var out := AppendDeletes(body, deletes, Absolute);
    r := Ok(out);
  }

  // ----- What an intersection holds -----

  /** The selection as an operation on lists. */
  function KeepWith(ids: RangeMap): ListFunction {
    (client, l) => Select(NonSkips(l), ids, None)
  }

  lemma SelectFromStart(client: u32, l: seq<Struct>, ids: RangeMap)
    requires forall s :: s in l ==> s.id.client == client
    ensures l != [] ==> Select(l, ids, None) == Select(l, ids,
          Some(Place(client, Scan(0, l[0].id.clock, false, false))))
  {
    hide Visit;
    assert l != [] ==> l[0] in l;
  }

  lemma {:induction false} NonSkipsMembers(l: seq<Struct>)
    ensures forall s :: s in NonSkips(l) <==> s in l && !s.Skip?
  {
    if l != [] {
      NonSkipsMembers(l[1..]);
    }
  }

  lemma {:induction false} NonSkipsConcat(a: seq<Struct>, b: seq<Struct>)
    ensures NonSkips(a + b) == NonSkips(a) + NonSkips(b)
  {
    if a == [] {
      assert a + b == b;
    } else {
      NonSkipsConcat(a[1..], b);
      assert (a + b)[1..] == a[1..] + b;
      Assoc(if a[0].Skip? then [] else [a[0]], NonSkips(a[1..]), NonSkips(b));
    }
  }

  /** One client: a list of that client which holds the units asked for, or
      nothing at all when the boundary rule drops it. */
  lemma KeepExact(client: u32, l: seq<Struct>, ids: RangeMap)
    requires Chain(client, l) && NormalMap(ids)
    ensures var out := KeepWith(ids)(client, l);
            && Chain(client, out) && (out != [] ==> HasUnits(out))
            && forall c: nat :: At(out, c) ==
                 if Dropped(l, RangesOf(ids, client)) then None else Asked(At(l, c), RangesOf(ids, client), c)
  {
    RangesNormal(ids, client);
    ChainAscending(client, l);
    NonSkipsMembers(l);
    var shown := NonSkips(l);
    var sc := Scan(0, if shown != [] then shown[0].id.clock else 0, false, false);
    SelectFromStart(client, shown, ids);
    SelectExact(client, l, ids, sc);
  }

  /** The same down to the code unit: a pair of which only one half is asked for
      leaves U+FFFD. */
  lemma KeepExactly(client: u32, l: seq<Struct>, ids: RangeMap, c: nat)
    requires Chain(client, l) && NormalMap(ids)
    ensures FullAt(KeepWith(ids)(client, l), c) ==
            if Dropped(l, RangesOf(ids, client)) then None else Clipped(FullAt(l, c), RangesOf(ids, client), c)
  {
    KeepExact(client, l, ids);
    RangesNormal(ids, client);
    var ranges, out := RangesOf(ids, client), KeepWith(ids)(client, l);
    assert At(out, c) == if Dropped(l, ranges) then None else Asked(At(l, c), ranges, c);
    hide KeepWith, Dropped, Covers, FullStructAt, StructAt, Normal, NormalMap, CutOff;
    if FullAt(out, c).Some? {
      var i := FullCovers(client, out, c);
      var k := KeptFrom(client, l, ids, out[i]);
      ChainSuffix(client, l, k);
      hide PartOf, Clipped;
      PartUnit(out[i], l[k], ranges, c);
      FullCovered(client, l, k, c);
    } else {
      CutNone(!Covers(ranges, c - 1), !Covers(ranges, c + 1));
    }
  }

  lemma KeptFrom(client: u32, l: seq<Struct>, ids: RangeMap, t: Struct) returns (k: nat)
    requires Chain(client, l) && Normal(RangesOf(ids, client)) && t in KeepWith(ids)(client, l)
    ensures k < |l| && PartOf(t, l[k], RangesOf(ids, client))
  {
    hide Select, PartOf, Normal;
    NonSkipsMembers(l);
    AllOwn(client, l);
    var j := SelectParts(client, NonSkips(l), ids, None, t);
    assert NonSkips(l)[j] in NonSkips(l) && NonSkips(l)[j] in l;
    k :| 0 <= k < |l| && l[k] == NonSkips(l)[j];
  }

  lemma AllOwn(client: u32, l: seq<Struct>)
    requires Chain(client, l)
    ensures forall s :: s in l ==> s.Valid() && s.id.client == client
  {
    forall s | s in l
      ensures s.Valid() && s.id.client == client
    {
      var i :| 0 <= i < |l| && l[i] == s;
      ChainSuffix(client, l, i);
    }
  }

  const TWO_STRUCTS: seq<Struct> := [GC(ID(1, 0), 2), GC(ID(1, 2), 2)]
  const SECOND_ONLY: RangeMap := map[1 := [Range(2, 1)]]

  lemma BoundaryMet()
    ensures Chain(1, TWO_STRUCTS) && FullAt(TWO_STRUCTS, 2) == Some(Collected)
    ensures NormalMap(SECOND_ONLY) && Member(SECOND_ONLY, 1, 2) && Dropped(TWO_STRUCTS, RangesOf(SECOND_ONLY, 1))
  {
    var l, ranges := TWO_STRUCTS, [Range(2, 1)];
    assert l[1..] == [GC(ID(1, 2), 2)] && l[1..][1..] == [];
    assert Chain(1, l[1..]) && FullAt(l[1..], 2) == Some(Collected);
    assert RangesOf(SECOND_ONLY, 1) == ranges && ranges[0].Contains(2);
    assert StartsAt(ranges, 2) by {
      assert ranges[0].clock == 2;
    }
    assert Untouched(l[0], ranges);
  }

  /** The boundary rule at work: of two structs the second is asked for, from its
      very start, and nothing at all is kept. */
  lemma BoundaryDrops()
    ensures Chain(1, TWO_STRUCTS) && FullAt(TWO_STRUCTS, 2) == Some(Collected) && Member(SECOND_ONLY, 1, 2)
    ensures KeepWith(SECOND_ONLY)(1, TWO_STRUCTS) == []
  {
    BoundaryMet();
    hide KeepWith, Dropped, FullAt, NormalMap, Member;
    KeepExact(1, TWO_STRUCTS, SECOND_ONLY);
    var out := KeepWith(SECOND_ONLY)(1, TWO_STRUCTS);
    if out != [] {
      var i :| 0 <= i < |out| && !out[i].Skip?;
      hide At, Chain;
      NonSkipHasUnit(1, out, i);
      assert false;
    }
  }

  lemma {:induction false} SelectConcat(client: u32, a: seq<Struct>, b: seq<Struct>, ids: RangeMap, at: Option<Place>)
    requires (forall s :: s in a ==> s.id.client == client) && (b != [] ==> b[0].id.client != client)
    requires at.None? || at.value.client == client
    ensures Select(a + b, ids, at) == Select(a, ids, at) + Select(b, ids, None)
    decreases |a|
  {
    hide Visit;
    if a == [] {
      assert a + b == b;
    } else {
      assert (a + b)[1..] == a[1..] + b && a[0] in a;
      var (part, sc) := Visit(a[0], RangesOf(ids, a[0].id.client), Enter(a[0], at));
      var next := Some(Place(a[0].id.client, sc));
      SelectConcat(client, a[1..], b, ids, next);
      Assoc(part, Select(a[1..], ids, next), Select(b, ids, None));
    }
  }

  lemma OtherClients(order: seq<u32>, b: Blocks, k: u32)
    requires (forall c :: c in order ==> c in b) && WellFormedBlocks(b) && Distinct(order) && k !in order
    ensures var shown := NonSkips(Flatten(order, b)); shown != [] ==> shown[0].id.client != k
  {
    FlattenOfClient(order, b, k);
    NonSkipsMembers(Flatten(order, b));
    hide Flatten, NonSkips;
    var shown := NonSkips(Flatten(order, b));
    assert shown != [] ==> shown[0] in shown && shown[0] in Flatten(order, b);
  }

  lemma OwnClient(client: u32, l: seq<Struct>)
    requires Chain(client, l)
    ensures forall s :: s in NonSkips(l) ==> s.id.client == client
  {
    ChainAscending(client, l);
    NonSkipsMembers(l);
  }

  lemma SelectFirst(order: seq<u32>, b: Blocks, ids: RangeMap)
    requires (forall k :: k in order ==> k in b) && WellFormedBlocks(b) && Distinct(order) && order != []
    ensures Select(NonSkips(Flatten(order, b)), ids, None) ==
            Select(NonSkips(b[order[0]]), ids, None) + Select(NonSkips(Flatten(order[1..], b)), ids, None)
  {
    var k, rest := order[0], order[1..];
    assert k in order && WellFormed(k, b[k]);
    OtherClients(rest, b, k);
    OwnClient(k, b[k]);
    NonSkipsConcat(b[k], Flatten(rest, b));
    hide Select, NonSkips, Chain, WellFormedBlocks, Distinct, HasUnits;
    SelectConcat(k, NonSkips(b[k]), NonSkips(Flatten(rest, b)), ids, None);
  }

  lemma {:induction false} SelectFlatten(order: seq<u32>, b: Blocks, ids: RangeMap)
    requires (forall k :: k in order ==> k in b) && WellFormedBlocks(b) && Distinct(order)
    ensures Select(NonSkips(Flatten(order, b)), ids, None) == FlattenMap(order, b, KeepWith(ids))
  {
    if order != [] {
      assert Distinct(order[1..]);
      hide Select, WellFormedBlocks, Distinct;
      SelectFirst(order, b, ids);
      SelectFlatten(order[1..], b, ids);
    } else {
      assert NonSkips(Flatten(order, b)) == [];
    }
  }

  /** An intersection holds, for every client the boundary rule does not drop,
      exactly the units asked for, and nothing of a client it drops. */
  lemma IntersectExact(b: Blocks, ids: RangeMap, id: ID)
    requires WellFormedBlocks(b) && NormalMap(ids)
    ensures FullUnitOf(Mapped(b, KeepWith(ids)), id) ==
            if id.client in b && Dropped(b[id.client], RangesOf(ids, id.client)) then None
            else Clipped(FullUnitOf(b, id), RangesOf(ids, id.client), id.clock)
  {
    hide KeepWith, Dropped, Covers, CutOff, FullAt, Chain;
    NothingThere(id.clock);
    if id.client in b {
      assert WellFormed(id.client, b[id.client]);
      KeepExactly(id.client, b[id.client], ids, id.clock);
    } else {
      CutNone(!Covers(RangesOf(ids, id.client), id.clock - 1), !Covers(RangesOf(ids, id.client), id.clock + 1));
    }
  }

  lemma NothingThere(c: nat)
    ensures FullAt([], c) == None
  {
  }

  lemma PieceWritable(s: Struct, start: nat, end: nat)
    requires Writable(s)
    ensures Writable(Piece(s, start, end))
  {
    hide Writable, SliceStruct;
    if s.id.clock <= start < end <= s.End() {
      SliceWritable(s, start - s.id.clock, s.End() - end);
    }
  }

  lemma BridgeWritable(client: u32, sc: Scan, start: nat)
    ensures forall s :: s in Bridge(client, sc, start) ==> Writable(s)
  {
    forall s | s in Bridge(client, sc, start)
      ensures Writable(s)
    {
      SkipEncodable(s);
    }
  }

  predicate AllWritable(l: seq<Struct>) {
    forall s :: s in l ==> Writable(s)
  }

  lemma JoinWritable(a: seq<Struct>, b: seq<Struct>)
    requires AllWritable(a) && AllWritable(b)
    ensures AllWritable(a + b)
  {
  }

  lemma {:induction false} EmitWritable(s: Struct, ranges: seq<Range>, sc: Scan)
    requires Writable(s)
    ensures AllWritable(Emit(s, ranges, sc).0)
    decreases |ranges| - sc.index
  {
    hide Writable, Piece, Bridge, AllWritable;
    NoneWritable();
    if sc.index < |ranges| {
      var r := ranges[sc.index];
      var start, end := Max(r.clock, s.id.clock), Min(r.End(), s.End());
      PieceWritable(s, start, end);
      BridgeWritable(s.id.client, sc, start);
      OneWritable(Bridge(s.id.client, sc, start), Piece(s, start, end));
      if r.clock < s.End() && r.End() <= s.End() {
        EmitWritable(s, ranges, Scan(sc.index + 1, end, true, false));
        JoinWritable(Bridge(s.id.client, sc, start) + [Piece(s, start, end)],
                     Emit(s, ranges, Scan(sc.index + 1, end, true, false)).0);
      }
    }
  }

  lemma NoneWritable()
    ensures AllWritable([])
  {
  }

  lemma OneWritable(l: seq<Struct>, s: Struct)
    requires (forall x :: x in l ==> Writable(x)) && Writable(s)
    ensures AllWritable(l + [s])
  {
  }

  lemma {:induction false} SelectWritable(l: seq<Struct>, ids: RangeMap, at: Option<Place>)
    requires AllWritable(l)
    ensures AllWritable(Select(l, ids, at))
    decreases |l|
  {
    hide Writable, Emit;
    if l != [] {
      var s := l[0];
      var ranges, sc := RangesOf(ids, s.id.client), Enter(s, at);
      assert Writable(s) && AllWritable(l[1..]);
      EmitWritable(s, ranges, sc.(index := Advance(ranges, sc.index, s.id.clock)));
      var (part, next) := Visit(s, ranges, sc);
      SelectWritable(l[1..], ids, Some(Place(s.id.client, next)));
      JoinWritable(part, Select(l[1..], ids, Some(Place(s.id.client, next))));
    }
  }

  lemma KeepKeepsForm(b: Blocks, ids: RangeMap)
    requires WritableBlocks(b) && NormalMap(ids)
    ensures KeepsForm(b, KeepWith(ids))
  {
    hide At, Chain, Writable, HasUnits, Select, NonSkips, NormalMap;
    forall k | k in b
      ensures var d := KeepWith(ids)(k, b[k]);
              Chain(k, d) && (d != [] ==> HasUnits(d)) && AllWritable(d)
    {
      assert WellFormed(k, b[k]);
      KeepExact(k, b[k], ids);
      NonSkipsMembers(b[k]);
      SelectWritable(NonSkips(b[k]), ids, None);
    }
  }

  lemma CommonSize(left: RangeMap, right: RangeMap)
    ensures |Common(left, right)| <= |left|
  {
    hide Intersect;
    var m := Common(left, right);
    Subset(m.Keys, left.Keys);
    assert |m.Keys| == |m| && |left.Keys| == |left|;
  }

  lemma IntersectInParts(update: bytes, u: Update, ids: ContentIds)
    requires Decode(update) == Ok(u)
    ensures IntersectBytes(update, ids) ==
            Ok(EncFragments(Select(NonSkips(u.structs), ids.inserts, None)) +
               EncDeletes(Common(u.deletes, ids.deletes), Absolute))
  {
    hide EncFragments, EncDeletes, Select, NonSkips, Common;
  }

  /** The bytes of an intersection, read back: per client the list above, and a
      delete set of exactly the clocks deleted and asked for. */
  lemma IntersectReadBack(b: Blocks, deletes: RangeMap, ids: ContentIds)
    requires WireBlocks(b) && NormalMap(deletes) && |deletes| <= MAX_U32 && NormalIds(ids)
    ensures var out := IntersectBytes(EncFragments(Canonical(b)) + EncDeletes(deletes, Absolute), ids);
            out.Ok? &&
            Decode(out.value) == Ok(Update(ReadBack(b, KeepWith(ids.inserts)), Common(deletes, ids.deletes)))
    ensures Group(ReadBack(b, KeepWith(ids.inserts))) == NormBlocks(Mapped(b, KeepWith(ids.inserts)))
    ensures forall id: ID ::
              FullUnitOf(NormBlocks(Mapped(b, KeepWith(ids.inserts))), id) ==
                  FullUnitOf(Mapped(b, KeepWith(ids.inserts)), id)
  {
    assert |b| <= MAX_U32;
    WireIsWritable(b);
    KeepKeepsForm(b, ids.inserts);
    CommonIsIntersection(deletes, ids.deletes);
    CommonSize(deletes, ids.deletes);
    NormalIsWire(deletes);
    NormalIsWire(Common(deletes, ids.deletes));
    hide WireBlocks, WritableBlocks, WellFormedBlocks, WireDeletes, EncFragments, EncDeletes, Decode, KeepWith, Mapped,
         NormBlocks, Flatten, FlattenMap, Distinct, IntersectBytes, Descending, KeepsForm, ReadBack, Group, NormalMap,
         Common, UnitOf, FullUnitOf, Member, NonSkips, Select;
    CanonicalReadBack(b, deletes);
    IntersectInParts(EncFragments(Canonical(b)) + EncDeletes(deletes, Absolute), Update(Canonical(b), deletes), ids);
    SelectFlatten(Desc(b.Keys), b, ids.inserts);
    MappedRoundTrip(b, KeepWith(ids.inserts), Common(deletes, ids.deletes));
  }
}
