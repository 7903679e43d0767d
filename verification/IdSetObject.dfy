/** The mutable id set: a map from client to its normalized ranges. */
module IdSetObject {
  import opened Prelude
  import opened IdSets

  type RangeMap = map<u32, seq<Range>>

  predicate NormalMap(m: RangeMap) {
    forall client :: client in m ==> Normal(m[client]) && m[client] != []
  }

  function RangesOf(m: RangeMap, client: u32): seq<Range> {
    if client in m then m[client] else []
  }

  /** The identifier (client, c) is a member. */
  predicate Member(m: RangeMap, client: u32, c: int) {
    Covers(RangesOf(m, client), c)
  }

  /** Two normalized maps with the same members are the same map. */
  lemma MapUnique(a: RangeMap, b: RangeMap)
    requires NormalMap(a) && NormalMap(b)
    requires forall client: u32, c: int :: Member(a, client, c) <==> Member(b, client, c)
    ensures a == b
  {
    forall client: u32
      ensures RangesOf(a, client) == RangesOf(b, client)
      ensures client in a <==> client in b
    {
      forall c: int
        ensures Covers(RangesOf(a, client), c) <==> Covers(RangesOf(b, client), c)
      {
        assert Member(a, client, c) <==> Member(b, client, c);
      }
      NormalUnique(RangesOf(a, client), RangesOf(b, client));
    }
    assert a.Keys == b.Keys;
    assert forall client :: client in a ==> a[client] == RangesOf(a, client);
  }

  /** No client's union fills the whole 32-bit line. */
  ghost predicate UnionLeavesRoom(a: RangeMap, b: RangeMap) {
    forall client: u32 :: client in a && client in b ==>
      exists c :: 0 <= c < LINE && !Member(a, client, c) && !Member(b, client, c)
  }

  /** The clock is in none of the sets. */
  ghost predicate FreeIn(maps: seq<RangeMap>, client: u32, c: int) {
    0 <= c < LINE && forall i :: 0 <= i < |maps| ==> !Member(maps[i], client, c)
  }

  ghost predicate HasFree(maps: seq<RangeMap>, client: u32) {
    exists c: int :: FreeIn(maps, client, c)
  }

  /** No client's union of all the sets fills the whole 32-bit line. */
  ghost predicate RoomIn(maps: seq<RangeMap>) {
    forall client: u32 :: HasFree(maps, client)
  }

  /** `m` holds what any of the sets holds. */
  ghost predicate HoldsAll(m: RangeMap, maps: seq<RangeMap>) {
    forall k: u32, c: int :: Member(m, k, c) <==> exists i :: 0 <= i < |maps| && Member(maps[i], k, c)
  }

  /** Exactly then a normalized set can hold the union. */
  lemma RoomNeeded(m: RangeMap, maps: seq<RangeMap>)
    requires NormalMap(m) && HoldsAll(m, maps)
    ensures RoomIn(maps)
  {
    forall client: u32
      ensures HasFree(maps, client)
    {
      var c := LineIsNeverFull(RangesOf(m, client));
      hide Covers, Normal;
      assert !Member(m, client, c);
      assert FreeIn(maps, client, c);
    }
  }

  /** Each of the sets can be merged into what was merged before it. */
  lemma RoomForNext(maps: seq<RangeMap>, i: nat, sofar: RangeMap)
    requires RoomIn(maps) && i < |maps| && HoldsAll(sofar, maps[..i])
    ensures UnionLeavesRoom(sofar, maps[i])
  {
    hide Member;
    forall client: u32 | client in sofar && client in maps[i]
      ensures exists c :: 0 <= c < LINE && !Member(sofar, client, c) && !Member(maps[i], client, c)
    {
      assert HasFree(maps, client);
      var c: int :| FreeIn(maps, client, c);
      assert forall j :: 0 <= j < i ==> maps[..i][j] == maps[j];
      assert !Member(sofar, client, c);
    }
  }

  /** Clock 2^32-1 can belong to no struct. */
  predicate NoTop(m: RangeMap) {
    forall client :: client in m ==> !Covers(m[client], MAX_U32)
  }

  /** Clients still to do are as they were; the others hold the union. */
  ghost predicate MergedSoFar(start: RangeMap, added: RangeMap, todo: set<u32>, now: RangeMap) {
    && now.Keys == start.Keys + (added.Keys - todo)
    && (forall k: u32 :: k in todo || k !in added ==> RangesOf(now, k) == RangesOf(start, k))
    && (forall k: u32, c: int :: k !in todo ==>
          (Member(now, k, c) <==> Member(start, k, c) || Member(added, k, c)))
  }

  lemma MergeStart(start: RangeMap, added: RangeMap)
    ensures MergedSoFar(start, added, added.Keys, start)
  {
  }

  lemma MergeStep(start: RangeMap, added: RangeMap, todo: set<u32>, now: RangeMap, client: u32, ranges: seq<Range>)
    requires MergedSoFar(start, added, todo, now) && client in todo && client in added
    requires forall c :: Covers(ranges, c) <==> Member(start, client, c) || Member(added, client, c)
    ensures MergedSoFar(start, added, todo - {client}, now[client := ranges])
  {
    var next := now[client := ranges];
    forall k: u32, c: int | k !in todo - {client}
      ensures Member(next, k, c) <==> Member(start, k, c) || Member(added, k, c)
    {
      if k != client {
        assert RangesOf(next, k) == RangesOf(now, k);
        assert Member(now, k, c) <==> Member(start, k, c) || Member(added, k, c);
      }
    }
  }

  /** `out` holds, for every client that is done, exactly what `want` lists. */
  ghost predicate BuiltSoFar(out: RangeMap, want: RangeMap, todo: set<u32>) {
    && NormalMap(out) && out.Keys !! todo && out.Keys <= want.Keys
    && (forall k: u32 :: k !in todo ==> RangesOf(out, k) == RangesOf(want, k))
  }

  /** One more client: its list is stored unless it is empty. */
  function Put(out: RangeMap, client: u32, ranges: seq<Range>): RangeMap {
    if ranges == [] then out else out[client := ranges]
  }

  lemma BuildStep(out: RangeMap, want: RangeMap, todo: set<u32>, client: u32)
    requires BuiltSoFar(out, want, todo) && client in todo && client in want && Normal(want[client])
    ensures BuiltSoFar(Put(out, client, want[client]), want, todo - {client})
  {
  }

  /** The pointwise intersection and difference, empty lists included. */
  ghost function Both(left: RangeMap, right: RangeMap): RangeMap {
    map k | k in left :: Intersect(left[k], RangesOf(right, k))
  }

  ghost function Without(left: RangeMap, right: RangeMap): RangeMap {
    map k | k in left :: Subtract(left[k], RangesOf(right, k))
  }

  lemma BothIsIntersection(left: RangeMap, right: RangeMap, k: u32, c: int)
    requires NormalMap(left) && NormalMap(right)
    ensures Member(Both(left, right), k, c) <==> Member(left, k, c) && Member(right, k, c)
    ensures k in left ==> Normal(Both(left, right)[k])
  {
    if k in left {
      IntersectIsIntersection(left[k], RangesOf(right, k));
    }
  }

  lemma WithoutIsDifference(left: RangeMap, right: RangeMap, k: u32, c: int)
    requires NormalMap(left) && NormalMap(right)
    ensures Member(Without(left, right), k, c) <==> Member(left, k, c) && !Member(right, k, c)
    ensures k in left ==> Normal(Without(left, right)[k])
  {
    if k in left {
      SubtractIsDifference(left[k], RangesOf(right, k));
    }
  }

  /** The intersection as one normalized map. */
  ghost function Common(left: RangeMap, right: RangeMap): RangeMap {
    map k | k in left && Intersect(left[k], RangesOf(right, k)) != [] :: Intersect(left[k], RangesOf(right, k))
  }

  lemma CommonIsIntersection(left: RangeMap, right: RangeMap)
    requires NormalMap(left) && NormalMap(right)
    ensures NormalMap(Common(left, right))
    ensures forall k: u32, c: int :: Member(Common(left, right), k, c) <==> Member(left, k, c) && Member(right, k, c)
  {
    hide Intersect, Normal, Covers;
    forall k: u32 | k in left
      ensures Normal(Intersect(left[k], RangesOf(right, k)))
    {
      BothIsIntersection(left, right, k, 0);
    }
    forall k: u32, c: int
      ensures Member(Common(left, right), k, c) <==> Member(left, k, c) && Member(right, k, c)
    {
      BothIsIntersection(left, right, k, c);
      assert RangesOf(Common(left, right), k) == RangesOf(Both(left, right), k);
    }
  }

  // ----- Slicing a stretch of clocks -----

  datatype Segment = Segment(clock: u32, len: u32, present: bool) {
    predicate Contains(c: int) {
      clock <= c < clock + len
    }
  }

  /** Appends the stretch [from, to) unless it is empty. */
  function Push(segments: seq<Segment>, from: u32, to: u32, present: bool): seq<Segment> {
    if from < to then segments + [Segment(from, to - from, present)] else segments
  }

  /** The segments follow each other from one end to the other, present and
      absent in turn, and each says of all its clocks whether they are covered. */
  ghost predicate Splits(segments: seq<Segment>, rs: seq<Range>, from: nat, to: nat) {
    && (if segments == [] then from == to
        else segments[0].clock == from && segments[|segments| - 1].clock + segments[|segments| - 1].len == to)
    && (forall i :: 0 <= i < |segments| ==> segments[i].len > 0)
    && (forall i :: 0 <= i < |segments| - 1 ==> segments[i].clock + segments[i].len == segments[i + 1].clock)
    && (forall i :: 0 <= i < |segments| - 1 ==> segments[i].present != segments[i + 1].present)
    && (forall i, c :: 0 <= i < |segments| && segments[i].Contains(c) ==> (segments[i].present <==> Covers(rs, c)))
  }

  /** A range up to the very last clock starts before `end`. */
  predicate ReachesTop(rs: seq<Range>, end: nat) {
    rs != [] && rs[|rs| - 1].End() == LINE && rs[|rs| - 1].clock < end
  }

  /** The last segment calls a covered clock absent. */
  ghost predicate CallsAbsent(segments: seq<Segment>, rs: seq<Range>) {
    segments != [] && !segments[|segments| - 1].present &&
    exists c: int :: segments[|segments| - 1].Contains(c) && Covers(rs, c)
  }

  lemma SplitsAppend(segments: seq<Segment>, rs: seq<Range>, from: nat, to: nat, next: Segment)
    requires Splits(segments, rs, from, to) && next.clock == to && next.len > 0
    requires segments == [] || segments[|segments| - 1].present != next.present
    requires forall c :: next.Contains(c) ==> (next.present <==> Covers(rs, c))
    ensures Splits(segments + [next], rs, from, to + next.len)
  {
    hide Covers;
  }

  /** Clocks between ranges are not covered. */
  lemma BetweenRanges(rs: seq<Range>, i: nat, low: nat, high: nat)
    requires Normal(rs) && i <= |rs|
    requires forall j :: 0 <= j < i ==> rs[j].End() <= low
    requires i < |rs| ==> high <= rs[i].clock
    ensures forall c :: low <= c < high ==> !Covers(rs, c)
  {
  }

  /** What is absent up to a range, then what is present of it. */
  lemma StretchSplits(segments: seq<Segment>, rs: seq<Range>, i: nat, from: nat, cursor: u32, start: u32, to: u32)
    requires Normal(rs) && i < |rs| && Splits(segments, rs, from, cursor)
    requires segments != [] ==> segments[|segments| - 1].present && rs[i].clock > cursor
    requires forall j :: 0 <= j < i ==> rs[j].End() <= cursor
    requires start == Max(rs[i].clock, cursor) && start < to <= rs[i].End()
    ensures var gap := if cursor < start then segments + [Segment(cursor, start - cursor, false)] else segments;
            Splits(gap + [Segment(start, to - start, true)], rs, from, to)
  {
    hide Covers, Splits;
    WithinRange(rs, i);
    if cursor < start {
      BetweenRanges(rs, i, cursor, start);
      SplitsAppend(segments, rs, from, cursor, Segment(cursor, start - cursor, false));
      SplitsAppend(segments + [Segment(cursor, start - cursor, false)], rs, from, start,
          Segment(start, to - start, true));
    } else {
      SplitsAppend(segments, rs, from, cursor, Segment(start, to - start, true));
    }
  }

  /** The loop of Slice has dealt with the first i ranges up to `cursor`. */
  ghost predicate Sliced(segments: seq<Segment>, rs: seq<Range>, i: nat, from: u32, cursor: u32, end: nat) {
    && i <= |rs| && from <= cursor <= end <= LINE && 0 < end - from <= MAX_U32 && Normal(rs)
    && Splits(segments, rs, from, cursor)
    && (if segments == [] then cursor == from else segments[|segments| - 1].present)
    && (segments != [] && i < |rs| ==> rs[i].clock > cursor)
    && (forall j :: 0 <= j < i ==> rs[j].End() < LINE && (cursor < end ==> rs[j].End() <= cursor))
  }

  lemma SlicedStart(rs: seq<Range>, from: u32, end: nat)
    requires Normal(rs) && from < end <= LINE && end - from <= MAX_U32
    ensures Sliced([], rs, 0, from, from, end)
  {
  }

  lemma SlicedPast(segments: seq<Segment>, rs: seq<Range>, i: nat, from: u32, cursor: u32, end: nat)
    requires Sliced(segments, rs, i, from, cursor, end) && i < |rs| && rs[i].End() <= cursor
    ensures Sliced(segments, rs, i + 1, from, cursor, end)
  {
    hide Splits;
  }

  /** A range in reach: its stretch is added, unless it ends with the line. */
  lemma SlicedStretch(segments: seq<Segment>, rs: seq<Range>, i: nat, from: u32, cursor: u32, end: nat)
    requires Sliced(segments, rs, i, from, cursor, end) && i < |rs| && rs[i].End() > cursor && rs[i].clock < end
    ensures var start, to := Max(rs[i].clock, cursor), Min(rs[i].End(), end);
      && start < to && rs[i].End() <= LINE
      && (rs[i].End() == LINE ==> i == |rs| - 1)
      && (rs[i].End() < LINE ==>
            Sliced(Push(Push(segments, cursor, start, false), start, to, true), rs, i + 1, from, to, end))
  {
    hide Covers, Splits;
    var start, to := Max(rs[i].clock, cursor), Min(rs[i].End(), end);
    assert i + 1 < |rs| ==> rs[i].End() < rs[i + 1].clock;
    if rs[i].End() < LINE {
      StretchSplits(segments, rs, i, from, cursor, start, to);
    }
  }

  lemma SlicedEnds(segments: seq<Segment>, rs: seq<Range>, i: nat, from: u32, cursor: u32, end: nat)
    requires Sliced(segments, rs, i, from, cursor, end) && (i < |rs| ==> rs[i].clock >= end)
    ensures !ReachesTop(rs, end) && AsU32(AsU32(end) - cursor) == end - cursor
    ensures if cursor < end then Splits(segments + [Segment(cursor, end - cursor, false)], rs, from, end)
            else Splits(segments, rs, from, end)
  {
    hide Covers, Splits;
    if cursor < end {
      BetweenRanges(rs, i, cursor, end);
      SplitsAppend(segments, rs, from, cursor, Segment(cursor, end - cursor, false));
    }
  }

  /** A covered clock that the last segment calls absent. */
  lemma TopIsLost(segments: seq<Segment>, rs: seq<Range>, i: nat, from: u32, end: nat, cursor: u32)
    requires i == |rs| - 1 && rs[i].Valid() && rs[i].End() == LINE && cursor < end && rs[i].clock < end <= LINE
    requires segments != [] && from <= cursor && 0 < end - from <= MAX_U32
    requires segments[|segments| - 1] == Segment(cursor, AsU32(AsU32(end) - cursor), false)
    ensures ReachesTop(rs, end) && !Splits(segments, rs, from, end) && CallsAbsent(segments, rs)
  {
    var c := Max(rs[i].clock, cursor);
    WithinRange(rs, i);
    assert rs[i].Contains(c) && Covers(rs, c);
    assert segments[|segments| - 1].Contains(c);
  }

  lemma WithinRange(rs: seq<Range>, i: nat)
    requires i < |rs|
    ensures forall c :: rs[i].Contains(c) ==> Covers(rs, c)
  {
  }

  /** The loop of Slice over the ranges of one client. */
  method SliceRanges(ranges: seq<Range>, clock: u32, end: nat) returns (segments: seq<Segment>)
    requires Normal(ranges) && clock < end <= LINE && end - clock <= MAX_U32
    ensures Splits(segments, ranges, clock, end) <==> !ReachesTop(ranges, end)
    ensures ReachesTop(ranges, end) ==> CallsAbsent(segments, ranges)
  {
    hide CallsAbsent, Splits, Sliced, ReachesTop, AsU32, Normal, Covers, Push;
    segments := [];
    SlicedStart(ranges, clock, end);
    var cursor: u32 := clock;
    var i := 0;
    while i < |ranges|
      invariant 0 <= i <= |ranges| && clock <= cursor <= end && Sliced(segments, ranges, i, clock, cursor, end)
    {
      var current := ranges[i];
      if current.End() <= cursor {
        SlicedPast(segments, ranges, i, clock, cursor, end);
        i := i + 1;
        continue;
      }
      if current.clock >= end {
        break;
      }
      var start: u32 := if current.clock < cursor then cursor else current.clock;
      var currentEnd: u32 := AsU32(current.End());
      if currentEnd > end {
        currentEnd := AsU32(end);
      }
      SlicedStretch(segments, ranges, i, clock, cursor, end);
      segments := Push(segments, cursor, start, false);
      if current.End() == LINE {
        // The last range: its end wraps to 0, and what follows is called absent.
        segments := segments + [Segment(cursor, AsU32(AsU32(end) - cursor), false)];
        TopIsLost(segments, ranges, i, clock, end, cursor);
        return;
      }
      segments := Push(segments, start, currentEnd, true);
      cursor := currentEnd;
      i := i + 1;
    }
    SlicedEnds(segments, ranges, i, clock, cursor, end);
    if cursor < end {
      segments := segments + [Segment(cursor, AsU32(AsU32(end) - cursor), false)];
    }
  }

  class IdSet {
    var clients: RangeMap

    constructor ()
      ensures clients == map[]
    {
      clients := map[];
    }

    constructor Of(m: RangeMap)
      ensures clients == m
    {
      clients := m;
    }

    /** Adds [clock, clock+len): at the end or into the last range when it can,
        by a full pass otherwise. */
    method Add(client: u32, clock: u32, len: u32) returns (r: Result<()>)
      requires NormalMap(clients)
      modifies this
      ensures NewRange(clock, len).Err? ==> r == Err(NewRange(clock, len).error) && clients == old(clients)
      ensures NewRange(clock, len).Ok? ==>
                && r == Ok(())
                && clients == old(clients)[client := Insert(RangesOf(old(clients), client), Range(clock, len))]
      ensures NewRange(clock, len).Ok? && LeavesRoom(RangesOf(old(clients), client), Range(clock, len)) ==>
                && NormalMap(clients)
                && forall k: u32, c: int :: Member(clients, k, c) <==>
                     Member(old(clients), k, c) || (k == client && clock <= c < clock + len)
    {
      var checked := NewRange(clock, len);
      if checked.Err? {
        return Err(checked.error);
      }
      var next := checked.value;
      var ranges := RangesOf(clients, client);
      ghost var before := clients;
      if LeavesRoom(ranges, next) {
        InsertIsUnion(ranges, next);
      }
      var updated := InsertInto(ranges, next);
      clients := clients[client := updated];
      assert forall k: u32 :: k != client ==> RangesOf(clients, k) == RangesOf(before, k);
      assert updated != [] by { InsertNonEmpty(ranges, next); }
      r := Ok(());
    }

    /** Takes in every range of `other`, clients in no particular order. */
    method Merge(other: IdSet)
      requires NormalMap(clients) && NormalMap(other.clients) && other != this
      requires UnionLeavesRoom(clients, other.clients)
      modifies this
      ensures NormalMap(clients) && MergedSoFar(old(clients), other.clients, {}, clients)
    {
      hide Covers, Normal;
      var added := other.clients;
      var todo := added.Keys;
      ghost var start := clients;
      MergeStart(start, added);
      while todo != {}
        invariant todo <= added.Keys && NormalMap(clients)
        invariant MergedSoFar(start, added, todo, clients)
        decreases todo
      {
        var client :| client in todo;
        var merged := MergeClient(clients, added, client, start);
        MergeStep(start, added, todo, clients, client, merged);
        clients := clients[client := merged];
        todo := todo - {client};
      }
    }

    /** Binary search over the ranges of one client. */
    method Has(client: u32, clock: u32) returns (found: bool)
      requires NormalMap(clients)
      ensures found <==> Member(clients, client, clock)
    {
      var ranges := RangesOf(clients, client);
      var left, right := 0, |ranges| - 1;
      while left <= right
        invariant 0 <= left <= |ranges| && -1 <= right < |ranges|
        invariant forall i :: 0 <= i < |ranges| && ranges[i].Contains(clock) ==> left <= i <= right
        decreases right - left
      {
        var mid := (left + right) / 2;
        if ranges[mid].Contains(clock) {
          return true;
        }
        if clock < ranges[mid].clock {
          right := mid - 1;
        } else {
          left := mid + 1;
        }
      }
      found := false;
    }

    /** Splits [clock, clock+length) into present and absent stretches. */
    method Slice(client: u32, clock: u32, length: u32) returns (segments: seq<Segment>)
      requires NormalMap(clients)
      ensures length == 0 ==> segments == []
      ensures length > 0 && clock + length > LINE ==> segments == [Segment(clock, length, false)]
      ensures length > 0 && clock + length <= LINE ==>
                (Splits(segments, RangesOf(clients, client), clock, clock + length) <==>
                 !ReachesTop(RangesOf(clients, client), clock + length))
      ensures length > 0 && clock + length <= LINE && ReachesTop(RangesOf(clients, client), clock + length) ==>
                CallsAbsent(segments, RangesOf(clients, client))
    {
      if length == 0 {
        return [];
      }
      if clock + length > LINE {
        return [Segment(clock, length, false)];
      }
      segments := SliceRanges(RangesOf(clients, client), clock, clock + length);
    }

    /** Removes every clock of `other`. */
    method Subtract(other: IdSet)
      requires NormalMap(clients) && NormalMap(other.clients)
      modifies this
      ensures NormalMap(clients)
      ensures forall k: u32, c: int :: Member(clients, k, c) <==>
                Member(old(clients), k, c) && !Member(old(other.clients), k, c)
    {
      var from, remove := clients, other.clients;
      ghost var want := Without(from, remove);
      var next: RangeMap := map[];
      var todo := from.Keys;
      while todo != {}
        invariant todo <= from.Keys && BuiltSoFar(next, want, todo)
        decreases todo
      {
        var client :| client in todo;
        WithoutIsDifference(from, remove, client, 0);
        var diff := SubtractRanges(from[client], RangesOf(remove, client));
        diff := Rebuild(diff);
        BuildStep(next, want, todo, client);
        next := Put(next, client, diff);
        todo := todo - {client};
      }
      forall k: u32, c: int
        ensures Member(next, k, c) <==> Member(from, k, c) && !Member(remove, k, c)
      {
        WithoutIsDifference(from, remove, k, c);
      }
      clients := next;
    }
  }

  lemma InsertNonEmpty(rs: seq<Range>, next: Range)
    ensures Insert(rs, next) != []
    decreases |rs|
  {
  }

  /** One client of a merge: a copy when it is new, range by range otherwise. */
  method MergeClient(now: RangeMap, added: RangeMap, client: u32, ghost start: RangeMap) returns (out: seq<Range>)
    requires NormalMap(now) && NormalMap(added) && client in added
    requires RangesOf(now, client) == RangesOf(start, client)
    requires UnionLeavesRoom(start, added)
    ensures Normal(out) && out != []
    ensures forall c :: Covers(out, c) <==> Member(start, client, c) || Member(added, client, c)
  {
    if client !in now {
      return added[client];
    }
    assert client in start;
    assert exists c :: 0 <= c < LINE && !Member(start, client, c) && !Member(added, client, c);
    out := InsertAll(now[client], added[client]);
  }

  /** The fast paths of Add, then its general pass. */
  method InsertInto(ranges: seq<Range>, added: Range) returns (out: seq<Range>)
    requires Normal(ranges) && added.Valid()
    ensures out == Insert(ranges, added)
  {
    if ranges == [] {
      return [added];
    }
    var last := ranges[|ranges| - 1];
    if added.clock >= last.clock {
      if last.End() < added.clock {
        InsertAtEnd(ranges, added);
        return ranges + [added];
      }
      InsertIntoLast(ranges, added);
      return ranges[..|ranges| - 1] + [MergeRanges(last, added)];
    }
    out := InsertPass(ranges, added);
  }

  /** What the pass still has to produce from index i on. */
  ghost function Pending(ranges: seq<Range>, i: nat, next: Range, inserted: bool): seq<Range>
    requires i <= |ranges|
    decreases |ranges| - i
  {
    if i == |ranges| then (if inserted then [] else [next])
    else if ranges[i].End() < next.clock then [ranges[i]] + Pending(ranges, i + 1, next, inserted)
    else if next.End() < ranges[i].clock then
      (if inserted then [] else [next]) + [ranges[i]] + Pending(ranges, i + 1, next, true)
    else Pending(ranges, i + 1, MergeRanges(next, ranges[i]), inserted)
  }

  lemma {:induction false} PendingDone(ranges: seq<Range>, i: nat, next: Range)
    requires Normal(ranges) && i <= |ranges|
    requires i < |ranges| ==> next.clock <= ranges[i].End() && next.End() < ranges[i].clock
    ensures Pending(ranges, i, next, true) == ranges[i..]
    decreases |ranges| - i
  {
    if i < |ranges| {
      PendingDone(ranges, i + 1, next);
    }
  }

  lemma {:induction false} PendingInsert(ranges: seq<Range>, i: nat, next: Range)
    requires Normal(ranges) && i <= |ranges| && next.clock <= next.End()
    ensures Pending(ranges, i, next, false) == Insert(ranges[i..], next)
    decreases |ranges| - i
  {
    if i < |ranges| {
      assert ranges[i..] == [ranges[i]] + ranges[i + 1..];
      if ranges[i].End() < next.clock {
        PendingInsert(ranges, i + 1, next);
      } else if next.End() < ranges[i].clock {
        PendingDone(ranges, i + 1, next);
      } else {
        PendingInsert(ranges, i + 1, MergeRanges(next, ranges[i]));
      }
    }
  }

  method InsertPass(ranges: seq<Range>, added: Range) returns (out: seq<Range>)
    requires Normal(ranges)
    ensures out == Insert(ranges, added)
  {
    PendingInsert(ranges, 0, added);
    hide Normal, Insert, MergeRanges;
    assert ranges[0..] == ranges;
    ghost var want := Insert(ranges, added);
    var next := added;
    var inserted := false;
    out := [];
    for i := 0 to |ranges|
      invariant want == out + Pending(ranges, i, next, inserted)
    {
      var current := ranges[i];
      var piece, absorbed := [current], next;
      if current.End() >= next.clock {
        if next.End() < current.clock {
          piece := (if inserted then [] else [next]) + [current];
          inserted := true;
        } else {
          piece, absorbed := [], MergeRanges(next, current);
        }
      }
      Assoc(out, piece, Pending(ranges, i + 1, absorbed, inserted));
      out := out + piece;
      next := absorbed;
    }
    if !inserted {
      out := out + [next];
    }
  }

  method InsertAll(ranges: seq<Range>, more: seq<Range>) returns (out: seq<Range>)
    requires Normal(ranges) && Normal(more) && ranges != []
    requires exists c :: 0 <= c < LINE && !Covers(ranges, c) && !Covers(more, c)
    ensures Normal(out) && out != []
    ensures forall c :: Covers(out, c) <==> Covers(ranges, c) || Covers(more, c)
  {
    ghost var free :| 0 <= free < LINE && !Covers(ranges, free) && !Covers(more, free);
    out := ranges;
    var i := 0;
    while i < |more|
      invariant 0 <= i <= |more| && Normal(out) && out != []
      invariant !Covers(out, free)
      invariant forall c :: Covers(out, c) <==> Covers(ranges, c) || Covers(more[..i], c)
    {
      assert LeavesRoom(out, more[i]);
      InsertIsUnion(out, more[i]);
      InsertNonEmpty(out, more[i]);
      out := InsertInto(out, more[i]);
      forall c
        ensures Covers(more[..i + 1], c) <==> Covers(more[..i], c) || more[i].Contains(c)
      {
        CoversAppend(more[..i], more[i], c);
        assert more[..i + 1] == more[..i] + [more[i]];
      }
      i := i + 1;
    }
    assert more[..i] == more;
  }

  lemma CoversAppend(rs: seq<Range>, r: Range, c: int)
    ensures Covers(rs + [r], c) <==> Covers(rs, c) || r.Contains(c)
  {
    if Covers(rs, c) {
      var i :| 0 <= i < |rs| && rs[i].Contains(c);
      assert (rs + [r])[i].Contains(c);
    }
    if r.Contains(c) {
      assert (rs + [r])[|rs|].Contains(c);
    }
  }

  lemma IntersectUnfold(a: seq<Range>, i: nat, b: seq<Range>, j: nat)
    requires i < |a| && j < |b|
    ensures Intersect(a[i..], b[j..]) ==
            Overlap(a[i], b[j]) +
            (if a[i].End() < b[j].End() then Intersect(a[i + 1..], b[j..]) else Intersect(a[i..], b[j + 1..]))
  {
    assert a[i..][1..] == a[i + 1..] && b[j..][1..] == b[j + 1..];
  }

  /** Two indices sweep both lists; the one that ends first moves. */
  method IntersectRanges(a: seq<Range>, b: seq<Range>) returns (out: seq<Range>)
    ensures out == Intersect(a, b)
  {
    out := [];
    var i, j := 0, 0;
    ghost var rest := Intersect(a, b);
    assert a[0..] == a && b[0..] == b;
    while i < |a| && j < |b|
      invariant 0 <= i <= |a| && 0 <= j <= |b|
      invariant rest == Intersect(a[i..], b[j..])
      invariant Intersect(a, b) == out + rest
      decreases |a| - i + |b| - j
    {
      IntersectUnfold(a, i, b, j);
      ghost var done := out;
      var start := Max(a[i].clock, b[j].clock);
      var end := Min(a[i].End(), b[j].End());
      var advance := a[i].End() < b[j].End();
      ghost var piece := Overlap(a[i], b[j]);
      ghost var next := if advance then Intersect(a[i + 1..], b[j..]) else Intersect(a[i..], b[j + 1..]);
      Assoc(out, piece, next);
      if start < end {
        out := out + [Range(start, AsU32(end - start))];
      }
      assert out == done + piece;
      if advance {
        i := i + 1;
      } else {
        j := j + 1;
      }
      rest := next;
    }
    assert rest == [];
  }

  function Before(cur: Range, cut: Range): seq<Range> {
    if cut.clock > cur.clock then [Range(cur.clock, cut.clock - cur.clock)] else []
  }

  /** The pieces of `cur` outside right[j..], and the first range of `right`
      that may still matter to later ones. */
  function Carve(cur: Range, right: seq<Range>, j: nat): (r: (seq<Range>, nat))
    requires j <= |right|
    ensures j <= r.1 <= |right|
    decreases |right| - j
  {
    if j == |right| then ([cur], j)
    else if right[j].End() <= cur.clock then Carve(cur, right, j + 1)
    else if right[j].clock >= cur.End() then ([cur], j)
    else if right[j].End() >= cur.End() then (Before(cur, right[j]), j)
    else
      var (pieces, k) := Carve(KeepAfter(cur, right[j]), right, j + 1);
      (Before(cur, right[j]) + pieces, k)
  }

  lemma CarveUnfold(cur: Range, right: seq<Range>, j: nat)
    requires j <= |right|
    ensures j == |right| ==> Carve(cur, right, j) == ([cur], j)
    ensures j < |right| && right[j].End() <= cur.clock ==> Carve(cur, right, j) == Carve(cur, right, j + 1)
    ensures j < |right| && cur.clock < right[j].End() && right[j].clock >= cur.End() ==>
          Carve(cur, right, j) == ([cur], j)
    ensures j < |right| && cur.clock < right[j].End() && right[j].clock < cur.End() <= right[j].End() ==>
              Carve(cur, right, j) == (Before(cur, right[j]), j)
    ensures j < |right| && cur.clock < right[j].End() < cur.End() && right[j].clock < cur.End() ==>
              var rest := Carve(KeepAfter(cur, right[j]), right, j + 1);
              Carve(cur, right, j) == (Before(cur, right[j]) + rest.0, rest.1)
  {
    hide Before, KeepAfter;
  }

  lemma {:induction false} CarveSubtracts(cur: Range, tail: seq<Range>, right: seq<Range>, j: nat)
    requires j <= |right|
    ensures var (pieces, k) := Carve(cur, right, j);
            Subtract([cur] + tail, right[j..]) == pieces + Subtract(tail, right[k..])
    decreases |right| - j
  {
    hide Carve, KeepAfter;
    CarveUnfold(cur, right, j);
    assert ([cur] + tail)[1..] == tail;
    if j < |right| {
      var cut := right[j];
      assert right[j..][1..] == right[j + 1..];
      if cut.End() <= cur.clock {
        CarveSubtracts(cur, tail, right, j + 1);
      } else if cut.clock < cur.End() && cut.End() < cur.End() {
        CarveSubtracts(KeepAfter(cur, cut), tail, right, j + 1);
        var (pieces, k) := Carve(KeepAfter(cur, cut), right, j + 1);
        Assoc(Before(cur, cut), pieces, Subtract(tail, right[k..]));
      }
    } else {
      assert right[j..] == [];
    }
  }

  lemma KeepRange(cur: Range, cut: Range)
    requires cur.Valid() && cur.clock < cut.End() < cur.End()
    ensures KeepAfter(cur, cut).Valid() && KeepAfter(cur, cut).clock == cut.End()
    ensures KeepAfter(cur, cut).End() == cur.End()
  {
  }

  /** The inner loops for one range; the cursor is the start of `left`. */
  method SubtractFrom(current: Range, right: seq<Range>, j0: nat)
    returns (pieces: seq<Range>, j: nat)
    requires current.Valid() && Normal(right) && j0 <= |right|
    ensures (pieces, j) == Carve(current, right, j0)
  {
    hide Carve, Before, KeepAfter;
    ghost var want := Carve(current, right, j0);
    pieces, j := [], j0;
    while j < |right| && right[j].End() <= current.clock
      invariant j <= |right| && want == Carve(current, right, j)
    {
      CarveUnfold(current, right, j);
      j := j + 1;
    }
    var left := current;
    while j < |right| && right[j].clock < left.End()
      invariant j <= |right| && left.Valid()
      invariant j < |right| ==> right[j].End() > left.clock
      invariant want.0 == pieces + Carve(left, right, j).0 && want.1 == Carve(left, right, j).1
    {
      var cut := right[j];
      CarveUnfold(left, right, j);
      if cut.End() >= left.End() {
        pieces := pieces + Before(left, cut);
        return;
      }
      var keep := KeepAfter(left, cut);
      KeepRange(left, cut);
      Assoc(pieces, Before(left, cut), Carve(keep, right, j + 1).0);
      pieces := pieces + Before(left, cut);
      left := keep;
      j := j + 1;
    }
    CarveUnfold(left, right, j);
    pieces := pieces + [left];
  }

  /** The part of `left` outside `right`; the index into `right` never moves back. */
  method SubtractRanges(left: seq<Range>, right: seq<Range>) returns (out: seq<Range>)
    requires Normal(left) && Normal(right)
    ensures out == Subtract(left, right)
  {
    if right == [] {
      return left;
    }
    out := [];
    var i, j := 0, 0;
    ghost var rest := Subtract(left, right);
    assert left[0..] == left && right[0..] == right;
    while i < |left|
      invariant 0 <= i <= |left| && j <= |right|
      invariant rest == Subtract(left[i..], right[j..])
      invariant Subtract(left, right) == out + rest
    {
      assert left[i..] == [left[i]] + left[i + 1..];
      hide Subtract, Carve;
      var pieces;
      CarveSubtracts(left[i], left[i + 1..], right, j);
      pieces, j := SubtractFrom(left[i], right, j);
      rest := Subtract(left[i + 1..], right[j..]);
      Assoc(out, pieces, rest);
      out := out + pieces;
      i := i + 1;
    }
  }

  /** Adding normalized ranges one by one gives them back. */
  method Rebuild(ranges: seq<Range>) returns (out: seq<Range>)
    requires Normal(ranges)
    ensures out == ranges
  {
    out := [];
    var i := 0;
    while i < |ranges|
      invariant 0 <= i <= |ranges| && out == ranges[..i]
    {
      InsertAtEnd(out, ranges[i]);
      out := InsertInto(out, ranges[i]);
      i := i + 1;
    }
  }

  /** Intersection of two sets, client by client. */
  method IntersectSets(left: RangeMap, right: RangeMap) returns (out: RangeMap)
    requires NormalMap(left) && NormalMap(right)
    ensures NormalMap(out)
    ensures forall k: u32, c: int :: Member(out, k, c) <==> Member(left, k, c) && Member(right, k, c)
    ensures out == Common(left, right)
  {
    ghost var want := Both(left, right);
    out := map[];
    var todo := left.Keys;
    while todo != {}
      invariant todo <= left.Keys && BuiltSoFar(out, want, todo)
      decreases todo
    {
      var client :| client in todo;
      BothIsIntersection(left, right, client, 0);
      var both := IntersectRanges(left[client], RangesOf(right, client));
      BuildStep(out, want, todo, client);
      out := Put(out, client, both);
      todo := todo - {client};
    }
    forall k: u32, c: int
      ensures Member(out, k, c) <==> Member(left, k, c) && Member(right, k, c)
    {
      BothIsIntersection(left, right, k, c);
    }
    CommonIsIntersection(left, right);
    MapUnique(out, Common(left, right));
  }

  /** The very last clock, added and at once called absent by a slice. */
  method LastClockCalledAbsent() returns (has: bool, segments: seq<Segment>)
    ensures has && segments != []
    ensures var last := segments[|segments| - 1]; last.Contains(MAX_U32) && !last.present
  {
    var ids := new IdSet();
    var added := ids.Add(1, MAX_U32, 1);
    assert Insert([], Range(MAX_U32, 1)) == [Range(MAX_U32, 1)];
    has := ids.Has(1, MAX_U32);
    segments := ids.Slice(1, MAX_U32, 1);
    var c: int :| segments[|segments| - 1].Contains(c) && Covers([Range(MAX_U32, 1)], c);
  }
}
