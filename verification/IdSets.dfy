/** Sets of clocks per client, kept as sorted, disjoint, non-adjacent ranges. */
module IdSets {
  import opened Prelude

  const LINE: nat := 0x1_0000_0000

  datatype Range = Range(clock: u32, len: u32) {
    function End(): nat {
      clock + len
    }

    predicate Contains(c: int) {
      clock <= c < End()
    }

    predicate Valid() {
      len > 0 && End() <= LINE
    }
  }

  function NewRange(clock: u32, len: u32): Result<Range> {
    if len == 0 then Err(InvalidLength)
    else if clock + len > LINE then Err(RangeOverflow)
    else Ok(Range(clock, len))
  }

  predicate Covers(rs: seq<Range>, c: int) {
    exists i :: 0 <= i < |rs| && rs[i].Contains(c)
  }

  /** Sorted, disjoint, and with at least one clock between neighbours. */
  predicate Normal(rs: seq<Range>) {
    && (forall i :: 0 <= i < |rs| ==> rs[i].Valid())
    && (forall i, j :: 0 <= i < j < |rs| ==> rs[i].End() < rs[j].clock)
  }

  lemma CoversCons(rs: seq<Range>, c: int)
    requires rs != []
    ensures Covers(rs, c) <==> rs[0].Contains(c) || Covers(rs[1..], c)
  {
    if Covers(rs, c) && !rs[0].Contains(c) {
      var i :| 0 <= i < |rs| && rs[i].Contains(c);
      assert rs[1..][i - 1].Contains(c);
    }
    if Covers(rs[1..], c) {
      var i :| 0 <= i < |rs[1..]| && rs[1..][i].Contains(c);
      assert rs[i + 1].Contains(c);
    }
  }

  lemma CoversNothing(c: int)
    ensures !Covers([], c)
  {
  }

  lemma CoversPrepend(r: Range, rs: seq<Range>, c: int)
    ensures Covers([r] + rs, c) <==> r.Contains(c) || Covers(rs, c)
  {
    CoversCons([r] + rs, c);
    assert ([r] + rs)[1..] == rs;
  }

  lemma NormalTail(rs: seq<Range>)
    requires Normal(rs) && rs != []
    ensures rs[0].Valid() && Normal(rs[1..])
    ensures forall c :: Covers(rs[1..], c) ==> c > rs[0].End()
  {
  }

  lemma NormalPrepend(r: Range, rs: seq<Range>)
    requires r.Valid() && Normal(rs)
    requires forall c :: Covers(rs, c) ==> c > r.End()
    ensures Normal([r] + rs)
  {
    if rs != [] {
      assert rs[0].Contains(rs[0].clock);
      assert Covers(rs, rs[0].clock);
    }
  }

  /** A normalized list is determined by the clocks it covers. */
  lemma {:induction false} NormalUnique(a: seq<Range>, b: seq<Range>)
    requires Normal(a) && Normal(b)
    requires forall c :: Covers(a, c) <==> Covers(b, c)
    ensures a == b
  {
    if a != [] {
      assert a[0].Contains(a[0].clock) && Covers(a, a[0].clock);
      assert b != [];
    }
    if b != [] {
      assert b[0].Contains(b[0].clock) && Covers(b, b[0].clock);
      NormalTail(a);
      NormalTail(b);
      forall c
        ensures Covers(a, c) <==> a[0].Contains(c) || Covers(a[1..], c)
        ensures Covers(b, c) <==> b[0].Contains(c) || Covers(b[1..], c)
      {
        CoversCons(a, c);
        CoversCons(b, c);
      }
      assert a[0].clock == b[0].clock;
      assert !Covers(a, a[0].End()) && !Covers(b, b[0].End());
      assert a[0].End() == b[0].End();
      NormalUnique(a[1..], b[1..]);
      assert a == [a[0]] + a[1..] && b == [b[0]] + b[1..];
    }
  }

  // ----- Insertion -----

  function MergeRanges(left: Range, right: Range): Range {
    var start := Min(left.clock, right.clock);
    var end := Max(left.End(), right.End());
    Range(start, AsU32(end - start))
  }

  /** Inserting `next`: ranges it touches are absorbed, the others kept. */
  function Insert(rs: seq<Range>, next: Range): seq<Range> {
    if rs == [] then [next]
    else if rs[0].End() < next.clock then [rs[0]] + Insert(rs[1..], next)
    else if next.End() < rs[0].clock then [next] + rs
    else Insert(rs[1..], MergeRanges(next, rs[0]))
  }

  /** Some clock of the 32-bit line stays free after the insertion. */
  ghost predicate LeavesRoom(rs: seq<Range>, next: Range) {
    exists c :: 0 <= c < LINE && !Covers(rs, c) && !next.Contains(c)
  }

  /** Two touching ranges merge into their union, unless that is the line. */
  lemma MergeRangesExact(a: Range, b: Range)
    requires a.Valid() && b.Valid() && a.End() >= b.clock && b.End() >= a.clock
    requires !(Min(a.clock, b.clock) == 0 && Max(a.End(), b.End()) == LINE)
    ensures MergeRanges(a, b).Valid()
    ensures forall c: int :: MergeRanges(a, b).Contains(c) <==> a.Contains(c) || b.Contains(c)
  {
  }

  lemma MergeTouching(rs: seq<Range>, next: Range)
    requires Normal(rs) && next.Valid() && rs != []
    requires rs[0].End() >= next.clock && next.End() >= rs[0].clock
    requires LeavesRoom(rs, next)
    ensures var m := MergeRanges(next, rs[0]);
            && m.Valid()
            && (forall c: int :: m.Contains(c) <==> next.Contains(c) || rs[0].Contains(c))
            && LeavesRoom(rs[1..], m)
  {
    var free :| 0 <= free < LINE && !Covers(rs, free) && !next.Contains(free);
    CoversCons(rs, free);
    MergeRangesExact(next, rs[0]);
    var m := MergeRanges(next, rs[0]);
    assert !m.Contains(free) && !Covers(rs[1..], free);
  }

  /** Insertion yields the normalized list of exactly the union, unless the
      union is the whole 32-bit line. */
  lemma {:induction false} InsertIsUnion(rs: seq<Range>, next: Range)
    requires Normal(rs) && next.Valid() && LeavesRoom(rs, next)
    ensures Normal(Insert(rs, next))
    ensures forall c :: Covers(Insert(rs, next), c) <==> Covers(rs, c) || next.Contains(c)
    decreases |rs|
  {
    if rs == [] {
      assert [next][0] == next;
    } else {
      NormalTail(rs);
      forall c
        ensures Covers(rs, c) <==> rs[0].Contains(c) || Covers(rs[1..], c)
      {
        CoversCons(rs, c);
      }
      if rs[0].End() < next.clock {
        InsertIsUnion(rs[1..], next);
        NormalPrepend(rs[0], Insert(rs[1..], next));
        forall c { CoversPrepend(rs[0], Insert(rs[1..], next), c); }
      } else if next.End() < rs[0].clock {
        NormalPrepend(next, rs);
        forall c { CoversPrepend(next, rs, c); }
      } else {
        MergeTouching(rs, next);
        InsertIsUnion(rs[1..], MergeRanges(next, rs[0]));
      }
    }
  }

  lemma WrappedLosesZero(rs: seq<Range>)
    requires Normal(rs) && (rs != [] ==> rs[0].clock > 0)
    ensures !Covers(Insert(rs, Range(0, 0)), 0)
  {
    var m := Range(0, 0);
    if rs != [] {
      assert Insert(rs, m) == [m] + rs;
      CoversPrepend(m, rs, 0);
      NormalTail(rs);
      CoversCons(rs, 0);
    }
  }

  /** With no clock left free, the new range touches the first one, and what
      they merge into is the line itself or leaves no room either. */
  lemma WholeLineStep(rs: seq<Range>, next: Range)
    requires Normal(rs) && next.Valid() && !LeavesRoom(rs, next) && rs != []
    ensures rs[0].End() >= next.clock && next.End() >= rs[0].clock
    ensures var m := MergeRanges(next, rs[0]);
            m == Range(0, 0) || (m.Valid() && !LeavesRoom(rs[1..], m))
  {
    NormalTail(rs);
    var probe := Min(rs[0].End(), next.End());
    CoversCons(rs, probe);
    assert probe < LINE ==> Covers(rs, probe) || next.Contains(probe);
    var m := MergeRanges(next, rs[0]);
    forall c | 0 <= c < LINE
      ensures Covers(rs[1..], c) || rs[0].Contains(c) || next.Contains(c)
    {
      CoversCons(rs, c);
      assert Covers(rs, c) || next.Contains(c);
    }
  }

  lemma NoRoomBut(rs: seq<Range>, next: Range, c: int)
    requires !LeavesRoom(rs, next) && 0 <= c < LINE
    ensures Covers(rs, c) || next.Contains(c)
  {
  }

  /** When the union is the whole line the merged length wraps to zero, and
      clock 0 is lost. */
  lemma {:induction false} InsertWholeLine(rs: seq<Range>, next: Range)
    requires Normal(rs) && next.Valid() && !LeavesRoom(rs, next)
    ensures !Covers(Insert(rs, next), 0)
    decreases |rs|
  {
    if rs == [] {
      NoRoomBut(rs, next, 0);
      NoRoomBut(rs, next, LINE - 1);
    } else {
      NormalTail(rs);
      WholeLineStep(rs, next);
      hide LeavesRoom, Covers, Normal, MergeRanges;
      var m := MergeRanges(next, rs[0]);
      if m == Range(0, 0) {
        WrappedLosesZero(rs[1..]);
      } else {
        InsertWholeLine(rs[1..], m);
      }
    }
  }

  /** Adding a range gives the union exactly when the line is not filled. */
  lemma InsertExact(rs: seq<Range>, next: Range)
    requires Normal(rs) && next.Valid()
    ensures (forall c :: Covers(Insert(rs, next), c) <==> Covers(rs, c) || next.Contains(c)) <==>
            LeavesRoom(rs, next)
  {
    if LeavesRoom(rs, next) {
      InsertIsUnion(rs, next);
    } else {
      InsertWholeLine(rs, next);
      assert Covers(rs, 0) || next.Contains(0);
    }
  }

  /** Appending past the end needs no search. */
  lemma {:induction false} InsertAtEnd(rs: seq<Range>, next: Range)
    requires forall i :: 0 <= i < |rs| ==> rs[i].End() < next.clock
    ensures Insert(rs, next) == rs + [next]
  {
    if rs != [] {
      InsertAtEnd(rs[1..], next);
      assert rs == [rs[0]] + rs[1..];
    }
  }

  lemma {:induction false} InsertIntoLast(rs: seq<Range>, next: Range)
    requires Normal(rs) && rs != []
    requires rs[|rs| - 1].clock <= next.clock <= rs[|rs| - 1].End()
    ensures Insert(rs, next) == rs[..|rs| - 1] + [MergeRanges(next, rs[|rs| - 1])]
  {
    if |rs| > 1 {
      InsertIntoLast(rs[1..], next);
      assert rs[..|rs| - 1] == [rs[0]] + rs[1..][..|rs| - 2];
    } else {
      assert rs[1..] == [];
    }
  }

  // ----- Intersection -----

  /** The common part of two ranges, as a list of at most one. */
  function Overlap(a: Range, b: Range): seq<Range> {
    var start := Max(a.clock, b.clock);
    var end := Min(a.End(), b.End());
    if start < end then [Range(start, AsU32(end - start))] else []
  }

  function Intersect(a: seq<Range>, b: seq<Range>): seq<Range>
    decreases |a| + |b|
  {
    if a == [] || b == [] then [] else
      Overlap(a[0], b[0]) +
      (if a[0].End() < b[0].End() then Intersect(a[1..], b) else Intersect(a, b[1..]))
  }

  lemma {:induction false} IntersectAt(a: seq<Range>, b: seq<Range>, c: int)
    requires Normal(a) && Normal(b)
    ensures Covers(Intersect(a, b), c) <==> Covers(a, c) && Covers(b, c)
    decreases |a| + |b|
  {
    hide Normal, Covers;
    CoversNothing(c);
    if a != [] && b != [] {
      NormalTail(a);
      NormalTail(b);
      CoversCons(a, c);
      CoversCons(b, c);
      var start := Max(a[0].clock, b[0].clock);
      var end := Min(a[0].End(), b[0].End());
      var rest := if a[0].End() < b[0].End() then Intersect(a[1..], b) else Intersect(a, b[1..]);
      if a[0].End() < b[0].End() {
        IntersectAt(a[1..], b, c);
      } else {
        IntersectAt(a, b[1..], c);
      }
      if start < end {
        CoversPrepend(Range(start, end - start), rest, c);
      } else {
        assert Intersect(a, b) == rest;
      }
    }
  }

  lemma {:induction false} IntersectNormal(a: seq<Range>, b: seq<Range>)
    requires Normal(a) && Normal(b)
    ensures Normal(Intersect(a, b))
    decreases |a| + |b|
  {
    hide Normal, Covers;
    if a != [] && b != [] {
      NormalTail(a);
      NormalTail(b);
      var start := Max(a[0].clock, b[0].clock);
      var end := Min(a[0].End(), b[0].End());
      var (x, y) := if a[0].End() < b[0].End() then (a[1..], b) else (a, b[1..]);
      var rest := Intersect(x, y);
      IntersectNormal(x, y);
      if start < end {
        forall c | Covers(rest, c)
          ensures c > end
        {
          IntersectAt(x, y, c);
        }
        NormalPrepend(Range(start, end - start), rest);
      } else {
        assert Intersect(a, b) == rest;
      }
    }
  }

  lemma IntersectIsIntersection(a: seq<Range>, b: seq<Range>)
    requires Normal(a) && Normal(b)
    ensures Normal(Intersect(a, b))
    ensures forall c :: Covers(Intersect(a, b), c) <==> Covers(a, c) && Covers(b, c)
  {
    IntersectNormal(a, b);
    forall c { IntersectAt(a, b, c); }
  }

  // ----- Difference -----

  function KeepAfter(cur: Range, cut: Range): Range {
    Range(AsU32(cut.End()), AsU32(cur.End() - cut.End()))
  }

  /** One removal at a time against the first remaining range. */
  function Subtract(left: seq<Range>, right: seq<Range>): seq<Range>
    decreases |left| + |right|
  {
    if left == [] || right == [] then left else
      var cur, cut := left[0], right[0];
      if cut.End() <= cur.clock then Subtract(left, right[1..])
      else if cut.clock >= cur.End() then [cur] + Subtract(left[1..], right)
      else
        (if cut.clock > cur.clock then [Range(cur.clock, cut.clock - cur.clock)] else []) +
        (if cut.End() >= cur.End() then Subtract(left[1..], right)
         else Subtract([KeepAfter(cur, cut)] + left[1..], right[1..]))
  }

  /** What is left of an overlapped range, to the right of the cut. */
  lemma KeepNormal(left: seq<Range>, cut: Range)
    requires Normal(left) && left != [] && cut.Valid()
    requires left[0].clock < cut.End() < left[0].End()
    ensures var keep := KeepAfter(left[0], cut);
            Normal([keep] + left[1..]) && keep.clock == cut.End() && keep.End() == left[0].End()
  {
    NormalTail(left);
    NormalPrepend(KeepAfter(left[0], cut), left[1..]);
  }

  lemma {:induction false} SubtractAt(left: seq<Range>, right: seq<Range>, c: int)
    requires Normal(left) && Normal(right)
    ensures Covers(Subtract(left, right), c) <==> Covers(left, c) && !Covers(right, c)
    decreases |left| + |right|
  {
    hide Normal, Covers;
    CoversNothing(c);
    if left != [] && right != [] {
      NormalTail(left);
      NormalTail(right);
      CoversCons(left, c);
      CoversCons(right, c);
      var cur, cut := left[0], right[0];
      if cut.End() <= cur.clock {
        SubtractAt(left, right[1..], c);
      } else if cut.clock >= cur.End() {
        SubtractAt(left[1..], right, c);
        CoversPrepend(cur, Subtract(left[1..], right), c);
      } else {
        var head := if cut.clock > cur.clock then [Range(cur.clock, cut.clock - cur.clock)] else [];
        var rest;
        if cut.End() >= cur.End() {
          rest := Subtract(left[1..], right);
          SubtractAt(left[1..], right, c);
        } else {
          KeepNormal(left, cut);
          var kept := [KeepAfter(cur, cut)] + left[1..];
          rest := Subtract(kept, right[1..]);
          CoversPrepend(KeepAfter(cur, cut), left[1..], c);
          SubtractAt(kept, right[1..], c);
        }
        if head != [] {
          CoversPrepend(head[0], rest, c);
        } else {
          assert head + rest == rest;
        }
      }
    }
  }

  lemma {:induction false} SubtractNormal(left: seq<Range>, right: seq<Range>)
    requires Normal(left) && Normal(right)
    ensures Normal(Subtract(left, right))
    decreases |left| + |right|
  {
    hide Normal, Covers;
    if left != [] && right != [] {
      NormalTail(left);
      NormalTail(right);
      var cur, cut := left[0], right[0];
      if cut.End() <= cur.clock {
        SubtractNormal(left, right[1..]);
      } else if cut.clock >= cur.End() {
        SubtractNormal(left[1..], right);
        forall c { SubtractAt(left[1..], right, c); }
        NormalPrepend(cur, Subtract(left[1..], right));
      } else {
        var rest;
        if cut.End() >= cur.End() {
          rest := Subtract(left[1..], right);
          SubtractNormal(left[1..], right);
          forall c { SubtractAt(left[1..], right, c); }
        } else {
          KeepNormal(left, cut);
          var kept := [KeepAfter(cur, cut)] + left[1..];
          rest := Subtract(kept, right[1..]);
          SubtractNormal(kept, right[1..]);
          forall c
            ensures Covers(rest, c) ==> c > cut.clock
          {
            SubtractAt(kept, right[1..], c);
            CoversPrepend(KeepAfter(cur, cut), left[1..], c);
          }
        }
        if cut.clock > cur.clock {
          NormalPrepend(Range(cur.clock, cut.clock - cur.clock), rest);
        } else {
          assert Subtract(left, right) == rest;
        }
      }
    }
  }

  lemma SubtractIsDifference(left: seq<Range>, right: seq<Range>)
    requires Normal(left) && Normal(right)
    ensures Normal(Subtract(left, right))
    ensures forall c :: Covers(Subtract(left, right), c) <==> Covers(left, c) && !Covers(right, c)
  {
    SubtractNormal(left, right);
    forall c { SubtractAt(left, right, c); }
  }

  /** Normal ranges do not touch. */
  lemma InsideRange(ranges: seq<Range>, i: nat)
    requires Normal(ranges) && i < |ranges|
    ensures !Covers(ranges, ranges[i].clock - 1) && !Covers(ranges, ranges[i].End())
  {
    forall j | 0 <= j < |ranges|
      ensures !ranges[j].Contains(ranges[i].clock - 1) && !ranges[j].Contains(ranges[i].End())
    {
      assert j > i ==> ranges[i].End() < ranges[j].clock;
      assert j < i ==> ranges[j].End() < ranges[i].clock;
    }
  }

  /** No normalized list covers the whole line: one range is too short for it,
      and two leave a clock between them. */
  lemma LineIsNeverFull(rs: seq<Range>) returns (c: int)
    requires Normal(rs)
    ensures 0 <= c < LINE && !Covers(rs, c)
  {
    c := if rs == [] || rs[0].clock > 0 then 0 else rs[0].End();
    assert rs != [] ==> rs[0].Valid();
  }
}
