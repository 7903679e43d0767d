/** Content ids: which clocks an update inserts and which it deletes. */
module Contents {
  import opened Prelude
  import opened Structs
  import opened Merge
  import opened IdSets
  import opened IdSetObject
  import opened Updates
  import opened UpdateV1

  datatype ContentIds = ContentIds(inserts: RangeMap, deletes: RangeMap)

  predicate NormalIds(ids: ContentIds) {
    NormalMap(ids.inserts) && NormalMap(ids.deletes)
  }

  /** Some struct other than a Skip covers the clock. */
  ghost predicate InsertedIn(l: seq<Struct>, client: u32, c: int) {
    exists s :: s in l && !s.Skip? && s.id.client == client && s.id.clock <= c < s.End()
  }

  // ----- Extraction -----

  /** The run of clocks that is not in the set yet. */
  datatype Run = Run(client: u32, clock: u32, len: u32) {
    predicate Holds(k: u32, c: int) {
      k == client && clock <= c < clock + len
    }
  }

  predicate RunHolds(run: Option<Run>, k: u32, c: int) {
    run.Some? && run.value.Holds(k, c)
  }

  predicate RunOk(run: Option<Run>) {
    run.Some? ==> run.value.len > 0 && run.value.clock + run.value.len <= MAX_U32
  }

  /** The set and the pending run together hold what the prefix inserts. */
  ghost predicate Extracted(prefix: seq<Struct>, m: RangeMap, run: Option<Run>) {
    && NormalMap(m) && NoTop(m) && RunOk(run)
    && forall k: u32, c: int :: InsertedIn(prefix, k, c) <==> Member(m, k, c) || RunHolds(run, k, c)
  }

  method FlushInsert(inserts: IdSet, run: Option<Run>)
    requires NormalMap(inserts.clients) && NoTop(inserts.clients) && RunOk(run)
    modifies inserts
    ensures NormalMap(inserts.clients) && NoTop(inserts.clients)
    ensures forall k: u32, c: int :: Member(inserts.clients, k, c) <==> Member(old(inserts.clients), k, c) || RunHolds(run, k, c)
  {
    if run.Some? {
      var p := run.value;
      ghost var before := inserts.clients;
      assert LeavesRoom(RangesOf(before, p.client), Range(p.clock, p.len)) by {
        assert !Member(before, p.client, MAX_U32);
      }
      var added := inserts.Add(p.client, p.clock, p.len);
      forall client | client in inserts.clients
        ensures !Covers(inserts.clients[client], MAX_U32)
      {
        assert !Member(before, client, MAX_U32);
        assert !Member(inserts.clients, client, MAX_U32);
      }
    }
  }

  /** The pending run after one more struct, and whether the one before it is
      to be flushed first. */
  function NextRun(run: Option<Run>, s: Struct): (bool, Run) {
    if run.Some? && run.value.client == s.id.client && run.value.clock + run.value.len == s.id.clock
    then (false, Run(run.value.client, run.value.clock, AsU32(run.value.len + s.Length())))
    else (true, Run(s.id.client, s.id.clock, AsU32(s.Length())))
  }

  lemma InsertedAppend(l: seq<Struct>, s: Struct, k: u32, c: int)
    ensures InsertedIn(l + [s], k, c) <==>
              InsertedIn(l, k, c) || (!s.Skip? && s.id.client == k && s.id.clock <= c < s.End())
  {
    assert forall x :: x in l + [s] <==> x in l || x == s;
  }

  lemma ExtractedStep(prefix: seq<Struct>, m: RangeMap, run: Option<Run>, s: Struct, next: RangeMap)
    requires Extracted(prefix, m, run) && s.Valid() && !s.Skip?
    requires NormalMap(next) && NoTop(next)
    requires forall k: u32, c: int :: Member(next, k, c) <==> Member(m, k, c) || (NextRun(run, s).0 && RunHolds(run, k, c))
    ensures Extracted(prefix + [s], next, Some(NextRun(run, s).1))
  {
    hide Member, InsertedIn, NormalMap, NoTop;
    forall k: u32, c: int
      ensures InsertedIn(prefix + [s], k, c) <==> Member(next, k, c) || NextRun(run, s).1.Holds(k, c)
    {
      InsertedAppend(prefix, s, k, c);
    }
  }

  lemma ExtractedSkip(prefix: seq<Struct>, m: RangeMap, run: Option<Run>, s: Struct)
    requires Extracted(prefix, m, run) && s.Skip?
    ensures Extracted(prefix + [s], m, run)
  {
    hide Member, InsertedIn, NormalMap, NoTop;
    forall k: u32, c: int
      ensures InsertedIn(prefix + [s], k, c) <==> Member(m, k, c) || RunHolds(run, k, c)
    {
      InsertedAppend(prefix, s, k, c);
    }
  }

  lemma ExtractedNone()
    ensures Extracted([], map[], None)
  {
  }

  /** The inserted clocks of a list of structs. */
  method ExtractInserts(structs: seq<Struct>) returns (m: RangeMap)
    requires Sound(structs)
    ensures NormalMap(m) && NoTop(m)
    ensures forall k: u32, c: int :: Member(m, k, c) <==> InsertedIn(structs, k, c)
  {
    var inserts := new IdSet();
    var run: Option<Run> := None;
    ExtractedNone();
    hide Extracted, NormalMap, NoTop, Member, InsertedIn, RunHolds;
    for i := 0 to |structs|
      invariant fresh(inserts) && Extracted(structs[..i], inserts.clients, run)
    {
      var current := structs[i];
      assert current in structs && structs[..i + 1] == structs[..i] + [current];
      if current.Skip? {
        ExtractedSkip(structs[..i], inserts.clients, run, current);
      } else {
        ghost var before := inserts.clients;
        var (flush, next) := NextRun(run, current);
        ExtractedForm(structs[..i], before, run);
        if flush {
          FlushInsert(inserts, run);
        }
        ExtractedStep(structs[..i], before, run, current, inserts.clients);
        run := Some(next);
      }
    }
    assert structs[..|structs|] == structs;
    ExtractedForm(structs, inserts.clients, run);
    FlushInsert(inserts, run);
    m := inserts.clients;
  }

  lemma ExtractedForm(prefix: seq<Struct>, m: RangeMap, run: Option<Run>)
    requires Extracted(prefix, m, run)
    ensures NormalMap(m) && NoTop(m) && RunOk(run)
    ensures forall k: u32, c: int :: InsertedIn(prefix, k, c) <==> Member(m, k, c) || RunHolds(run, k, c)
  {
  }

  /** The ranges of one client, added one by one to a set without it. */
  method AddRanges(target: IdSet, client: u32, ranges: seq<Range>)
    requires client !in target.clients && Normal(ranges) && ranges != []
    requires NormalMap(target.clients)
    modifies target
    ensures target.clients == old(target.clients)[client := ranges]
  {
    ghost var before := target.clients;
    for i := 0 to |ranges|
      invariant target.clients == if i == 0 then before else before[client := ranges[..i]]
    {
      assert ranges[i].Valid() && Normal(ranges[..i]);
      InsertAtEnd(ranges[..i], ranges[i]);
      assert ranges[..i + 1] == ranges[..i] + [ranges[i]];
      var added := target.Add(client, ranges[i].clock, ranges[i].len);
    }
    assert ranges[..|ranges|] == ranges;
  }

  /** A normalized map copied range by range is the same map. */
  method CopyRanges(m: RangeMap) returns (out: RangeMap)
    requires NormalMap(m)
    ensures out == m
  {
    var target := new IdSet();
    var todo := m.Keys;
    while todo != {}
      invariant fresh(target) && todo <= m.Keys && target.clients == map k | k in m && k !in todo :: m[k]
      decreases todo
    {
      var client :| client in todo;
      AddRanges(target, client, m[client]);
      todo := todo - {client};
    }
    out := target.clients;
  }

  /** contentIDsFromDecodedUpdate: exactly the clocks covered by structs other
      than Skips, and exactly the delete set. */
  method FromDecoded(u: Update) returns (ids: ContentIds)
    requires Sound(u.structs) && NormalMap(u.deletes)
    ensures NormalIds(ids) && NoTop(ids.inserts) && ids.deletes == u.deletes
    ensures forall k: u32, c: int :: Member(ids.inserts, k, c) <==> InsertedIn(u.structs, k, c)
  {
    var inserts := ExtractInserts(u.structs);
    var deletes := CopyRanges(u.deletes);
    ids := ContentIds(inserts, deletes);
  }

  // ----- What the ids of an update are -----

  lemma {:induction false} InsertedHasUnit(client: u32, l: seq<Struct>, c: nat)
    requires Chain(client, l)
    ensures At(l, c).Some? <==> exists s :: s in l && !s.Skip? && s.id.clock <= c < s.End()
  {
    if l != [] {
      InsertedHasUnit(client, l[1..], c);
      assert forall s :: s in l <==> s == l[0] || s in l[1..];
      if l[1..] != [] {
        ChainBounds(client, l[1..], c);
      }
      if c < l[0].End() {
        CoveredOnce(client, l, c);
      }
    }
  }

  lemma {:induction false} CoveredOnce(client: u32, l: seq<Struct>, c: nat)
    requires Chain(client, l) && l != [] && c < l[0].End()
    ensures forall s :: s in l[1..] ==> s.id.clock > c
  {
    if |l| > 1 {
      CoveredOnce(client, l[1..], c);
    }
  }

  /** The inserted clocks of a grouped update are those with a unit. */
  lemma InsertsAreUnits(order: seq<u32>, b: Blocks, k: u32, c: u32)
    requires Distinct(order) && (forall x :: x in order <==> x in b) && WellFormedBlocks(b)
    ensures InsertedIn(Flatten(order, b), k, c) <==> UnitOf(b, ID(k, c)).Some?
  {
    var all := Flatten(order, b);
    FlattenOfClient(order, b, k);
    if k in b {
      assert WellFormed(k, b[k]);
      InsertedHasUnit(k, b[k], c);
      ChainAscending(k, b[k]);
    }
    hide At, Chain, Ascending, WellFormedBlocks, Flatten, Distinct;
    forall s | s in all && s.id.client == k
      ensures k in b && s in b[k]
    {
      MembersOfClient(all, k, s);
    }
    forall s | k in b && s in b[k]
      ensures s in all
    {
      MembersOfClient(all, k, s);
    }
  }

  /** `ids` name exactly the units and deletions of `e`. */
  ghost predicate IdsOf(ids: ContentIds, e: Entry) {
    && NormalIds(ids) && ids.deletes == e.deletes
    && forall k: u32, c: int :: Member(ids.inserts, k, c) <==> 0 <= c <= MAX_U32 && UnitOf(e.blocks, ID(k, c)).Some?
  }

  /** Extraction from a grouped update names its units and deletions. */
  lemma ExtractedIds(order: seq<u32>, e: Entry, ids: ContentIds)
    requires Distinct(order) && (forall x :: x in order <==> x in e.blocks) && WellFormedBlocks(e.blocks)
    requires NormalIds(ids) && NoTop(ids.inserts) && ids.deletes == e.deletes
    requires forall k: u32, c: int :: Member(ids.inserts, k, c) <==> InsertedIn(Flatten(order, e.blocks), k, c)
    ensures IdsOf(ids, e)
  {
    forall k: u32, c: int
      ensures Member(ids.inserts, k, c) <==> 0 <= c <= MAX_U32 && UnitOf(e.blocks, ID(k, c)).Some?
    {
      if 0 <= c <= MAX_U32 {
        InsertsAreUnits(order, e.blocks, k, c);
      } else {
        OutOfLine(ids.inserts, k, c);
      }
    }
  }

  lemma OutOfLine(m: RangeMap, k: u32, c: int)
    requires NormalMap(m) && NoTop(m) && !(0 <= c <= MAX_U32)
    ensures !Member(m, k, c)
  {
  }

  /** `u` holds what any of `each` holds. */
  ghost predicate UnionOf(u: ContentIds, each: seq<ContentIds>) {
    && NormalIds(u)
    && (forall k: u32, c: int :: Member(u.inserts, k, c) <==> exists i :: 0 <= i < |each| && Member(each[i].inserts, k, c))
    && (forall k: u32, c: int :: Member(u.deletes, k, c) <==> exists i :: 0 <= i < |each| && Member(each[i].deletes, k, c))
  }

  /** The ids of a merge are the union of the ids of what was merged. */
  lemma IdsOfMerge(m: Entry, es: seq<Entry>, ids: ContentIds, each: seq<ContentIds>, u: ContentIds)
    requires MergeOf(m, es) && IdsOf(ids, m) && UnionOf(u, each)
    requires |each| == |es| && forall i :: 0 <= i < |es| ==> IdsOf(each[i], es[i])
    ensures ids == u
  {
    hide Member, UnitOf, NormalMap, WellFormedBlocks;
    forall k: u32, c: int
      ensures Member(ids.inserts, k, c) <==> Member(u.inserts, k, c)
      ensures Member(ids.deletes, k, c) <==> Member(u.deletes, k, c)
    {
      MergedMember(m, es, ids, each, u, k, c);
    }
    MapUnique(ids.inserts, u.inserts);
    MapUnique(ids.deletes, u.deletes);
  }

  lemma MergedMember(m: Entry, es: seq<Entry>, ids: ContentIds, each: seq<ContentIds>, u: ContentIds, k: u32, c: int)
    requires MergeOf(m, es) && IdsOf(ids, m) && UnionOf(u, each)
    requires |each| == |es| && forall i :: 0 <= i < |es| ==> IdsOf(each[i], es[i])
    ensures Member(ids.inserts, k, c) <==> Member(u.inserts, k, c)
    ensures Member(ids.deletes, k, c) <==> Member(u.deletes, k, c)
  {
    hide Member, UnitOf, NormalMap, WellFormedEntry;
    if Member(u.inserts, k, c) {
      var i :| 0 <= i < |each| && Member(each[i].inserts, k, c);
      assert UnitOf(es[i].blocks, ID(k, c)).Some?;
    }
    if Member(ids.inserts, k, c) {
      var i :| 0 <= i < |es| && UnitOf(es[i].blocks, ID(k, c)).Some?;
      assert Member(each[i].inserts, k, c);
    }
    if Member(u.deletes, k, c) {
      var i :| 0 <= i < |each| && Member(each[i].deletes, k, c);
      assert Member(es[i].deletes, k, c);
    }
    if Member(ids.deletes, k, c) {
      var i :| 0 <= i < |es| && Member(es[i].deletes, k, c);
      assert Member(each[i].deletes, k, c);
    }
  }

  function InsertsOf(each: seq<ContentIds>): seq<RangeMap> {
    seq(|each|, i requires 0 <= i < |each| => each[i].inserts)
  }

  function DeletedOf(each: seq<ContentIds>): seq<RangeMap> {
    seq(|each|, i requires 0 <= i < |each| => each[i].deletes)
  }

  lemma IdsHeld(u: ContentIds, each: seq<ContentIds>, n: nat)
    requires n <= |each| && UnionOf(u, each[..n])
    ensures NormalMap(u.inserts) && NormalMap(u.deletes)
    ensures HoldsAll(u.inserts, InsertsOf(each)[..n]) && HoldsAll(u.deletes, DeletedOf(each)[..n])
  {
    hide Member, NormalMap;
    assert forall i :: 0 <= i < n ==> InsertsOf(each)[..n][i] == each[..n][i].inserts;
    assert forall i :: 0 <= i < n ==> DeletedOf(each)[..n][i] == each[..n][i].deletes;
  }

  lemma UnionStep(u: ContentIds, each: seq<ContentIds>, e: ContentIds, next: ContentIds)
    requires UnionOf(u, each) && NormalIds(next)
    requires MergedSoFar(u.inserts, e.inserts, {}, next.inserts) && MergedSoFar(u.deletes, e.deletes, {}, next.deletes)
    ensures UnionOf(next, each + [e])
  {
    hide Member, NormalMap;
    var more := each + [e];
    assert more[|each|] == e && forall i :: 0 <= i < |each| ==> more[i] == each[i];
    forall k: u32, c: int
      ensures Member(next.inserts, k, c) <==> exists i :: 0 <= i < |more| && Member(more[i].inserts, k, c)
      ensures Member(next.deletes, k, c) <==> exists i :: 0 <= i < |more| && Member(more[i].deletes, k, c)
    {
      assert Member(next.inserts, k, c) <==> Member(u.inserts, k, c) || Member(e.inserts, k, c);
      assert Member(next.deletes, k, c) <==> Member(u.deletes, k, c) || Member(e.deletes, k, c);
    }
  }

  lemma UnionOfNone()
    ensures UnionOf(ContentIds(map[], map[]), [])
  {
  }

  /** mergeContentIDPayloads; for every client some clock is inserted by none,
      and some deleted by none. */
  method MergeIds(each: seq<ContentIds>) returns (u: ContentIds)
    requires forall i :: 0 <= i < |each| ==> NormalIds(each[i])
    requires RoomIn(InsertsOf(each)) && RoomIn(DeletedOf(each))
    ensures UnionOf(u, each)
  {
    var inserts := new IdSet();
    var deletes := new IdSet();
    UnionOfNone();
    hide NormalMap, UnionLeavesRoom, MergedSoFar, UnionOf, RoomIn, HoldsAll;
    for i := 0 to |each|
      invariant fresh(inserts) && fresh(deletes) && inserts != deletes
      invariant UnionOf(ContentIds(inserts.clients, deletes.clients), each[..i])
    {
      ghost var before := ContentIds(inserts.clients, deletes.clients);
      IdsHeld(before, each, i);
      RoomForNext(InsertsOf(each), i, before.inserts);
      RoomForNext(DeletedOf(each), i, before.deletes);
      var moreInserts := new IdSet.Of(each[i].inserts);
      inserts.Merge(moreInserts);
      var moreDeletes := new IdSet.Of(each[i].deletes);
      deletes.Merge(moreDeletes);
      UnionStep(before, each[..i], each[i], ContentIds(inserts.clients, deletes.clients));
      assert each[..i + 1] == each[..i] + [each[i]];
    }
    assert each[..|each|] == each;
    u := ContentIds(inserts.clients, deletes.clients);
  }

  /** Without such clocks no pair of normalized sets holds the union. */
  lemma IdsNeedRoom(u: ContentIds, each: seq<ContentIds>)
    requires UnionOf(u, each)
    ensures RoomIn(InsertsOf(each)) && RoomIn(DeletedOf(each))
  {
    assert each[..|each|] == each && InsertsOf(each)[..|each|] == InsertsOf(each)
        && DeletedOf(each)[..|each|] == DeletedOf(each);
    IdsHeld(u, each, |each|);
    hide RoomIn, HoldsAll, NormalMap;
    RoomNeeded(u.inserts, InsertsOf(each));
    RoomNeeded(u.deletes, DeletedOf(each));
  }

  // ----- Set operations -----

  method Intersection(a: ContentIds, b: ContentIds) returns (out: ContentIds)
    requires NormalIds(a) && NormalIds(b)
    ensures NormalIds(out)
    ensures forall k: u32, c: int :: Member(out.inserts, k, c) <==> Member(a.inserts, k, c) && Member(b.inserts, k, c)
    ensures forall k: u32, c: int :: Member(out.deletes, k, c) <==> Member(a.deletes, k, c) && Member(b.deletes, k, c)
  {
    var inserts := IntersectSets(a.inserts, b.inserts);
    var deletes := IntersectSets(a.deletes, b.deletes);
    out := ContentIds(inserts, deletes);
  }

  /** Works on a copy of `left`. */
  method SubtractSets(left: RangeMap, remove: RangeMap) returns (out: RangeMap)
    requires NormalMap(left) && NormalMap(remove)
    ensures NormalMap(out)
    ensures forall k: u32, c: int :: Member(out, k, c) <==> Member(left, k, c) && !Member(remove, k, c)
  {
    var result := new IdSet.Of(left);
    var other := new IdSet.Of(remove);
    result.Subtract(other);
    out := result.clients;
  }

  method Difference(a: ContentIds, b: ContentIds) returns (out: ContentIds)
    requires NormalIds(a) && NormalIds(b)
    ensures NormalIds(out)
    ensures forall k: u32, c: int :: Member(out.inserts, k, c) <==> Member(a.inserts, k, c) && !Member(b.inserts, k, c)
    ensures forall k: u32, c: int :: Member(out.deletes, k, c) <==> Member(a.deletes, k, c) && !Member(b.deletes, k, c)
  {
    var inserts := SubtractSets(a.inserts, b.inserts);
    var deletes := SubtractSets(a.deletes, b.deletes);
    out := ContentIds(inserts, deletes);
  }

  lemma EmptyMap(m: RangeMap)
    requires NormalMap(m)
    ensures m == map[] <==> forall k: u32, c: int :: !Member(m, k, c)
  {
    if m != map[] {
      var k :| k in m;
      assert m[k][0].Contains(m[k][0].clock);
      assert Member(m, k, m[k][0].clock);
    }
  }

  /** IsSubsetContentIDs: nothing is left when the container is taken away. */
  method IsSubset(subject: ContentIds, container: ContentIds) returns (yes: bool)
    requires NormalIds(subject) && NormalIds(container)
    ensures yes <==>
              (forall k: u32, c: int :: Member(subject.inserts, k, c) ==> Member(container.inserts, k, c)) &&
              (forall k: u32, c: int :: Member(subject.deletes, k, c) ==> Member(container.deletes, k, c))
  {
    hide Member, NormalMap;
    var rest := Difference(subject, container);
    EmptyMap(rest.inserts);
    EmptyMap(rest.deletes);
    yes := rest.inserts == map[] && rest.deletes == map[];
  }
}
