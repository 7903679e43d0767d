/** Whole updates: per-client struct lists with a delete set, grouping, and the
    fold that merges any number of them. */
module Updates {
  import opened Prelude
  import opened Structs
  import opened IdSets
  import opened IdSetObject
  import opened Sources
  import opened Merge

  type Blocks = map<u32, seq<Struct>>

  datatype Update = Update(structs: seq<Struct>, deletes: RangeMap)

  predicate WellFormedBlocks(b: Blocks) {
    forall client :: client in b ==> WellFormed(client, b[client])
  }

  /** The unit an update holds at an identifier. */
  function UnitOf(b: Blocks, id: ID): Option<Unit> {
    if id.client in b then At(b[id.client], id.clock) else None
  }

  /** The same with every code unit of a text told apart. */
  function FullUnitOf(b: Blocks, id: ID): (u: Option<Unit>)
    ensures UnitOf(b, id) == if u.Some? then Some(Blurred(u.value)) else None
  {
    if id.client in b then FullAt(b[id.client], id.clock) else None
  }

  // ----- Grouping -----

  function OfClient(structs: seq<Struct>, client: u32): seq<Struct> {
    if structs == [] then []
    else (if structs[0].id.client == client then [structs[0]] else []) + OfClient(structs[1..], client)
  }

  function InsertByClock(s: Struct, l: seq<Struct>): seq<Struct> {
    if l == [] || s.id.clock <= l[0].id.clock then [s] + l else [l[0]] + InsertByClock(s, l[1..])
  }

  /** Stable sort by clock, the library's SortStableFunc. */
  function SortByClock(l: seq<Struct>): seq<Struct> {
    if l == [] then [] else InsertByClock(l[0], SortByClock(l[1..]))
  }

  predicate Ascending(l: seq<Struct>) {
    |l| <= 1 || (l[0].id.clock <= l[1].id.clock && Ascending(l[1..]))
  }

  lemma {:induction false} SortAscending(l: seq<Struct>)
    requires Ascending(l)
    ensures SortByClock(l) == l
  {
    if |l| == 1 {
      assert l[1..] == [] && SortByClock(l[1..]) == [];
    } else if |l| > 1 {
      SortAscending(l[1..]);
    }
  }

  lemma {:induction false} AscendingAppend(l: seq<Struct>, s: Struct)
    requires Ascending(l) && (l != [] ==> l[|l| - 1].id.clock <= s.id.clock)
    ensures Ascending(l + [s])
  {
    if |l| > 1 {
      AscendingAppend(l[1..], s);
      assert (l + [s])[1..] == l[1..] + [s];
    } else if |l| == 1 {
      assert (l + [s])[1..] == [s];
    }
  }

  function ClientsOf(structs: seq<Struct>): set<u32> {
    set s | s in structs :: s.id.client
  }

  /** Structs by client, each group in clock order. */
  function Group(structs: seq<Struct>): Blocks {
    map client | client in ClientsOf(structs) :: SortByClock(OfClient(structs, client))
  }

  lemma {:induction false} OfClientConcat(a: seq<Struct>, b: seq<Struct>, client: u32)
    ensures OfClient(a + b, client) == OfClient(a, client) + OfClient(b, client)
  {
    if a == [] {
      assert a + b == b;
    } else {
      OfClientConcat(a[1..], b, client);
      assert (a + b)[1..] == a[1..] + b;
      Assoc(if a[0].id.client == client then [a[0]] else [], OfClient(a[1..], client), OfClient(b, client));
    }
  }

  /** The loop's state after the structs of `prefix`. */
  ghost predicate Grouped(prefix: seq<Struct>, groups: Blocks, needsSort: set<u32>) {
    && groups.Keys == ClientsOf(prefix) && needsSort <= groups.Keys
    && (forall k :: k in groups ==> groups[k] == OfClient(prefix, k))
    && (forall k :: k in groups && k !in needsSort ==> Ascending(groups[k]))
  }

  lemma GroupedStep(structs: seq<Struct>, i: nat, groups: Blocks, needsSort: set<u32>, current: Struct, next: Blocks,
        marked: set<u32>)
    requires i < |structs| && structs[i] == current && Grouped(structs[..i], groups, needsSort)
    requires next == groups[current.id.client := (if current.id.client in groups then groups[current.id.client]
          else []) + [current]]
    requires marked == if current.id.client in groups && |groups[current.id.client]| > 0
                          && groups[current.id.client][|groups[current.id.client]| - 1].id.clock > current.id.clock
                       then needsSort + {current.id.client} else needsSort
    ensures Grouped(structs[..i + 1], next, marked)
  {
    var prefix := structs[..i];
    assert structs[..i + 1] == prefix + [current];
    hide Ascending, OfClient;
    var client := current.id.client;
    if client !in groups {
      NoneOfClient(prefix, client);
      NothingAscends();
    }
    if client !in marked {
      AscendingAppend(if client in groups then groups[client] else [], current);
    }
    forall k | k in next
      ensures next[k] == OfClient(prefix + [current], k)
    {
      OfClientConcat(prefix, [current], k);
      OfClientOne(current, k);
    }
  }

  lemma NothingAscends()
    ensures Ascending([])
  {
  }

  lemma OfClientOne(s: Struct, client: u32)
    ensures OfClient([s], client) == if s.id.client == client then [s] else []
  {
  }

  /** The groups marked for it are sorted. */
  function SortMarked(groups: Blocks, needsSort: set<u32>): Blocks {
    map k | k in groups :: if k in needsSort then SortByClock(groups[k]) else groups[k]
  }

  /** groupStructsByClient: append to the group, note disorder, sort at the end. */
  method GroupByClient(structs: seq<Struct>) returns (groups: Blocks)
    ensures groups == Group(structs)
  {
    groups := map[];
    var needsSort: set<u32> := {};
    assert Grouped([], groups, needsSort);
    hide SortByClock, OfClient, Ascending, Grouped, Group, SortMarked, Struct.End;
    for i := 0 to |structs|
      invariant Grouped(structs[..i], groups, needsSort)
    {
      var current := structs[i];
      var client := current.id.client;
      ghost var before, marked := groups, needsSort;
      var group := if client in groups then groups[client] else [];
      if |group| > 0 && group[|group| - 1].id.clock > current.id.clock {
        needsSort := needsSort + {client};
      }
      groups := groups[client := group + [current]];
      GroupedStep(structs, i, before, marked, current, groups, needsSort);
    }
    assert structs[..|structs|] == structs;
    GroupedDone(structs, groups, needsSort);
    groups := SortMarked(groups, needsSort);
  }

  lemma GroupedDone(structs: seq<Struct>, groups: Blocks, needsSort: set<u32>)
    requires Grouped(structs, groups, needsSort)
    ensures SortMarked(groups, needsSort) == Group(structs)
  {
    forall k | k in groups && k !in needsSort
      ensures SortByClock(groups[k]) == groups[k]
    {
      SortAscending(groups[k]);
    }
  }

  lemma {:induction false} NoneOfClient(structs: seq<Struct>, client: u32)
    requires client !in ClientsOf(structs)
    ensures OfClient(structs, client) == []
  {
    if structs != [] {
      assert structs[0] in structs;
      assert client !in ClientsOf(structs[1..]) by {
        assert forall s :: s in structs[1..] ==> s in structs;
      }
      NoneOfClient(structs[1..], client);
    }
  }

  // ----- The order of clients does not matter -----

  /** The lists of the clients in `order`, one after the other. */
  function Flatten(order: seq<u32>, b: Blocks): seq<Struct>
    requires forall k :: k in order ==> k in b
  {
    if order == [] then [] else b[order[0]] + Flatten(order[1..], b)
  }

  predicate Distinct(order: seq<u32>) {
    forall i, j :: 0 <= i < j < |order| ==> order[i] != order[j]
  }

  lemma {:induction false} ChainAscending(client: u32, l: seq<Struct>)
    requires Chain(client, l)
    ensures Ascending(l) && OfClient(l, client) == l
    ensures forall s :: s in l ==> s.id.client == client
  {
    if l != [] {
      ChainAscending(client, l[1..]);
    }
  }

  lemma {:induction false} OfOtherClient(client: u32, l: seq<Struct>, k: u32)
    requires Chain(client, l) && k != client
    ensures OfClient(l, k) == []
  {
    if l != [] {
      OfOtherClient(client, l[1..], k);
    }
  }

  lemma ClientsConcat(a: seq<Struct>, b: seq<Struct>)
    ensures ClientsOf(a + b) == ClientsOf(a) + ClientsOf(b)
  {
    assert forall s :: s in a + b <==> s in a || s in b;
  }

  lemma ClientsOfChain(client: u32, l: seq<Struct>)
    requires Chain(client, l) && l != []
    ensures ClientsOf(l) == {client}
  {
    ChainAscending(client, l);
    assert l[0] in l;
  }

  lemma {:induction false} FlattenOfClient(order: seq<u32>, b: Blocks, k: u32)
    requires Distinct(order) && (forall c :: c in order ==> c in b) && WellFormedBlocks(b)
    ensures OfClient(Flatten(order, b), k) == if k in order then b[k] else []
    ensures k in ClientsOf(Flatten(order, b)) <==> k in order
  {
    if order != [] {
      var first := order[0];
      assert WellFormed(first, b[first]);
      hide ClientsOf, OfClient, Chain;
      FlattenOfClient(order[1..], b, k);
      OfClientConcat(b[first], Flatten(order[1..], b), k);
      ClientsConcat(b[first], Flatten(order[1..], b));
      ClientsOfChain(first, b[first]);
      ChainAscending(first, b[first]);
      if k != first {
        OfOtherClient(first, b[first], k);
      }
    }
  }

  /** However a map of lists is written out, grouping gives the map back. */
  lemma GroupOfFlatten(order: seq<u32>, b: Blocks)
    requires Distinct(order) && WellFormedBlocks(b)
    requires forall c :: c in order <==> c in b
    ensures Group(Flatten(order, b)) == b
  {
    hide Distinct, Flatten, WellFormedBlocks, Group;
    var g := Group(Flatten(order, b));
    forall k: u32
      ensures k in g <==> k in b
      ensures k in g ==> g[k] == b[k]
    {
      GroupAt(order, b, k);
    }
    assert g.Keys == b.Keys;
  }

  lemma GroupAt(order: seq<u32>, b: Blocks, k: u32)
    requires Distinct(order) && WellFormedBlocks(b)
    requires forall c :: c in order <==> c in b
    ensures k in Group(Flatten(order, b)) <==> k in b
    ensures k in b ==> Group(Flatten(order, b))[k] == b[k]
  {
    hide ClientsOf, OfClient, SortByClock, Ascending, Flatten, Distinct, Chain, HasUnits;
    FlattenOfClient(order, b, k);
    if k in b {
      assert WellFormed(k, b[k]);
      ChainAscending(k, b[k]);
      SortAscending(b[k]);
    }
  }

  // ----- Merging block sets -----

  /** A struct of the list that holds units begins or ends here. */
  ghost predicate Edge(l: seq<Struct>, n: nat) {
    exists i :: 0 <= i < |l| && !l[i].Skip? && (l[i].id.clock == n || l[i].End() == n)
  }

  lemma EdgesOf(l: seq<Struct>, i: nat)
    requires i < |l| && !l[i].Skip?
    ensures Edge(l, l[i].id.clock) && Edge(l, l[i].End())
  {
  }

  ghost function ListSource(client: u32, l: seq<Struct>): Source {
    (id: ID) => if id.client == client then FullAt(l, id.clock) else None
  }

  ghost function PairCuts(client: u32, a: seq<Struct>, b: seq<Struct>): Cuts {
    (id: ID) => id.client == client && (Edge(a, id.clock) || Edge(b, id.clock))
  }

  ghost function Pair(client: u32, a: seq<Struct>, b: seq<Struct>): Struct -> bool {
    From([ListSource(client, a), ListSource(client, b)], PairCuts(client, a, b))
  }

  lemma PairHas(client: u32, a: seq<Struct>, b: seq<Struct>, ok: Struct -> bool, cuts: Cuts)
    requires WellFormed(client, a) && WellFormed(client, b)
    requires Survives(ok, cuts) && AllOf(a, ok) && AllOf(b, ok)
    ensures Survives(Joint(ok, Pair(client, a, b)), PairCuts(client, a, b))
    ensures AllOf(a, Joint(ok, Pair(client, a, b))) && AllOf(b, Joint(ok, Pair(client, a, b)))
  {
    hide FullAt, UnitsFrom, SliceStruct, Chain, HasUnits, FullStructAt;
    var sources, narrow := [ListSource(client, a), ListSource(client, b)], PairCuts(client, a, b);
    forall i | 0 <= i < |a|
      ensures Pair(client, a, b)(a[i])
      ensures !a[i].Skip? ==> CutAt(cuts, client, a[i].id.clock) && CutAt(cuts, client, a[i].End())
    {
      ChainSuffix(client, a, i);
      if !a[i].Skip? {
        EndsAtCuts(a[i], ok, cuts);
        OwnUnits(client, a, i, sources, 0, narrow);
        EdgesOf(a, i);
      }
    }
    forall i | 0 <= i < |b|
      ensures Pair(client, a, b)(b[i])
      ensures !b[i].Skip? ==> CutAt(cuts, client, b[i].id.clock) && CutAt(cuts, client, b[i].End())
    {
      ChainSuffix(client, b, i);
      if !b[i].Skip? {
        EndsAtCuts(b[i], ok, cuts);
        OwnUnits(client, b, i, sources, 1, narrow);
        EdgesOf(b, i);
      }
    }
    FromSurvives(sources, narrow);
    hide Survives;
    NarrowSurvives(ok, cuts, Pair(client, a, b), narrow);
  }

  /** Every unit is that of one list, but for halves of pairs that an edge of
      either list cuts off. */
  ghost predicate FullUnion(client: u32, out: seq<Struct>, a: seq<Struct>, b: seq<Struct>) {
    forall c: u32 :: FullAt(out, c).Some? ==>
      FromOne([ListSource(client, a), ListSource(client, b)], PairCuts(client, a, b), ID(client, c), FullAt(out, c))
  }

  lemma PairGives(client: u32, out: seq<Struct>, a: seq<Struct>, b: seq<Struct>, ok: Struct -> bool)
    requires Chain(client, out) && AllOf(out, Joint(ok, Pair(client, a, b)))
    ensures AllOf(out, ok) && FullUnion(client, out, a, b)
  {
    hide FullAt, UnitsFrom, Chain, FromOne;
    var sources, narrow := [ListSource(client, a), ListSource(client, b)], PairCuts(client, a, b);
    forall i | 0 <= i < |out|
      ensures UnitsFrom(out[i], sources, narrow)
    {
      FromHasUnits(out[i], sources, narrow);
    }
    forall c: u32 | FullAt(out, c).Some?
      ensures FromOne(sources, narrow, ID(client, c), FullAt(out, c))
    {
      ListFrom(client, out, sources, narrow, c);
    }
  }

  lemma PairTurned(client: u32, out: seq<Struct>, a: seq<Struct>, b: seq<Struct>)
    requires FullUnion(client, out, a, b)
    ensures FullUnion(client, out, b, a)
  {
    hide FullAt, Edge, Preserved;
    var x, y := [ListSource(client, a), ListSource(client, b)], [ListSource(client, b), ListSource(client, a)];
    var cuts, turned := PairCuts(client, a, b), PairCuts(client, b, a);
    forall c: u32 | FullAt(out, c).Some?
      ensures FromOne(y, turned, ID(client, c), FullAt(out, c))
    {
      var id := ID(client, c);
      assert FromOne(x, cuts, id, FullAt(out, c));
      var i :| 0 <= i < |x| && x[i](id).Some? && Preserved(x[i](id), FullAt(out, c), cuts(id), CutAfter(cuts, id));
      assert y[1 - i](id) == x[i](id) && cuts(id) == turned(id) && CutAfter(cuts, id) == CutAfter(turned, id);
    }
  }

  /** Two lists without a unit that overlap: nothing is left of them. */
  predicate Vanishing(a: seq<Struct>, b: seq<Struct>) {
    && a != [] && b != [] && !HasUnits(a) && !HasUnits(b)
    && a[0].id.clock < ListEnd(b) && b[0].id.clock < ListEnd(a)
  }

  /** Two lists without a unit leave Skips from their first start to their last
      end. */
  ghost predicate SkipsBetween(out: seq<Struct>, a: seq<Struct>, b: seq<Struct>)
    requires a != [] && b != []
  {
    !HasUnits(a) && !HasUnits(b) && out != [] ==>
      && out[0].id.clock == Min(a[0].id.clock, b[0].id.clock)
      && ListEnd(out) == Max(ListEnd(a), ListEnd(b))
  }

  lemma ListExtent(client: u32, l: seq<Struct>)
    requires WellFormed(client, l)
    ensures l[0].id.clock < ListEnd(l)
    ensures l[|l| - 1].id.client == client && l[|l| - 1].End() == ListEnd(l) <= LINE
  {
    ChainBounds(client, l, 0);
    ChainSuffix(client, l, |l| - 1);
  }

  /** The merge of two lists of one client: disjoint or overlapping. */
  method MergeClientLists(client: u32, current: seq<Struct>, refs: seq<Struct>, ghost ok: Struct -> bool,
        ghost cuts: Cuts)
    returns (out: seq<Struct>)
    requires WellFormed(client, current) && WellFormed(client, refs)
    requires Survives(ok, cuts) && AllOf(current, ok) && AllOf(refs, ok)
    ensures Chain(client, out) && IsUnion(out, current, refs) && AllOf(out, ok)
    ensures FullUnion(client, out, current, refs)
    ensures out == [] <==> Vanishing(current, refs)
    ensures SkipsBetween(out, current, refs)
  {
    var left, right := current, refs;
    if current[0].id.clock >= refs[0].id.clock {
      left, right := refs, current;
    }
    PairHas(client, left, right, ok, cuts);
    ghost var both, narrow := Joint(ok, Pair(client, left, right)), PairCuts(client, left, right);
    ListExtent(client, left);
    ListExtent(client, right);
    hide Survives, AllOf, FullUnion, Joint, Pair, PairCuts, Chain, HasUnits, ListEnd, IsUnion;
    var gap := right[0].id.clock - left[|left| - 1].End();
    if gap >= 0 {
      out := MergeDisjoint(client, left, right, gap, both, narrow);
    } else {
      out := MergeOverlapping(client, left, right, both, narrow);
    }
    PairGives(client, out, left, right, ok);
    if left != current {
      PairTurned(client, out, left, right);
    }
    UnionTurned(out, left, right);
  }

  lemma UnionTurned(out: seq<Struct>, left: seq<Struct>, right: seq<Struct>)
    requires IsUnion(out, left, right)
    ensures IsUnion(out, right, left)
  {
    hide At;
    forall c: nat
      ensures Picks(At(out, c), At(right, c), At(left, c))
    {
      assert Picks(At(out, c), At(left, c), At(right, c));
    }
  }

  /** Clients still to do are untouched; the others hold the union of both
      sides, each unit taken from one of them. */
  ghost predicate Inserted(start: Blocks, added: Blocks, todo: set<u32>, now: Blocks) {
    && WellFormedBlocks(now) && now.Keys == start.Keys + (added.Keys - todo)
    && (forall k :: k in now && (k in todo || k !in added) ==> now[k] == start[k])
    && (forall id: ID :: id.client !in todo ==> Picks(UnitOf(now, id), UnitOf(start, id), UnitOf(added, id)))
  }

  lemma InsertedStep(start: Blocks, added: Blocks, todo: set<u32>, now: Blocks, client: u32, l: seq<Struct>)
    requires Inserted(start, added, todo, now) && client in todo && client in added
    requires WellFormed(client, l)
    requires forall c: u32 ::
               Picks(At(l, c), UnitOf(start, ID(client, c)), UnitOf(added, ID(client, c)))
    ensures Inserted(start, added, todo - {client}, now[client := l])
  {
    var next := now[client := l];
    forall id: ID | id.client !in todo - {client}
      ensures Picks(UnitOf(next, id), UnitOf(start, id), UnitOf(added, id))
    {
      if id.client == client {
        assert id == ID(client, id.clock);
      } else {
        assert UnitOf(next, id) == UnitOf(now, id);
      }
    }
  }

  lemma UnionUnits(start: Blocks, added: Blocks, client: u32, l: seq<Struct>)
    requires client in added
    requires if client in start then IsUnion(l, start[client], added[client]) else l == added[client]
    ensures forall c: u32 :: Picks(At(l, c), UnitOf(start, ID(client, c)), UnitOf(added, ID(client, c)))
  {
  }

  /** Every struct of every list has the property. */
  ghost predicate AllIn(b: Blocks, ok: Struct -> bool) {
    forall k :: k in b ==> AllOf(b[k], ok)
  }

  lemma AllInSet(b: Blocks, client: u32, l: seq<Struct>, ok: Struct -> bool)
    requires AllIn(b, ok) && AllOf(l, ok)
    ensures AllIn(b[client := l], ok)
  {
  }

  lemma InsertedStart(start: Blocks, added: Blocks)
    requires WellFormedBlocks(start)
    ensures Inserted(start, added, added.Keys, start)
  {
  }

  /** A client still to do has the list it had at the start. */
  lemma InsertedAt(start: Blocks, added: Blocks, todo: set<u32>, now: Blocks, client: u32)
    requires Inserted(start, added, todo, now) && client in todo && todo <= added.Keys
    ensures client in now <==> client in start
    ensures client in now ==> now[client] == start[client] && WellFormed(client, now[client])
  {
  }

  // ----- Clients of which nothing is left -----

  /** What has become of a client's lists: no list yet, one with units, Skips over
      a stretch of clocks, or nothing at all. */
  datatype Extent = Absent | Solid | Bare(from: nat, to: nat) | Vanished

  function Mixed(f: Extent, b: Blocks, k: u32): Extent {
    if k !in b || b[k] == [] || f.Vanished? then f
    else if f.Solid? || HasUnits(b[k]) then Solid
    else
      var from, to := b[k][0].id.clock, ListEnd(b[k]);
      if f.Absent? then Bare(from, to)
      else if from < f.to && f.from < to then Vanished
      else Bare(Min(f.from, from), Max(f.to, to))
  }

  predicate Spans(b: Blocks, k: u32, f: Extent) {
    match f
    case Absent => k !in b
    case Solid => k in b && HasUnits(b[k])
    case Bare(from, to) => k in b && b[k] != [] && !HasUnits(b[k]) && b[k][0].id.clock == from && ListEnd(b[k]) == to
    case Vanished => false
  }

  lemma UnionHasUnits(client: u32, out: seq<Struct>, a: seq<Struct>, b: seq<Struct>)
    requires Chain(client, out) && Chain(client, a) && Chain(client, b) && IsUnion(out, a, b)
    ensures HasUnits(out) <==> HasUnits(a) || HasUnits(b)
  {
    hide Chain, HasUnits, At;
    if HasUnits(a) {
      var c := SomeUnit(client, a);
      assert Picks(At(out, c), At(a, c), At(b, c));
      UnitMeansNonSkip(out, c);
    } else if HasUnits(b) {
      var c := SomeUnit(client, b);
      assert Picks(At(out, c), At(a, c), At(b, c));
      UnitMeansNonSkip(out, c);
    } else if HasUnits(out) {
      var c := SomeUnit(client, out);
      assert Picks(At(out, c), At(a, c), At(b, c));
      if At(a, c).Some? {
        UnitMeansNonSkip(a, c);
      } else {
        UnitMeansNonSkip(b, c);
      }
      assert false;
    }
  }

  /** A client's list and the next one, before and after they are merged. */
  lemma SpansNext(b: Blocks, added: Blocks, k: u32, f: Extent, l: seq<Struct>)
    requires Spans(b, k, f) && k in added && WellFormed(k, added[k]) && !Mixed(f, added, k).Vanished?
    ensures k in b && b[k] != [] ==> !Vanishing(b[k], added[k])
    ensures k !in b && l == added[k] ==> Spans(b[k := l], k, Mixed(f, added, k))
    ensures (&& k in b && WellFormed(k, b[k]) && WellFormed(k, l) && IsUnion(l, b[k], added[k])
             && SkipsBetween(l, b[k], added[k])) ==>
              Spans(b[k := l], k, Mixed(f, added, k))
  {
    if k in b && WellFormed(k, b[k]) && WellFormed(k, l) && IsUnion(l, b[k], added[k]) {
      UnionHasUnits(k, l, b[k], added[k]);
    }
    hide Chain, HasUnits, IsUnion, ListEnd;
  }

  /** Where each client stands while some are still to do. */
  ghost predicate SpansAll(b: Blocks, added: Blocks, todo: set<u32>, fates: u32 -> Extent) {
    forall k: u32 :: Spans(b, k, if k in todo then fates(k) else Mixed(fates(k), added, k))
  }

  lemma SpansStart(b: Blocks, added: Blocks, fates: u32 -> Extent)
    requires forall k: u32 :: Spans(b, k, fates(k))
    ensures SpansAll(b, added, added.Keys, fates)
  {
    hide Spans;
    assert forall k: u32 :: k !in added.Keys ==> Mixed(fates(k), added, k) == fates(k);
  }

  lemma SpansStep(b: Blocks, added: Blocks, todo: set<u32>, fates: u32 -> Extent, k: u32, l: seq<Struct>)
    requires SpansAll(b, added, todo, fates) && k in todo && Spans(b[k := l], k, Mixed(fates(k), added, k))
    ensures SpansAll(b[k := l], added, todo - {k}, fates)
  {
    hide Mixed;
    forall j: u32
      ensures Spans(b[k := l], j, if j in todo - {k} then fates(j) else Mixed(fates(j), added, j))
    {
      if j != k {
        assert Spans(b, j, if j in todo then fates(j) else Mixed(fates(j), added, j));
        SpansSame(b, b[k := l], j, if j in todo then fates(j) else Mixed(fates(j), added, j));
      }
    }
  }

  lemma SpansSame(a: Blocks, b: Blocks, k: u32, f: Extent)
    requires Spans(a, k, f) && (k in a <==> k in b) && (k in a ==> a[k] == b[k])
    ensures Spans(b, k, f)
  {
  }

  lemma SpansOf(b: Blocks, added: Blocks, todo: set<u32>, fates: u32 -> Extent, k: u32)
    requires SpansAll(b, added, todo, fates) && k in todo
    ensures Spans(b, k, fates(k))
  {
  }

  lemma Remains(client: u32, current: seq<Struct>, l: seq<Struct>)
    requires WellFormed(client, current) && Chain(client, l)
    ensures current != [] && (l != [] ==> WellFormed(client, l))
  {
  }

  lemma SpansEnd(b: Blocks, added: Blocks, fates: u32 -> Extent)
    requires SpansAll(b, added, {}, fates)
    ensures forall k: u32 :: Spans(b, k, Mixed(fates(k), added, k))
  {
    hide Spans, Mixed;
  }

  class BlockSet {
    var clients: Blocks

    constructor ()
      ensures clients == map[]
    {
      clients := map[];
    }

    /** Takes in the lists of `other`, clients in no particular order. */
    method InsertInto(other: Blocks, ghost ok: Struct -> bool, ghost cuts: Cuts, ghost fates: u32 -> Extent)
      requires WellFormedBlocks(clients) && WellFormedBlocks(other)
      requires forall k: u32 :: Spans(clients, k, fates(k)) && !Mixed(fates(k), other, k).Vanished?
      requires Survives(ok, cuts) && AllIn(clients, ok) && AllIn(other, ok)
      modifies this
      ensures Inserted(old(clients), other, {}, clients) && AllIn(clients, ok)
      ensures forall k: u32 :: Spans(clients, k, Mixed(fates(k), other, k))
    {
      ghost var start := clients;
      var todo := other.Keys;
      InsertedStart(start, other);
      SpansStart(start, other, fates);
      hide WellFormed, IsUnion, At, UnitOf, Survives, AllOf, Inserted, FullUnion, Vanishing, SkipsBetween, Spans, Mixed,
          SpansAll, Chain;
      while todo != {}
        invariant AllIn(clients, ok)
        invariant todo <= other.Keys && Inserted(start, other, todo, clients)
        invariant SpansAll(clients, other, todo, fates)
        decreases todo
      {
        var client :| client in todo;
        var l := other[client];
        InsertedAt(start, other, todo, clients, client);
        SpansOf(clients, other, todo, fates, client);
        SpansNext(clients, other, client, fates(client), l);
        if client in clients {
          l := MergeClientLists(client, clients[client], other[client], ok, cuts);
          Remains(client, clients[client], l);
          SpansNext(clients, other, client, fates(client), l);
        }
        SpansStep(clients, other, todo, fates, client, l);
        UnionUnits(start, other, client, l);
        InsertedStep(start, other, todo, clients, client, l);
        AllInSet(clients, client, l, ok);
        clients := clients[client := l];
        todo := todo - {client};
      }
      SpansEnd(clients, other, fates);
    }
  }

  // ----- Folding any number of updates -----

  datatype Entry = Entry(blocks: Blocks, deletes: RangeMap)

  predicate WellFormedEntry(e: Entry) {
    WellFormedBlocks(e.blocks) && NormalMap(e.deletes)
  }

  /** `m` holds exactly the units and deletions of the entries, each unit from
      one of them. */
  ghost predicate MergeOf(m: Entry, es: seq<Entry>) {
    && WellFormedEntry(m)
    && (forall id: ID :: UnitOf(m.blocks, id).Some? <==> exists i :: 0 <= i < |es| && UnitOf(es[i].blocks, id).Some?)
    && (forall id: ID :: UnitOf(m.blocks, id).Some? ==>
          exists i :: 0 <= i < |es| && UnitOf(es[i].blocks, id) == UnitOf(m.blocks, id))
    && (forall client: u32, c: int :: Member(m.deletes, client, c) <==>
          exists i :: 0 <= i < |es| && Member(es[i].deletes, client, c))
  }

  lemma MergeOfStep(m: Entry, es: seq<Entry>, e: Entry, next: Entry)
    requires MergeOf(m, es) && WellFormedEntry(next)
    requires forall id: ID :: Picks(UnitOf(next.blocks, id), UnitOf(m.blocks, id), UnitOf(e.blocks, id))
    requires forall client: u32, c: int :: Member(next.deletes, client, c) <==>
               Member(m.deletes, client, c) || Member(e.deletes, client, c)
    ensures MergeOf(next, es + [e])
  {
    var more := es + [e];
    forall id: ID
      ensures UnitOf(next.blocks, id).Some? <==> exists i :: 0 <= i < |more| && UnitOf(more[i].blocks, id).Some?
      ensures UnitOf(next.blocks, id).Some? ==>
                exists i :: 0 <= i < |more| && UnitOf(more[i].blocks, id) == UnitOf(next.blocks, id)
    {
      UnitStep(m, es, e, next, id);
    }
    forall client: u32, c: int
      ensures Member(next.deletes, client, c) <==> exists i :: 0 <= i < |more| && Member(more[i].deletes, client, c)
    {
      if Member(m.deletes, client, c) {
        var i :| 0 <= i < |es| && Member(es[i].deletes, client, c);
        assert more[i] == es[i];
      } else if Member(e.deletes, client, c) {
        assert more[|es|] == e;
      }
    }
  }

  lemma UnitStep(m: Entry, es: seq<Entry>, e: Entry, next: Entry, id: ID)
    requires MergeOf(m, es)
    requires Picks(UnitOf(next.blocks, id), UnitOf(m.blocks, id), UnitOf(e.blocks, id))
    ensures var more := es + [e];
            && (UnitOf(next.blocks, id).Some? <==> exists i :: 0 <= i < |more| && UnitOf(more[i].blocks, id).Some?)
            && (UnitOf(next.blocks, id).Some? ==>
                  exists i :: 0 <= i < |more| && UnitOf(more[i].blocks, id) == UnitOf(next.blocks, id))
  {
    var more := es + [e];
    assert more[|es|] == e;
    if UnitOf(m.blocks, id).Some? {
      var i :| 0 <= i < |es| && UnitOf(es[i].blocks, id) == UnitOf(m.blocks, id);
      assert more[i] == es[i];
    }
  }

  function DeletesOf(es: seq<Entry>): seq<RangeMap> {
    seq(|es|, i requires 0 <= i < |es| => es[i].deletes)
  }

  lemma DeletesHeld(m: Entry, es: seq<Entry>, n: nat)
    requires n <= |es| && MergeOf(m, es[..n])
    ensures HoldsAll(m.deletes, DeletesOf(es)[..n])
  {
    hide Member, WellFormedEntry, UnitOf;
    var maps := DeletesOf(es)[..n];
    assert forall i :: 0 <= i < n ==> maps[i] == es[..n][i].deletes;
  }

  /** The deletions of all entries leave some clock free for every client, or
      there is no merge at all. */
  lemma MergeNeedsRoom(m: Entry, es: seq<Entry>)
    requires MergeOf(m, es)
    ensures RoomIn(DeletesOf(es))
  {
    assert es[..|es|] == es && DeletesOf(es)[..|es|] == DeletesOf(es);
    DeletesHeld(m, es, |es|);
    hide HoldsAll, RoomIn, NormalMap, WellFormedBlocks;
    RoomNeeded(m.deletes, DeletesOf(es));
  }

  /** One entry folded in: blocks and deletions both hold the union. */
  lemma EntryInserted(m: Entry, e: Entry, next: Entry)
    requires WellFormedEntry(m) && WellFormedEntry(e) && Inserted(m.blocks, e.blocks, {}, next.blocks)
    requires NormalMap(next.deletes) && MergedSoFar(m.deletes, e.deletes, {}, next.deletes)
    ensures WellFormedEntry(next)
    ensures forall id: ID :: Picks(UnitOf(next.blocks, id), UnitOf(m.blocks, id), UnitOf(e.blocks, id))
    ensures forall client: u32, c: int :: Member(next.deletes, client, c) <==>
              Member(m.deletes, client, c) || Member(e.deletes, client, c)
  {
  }

  lemma FoldStep(m: Entry, es: seq<Entry>, i: nat, next: Entry)
    requires i < |es| && MergeOf(m, es[..i]) && WellFormedEntry(es[i])
    requires Inserted(m.blocks, es[i].blocks, {}, next.blocks)
    requires NormalMap(next.deletes) && MergedSoFar(m.deletes, es[i].deletes, {}, next.deletes)
    ensures MergeOf(next, es[..i + 1])
  {
    assert es[..i + 1] == es[..i] + [es[i]];
    EntryInserted(m, es[i], next);
    hide MergeOf, WellFormedEntry, Inserted, NormalMap, MergedSoFar, UnitOf, Member;
    MergeOfStep(m, es[..i], es[i], next);
  }

  // ----- Folding, every code unit told apart -----

  ghost function EntrySources(es: seq<Entry>): seq<Source> {
    seq(|es|, i requires 0 <= i < |es| => (id: ID) => FullUnitOf(es[i].blocks, id))
  }

  /** Cuts of a merge are edges of structs of what is merged. */
  ghost predicate EdgeOf(es: seq<Entry>, id: ID) {
    exists i :: 0 <= i < |es| && id.client in es[i].blocks && Edge(es[i].blocks[id.client], id.clock)
  }

  ghost function EntryCuts(es: seq<Entry>): Cuts {
    (id: ID) => EdgeOf(es, id)
  }

  ghost function FromEntries(es: seq<Entry>): Struct -> bool {
    From(EntrySources(es), EntryCuts(es))
  }

  /** Every unit of `m` is that of one entry, but for halves of pairs that an
      edge of some entry's struct cuts off. */
  ghost predicate FullMergeOf(m: Entry, es: seq<Entry>) {
    forall id: ID :: FullUnitOf(m.blocks, id).Some? ==>
      FromOne(EntrySources(es), EntryCuts(es), id, FullUnitOf(m.blocks, id))
  }

  lemma EntryHas(es: seq<Entry>, k: nat)
    requires k < |es| && WellFormedBlocks(es[k].blocks)
    ensures AllIn(es[k].blocks, FromEntries(es))
  {
    var b, sources, cuts := es[k].blocks, EntrySources(es), EntryCuts(es);
    hide FullAt, UnitsFrom, Chain, HasUnits;
    forall client, i | client in b && 0 <= i < |b[client]|
      ensures FromEntries(es)(b[client][i])
    {
      assert WellFormed(client, b[client]);
      ChainSuffix(client, b[client], i);
      OwnUnits(client, b[client], i, sources, k, cuts);
      if !b[client][i].Skip? {
        EdgesOf(b[client], i);
      }
    }
  }

  lemma EntriesGive(m: Entry, es: seq<Entry>, ok: Struct -> bool)
    requires WellFormedBlocks(m.blocks) && AllIn(m.blocks, Joint(ok, FromEntries(es)))
    ensures AllIn(m.blocks, ok) && FullMergeOf(m, es)
  {
    var b, sources, cuts := m.blocks, EntrySources(es), EntryCuts(es);
    hide FullAt, UnitsFrom, Chain, HasUnits, FromOne, EntrySources, EntryCuts;
    forall id: ID | FullUnitOf(b, id).Some?
      ensures FromOne(sources, cuts, id, FullUnitOf(b, id))
    {
      var l := b[id.client];
      assert WellFormed(id.client, l) && AllOf(l, Joint(ok, FromEntries(es)));
      forall i | 0 <= i < |l|
        ensures UnitsFrom(l[i], sources, cuts)
      {
        FromHasUnits(l[i], sources, cuts);
      }
      ListFrom(id.client, l, sources, cuts, id.clock);
    }
    forall k | k in b
      ensures AllOf(b[k], ok)
    {
      assert AllOf(b[k], Joint(ok, FromEntries(es)));
    }
  }

  lemma AllInJoint(b: Blocks, f: Struct -> bool, g: Struct -> bool)
    requires AllIn(b, f) && AllIn(b, g)
    ensures AllIn(b, Joint(f, g))
  {
  }

  /** The next entry can be folded in. */
  lemma NextEntry(m: Entry, es: seq<Entry>, i: nat, ok: Struct -> bool)
    requires i < |es| && MergeOf(m, es[..i]) && RoomIn(DeletesOf(es)) && WellFormedEntry(es[i])
          && AllIn(es[i].blocks, ok)
    ensures WellFormedBlocks(m.blocks) && NormalMap(m.deletes) && UnionLeavesRoom(m.deletes, es[i].deletes)
    ensures AllIn(es[i].blocks, Joint(ok, FromEntries(es)))
  {
    MergeOfParts(m, es[..i]);
    DeletesHeld(m, es, i);
    hide MergeOf, RoomIn, UnionLeavesRoom, HoldsAll, NormalMap, FromEntries;
    RoomForNext(DeletesOf(es), i, m.deletes);
    EntryHas(es, i);
    AllInJoint(es[i].blocks, ok, FromEntries(es));
  }

  /** What has become of a client after the first entries: once nothing is left
      of it, the next list would be merged into an empty one. */
  function Fate(es: seq<Entry>, n: nat, k: u32): Extent
    requires n <= |es|
  {
    if n == 0 then Absent else Mixed(Fate(es, n - 1, k), es[n - 1].blocks, k)
  }

  ghost predicate NoneVanish(es: seq<Entry>) {
    forall k: u32 :: !Fate(es, |es|, k).Vanished?
  }

  lemma {:induction false} FateStays(es: seq<Entry>, n: nat, m: nat, k: u32)
    requires n <= m <= |es| && !Fate(es, m, k).Vanished?
    ensures !Fate(es, n, k).Vanished?
    decreases m - n
  {
    if n < m {
      FateStays(es, n, m - 1, k);
    }
  }

  /** Nothing can vanish of clients whose lists all have a unit. */
  lemma {:induction false} UnitsStay(es: seq<Entry>, n: nat, k: u32)
    requires n <= |es| && forall i :: 0 <= i < |es| && k in es[i].blocks ==> HasUnits(es[i].blocks[k])
    ensures Fate(es, n, k) in {Absent, Solid}
  {
    if n > 0 {
      UnitsStay(es, n - 1, k);
      hide HasUnits;
    }
  }

  /** Two overlapping Skips of one client, and a third list after them. */
  lemma SkipsVanish(third: Entry)
    ensures var first := Entry(map[1 := [Skip(ID(1, 0), 2)]], map[]);
            var second := Entry(map[1 := [Skip(ID(1, 1), 2)]], map[]);
            && WellFormedEntry(first) && WellFormedEntry(second)
            && Vanishing(first.blocks[1], second.blocks[1]) && !NoneVanish([first, second, third])
  {
    var first := Entry(map[1 := [Skip(ID(1, 0), 2)]], map[]);
    var second := Entry(map[1 := [Skip(ID(1, 1), 2)]], map[]);
    var es := [first, second, third];
    assert Fate(es, 0, 1) == Absent;
    assert Fate(es, 1, 1) == Bare(0, 2);
    assert Fate(es, 2, 1) == Vanished;
    assert Fate(es, 3, 1) == Vanished;
  }

  /** mergeDecodedUpdatesV1: fold the entries, in the order given. What every
      struct has and cutting keeps, every struct of the merge has. */
  method MergeDecoded(entries: seq<Entry>, ghost ok: Struct -> bool) returns (out: Entry)
    requires forall i :: 0 <= i < |entries| ==> WellFormedEntry(entries[i])
    requires RoomIn(DeletesOf(entries)) && NoneVanish(entries)
    requires ClosedUnderCuts(ok) && forall i :: 0 <= i < |entries| ==> AllIn(entries[i].blocks, ok)
    ensures MergeOf(out, entries) && AllIn(out.blocks, ok)
    ensures FullMergeOf(out, entries)
  {
    var blocks := new BlockSet();
    var deletes := new IdSet();
    MergeOfNone();
    ghost var cuts, both := EntryCuts(entries), Joint(ok, FromEntries(entries));
    FromSurvives(EntrySources(entries), cuts);
    JointSurvive(ok, FromEntries(entries), cuts);
    assert AllIn(map[], both);
    hide NoneVanish, Spans, Mixed, Fate, UnionLeavesRoom, RoomIn, HoldsAll, DeletesOf, UnitOf, NormalMap,
        WellFormedBlocks, Inserted, MergedSoFar,
        Survives, AllIn, MergeOf, FullMergeOf,
         Joint, FromEntries, EntryCuts, ClosedUnderCuts;
    for i := 0 to |entries|
      invariant fresh(blocks) && fresh(deletes) && AllIn(blocks.clients, both)
      invariant MergeOf(Entry(blocks.clients, deletes.clients), entries[..i])
      invariant SpansAt(blocks.clients, entries, i)
    {
      var e := entries[i];
      ghost var before := Entry(blocks.clients, deletes.clients);
      NextEntry(before, entries, i, ok);
      ghost var fates := (k: u32) => Fate(entries, i, k);
      FatesNext(blocks.clients, entries, i, fates);
      blocks.InsertInto(e.blocks, both, cuts, fates);
      FatesAfter(blocks.clients, entries, i, fates);
      var other := new IdSet.Of(e.deletes);
      deletes.Merge(other);
      FoldStep(before, entries, i, Entry(blocks.clients, deletes.clients));
    }
    assert entries[..|entries|] == entries;
    out := Entry(blocks.clients, deletes.clients);
    MergeOfParts(out, entries);
    EntriesGive(out, entries, ok);
  }

  ghost predicate SpansAt(b: Blocks, es: seq<Entry>, n: nat)
    requires n <= |es|
  {
    forall k: u32 :: Spans(b, k, Fate(es, n, k))
  }

  lemma FatesNext(b: Blocks, es: seq<Entry>, n: nat, fates: u32 -> Extent)
    requires n < |es| && SpansAt(b, es, n) && NoneVanish(es) && forall k: u32 :: fates(k) == Fate(es, n, k)
    ensures forall k: u32 :: Spans(b, k, fates(k)) && !Mixed(fates(k), es[n].blocks, k).Vanished?
  {
    hide Spans, Mixed;
    forall k: u32
      ensures Spans(b, k, fates(k)) && !Mixed(fates(k), es[n].blocks, k).Vanished?
    {
      assert Spans(b, k, Fate(es, n, k));
      FateStays(es, n + 1, |es|, k);
      assert Fate(es, n + 1, k) == Mixed(Fate(es, n, k), es[n].blocks, k);
    }
  }

  lemma FatesAfter(b: Blocks, es: seq<Entry>, n: nat, fates: u32 -> Extent)
    requires n < |es| && forall k: u32 :: fates(k) == Fate(es, n, k) && Spans(b, k, Mixed(fates(k), es[n].blocks, k))
    ensures SpansAt(b, es, n + 1)
  {
    hide Spans, Mixed;
    var m := n + 1;
    forall k: u32
      ensures Spans(b, k, Fate(es, m, k))
    {
      assert fates(k) == Fate(es, n, k);
    }
  }

  lemma MergeOfParts(m: Entry, es: seq<Entry>)
    requires MergeOf(m, es)
    ensures WellFormedBlocks(m.blocks) && NormalMap(m.deletes)
  {
  }

  lemma MergeOfNone()
    ensures MergeOf(Entry(map[], map[]), [])
  {
  }

  predicate Agree(x: Option<Unit>, y: Option<Unit>) {
    x.Some? && y.Some? ==> x == y
  }

  /** All entries agree wherever two of them have a unit. */
  ghost predicate AllConsistent(es: seq<Entry>) {
    forall i, j, id: ID :: 0 <= i < |es| && 0 <= j < |es| ==>
      Agree(UnitOf(es[i].blocks, id), UnitOf(es[j].blocks, id))
  }

  lemma HeldByBoth(a: seq<Entry>, ma: Entry, b: seq<Entry>, mb: Entry, id: ID)
    requires MergeOf(ma, a) && MergeOf(mb, b)
    requires forall e :: e in a <==> e in b
    ensures UnitOf(ma.blocks, id).Some? ==> UnitOf(mb.blocks, id).Some?
  {
    if UnitOf(ma.blocks, id).Some? {
      var i :| 0 <= i < |a| && UnitOf(a[i].blocks, id).Some?;
      assert a[i] in b;
      var j :| 0 <= j < |b| && b[j] == a[i];
      assert UnitOf(b[j].blocks, id).Some?;
    }
  }

  lemma HeldAlike(a: seq<Entry>, ma: Entry, b: seq<Entry>, mb: Entry, id: ID)
    requires MergeOf(ma, a) && MergeOf(mb, b)
    requires forall e :: e in a <==> e in b
    requires AllConsistent(a)
    ensures Agree(UnitOf(ma.blocks, id), UnitOf(mb.blocks, id))
  {
    if UnitOf(ma.blocks, id).Some? && UnitOf(mb.blocks, id).Some? {
      var i :| 0 <= i < |a| && UnitOf(a[i].blocks, id) == UnitOf(ma.blocks, id);
      var k :| 0 <= k < |b| && UnitOf(b[k].blocks, id) == UnitOf(mb.blocks, id);
      assert b[k] in a;
      var n :| 0 <= n < |a| && a[n] == b[k];
      assert Agree(UnitOf(a[i].blocks, id), UnitOf(a[n].blocks, id));
    }
  }

  /** Two merges of the same consistent updates, in any order and with any
      repetition, hold the same units and the very same delete set. */
  lemma MergeIgnoresOrder(a: seq<Entry>, ma: Entry, b: seq<Entry>, mb: Entry)
    requires MergeOf(ma, a) && MergeOf(mb, b)
    requires forall e :: e in a <==> e in b
    requires AllConsistent(a)
    ensures forall id: ID :: UnitOf(ma.blocks, id) == UnitOf(mb.blocks, id)
    ensures ma.deletes == mb.deletes
  {
    forall id: ID
      ensures UnitOf(ma.blocks, id) == UnitOf(mb.blocks, id)
    {
      HeldByBoth(a, ma, b, mb, id);
      HeldByBoth(b, mb, a, ma, id);
      HeldAlike(a, ma, b, mb, id);
    }
    forall client: u32, c: int
      ensures Member(ma.deletes, client, c) <==> Member(mb.deletes, client, c)
    {
      DeletedSomewhere(a, b, client, c);
      DeletedSomewhere(b, a, client, c);
    }
    MapUnique(ma.deletes, mb.deletes);
  }

  lemma DeletedSomewhere(a: seq<Entry>, b: seq<Entry>, client: u32, c: int)
    requires forall e :: e in a <==> e in b
    ensures (exists i :: 0 <= i < |a| && Member(a[i].deletes, client, c)) ==>
            exists i :: 0 <= i < |b| && Member(b[i].deletes, client, c)
  {
    if i :| 0 <= i < |a| && Member(a[i].deletes, client, c) {
      assert a[i] in b;
      var j :| 0 <= j < |b| && b[j] == a[i];
      assert Member(b[j].deletes, client, c);
    }
  }
}
