/** State vectors: the V1 one counts the gap-free prefix of each client, the
    other takes the largest end. */
module StateVectors {
  import opened Prelude
  import opened Wire
  import opened Orders
  import opened Structs
  import opened Merge
  import opened Updates
  import opened UpdateV1
  import opened LazyReaderV1

  type Vector = map<u32, u32>

  /** A client that is not in the map has clock 0. */
  function ClockOf(v: Vector, client: u32): u32 {
    if client in v then v[client] else 0
  }

  // ----- The V1 vector of an update -----

  /** The loop's variables. */
  datatype Counting = Counting(client: u32, clock: u32, stop: bool, done: Vector)

  /** The client is finished: its clock is kept unless it is 0. */
  function Flush(st: Counting): Vector {
    if st.clock != 0 then st.done[st.client := st.clock] else st.done
  }

  /** Before the loop the end of the first struct is taken if it starts at 0,
      whatever kind it is. */
  function First(s: Struct): Counting {
    Counting(s.id.client, if s.id.clock != 0 then 0 else AsU32(s.End()), s.id.clock != 0, map[])
  }

  function Switch(st: Counting, s: Struct): Counting {
    if s.id.client != st.client then Counting(s.id.client, 0, s.id.clock != 0, Flush(st)) else st
  }

  function Count(st: Counting, s: Struct): Counting {
    var st1 := Switch(st, s);
    var stop := st1.stop || s.Skip?;
    st1.(stop := stop, clock := if stop then st1.clock else AsU32(s.End()))
  }

  function CountAll(st: Counting, l: seq<Struct>): Counting
    decreases |l|
  {
    if l == [] then st else CountAll(Count(st, l[0]), l[1..])
  }

  function VectorOf(l: seq<Struct>): Vector {
    if l == [] then map[] else Flush(CountAll(First(l[0]), l))
  }

  /** The loop's result over what a reader still has to show. */
  ghost function Counted(st: Counting, p: Ahead): Result<Vector> {
    match p
    case Ok((l, _)) => Ok(Flush(CountAll(st, l)))
    case Err(e) => Err(e)
  }

  lemma CountedStep(st: Counting, s: Struct, p: Ahead)
    ensures Counted(st, Prepend([s], p)) == Counted(Count(st, s), p)
  {
    if p.Ok? {
      assert ([s] + p.value.0)[1..] == p.value.0;
    }
  }

  /** stateVectorFromUpdateV1. */
  method FromUpdate(update: bytes) returns (r: Result<Vector>)
    ensures match AllStructs(update)
            case Ok((l, _)) => r == Ok(VectorOf(l))
            case Err(e) => r == Err(e)
  {
    hide AllStructs, LazyReader.Behind, CountAll;
    var start := Open(update, false);
    if start.Err? {
      return Err(start.error);
    }
    var reader := start.value;
    if reader.current.None? {
      return Ok(map[]);
    }
    var st := First(reader.current.value);
    ghost var want := Counted(st, reader.Unread());
    while reader.current.Some?
      invariant reader.Valid() && want == Counted(st, reader.Unread())
      decreases reader.remainingClients, reader.remainingStructs, reader.current.Some?
    {
      var current := reader.current.value;
      ghost var before := st;
      if current.id.client != st.client {
        st := Counting(current.id.client, 0, current.id.clock != 0, Flush(st));
      }
      if current.Skip? {
        st := st.(stop := true);
      }
      if !st.stop {
        st := st.(clock := AsU32(current.End()));
      }
      assert st == Count(before, current);
      var next := reader.Next();
      if next.Err? {
        return Err(next.error);
      }
      CountedStep(before, current, reader.Unread());
    }
    CountedNothing(st, reader.rest);
    r := Ok(Flush(st));
  }

  lemma CountedNothing(st: Counting, rest: bytes)
    ensures Counted(st, Ok(([], rest))) == Ok(Flush(st))
  {
  }

  // ----- What it counts -----

  /** The end of the first run of structs without a Skip, from `n` on. */
  function Unskipped(l: seq<Struct>, n: nat): nat {
    if l == [] || l[0].Skip? then n else Unskipped(l[1..], l[0].End())
  }

  /** The number of leading clocks, from 0, that all have a unit. */
  function GapFree(l: seq<Struct>): nat {
    if l == [] || l[0].id.clock != 0 then 0 else Unskipped(l, 0)
  }

  predicate NoSkips(l: seq<Struct>) {
    forall i :: 0 <= i < |l| ==> !l[i].Skip?
  }

  lemma {:induction false} UnskippedUnits(client: u32, l: seq<Struct>)
    requires Chain(client, l) && l != []
    ensures var n := Unskipped(l, l[0].id.clock);
            && l[0].id.clock <= n <= ListEnd(l)
            && (forall c: nat :: l[0].id.clock <= c < n ==> At(l, c).Some?)
            && At(l, n).None?
            && (n == ListEnd(l) <==> NoSkips(l))
  {
    ChainBounds(client, l, 0);
    var n := Unskipped(l, l[0].id.clock);
    if l[0].Skip? {
    } else if |l| == 1 {
      assert At(l[1..], n).None?;
    } else {
      var tail := l[1..];
      UnskippedUnits(client, tail);
      ChainBounds(client, tail, 0);
      assert NoSkips(l) <==> NoSkips(tail) by {
        assert forall i :: 0 <= i < |tail| ==> tail[i] == l[i + 1];
        assert forall i :: 0 < i < |l| ==> l[i] == tail[i - 1];
      }
      forall c: nat | l[0].id.clock <= c < n
        ensures At(l, c).Some?
      {
        assert c >= l[0].End() ==> At(l, c) == At(tail, c);
      }
    }
  }

  /** GapFree is the first clock without a unit; it is at most the end of the
      list, and equal exactly when the list starts at 0 and has no Skip. */
  lemma GapFreeExact(client: u32, l: seq<Struct>)
    requires Chain(client, l) && l != []
    ensures forall c: nat :: c < GapFree(l) ==> At(l, c).Some?
    ensures At(l, GapFree(l)).None?
    ensures GapFree(l) <= ListEnd(l)
    ensures GapFree(l) == ListEnd(l) <==> l[0].id.clock == 0 && NoSkips(l)
  {
    ChainBounds(client, l, 0);
    if l[0].id.clock == 0 {
      UnskippedUnits(client, l);
    }
  }

  /** Counting through one client's list from a given state. */
  lemma {:induction false} CountChain(client: u32, l: seq<Struct>, st: Counting)
    requires Chain(client, l) && st.client == client
    ensures var out := CountAll(st, l);
            && out.client == client && out.done == st.done
            && (st.stop ==> out.clock == st.clock)
            && (!st.stop ==> out.clock == Unskipped(l, st.clock))
  {
    if l != [] {
      ChainBounds(client, l, 0);
      CountChain(client, l[1..], Count(st, l[0]));
    }
  }

  lemma {:induction false} CountConcat(st: Counting, a: seq<Struct>, b: seq<Struct>)
    ensures CountAll(st, a + b) == CountAll(CountAll(st, a), b)
    decreases |a|
  {
    if a == [] {
      assert a + b == b;
    } else {
      assert (a + b)[1..] == a[1..] + b;
      CountConcat(Count(st, a[0]), a[1..], b);
    }
  }

  /** A new client's list counts from nothing. */
  lemma CountNext(client: u32, l: seq<Struct>, st: Counting)
    requires Chain(client, l) && l != [] && st.client != client
    ensures var out := CountAll(st, l);
            out.client == client && out.done == Flush(st) && out.clock == GapFree(l)
  {
    ChainBounds(client, l, 0);
    var st1 := Counting(client, 0, l[0].id.clock != 0, Flush(st));
    assert Count(st, l[0]) == Count(st1, l[0]);
    assert CountAll(st, l) == CountAll(st1, l);
    CountChain(client, l, st1);
  }

  /** The first struct of the update is a Skip at clock 0: its end is counted. */
  predicate SkipFirst(l: seq<Struct>) {
    l != [] && l[0].Skip? && l[0].id.clock == 0
  }

  lemma CountFirst(client: u32, l: seq<Struct>)
    requires Chain(client, l) && l != []
    ensures var out := CountAll(First(l[0]), l);
            && out.client == client && out.done == map[]
            && out.clock == if SkipFirst(l) then l[0].End() else GapFree(l)
  {
    ChainBounds(client, l, 0);
    var st := First(l[0]);
    CountChain(client, l, st);
  }

  lemma {:induction false} CountLists(order: seq<u32>, b: Blocks, st: Counting, k: u32)
    requires Distinct(order) && (forall c :: c in order ==> c in b) && WellFormedBlocks(b)
    requires st.client !in order && st.client !in st.done && forall c :: c in order ==> c !in st.done
    ensures var v := Flush(CountAll(st, Flatten(order, b)));
            ClockOf(v, k) == if k in order then GapFree(b[k]) else ClockOf(Flush(st), k)
  {
    if order != [] {
      var first := order[0];
      var l := b[first];
      assert first in order;
      CountConcat(st, l, Flatten(order[1..], b));
      CountNext(first, l, st);
      CountLists(order[1..], b, CountAll(st, l), k);
    }
  }

  ghost predicate NonZero(v: Vector) {
    forall k :: k in v ==> v[k] != 0
  }

  lemma CountKeepsNonZero(st: Counting, s: Struct)
    requires NonZero(st.done)
    ensures NonZero(Count(st, s).done)
  {
  }

  /** Only clocks other than 0 are kept. */
  lemma {:induction false} NoZeros(l: seq<Struct>, st: Counting)
    requires NonZero(st.done)
    ensures NonZero(Flush(CountAll(st, l)))
    decreases |l|
  {
    hide NonZero, Flush, Count;
    if l == [] {
      FlushNonZero(st);
    } else {
      CountKeepsNonZero(st, l[0]);
      NoZeros(l[1..], Count(st, l[0]));
    }
  }

  lemma FlushNonZero(st: Counting)
    requires NonZero(st.done)
    ensures NonZero(Flush(st))
  {
  }

  lemma VectorNonZero(l: seq<Struct>)
    ensures NonZero(VectorOf(l))
  {
    if l != [] {
      NoZeros(l, First(l[0]));
    }
  }

  /** For every client the V1 vector is the length of the gap-free prefix,
      except, and only then, for the first client when its list starts with a
      Skip at clock 0: that Skip is counted as if it were there. */
  lemma VectorExact(order: seq<u32>, b: Blocks, k: u32)
    requires Distinct(order) && (forall c :: c in order ==> c in b) && WellFormedBlocks(b)
    ensures var v := ClockOf(VectorOf(Flatten(order, b)), k);
            && (k !in order ==> v == 0)
            && (k in order ==> (v == GapFree(b[k]) <==> !(k == order[0] && SkipFirst(b[k]))))
            && (k in order && v != GapFree(b[k]) ==> v == b[k][0].End() && GapFree(b[k]) == 0)
  {
    if order != [] {
      var first := order[0];
      var l := b[first];
      assert first in order;
      ChainBounds(first, l, 0);
      var all := Flatten(order, b);
      assert all[0] == l[0];
      CountConcat(First(l[0]), l, Flatten(order[1..], b));
      CountFirst(first, l);
      CountLists(order[1..], b, CountAll(First(l[0]), l), k);
    }
  }

  // ----- The largest end of each client -----

  /** `v` holds, for every client seen, the largest end among its structs. */
  ghost predicate LargestEnds(v: Vector, l: seq<Struct>) {
    && v.Keys == ClientsOf(l)
    && (forall s :: s in l ==> s.End() <= ClockOf(v, s.id.client))
    && (forall k :: k in v ==> exists s :: s in l && s.id.client == k && s.End() == v[k])
  }

  lemma LargestStep(v: Vector, l: seq<Struct>, s: Struct)
    requires LargestEnds(v, l) && s.Valid()
    ensures LargestEnds(if s.End() > ClockOf(v, s.id.client) then v[s.id.client := s.End()] else v, l + [s])
  {
    var next := if s.End() > ClockOf(v, s.id.client) then v[s.id.client := s.End()] else v;
    var more := l + [s];
    assert s in more && forall x :: x in more <==> x in l || x == s;
    forall k | k in next
      ensures exists x :: x in more && x.id.client == k && x.End() == next[k]
    {
      if k == s.id.client && s.End() > ClockOf(v, k) {
        assert s.End() == next[k];
      } else {
        var x :| x in l && x.id.client == k && x.End() == v[k];
        assert x in more;
      }
    }
    assert next.Keys == ClientsOf(more);
  }

  /** stateVectorFromStructs. */
  method FromStructs(structs: seq<Struct>) returns (v: Vector)
    requires Sound(structs)
    ensures LargestEnds(v, structs)
  {
    v := map[];
    for i := 0 to |structs|
      invariant LargestEnds(v, structs[..i])
    {
      var current := structs[i];
      assert current in structs && structs[..i + 1] == structs[..i] + [current];
      LargestStep(v, structs[..i], current);
      if current.End() > ClockOf(v, current.id.client) {
        v := v[current.id.client := current.End()];
      }
    }
    assert structs[..|structs|] == structs;
  }

  lemma {:induction false} EndsWithin(client: u32, l: seq<Struct>)
    requires Chain(client, l) && l != []
    ensures forall s :: s in l ==> s.End() <= ListEnd(l)
  {
    ChainBounds(client, l, 0);
    if |l| > 1 {
      EndsWithin(client, l[1..]);
    }
  }

  lemma LargestOfList(client: u32, all: seq<Struct>, l: seq<Struct>, v: Vector)
    requires LargestEnds(v, all) && OfClient(all, client) == l && Chain(client, l) && l != []
    ensures ClockOf(v, client) == ListEnd(l)
  {
    EndsWithin(client, l);
    hide OfClient, Chain;
    var last := l[|l| - 1];
    assert last in l;
    MembersOfClient(all, client, last);
    assert client in v;
    var s :| s in all && s.id.client == client && s.End() == v[client];
    MembersOfClient(all, client, s);
  }

  /** On a grouped update the largest end is the end of the client's list. */
  lemma LargestIsListEnd(order: seq<u32>, b: Blocks, v: Vector, k: u32)
    requires Distinct(order) && (forall c :: c in order ==> c in b) && WellFormedBlocks(b)
    requires LargestEnds(v, Flatten(order, b))
    ensures ClockOf(v, k) == if k in order then ListEnd(b[k]) else 0
  {
    FlattenOfClient(order, b, k);
    assert k in order ==> WellFormed(k, b[k]);
    if k in order {
      LargestOfList(k, Flatten(order, b), b[k], v);
    }
  }

  /** The V1 vector is pointwise at most the largest ends, and equal for a
      client exactly when its list starts at 0 and has no Skip, or is the counted
      Skip and nothing else. */
  lemma PrefixWithinEnds(order: seq<u32>, b: Blocks, v: Vector, k: u32)
    requires Distinct(order) && (forall c :: c in order ==> c in b) && WellFormedBlocks(b)
    requires LargestEnds(v, Flatten(order, b))
    ensures var prefix := ClockOf(VectorOf(Flatten(order, b)), k);
            && prefix <= ClockOf(v, k)
            && (k in order ==> (prefix == ClockOf(v, k) <==>
                                  b[k][0].id.clock == 0 && (NoSkips(b[k]) || LoneSkip(order, b, k))))
  {
    LargestIsListEnd(order, b, v, k);
    VectorExact(order, b, k);
    if k in order {
      GapFreeExact(k, b[k]);
      ChainBounds(k, b[k], 0);
      FirstSkipEnds(k, b[k]);
    }
  }

  /** A list ends with its first struct only if that is the only one. */
  lemma FirstSkipEnds(client: u32, l: seq<Struct>)
    requires WellFormed(client, l)
    ensures l[0].Skip? ==> !NoSkips(l) && (l[0].End() == ListEnd(l) <==> |l| == 1)
  {
    if |l| > 1 {
      ChainSuffix(client, l, 1);
      ChainBounds(client, l[1..], 0);
    }
  }

  /** The first client has nothing but one Skip, which is then counted. */
  predicate LoneSkip(order: seq<u32>, b: Blocks, k: u32) {
    order != [] && order[0] == k && k in b && |b[k]| == 1 && b[k][0].Skip?
  }

  // ----- On the wire -----

  /** Entries of order[..i], from the back: ascending if `order` descends. */
  function EncEntries(order: seq<u32>, i: nat, v: Vector): bytes
    requires i <= |order|
  {
    if i == 0 then [] else VarUint(order[i - 1]) + (VarUint(ClockOf(v, order[i - 1])) + EncEntries(order, i - 1, v))
  }

  ghost function EncVector(v: Vector): bytes {
    VarUint(AsU32(|v|)) + EncEntries(Desc(v.Keys), |Desc(v.Keys)|, v)
  }

  function ReadEntries(b: bytes, n: nat, acc: Vector): Result<Vector>
    decreases n
  {
    if n == 0 then Ok(acc)
    else
      var (client, b1) :- ReadVarUint(b);
      var (clock, b2) :- ReadVarUint(b1);
      ReadEntries(b2, n - 1, acc[client := clock])
  }

  /** DecodeStateVectorV1: what follows the entries is not looked at. */
  function DecodeVector(b: bytes): Result<Vector> {
    var (n, b1) :- ReadVarUint(b);
    ReadEntries(b1, n, map[])
  }

  lemma ReadEntriesStep(b: bytes, n: nat, acc: Vector, client: u32, b1: bytes, clock: u32, b2: bytes)
    requires n > 0 && ReadVarUint(b) == Ok((client, b1)) && ReadVarUint(b1) == Ok((clock, b2))
    ensures ReadEntries(b, n, acc) == ReadEntries(b2, n - 1, acc[client := clock])
  {
  }

  /** The entries of order[i..] have been read. */
  ghost predicate EntriesRead(acc: Vector, v: Vector, order: seq<u32>, i: nat)
    requires i <= |order|
  {
    && (forall k :: k in acc <==> k in order[i..])
    && (forall k :: k in acc ==> k in v && acc[k] == v[k])
  }

  lemma {:induction false} EntriesRoundTrip(order: seq<u32>, i: nat, v: Vector, acc: Vector, rest: bytes)
    requires (forall k :: k in order <==> k in v) && i <= |order| && EntriesRead(acc, v, order, i)
    ensures ReadEntries(EncEntries(order, i, v) + rest, i, acc) == Ok(v)
  {
    hide VarUint, ReadVarUint;
    if i == 0 {
      assert order[0..] == order && acc.Keys == v.Keys;
      assert acc == v;
    } else {
      var client := order[i - 1];
      var tail := EncEntries(order, i - 1, v);
      assert client in order && order[i - 1..] == [client] + order[i..];
      Assoc(VarUint(client), VarUint(v[client]) + tail, rest);
      Assoc(VarUint(v[client]), tail, rest);
      VarUintRoundTrip(client, VarUint(v[client]) + (tail + rest));
      VarUintRoundTrip(v[client], tail + rest);
      EntriesRoundTrip(order, i - 1, v, acc[client := v[client]], rest);
      hide ReadEntries;
      ReadEntriesStep(EncEntries(order, i, v) + rest, i, acc, client, VarUint(v[client]) + (tail + rest), v[client],
          tail + rest);
    }
  }

  /** A state vector is read back exactly, whatever follows it. */
  lemma VectorRoundTrip(v: Vector, rest: bytes)
    requires |v| <= MAX_U32
    ensures DecodeVector(EncVector(v) + rest) == Ok(v)
  {
    hide VarUint, ReadEntries, EncEntries, ReadVarUint;
    var order := Desc(v.Keys);
    DescSize(v.Keys);
    assert |v.Keys| == |v|;
    assert order[|order|..] == [];
    var entries := EncEntries(order, |order|, v);
    Assoc(VarUint(AsU32(|v|)), entries, rest);
    VarUintRoundTrip(|v|, entries + rest);
    EntriesRoundTrip(order, |order|, v, map[], rest);
  }

  /** Clients and clocks as any writer may list them. */
  function SpellClocks(es: seq<(u32, u32)>): bytes {
    if es == [] then [] else VarUint(es[0].0) + (VarUint(es[0].1) + SpellClocks(es[1..]))
  }

  /** The clock listed last for the client. */
  function Latest(es: seq<(u32, u32)>, client: u32): Option<u32> {
    if es == [] then None
    else if es[|es| - 1].0 == client then Some(es[|es| - 1].1)
    else Latest(es[..|es| - 1], client)
  }

  function Collected(es: seq<(u32, u32)>, n: nat): Vector
    requires n <= |es|
  {
    if n == 0 then map[] else Collected(es, n - 1)[es[n - 1].0 := es[n - 1].1]
  }

  lemma {:induction false} CollectedLatest(es: seq<(u32, u32)>, n: nat, k: u32)
    requires n <= |es|
    ensures var v := Collected(es, n);
            (k in v <==> Latest(es[..n], k).Some?) && (k in v ==> v[k] == Latest(es[..n], k).value)
  {
    if n > 0 {
      CollectedLatest(es, n - 1, k);
      assert es[..n][..n - 1] == es[..n - 1];
    }
  }

  lemma {:induction false} ClocksSpelled(es: seq<(u32, u32)>, i: nat, rest: bytes)
    requires i <= |es|
    ensures ReadEntries(SpellClocks(es[i..]) + rest, |es| - i, Collected(es, i)) == Ok(Collected(es, |es|))
    decreases |es| - i
  {
    hide VarUint, ReadVarUint;
    if i < |es| {
      var (client, clock) := es[i];
      var tail := SpellClocks(es[i + 1..]);
      assert es[i..][1..] == es[i + 1..];
      Assoc(VarUint(client), VarUint(clock) + tail, rest);
      Assoc(VarUint(clock), tail, rest);
      VarUintRoundTrip(client, VarUint(clock) + (tail + rest));
      VarUintRoundTrip(clock, tail + rest);
      ClocksSpelled(es, i + 1, rest);
    }
  }

  lemma {:induction false} ClocksRead(b: bytes, n: nat, acc: Vector) returns (es: seq<(u32, u32)>, rest: bytes)
    requires ReadEntries(b, n, acc).Ok?
    ensures |es| == n && b == SpellClocks(es) + rest
    decreases n
  {
    hide VarUint, ReadVarUint;
    if n == 0 {
      es, rest := [], b;
      assert [] + b == b;
    } else {
      VarUintCanonical(b);
      var (client, b1) := ReadVarUint(b).value;
      VarUintCanonical(b1);
      var (clock, b2) := ReadVarUint(b1).value;
      var more, left := ClocksRead(b2, n - 1, acc[client := clock]);
      es, rest := [(client, clock)] + more, left;
      assert es[1..] == more;
      Assoc(VarUint(clock), SpellClocks(more), rest);
      Assoc(VarUint(client), VarUint(clock) + SpellClocks(more), rest);
    }
  }

  /** A state vector decodes if and only if it starts with a count and as many
      clients with their clocks, in any order; of a client listed twice the last
      clock counts. */
  lemma VectorBytesExact(b: bytes)
    ensures DecodeVector(b).Ok? <==>
            exists es: seq<(u32, u32)>, rest :: |es| <= MAX_U32 && b == VarUint(|es|) + (SpellClocks(es) + rest)
    ensures forall es: seq<(u32, u32)>, rest :: |es| <= MAX_U32 && b == VarUint(|es|) + (SpellClocks(es) + rest) ==>
              && DecodeVector(b).Ok?
              && forall k: u32 :: (if k in DecodeVector(b).value then Some(DecodeVector(b).value[k]) else None) ==
                                  Latest(es, k)
  {
    hide VarUint, ReadVarUint, ReadEntries, SpellClocks, Latest, Collected;
    if DecodeVector(b).Ok? {
      VarUintCanonical(b);
      var (n, b1) := ReadVarUint(b).value;
      var es, rest := ClocksRead(b1, n, map[]);
      assert b == VarUint(|es|) + (SpellClocks(es) + rest);
    }
    forall es: seq<(u32, u32)>, rest | |es| <= MAX_U32 && b == VarUint(|es|) + (SpellClocks(es) + rest)
      ensures DecodeVector(b) == Ok(Collected(es, |es|))
      ensures forall k: u32 :: (if k in DecodeVector(b).value then Some(DecodeVector(b).value[k]) else None) ==
                               Latest(es, k)
    {
      ListedVector(b, es, rest);
    }
  }

  lemma ListedVector(b: bytes, es: seq<(u32, u32)>, rest: bytes)
    requires |es| <= MAX_U32 && b == VarUint(|es|) + (SpellClocks(es) + rest)
    ensures DecodeVector(b) == Ok(Collected(es, |es|))
    ensures forall k: u32 :: (if k in DecodeVector(b).value then Some(DecodeVector(b).value[k]) else None) ==
                             Latest(es, k)
  {
    hide VarUint, ReadVarUint, ReadEntries, SpellClocks, Latest;
    VarUintRoundTrip(|es|, SpellClocks(es) + rest);
    assert es[0..] == es && es[..|es|] == es;
    ClocksSpelled(es, 0, rest);
    assert Collected(es, 0) == map[];
    forall k: u32
      ensures (if k in DecodeVector(b).value then Some(DecodeVector(b).value[k]) else None) == Latest(es, k)
    {
      CollectedLatest(es, |es|, k);
    }
  }

  /** encodeStateVectorMap: the clients sorted, smallest first. */
  method AppendVector(v: Vector) returns (out: bytes)
    ensures out == EncVector(v)
  {
    hide VarUint, Descending;
    var order := SortDesc(v.Keys);
    out := VarUint(AsU32(|v|));
    ghost var want := EncVector(v);
    var i := |order|;
    while i > 0
      invariant 0 <= i <= |order| && want == out + EncEntries(order, i, v)
    {
      i := i - 1;
      var client, clock := VarUint(order[i]), VarUint(ClockOf(v, order[i]));
      Assoc(out, client, clock + EncEntries(order, i, v));
      Assoc(out + client, clock, EncEntries(order, i, v));
      out := out + client;
      out := out + clock;
    }
  }

  /** DecodeStateVectorV1. */
  method ParseVector(data: bytes) returns (r: Result<Vector>)
    ensures r == DecodeVector(data)
  {
    hide ReadVarUint;
    var count :- ReadVarUint(data);
    var out: Vector := map[];
    var rest := count.1;
    for i := 0 to count.0
      invariant DecodeVector(data) == ReadEntries(rest, count.0 - i, out)
    {
      var client :- ReadVarUint(rest);
      var clock :- ReadVarUint(client.1);
      out := out[client.0 := clock.0];
      rest := clock.1;
    }
    r := Ok(out);
  }

  /** The smallest update on which the first Skip is counted. */
  lemma SkipFirstCounted()
    ensures var l := [Skip(ID(1, 0), 5), GC(ID(1, 5), 1)];
            WellFormed(1, l) && GapFree(l) == 0 && ClockOf(VectorOf(l), 1) == 5
  {
    var l := [Skip(ID(1, 0), 5), GC(ID(1, 5), 1)];
    assert l[1..] == [GC(ID(1, 5), 1)] && l[1..][1..] == [];
    assert !l[1].Skip?;
    var st := First(l[0]);
    assert CountAll(st, l) == CountAll(Count(Count(st, l[0]), l[1]), []);
  }
}
