/** Whole updates in V1 form: fragments of consecutive structs of one client,
    then the delete set. */
module UpdateV1 {
  import opened Prelude
  import opened Wire
  import opened Orders
  import opened Structs
  import opened IdSetObject
  import opened Updates
  import opened CodecV1
  import opened DeleteSets

  // ----- Bytes of a list -----

  function Flat<A>(l: seq<A>, f: A -> bytes): bytes {
    if l == [] then [] else f(l[0]) + Flat(l[1..], f)
  }

  lemma {:induction false} FlatConcat<A>(a: seq<A>, b: seq<A>, f: A -> bytes)
    ensures Flat(a + b, f) == Flat(a, f) + Flat(b, f)
  {
    if a == [] {
      assert a + b == b;
    } else {
      FlatConcat(a[1..], b, f);
      assert (a + b)[1..] == a[1..] + b;
      Assoc(f(a[0]), Flat(a[1..], f), Flat(b, f));
    }
  }

  lemma FlatAppend<A>(l: seq<A>, x: A, f: A -> bytes)
    ensures Flat(l + [x], f) == Flat(l, f) + f(x)
  {
    FlatConcat(l, [x], f);
    assert [x][1..] == [] && Flat([x], f) == f(x) + [];
  }

  /** The bytes of a struct that can be written. */
  function Bytes(s: Struct): bytes {
    if EncStruct(s).Ok? then EncStruct(s).value else []
  }

  function Header(run: seq<Struct>): bytes {
    if run == [] then [] else EncId(run[0].id)
  }

  /** One fragment: count, client and first clock, structs. */
  function EncRun(run: seq<Struct>): bytes {
    VarUint(AsU32(|run|)) + (Header(run) + Flat(run, Bytes))
  }

  function Last<A>(l: seq<A>): A
    requires l != []
  {
    l[|l| - 1]
  }

  /** `s` joins the last run when that is of the same client. */
  function AddToRuns(runs: seq<seq<Struct>>, s: Struct): seq<seq<Struct>> {
    if runs != [] && Last(runs) != [] && Last(runs)[0].id.client == s.id.client
    then runs[..|runs| - 1] + [Last(runs) + [s]]
    else runs + [[s]]
  }

  /** The maximal runs of consecutive structs of one client. */
  function Runs(l: seq<Struct>): (runs: seq<seq<Struct>>)
    ensures l != [] ==> runs != [] && Last(runs) != []
    ensures l == [] ==> runs == []
  {
    if l == [] then [] else AddToRuns(Runs(l[..|l| - 1]), Last(l))
  }

  lemma RunsSnoc(l: seq<Struct>, s: Struct)
    ensures Runs(l + [s]) == AddToRuns(Runs(l), s)
  {
    assert (l + [s])[..|l|] == l;
  }

  function EncFragments(l: seq<Struct>): bytes {
    VarUint(AsU32(|Runs(l)|)) + Flat(Runs(l), EncRun)
  }

  // ----- The fragmenting writer -----

  /** Complete fragments are in `body`, the open one is in `current`. */
  ghost predicate WriterHolds(log: seq<Struct>, client: u32, written: nat, fragments: nat, current: bytes,
        body: bytes) {
    if log == [] then written == 0 && fragments == 0 && body == []
    else
      var runs := Runs(log);
      var open := Last(runs);
      && written == |open| && client == open[0].id.client && fragments == |runs| - 1
      && current == Header(open) + Flat(open, Bytes)
      && body == Flat(runs[..|runs| - 1], EncRun)
  }

  /** Every fragment is complete; the last one is of `client`. */
  ghost predicate Closed(log: seq<Struct>, client: u32, fragments: nat, body: bytes) {
    && fragments == |Runs(log)| && body == Flat(Runs(log), EncRun)
    && (log != [] ==> Last(Runs(log))[0].id.client == client)
  }

  lemma CloseRun(log: seq<Struct>, client: u32, written: nat, fragments: nat, current: bytes, body: bytes)
    requires WriterHolds(log, client, written, fragments, current, body) && written > 0
    ensures Closed(log, client, fragments + 1, body + (VarUint(AsU32(written)) + current))
  {
    var runs := Runs(log);
    FlatAppend(runs[..|runs| - 1], Last(runs), EncRun);
    assert runs[..|runs| - 1] + [Last(runs)] == runs;
  }

  lemma NothingYet(log: seq<Struct>, client: u32, written: nat, fragments: nat, current: bytes, body: bytes)
    requires WriterHolds(log, client, written, fragments, current, body) && written == 0
    ensures log == [] && Closed(log, client, fragments, body)
  {
  }

  /** Starting a fragment after the complete ones. */
  lemma OpenRun(log: seq<Struct>, client: u32, fragments: nat, body: bytes, s: Struct)
    requires Closed(log, client, fragments, body) && EncStruct(s).Ok?
    requires log != [] ==> client != s.id.client
    ensures WriterHolds(log + [s], s.id.client, 1, fragments, EncId(s.id) + EncStruct(s).value, body)
  {
    RunsSnoc(log, s);
    assert [s][1..] == [] && Flat([s], Bytes) == Bytes(s) + [];
    assert (Runs(log) + [[s]])[..|Runs(log)|] == Runs(log);
  }

  /** One more struct for the open fragment. */
  lemma ExtendRun(log: seq<Struct>, client: u32, written: nat, fragments: nat, current: bytes, body: bytes, s: Struct)
    requires WriterHolds(log, client, written, fragments, current, body) && written > 0
    requires client == s.id.client && EncStruct(s).Ok?
    ensures WriterHolds(log + [s], client, written + 1, fragments, current + EncStruct(s).value, body)
  {
    RunsSnoc(log, s);
    var runs := Runs(log);
    var open := Last(runs);
    FlatAppend(open, s, Bytes);
    Assoc(Header(open), Flat(open, Bytes), Bytes(s));
    var next := runs[..|runs| - 1] + [open + [s]];
    assert next[..|next| - 1] == runs[..|runs| - 1];
  }

  class LazyWriter {
    var currClient: u32
    var written: nat
    var fragmentCount: nat
    var current: bytes
    var body: bytes
    ghost var log: seq<Struct>

    ghost predicate Valid()
      reads this
    {
      WriterHolds(log, currClient, written, fragmentCount, current, body)
    }

    constructor ()
      ensures Valid() && log == []
    {
      currClient, written, fragmentCount, current, body, log := 0, 0, 0, [], [], [];
    }

    /** Writes the part of `s` without `startOffset` clocks in front and
        `endTrim` behind; a new client opens a new fragment. */
    method Write(s: Struct, startOffset: nat, endTrim: nat) returns (r: Result<()>)
      requires Valid()
      modifies this
      ensures var part := SliceStruct(s, startOffset, endTrim);
              if part.Ok? && EncStruct(part.value).Ok?
              then r == Ok(()) && Valid() && log == old(log) + [part.value]
              else r.Err?
    {
      hide SliceStruct, EncStruct, WriterHolds, Closed, Runs, EncId;
      if written == 0 {
        NothingYet(log, currClient, written, fragmentCount, current, body);
      } else if currClient != s.id.client {
        Flush();
      }
      var sliced := SliceStruct(s, startOffset, endTrim);
      if sliced.Err? {
        return Err(sliced.error);
      }
      var part := sliced.value;
      SliceId(s, startOffset, endTrim);
      var encoded := EncStruct(part);
      if encoded.Err? {
        return Err(encoded.error);
      }
      if written == 0 {
        OpenRun(log, currClient, fragmentCount, body, part);
        currClient := s.id.client;
        current := EncId(ID(currClient, part.id.clock));
      } else {
        ExtendRun(log, currClient, written, fragmentCount, current, body, part);
      }
      current := current + encoded.value;
      written := written + 1;
      log := log + [part];
      r := Ok(());
    }

    /** Closes the open fragment. What is left is complete fragments only. */
    method Flush()
      requires Valid() && written > 0
      modifies this
      ensures written == 0 && Closed(log, currClient, fragmentCount, body)
      ensures log == old(log) && currClient == old(currClient)
    {
      CloseRun(log, currClient, written, fragmentCount, current, body);
      hide WriterHolds, Closed, VarUint;
      var count := VarUint(AsU32(written));
      Assoc(body, count, current);
      body := body + count;
      body := body + current;
      fragmentCount := fragmentCount + 1;
      current := [];
      written := 0;
    }

    /** Fragment count and fragments. */
    method Finish() returns (out: bytes)
      requires Valid()
      modifies this
      ensures out == EncFragments(old(log))
    {
      if written > 0 {
        Flush();
      }
      out := VarUint(AsU32(fragmentCount)) + body;
    }
  }

  lemma SliceId(s: Struct, startOffset: nat, endTrim: nat)
    requires SliceStruct(s, startOffset, endTrim).Ok?
    ensures SliceStruct(s, startOffset, endTrim).value.id == ID(s.id.client, s.id.clock + startOffset)
  {
  }

  // ----- Runs of a grouped update -----

  /** The lists in the order given. */
  function Lists(order: seq<u32>, b: Blocks): seq<seq<Struct>>
    requires forall k :: k in order ==> k in b
  {
    if order == [] then [] else [b[order[0]]] + Lists(order[1..], b)
  }

  lemma {:induction false} RunsOfChain(a: seq<Struct>, client: u32, l: seq<Struct>)
    requires l != [] && (forall s :: s in l ==> s.id.client == client)
    requires a != [] ==> Last(Runs(a))[0].id.client != client
    ensures Runs(a + l) == Runs(a) + [l]
    decreases |l|
  {
    hide Runs;
    var s := Last(l);
    var front := l[..|l| - 1];
    assert s in l && front + [s] == l;
    Assoc(a, front, [s]);
    RunsSnoc(a + front, s);
    if front == [] {
      assert a + front == a && l == [s];
    } else {
      assert front[0] in l;
      RunsOfChain(a, client, front);
      assert (Runs(a) + [front])[..|Runs(a)|] == Runs(a);
    }
  }

  /** The runs of a grouped update are its lists. */
  lemma {:induction false} RunsOfFlatten(a: seq<Struct>, order: seq<u32>, b: Blocks)
    requires Distinct(order) && (forall k :: k in order ==> k in b) && WellFormedBlocks(b)
    requires a != [] ==> Last(Runs(a))[0].id.client !in order
    ensures Runs(a + Flatten(order, b)) == Runs(a) + Lists(order, b)
    decreases |order|
  {
    if order == [] {
      assert a + [] == a && Runs(a) + [] == Runs(a);
    } else {
      var k := order[0];
      var l := b[k];
      assert k in order;
      ChainAscending(k, l);
      RunsOfChain(a, k, l);
      assert Last(Runs(a + l)) == l && l[0] in l;
      RunsOfFlatten(a + l, order[1..], b);
      Assoc(a, l, Flatten(order[1..], b));
      Assoc(Runs(a), [l], Lists(order[1..], b));
    }
  }

  // ----- Reading -----

  function ReadStructs(b: bytes, n: nat, id: ID): Result<(seq<Struct>, bytes)>
    decreases n
  {
    if n == 0 then Ok(([], b))
    else
      var (s, b1) :- ReadStruct(b, id);
      var (more, rest) :- ReadStructs(b1, n - 1, ID(id.client, AsU32(s.End())));
      Ok(([s] + more, rest))
  }

  function ReadBlocks(b: bytes, n: nat): Result<(seq<Struct>, bytes)>
    decreases n
  {
    if n == 0 then Ok(([], b))
    else
      var (count, b1) :- ReadVarUint(b);
      var (id, b2) :- ReadId(b1);
      var (l, b3) :- ReadStructs(b2, count, id);
      var (more, rest) :- ReadBlocks(b3, n - 1);
      Ok((l + more, rest))
  }

  /** DecodeV1: blocks, delete set, and nothing after it. */
  function Decode(b: bytes): Result<Update> {
    var (n, b1) :- ReadVarUint(b);
    var (structs, b2) :- ReadBlocks(b1, n);
    var (deletes, rest) :- ReadDeletes(b2, Absolute);
    if rest != [] then Err(TrailingBytes) else Ok(Update(structs, deletes))
  }

  // ----- Round trip -----

  predicate WireList(client: u32, l: seq<Struct>) {
    Chain(client, l) && l != [] && |l| <= MAX_U32 && forall i :: 0 <= i < |l| ==> WireStruct(l[i])
  }

  predicate WireBlocks(b: Blocks) {
    |b| <= MAX_U32 && forall k :: k in b ==> WireList(k, b[k]) && b[k] != []
  }

  lemma ReadStructsStep(b: bytes, n: nat, id: ID, s: Struct, b1: bytes, more: seq<Struct>, rest: bytes)
    requires n > 0 && ReadStruct(b, id) == Ok((s, b1)) && s.End() <= MAX_U32
    requires ReadStructs(b1, n - 1, ID(id.client, s.End())) == Ok((more, rest))
    ensures ReadStructs(b, n, id) == Ok(([s] + more, rest))
  {
  }

  lemma {:induction false} ListRoundTrip(client: u32, l: seq<Struct>, id: ID, rest: bytes)
    requires Chain(client, l) && (forall i :: 0 <= i < |l| ==> WireStruct(l[i]))
    requires l != [] ==> id == l[0].id
    requires id.client == client
    ensures ReadStructs(Flat(l, Bytes) + rest, |l|, id) == Ok((l, rest))
  {
    hide ReadStruct, EncStruct, WireStruct;
    if l == [] {
      assert Flat(l, Bytes) + rest == rest;
    } else {
      var s := l[0];
      var tail := Flat(l[1..], Bytes);
      Assoc(Bytes(s), tail, rest);
      StructRoundTrip(s, tail + rest);
      var next := ID(client, s.End());
      assert |l| > 1 ==> l[1..][0].id == next by {
        if |l| > 1 {
          ChainSuffix(client, l, 1);
        }
      }
      ListRoundTrip(client, l[1..], next, rest);
      hide ReadStructs;
      ReadStructsStep(Flat(l, Bytes) + rest, |l|, id, s, tail + rest, l[1..], rest);
      assert l == [s] + l[1..];
    }
  }

  lemma ReadBlocksStep(b: bytes, n: nat, count: u32, b1: bytes, id: ID, b2: bytes, l: seq<Struct>, b3: bytes,
                       more: seq<Struct>, rest: bytes)
    requires n > 0 && ReadVarUint(b) == Ok((count, b1)) && ReadId(b1) == Ok((id, b2))
    requires ReadStructs(b2, count, id) == Ok((l, b3)) && ReadBlocks(b3, n - 1) == Ok((more, rest))
    ensures ReadBlocks(b, n) == Ok((l + more, rest))
  {
  }

  lemma RunRoundTrip(client: u32, l: seq<Struct>, n: nat, more: seq<Struct>, tail: bytes, rest: bytes)
    requires WireList(client, l) && n > 0 && ReadBlocks(tail, n - 1) == Ok((more, rest))
    ensures ReadBlocks(EncRun(l) + tail, n) == Ok((l + more, rest))
  {
    hide VarUint, EncId, ReadId, ReadVarUint, ReadStructs, ReadBlocks, WireStruct, Flat;
    var count, header, body := VarUint(AsU32(|l|)), Header(l), Flat(l, Bytes);
    Assoc(count, header + body, tail);
    Assoc(header, body, tail);
    VarUintRoundTrip(|l|, header + (body + tail));
    IdRoundTrip(l[0].id, body + tail);
    ListRoundTrip(client, l, l[0].id, tail);
    ReadBlocksStep(EncRun(l) + tail, n, |l|, header + (body + tail), l[0].id, body + tail, l, tail, more, rest);
  }

  lemma {:induction false} ListsRoundTrip(order: seq<u32>, b: Blocks, rest: bytes)
    requires (forall k :: k in order ==> k in b) && WireBlocks(b)
    ensures ReadBlocks(Flat(Lists(order, b), EncRun) + rest, |order|) == Ok((Flatten(order, b), rest))
  {
    hide EncRun, WireList, WireStruct, HasUnits;
    if order == [] {
      assert Flat(Lists(order, b), EncRun) + rest == rest;
    } else {
      var k := order[0];
      assert k in order;
      var lists := Lists(order, b);
      assert lists[1..] == Lists(order[1..], b) && lists[0] == b[k];
      var tail := Flat(Lists(order[1..], b), EncRun);
      Assoc(EncRun(b[k]), tail, rest);
      ListsRoundTrip(order[1..], b, rest);
      hide ReadBlocks;
      RunRoundTrip(k, b[k], |order|, Flatten(order[1..], b), tail + rest, rest);
    }
  }

  /** The canonical order: lists of the clients, largest client first. */
  ghost function Canonical(b: Blocks): seq<Struct> {
    Flatten(Desc(b.Keys), b)
  }

  /** EncodeV1: group, order, write, delete set. */
  ghost function Encode(u: Update): bytes {
    EncFragments(Canonical(Group(u.structs))) + EncDeletes(u.deletes, Absolute)
  }

  lemma DistinctDesc(s: set<u32>)
    ensures Distinct(Desc(s))
  {
  }

  lemma {:induction false} ListsLength(order: seq<u32>, b: Blocks)
    requires forall k :: k in order ==> k in b
    ensures |Lists(order, b)| == |order|
  {
    if order != [] {
      ListsLength(order[1..], b);
    }
  }

  lemma WireIsWellFormed(b: Blocks)
    requires WireBlocks(b)
    ensures WellFormedBlocks(b)
  {
  }

  lemma DecodeStep(b: bytes, n: u32, b1: bytes, structs: seq<Struct>, b2: bytes, deletes: RangeMap)
    requires ReadVarUint(b) == Ok((n, b1)) && ReadBlocks(b1, n) == Ok((structs, b2))
    requires ReadDeletes(b2, Absolute) == Ok((deletes, []))
    ensures Decode(b) == Ok(Update(structs, deletes))
  {
  }

  lemma FragmentsOfFlatten(order: seq<u32>, b: Blocks)
    requires Distinct(order) && (forall k :: k in order ==> k in b) && WellFormedBlocks(b) && |order| <= MAX_U32
    ensures EncFragments(Flatten(order, b)) == VarUint(|order|) + Flat(Lists(order, b), EncRun)
  {
    hide VarUint, Flat, EncRun, Flatten, WellFormedBlocks;
    RunsOfFlatten([], order, b);
    ListsLength(order, b);
    assert [] + Flatten(order, b) == Flatten(order, b) && Runs([]) + Lists(order, b) == Lists(order, b);
  }

  /** Blocks written in some order of the clients are read back in that order. */
  lemma FragmentsRoundTrip(order: seq<u32>, b: Blocks, deletes: RangeMap)
    requires Distinct(order) && (forall k :: k in order ==> k in b) && |order| <= MAX_U32
    requires WireBlocks(b) && WireDeletes(deletes, Absolute)
    ensures Decode(EncFragments(Flatten(order, b)) + EncDeletes(deletes, Absolute)) ==
            Ok(Update(Flatten(order, b), deletes))
  {
    WireIsWellFormed(b);
    FragmentsOfFlatten(order, b);
    hide Decode, EncFragments, Flatten, Flat, Lists, WireBlocks, WireDeletes, ReadBlocks, ReadDeletes, VarUint,
         ReadVarUint, EncDeletes, WellFormedBlocks, Distinct;
    var n, body, tail := VarUint(|order|), Flat(Lists(order, b), EncRun), EncDeletes(deletes, Absolute);
    Assoc(n, body, tail);
    assert tail + [] == tail;
    VarUintRoundTrip(|order|, body + tail);
    ListsRoundTrip(order, b, tail);
    DeletesRoundTrip(deletes, Absolute, []);
    DecodeStep(n + body + tail, |order|, body + tail, Flatten(order, b), tail, deletes);
  }

  /** The canonical bytes of wire-normal lists give exactly those lists back. */
  lemma CanonicalReadBack(b: Blocks, deletes: RangeMap)
    requires WireBlocks(b) && WireDeletes(deletes, Absolute)
    ensures Decode(EncFragments(Canonical(b)) + EncDeletes(deletes, Absolute)) == Ok(Update(Canonical(b), deletes))
    ensures Distinct(Desc(b.Keys)) && |Desc(b.Keys)| == |b| && WellFormedBlocks(b)
  {
    WireIsWellFormed(b);
    DistinctDesc(b.Keys);
    DescSize(b.Keys);
    assert |b.Keys| == |b|;
    assert |b| <= MAX_U32;
    hide WireBlocks, WireDeletes, Decode, EncFragments, EncDeletes, Flatten, Distinct;
    FragmentsRoundTrip(Desc(b.Keys), b, deletes);
  }

  // ----- Up to what the wire drops -----

  function NormList(l: seq<Struct>): seq<Struct> {
    if l == [] then [] else [Normalized(l[0])] + NormList(l[1..])
  }

  function NormBlocks(b: Blocks): Blocks {
    map k | k in b :: NormList(b[k])
  }

  /** Lists of structs that can be written without loss of meaning. */
  predicate WritableBlocks(b: Blocks) {
    |b| <= MAX_U32 &&
    forall k :: k in b ==> WellFormed(k, b[k]) && |b[k]| <= MAX_U32 && forall s :: s in b[k] ==> Writable(s)
  }

  lemma {:induction false} NormListSame(client: u32, l: seq<Struct>)
    requires Chain(client, l)
    ensures |NormList(l)| == |l| && forall i :: 0 <= i < |l| ==> NormList(l)[i] == Normalized(l[i])
    ensures Chain(client, NormList(l)) && (HasUnits(l) ==> HasUnits(NormList(l)))
    ensures Flat(NormList(l), Bytes) == Flat(l, Bytes)
  {
    hide Normalized, EncStruct;
    if l != [] {
      NormListSame(client, l[1..]);
      NormalizedSame(l[0]);
      var n := NormList(l);
      assert n[1..] == NormList(l[1..]);
      if |l| > 1 {
        NormalizedSame(l[1]);
      }
      assert HasUnits(l) ==> HasUnits(n) by {
        if i :| 0 <= i < |l| && !l[i].Skip? {
          NormalizedSame(l[i]);
          assert !n[i].Skip?;
        }
      }
    }
  }

  lemma {:induction false} NormListUnits(l: seq<Struct>, c: nat)
    ensures FullAt(NormList(l), c) == FullAt(l, c)
  {
    hide Normalized, StructAt, FullStructAt;
    if l != [] {
      NormListUnits(l[1..], c);
      NormalizedSame(l[0]);
      assert NormList(l)[1..] == NormList(l[1..]);
    }
  }

  lemma NormListBytes(client: u32, l: seq<Struct>)
    requires Chain(client, l) && l != []
    ensures EncRun(NormList(l)) == EncRun(l)
  {
    NormListSame(client, l);
    NormalizedSame(l[0]);
  }

  lemma {:induction false} NormIdentity(l: seq<Struct>)
    requires forall i :: 0 <= i < |l| ==> WireStruct(l[i])
    ensures NormList(l) == l
  {
    hide WireStruct, Normalized;
    if l != [] {
      NormalizedSame(l[0]);
      NormIdentity(l[1..]);
    }
  }

  /** The normalized lists are wire-normal and hold the same units. */
  lemma NormBlocksSame(b: Blocks)
    requires WritableBlocks(b)
    ensures WireBlocks(NormBlocks(b)) && WellFormedBlocks(b)
    ensures forall id: ID :: UnitOf(NormBlocks(b), id) == UnitOf(b, id)
    ensures forall id: ID :: FullUnitOf(NormBlocks(b), id) == FullUnitOf(b, id)
    ensures WireBlocks(b) ==> NormBlocks(b) == b
  {
    hide WireStruct, At, FullAt, Normalized, NormList;
    var n := NormBlocks(b);
    assert n.Keys == b.Keys && |n.Keys| == |n| && |b.Keys| == |b|;
    forall k | k in b
      ensures WireList(k, n[k]) && n[k] != []
      ensures forall c: nat :: At(n[k], c) == At(b[k], c) && FullAt(n[k], c) == FullAt(b[k], c)
      ensures WireBlocks(b) ==> n[k] == b[k]
    {
      NormListSame(k, b[k]);
      forall c: nat
        ensures At(n[k], c) == At(b[k], c) && FullAt(n[k], c) == FullAt(b[k], c)
      {
        NormListUnits(b[k], c);
      }
      assert forall i :: 0 <= i < |b[k]| ==> b[k][i] in b[k];
      if WireBlocks(b) {
        NormIdentity(b[k]);
      }
    }
  }

  lemma WireIsWritable(b: Blocks)
    requires WireBlocks(b)
    ensures WritableBlocks(b)
  {
    hide WireStruct, Normalized;
    forall k, s | k in b && s in b[k]
      ensures Writable(s)
    {
      assert WireList(k, b[k]);
      NormalizedSame(s);
    }
  }

  lemma {:induction false} NormListsBytes(order: seq<u32>, b: Blocks)
    requires (forall k :: k in order ==> k in b) && WellFormedBlocks(b)
    ensures Flat(Lists(order, NormBlocks(b)), EncRun) == Flat(Lists(order, b), EncRun)
  {
    hide EncRun;
    if order != [] {
      assert order[0] in order;
      NormListBytes(order[0], b[order[0]]);
      NormListsBytes(order[1..], b);
      assert Lists(order, b)[1..] == Lists(order[1..], b);
      assert Lists(order, NormBlocks(b))[1..] == Lists(order[1..], NormBlocks(b));
    }
  }

  /** Whatever lists are written, in some order of the clients: what is read
      back has the same units, structs and order, redundant parents dropped. */
  lemma WrittenRoundTrip(order: seq<u32>, b: Blocks, deletes: RangeMap)
    requires Distinct(order) && (forall k :: k in order ==> k in b) && |order| <= MAX_U32
    requires WritableBlocks(b) && WireDeletes(deletes, Absolute)
    ensures Decode(EncFragments(Flatten(order, b)) + EncDeletes(deletes, Absolute)) ==
            Ok(Update(Flatten(order, NormBlocks(b)), deletes))
  {
    var n := NormBlocks(b);
    NormBlocksSame(b);
    WireIsWellFormed(n);
    hide NormBlocks, Flat, WritableBlocks, WireBlocks, WellFormedBlocks, EncFragments, Decode, EncDeletes, WireDeletes,
         Flatten, Lists, Distinct;
    assert n.Keys == b.Keys by { NormKeys(b); }
    FragmentsOfFlatten(order, b);
    FragmentsOfFlatten(order, n);
    NormListsBytes(order, b);
    FragmentsRoundTrip(order, n, deletes);
  }

  lemma NormKeys(b: Blocks)
    ensures NormBlocks(b).Keys == b.Keys
  {
  }

  /** What V1 writes of an update, it reads back: the structs grouped by client
      in descending order, every unit as it was, and the same delete set. */
  lemma RoundTrip(u: Update)
    requires WritableBlocks(Group(u.structs)) && WireDeletes(u.deletes, Absolute)
    ensures var b := Group(u.structs);
            && Decode(Encode(u)) == Ok(Update(Flatten(Desc(b.Keys), NormBlocks(b)), u.deletes))
            && (forall id: ID :: FullUnitOf(NormBlocks(b), id) == FullUnitOf(b, id))
            && (WireBlocks(b) ==> NormBlocks(b) == b)
  {
    var b := Group(u.structs);
    DistinctDesc(b.Keys);
    DescSize(b.Keys);
    assert |b.Keys| <= MAX_U32 by { assert |b.Keys| == |b|; }
    NormBlocksSame(b);
    hide Group, WritableBlocks, WireBlocks, WireDeletes, Decode, EncFragments, EncDeletes, Flatten, Distinct,
        NormBlocks;
    WrittenRoundTrip(Desc(b.Keys), b, u.deletes);
  }

  // ----- Writing a whole update -----

  lemma {:induction false} InsertedByClock(s: Struct, l: seq<Struct>, x: Struct)
    ensures x in InsertByClock(s, l) <==> x == s || x in l
  {
    if l != [] && s.id.clock > l[0].id.clock {
      InsertedByClock(s, l[1..], x);
    }
  }

  lemma {:induction false} SameMembers(l: seq<Struct>, x: Struct)
    ensures x in SortByClock(l) <==> x in l
  {
    if l != [] {
      SameMembers(l[1..], x);
      InsertedByClock(l[0], SortByClock(l[1..]), x);
    }
  }

  lemma {:induction false} MembersOfClient(l: seq<Struct>, client: u32, x: Struct)
    ensures x in OfClient(l, client) <==> x in l && x.id.client == client
  {
    if l != [] {
      MembersOfClient(l[1..], client, x);
    }
  }

  lemma {:induction false} InLists(order: seq<u32>, b: Blocks, x: Struct)
    requires forall k :: k in order ==> k in b
    ensures x in Flatten(order, b) <==> exists k :: k in order && x in b[k]
  {
    if order != [] {
      InLists(order[1..], b, x);
      assert forall k :: k in order <==> k == order[0] || k in order[1..];
    }
  }

  lemma InGroup(structs: seq<Struct>, s: Struct)
    ensures var b := Group(structs); forall k :: k in b ==> (s in b[k] <==> s in structs && s.id.client == k)
  {
    hide SortByClock, OfClient;
    var b := Group(structs);
    forall k | k in b
      ensures s in b[k] <==> s in structs && s.id.client == k
    {
      SameMembers(OfClient(structs, k), s);
      MembersOfClient(structs, k, s);
    }
  }

  /** Grouping and ordering lose no struct and add none. */
  lemma CanonicalMembers(structs: seq<Struct>)
    ensures forall s :: s in Canonical(Group(structs)) <==> s in structs
  {
    var b := Group(structs);
    assert forall s :: s in structs ==> s.id.client in b;
    hide Group, Flatten, Descending;
    forall s: Struct
      ensures s in Canonical(b) <==> s in structs
    {
      InLists(Desc(b.Keys), b, s);
      InGroup(structs, s);
    }
  }

  predicate Sound(l: seq<Struct>) {
    forall s :: s in l ==> s.Valid()
  }

  predicate Ready(l: seq<Struct>) {
    forall s :: s in l ==> Encodable(s)
  }

  /** Everything up to the list at `i` is in the log and could be written. */
  ghost predicate WrittenTo(order: seq<u32>, i: nat, b: Blocks, log: seq<Struct>) {
    && i <= |order| && (forall k :: k in order ==> k in b)
    && log + Flatten(order[i..], b) == Flatten(order, b) && Ready(log)
  }

  lemma WrittenNone(order: seq<u32>, b: Blocks)
    requires forall k :: k in order ==> k in b
    ensures WrittenTo(order, 0, b, [])
  {
    assert order[0..] == order && [] + Flatten(order, b) == Flatten(order, b);
  }

  lemma WrittenOne(order: seq<u32>, i: nat, b: Blocks, log: seq<Struct>)
    requires WrittenTo(order, i, b, log) && i < |order|
    ensures order[i] in b
    ensures Sound(Flatten(order, b)) ==> Sound(b[order[i]])
    ensures if Ready(b[order[i]]) then WrittenTo(order, i + 1, b, log + b[order[i]]) else !Ready(Flatten(order, b))
  {
    assert order[i] in order && order[i..][1..] == order[i + 1..];
    var l, tail := b[order[i]], Flatten(order[i + 1..], b);
    Assoc(log, l, tail);
    assert forall s :: s in log + l + tail <==> s in log || s in l || s in tail;
  }

  lemma WrittenAll(order: seq<u32>, b: Blocks, log: seq<Struct>)
    requires WrittenTo(order, |order|, b, log)
    ensures log == Flatten(order, b) && Ready(log)
  {
    assert order[|order|..] == [];
    assert log + [] == log;
  }

  /** The structs of one client, written whole. */
  method WriteList(writer: LazyWriter, l: seq<Struct>) returns (r: Result<()>)
    requires writer.Valid() && Sound(l)
    modifies writer
    ensures Ready(l) ==> r == Ok(()) && writer.Valid() && writer.log == old(writer.log) + l
    ensures !Ready(l) ==> r.Err?
  {
    hide EncStruct, LazyWriter.Valid;
    ghost var before := writer.log;
    for j := 0 to |l|
      invariant writer.Valid() && writer.log == before + l[..j]
      invariant Ready(l[..j])
    {
      assert l[j] in l && l[..j + 1] == l[..j] + [l[j]];
      Assoc(before, l[..j], [l[j]]);
      var written := writer.Write(l[j], 0, 0);
      if written.Err? {
        assert !Encodable(l[j]);
        return Err(written.error);
      }
    }
    assert l[..|l|] == l;
    r := Ok(());
  }

  /** encodeStructGroupsV1: the lists by descending client, through the writer. */
  method WriteGroups(groups: Blocks) returns (r: Result<bytes>)
    requires Sound(Canonical(groups))
    ensures Ready(Canonical(groups)) ==> r == Ok(EncFragments(Canonical(groups)))
    ensures !Ready(Canonical(groups)) ==> r.Err?
  {
    var order := SortDesc(groups.Keys);
    var writer := new LazyWriter();
    WrittenNone(order, groups);
    hide WrittenTo, Flatten, LazyWriter.Valid, EncFragments, Ready, Sound, Descending;
    for i := 0 to |order|
      invariant fresh(writer) && writer.Valid() && WrittenTo(order, i, groups, writer.log)
    {
      WrittenOne(order, i, groups, writer.log);
      var written := WriteList(writer, groups[order[i]]);
      if written.Err? {
        return Err(written.error);
      }
    }
    WrittenAll(order, groups, writer.log);
    var body := writer.Finish();
    r := Ok(body);
  }

  /** EncodeV1: refused exactly when some struct cannot be written. */
  method EncodeV1(u: Update) returns (r: Result<bytes>)
    requires Sound(u.structs)
    ensures Ready(u.structs) ==> r == Ok(Encode(u))
    ensures !Ready(u.structs) ==> r.Err?
  {
    hide Group, Canonical, EncFragments, Encodable, EncDeletes;
    CanonicalMembers(u.structs);
    var groups := GroupByClient(u.structs);
    var body := WriteGroups(groups);
    if body.Err? {
      return Err(body.error);
    }
    var out := AppendDeletes(body.value, u.deletes, Absolute);
    r := Ok(out);
  }
}
