/** The delete-set block as a grammar: any clients, any number of times, with any
    ranges in any order. The reader accepts exactly these words, and holds the
    union of what they name. */
module DeleteWords {
  import opened Prelude
  import opened Wire
  import opened IdSets
  import opened IdSetObject
  import opened DeleteSets

  /** One client and its ranges, two numbers each. */
  datatype DeleteEntry = DeleteEntry(client: u32, pairs: seq<(u32, u32)>)

  /** What an entry names. */
  datatype Named = Named(client: u32, ranges: seq<Range>)

  predicate EntriesOk(es: seq<DeleteEntry>) {
    |es| <= MAX_U32 && forall i :: 0 <= i < |es| ==> |es[i].pairs| <= MAX_U32
  }

  // ----- Spelling -----

  function SpellPairs(ps: seq<(u32, u32)>): bytes {
    if ps == [] then [] else VarUint(ps[0].0) + (VarUint(ps[0].1) + SpellPairs(ps[1..]))
  }

  function SpellEntry(e: DeleteEntry): bytes {
    VarUint(e.client) + (VarUint(AsU32(|e.pairs|)) + SpellPairs(e.pairs))
  }

  function SpellEntries(es: seq<DeleteEntry>): bytes {
    if es == [] then [] else SpellEntry(es[0]) + SpellEntries(es[1..])
  }

  function SpellDeletes(es: seq<DeleteEntry>): bytes {
    VarUint(AsU32(|es|)) + SpellEntries(es)
  }

  // ----- Meaning -----

  /** The clocks that a pair names: clock and length in V1; in V2 the distance
      from the end of the range before, and the length less one. */
  function PairRange(p: (u32, u32), cur: nat, f: Form): Result<Range> {
    match f
    case Absolute => NewRange(p.0, p.1)
    case Delta =>
      if cur + p.0 + p.1 + 1 > MAX_U32 then Err(Overflow) else NewRange(cur + p.0, p.1 + 1)
  }

  function MeanPairs(ps: seq<(u32, u32)>, cur: nat, f: Form): Result<seq<Range>> {
    if ps == [] then Ok([])
    else
      var r :- PairRange(ps[0], cur, f);
      var more :- MeanPairs(ps[1..], r.End(), f);
      Ok([r] + more)
  }

  function MeanEntries(es: seq<DeleteEntry>, f: Form): Result<seq<Named>> {
    if es == [] then Ok([])
    else
      var ranges :- MeanPairs(es[0].pairs, 0, f);
      var more :- MeanEntries(es[1..], f);
      Ok([Named(es[0].client, ranges)] + more)
  }

  function InsertAll(acc: seq<Range>, rs: seq<Range>): seq<Range>
    decreases |rs|
  {
    if rs == [] then acc else InsertAll(Insert(acc, rs[0]), rs[1..])
  }

  function Gather(acc: RangeMap, ns: seq<Named>): RangeMap
    decreases |ns|
  {
    if ns == [] then acc
    else if ns[0].ranges == [] then Gather(acc, ns[1..])
    else Gather(acc[ns[0].client := InsertAll(RangesOf(acc, ns[0].client), ns[0].ranges)], ns[1..])
  }

  /** Some entry names clock c of the client. */
  predicate Names(ns: seq<Named>, client: u32, c: int) {
    ns != [] && ((ns[0].client == client && Covers(ns[0].ranges, c)) || Names(ns[1..], client, c))
  }

  // ----- The reader takes the words -----

  lemma PairSpelled(p: (u32, u32), tail: bytes, cur: nat, f: Form, rest: bytes)
    ensures ReadVarUint(VarUint(p.0) + (VarUint(p.1) + tail) + rest) == Ok((p.0, VarUint(p.1) + (tail + rest)))
    ensures ReadVarUint(VarUint(p.1) + (tail + rest)) == Ok((p.1, tail + rest))
  {
    Assoc(VarUint(p.0), VarUint(p.1) + tail, rest);
    Assoc(VarUint(p.1), tail, rest);
    VarUintRoundTrip(p.0, VarUint(p.1) + (tail + rest));
    VarUintRoundTrip(p.1, tail + rest);
  }

  lemma {:induction false} PairsSpelled(ps: seq<(u32, u32)>, cur: nat, acc: seq<Range>, f: Form, rest: bytes)
    ensures ReadRanges(SpellPairs(ps) + rest, |ps|, cur, acc, f) ==
            match MeanPairs(ps, cur, f)
            case Ok(rs) => Ok((InsertAll(acc, rs), rest))
            case Err(e) => Err(e)
  {
    hide ReadVarUint, VarUint, Insert;
    if ps == [] {
      assert SpellPairs(ps) + rest == rest;
    } else {
      PairSpelled(ps[0], SpellPairs(ps[1..]), cur, f, rest);
      if PairRange(ps[0], cur, f).Ok? {
        var r := PairRange(ps[0], cur, f).value;
        PairsSpelled(ps[1..], r.End(), Insert(acc, r), f, rest);
        if MeanPairs(ps[1..], r.End(), f).Ok? {
          var more := MeanPairs(ps[1..], r.End(), f).value;
          assert ([r] + more)[1..] == more;
        }
      }
    }
  }

  lemma {:induction false} EntriesSpelled(es: seq<DeleteEntry>, acc: RangeMap, f: Form, rest: bytes)
    requires forall i :: 0 <= i < |es| ==> |es[i].pairs| <= MAX_U32
    ensures ReadClients(SpellEntries(es) + rest, |es|, acc, f) ==
            match MeanEntries(es, f)
            case Ok(ns) => Ok((Gather(acc, ns), rest))
            case Err(e) => Err(e)
    decreases |es|
  {
    hide ReadVarUint, VarUint, ReadRanges, MeanPairs, InsertAll, SpellPairs;
    if es == [] {
      assert SpellEntries(es) + rest == rest;
    } else {
      var e, tail := es[0], SpellEntries(es[1..]) + rest;
      Assoc(SpellEntry(e), SpellEntries(es[1..]), rest);
      Assoc(VarUint(e.client), VarUint(AsU32(|e.pairs|)) + SpellPairs(e.pairs), tail);
      Assoc(VarUint(AsU32(|e.pairs|)), SpellPairs(e.pairs), tail);
      VarUintRoundTrip(e.client, VarUint(AsU32(|e.pairs|)) + (SpellPairs(e.pairs) + tail));
      VarUintRoundTrip(|e.pairs|, SpellPairs(e.pairs) + tail);
      PairsSpelled(e.pairs, 0, RangesOf(acc, e.client), f, tail);
      if MeanPairs(e.pairs, 0, f).Ok? {
        var ranges := MeanPairs(e.pairs, 0, f).value;
        MeanPairsLength(e.pairs, 0, f);
        EntriesSpelled(es[1..], AfterEntry(acc, Named(e.client, ranges)), f, rest);
        if MeanEntries(es[1..], f).Ok? {
          var more := MeanEntries(es[1..], f).value;
          assert ([Named(e.client, ranges)] + more)[1..] == more;
        }
      }
    }
  }

  function AfterEntry(acc: RangeMap, n: Named): RangeMap {
    if n.ranges == [] then acc else acc[n.client := InsertAll(RangesOf(acc, n.client), n.ranges)]
  }

  lemma {:induction false} MeanPairsLength(ps: seq<(u32, u32)>, cur: nat, f: Form)
    requires MeanPairs(ps, cur, f).Ok?
    ensures |MeanPairs(ps, cur, f).value| == |ps|
    ensures forall i :: 0 <= i < |ps| ==> MeanPairs(ps, cur, f).value[i].Valid()
  {
    if ps != [] {
      MeanPairsLength(ps[1..], PairRange(ps[0], cur, f).value.End(), f);
    }
  }

  lemma DeletesSpelled(es: seq<DeleteEntry>, f: Form, rest: bytes)
    requires EntriesOk(es)
    ensures ReadDeletes(SpellDeletes(es) + rest, f) ==
            match MeanEntries(es, f)
            case Ok(ns) => Ok((Gather(map[], ns), rest))
            case Err(e) => Err(e)
  {
    hide ReadVarUint, VarUint, ReadClients, MeanEntries, SpellEntries;
    Assoc(VarUint(AsU32(|es|)), SpellEntries(es), rest);
    VarUintRoundTrip(|es|, SpellEntries(es) + rest);
    EntriesSpelled(es, map[], f, rest);
  }

  // ----- The reader takes nothing else -----

  lemma {:induction false} PairsRead(b: bytes, n: nat, cur: nat, acc: seq<Range>, f: Form)
      returns (ps: seq<(u32, u32)>)
    requires ReadRanges(b, n, cur, acc, f).Ok?
    ensures |ps| == n && b == SpellPairs(ps) + ReadRanges(b, n, cur, acc, f).value.1
    decreases n
  {
    hide ReadVarUint, VarUint, Insert;
    if n == 0 {
      ps := [];
      assert [] + b == b;
    } else {
      VarUintCanonical(b);
      var (first, b1) := ReadVarUint(b).value;
      VarUintCanonical(b1);
      var (second, b2) := ReadVarUint(b1).value;
      var r := ReadRange(b, cur, f).value.0;
      var more := PairsRead(b2, n - 1, r.End(), Insert(acc, r), f);
      ps := [(first, second)] + more;
      assert ps[1..] == more;
      var rest := ReadRanges(b, n, cur, acc, f).value.1;
      Assoc(VarUint(second), SpellPairs(more), rest);
      Assoc(VarUint(first), VarUint(second) + SpellPairs(more), rest);
    }
  }

  lemma {:induction false} EntriesRead(b: bytes, n: nat, acc: RangeMap, f: Form) returns (es: seq<DeleteEntry>)
    requires ReadClients(b, n, acc, f).Ok?
    ensures |es| == n && b == SpellEntries(es) + ReadClients(b, n, acc, f).value.1
    ensures forall i :: 0 <= i < |es| ==> |es[i].pairs| <= MAX_U32
    decreases n
  {
    hide ReadVarUint, VarUint, ReadRanges, SpellPairs;
    if n == 0 {
      es := [];
      assert [] + b == b;
    } else {
      VarUintCanonical(b);
      var (client, b1) := ReadVarUint(b).value;
      VarUintCanonical(b1);
      var (count, b2) := ReadVarUint(b1).value;
      var pairs := PairsRead(b2, count, 0, RangesOf(acc, client), f);
      var (ranges, b3) := ReadRanges(b2, count, 0, RangesOf(acc, client), f).value;
      var more := EntriesRead(b3, n - 1, if count == 0 then acc else acc[client := ranges], f);
      es := [DeleteEntry(client, pairs)] + more;
      assert es[1..] == more;
      var rest := ReadClients(b, n, acc, f).value.1;
      Assoc(VarUint(count), SpellPairs(pairs), SpellEntries(more) + rest);
      Assoc(VarUint(client), VarUint(count) + SpellPairs(pairs), SpellEntries(more) + rest);
      Assoc(SpellEntry(es[0]), SpellEntries(more), rest);
    }
  }

  lemma DeletesRead(b: bytes, f: Form) returns (es: seq<DeleteEntry>)
    requires ReadDeletes(b, f).Ok?
    ensures EntriesOk(es) && b == SpellDeletes(es) + ReadDeletes(b, f).value.1
  {
    hide ReadVarUint, VarUint, ReadClients, SpellEntries;
    VarUintCanonical(b);
    var (n, b1) := ReadVarUint(b).value;
    es := EntriesRead(b1, n, map[], f);
    Assoc(VarUint(n), SpellEntries(es), ReadDeletes(b, f).value.1);
  }

  /** The reader accepts exactly the words whose ranges are ranges, and what it
      yields is gathered from them. */
  lemma DeletesExact(b: bytes, f: Form, m: RangeMap, rest: bytes)
    ensures ReadDeletes(b, f) == Ok((m, rest)) <==>
            exists es :: EntriesOk(es) && b == SpellDeletes(es) + rest && MeanEntries(es, f).Ok?
                         && m == Gather(map[], MeanEntries(es, f).value)
  {
    hide ReadDeletes, EntriesOk, SpellDeletes, MeanEntries, Gather;
    if ReadDeletes(b, f) == Ok((m, rest)) {
      var es := DeletesRead(b, f);
      DeletesSpelled(es, f, rest);
    }
    if es :| EntriesOk(es) && b == SpellDeletes(es) + rest && MeanEntries(es, f).Ok?
             && m == Gather(map[], MeanEntries(es, f).value) {
      DeletesSpelled(es, f, rest);
    }
  }

  // ----- What is gathered is the union -----

  lemma {:induction false} InsertAllIsUnion(acc: seq<Range>, rs: seq<Range>, free: int)
    requires Normal(acc) && (forall i :: 0 <= i < |rs| ==> rs[i].Valid())
    requires 0 <= free < LINE && !Covers(acc, free) && !Covers(rs, free)
    ensures Normal(InsertAll(acc, rs)) && (rs != [] || acc != [] ==> InsertAll(acc, rs) != [])
    ensures forall c :: Covers(InsertAll(acc, rs), c) <==> Covers(acc, c) || Covers(rs, c)
    decreases |rs|
  {
    hide Covers, Normal, Insert;
    if rs == [] {
      forall c
        ensures !Covers(rs, c)
      {
        CoversNothing(c);
      }
    } else {
      forall c
        ensures Covers(rs, c) <==> rs[0].Contains(c) || Covers(rs[1..], c)
      {
        CoversCons(rs, c);
      }
      assert LeavesRoom(acc, rs[0]);
      InsertIsUnion(acc, rs[0]);
      InsertNonEmpty(acc, rs[0]);
      InsertAllIsUnion(Insert(acc, rs[0]), rs[1..], free);
    }
  }

  ghost predicate RangesOk(ns: seq<Named>) {
    forall i, j :: 0 <= i < |ns| && 0 <= j < |ns[i].ranges| ==> ns[i].ranges[j].Valid()
  }

  /** Some clock of the client is neither held nor named. */
  ghost predicate Spare(acc: RangeMap, ns: seq<Named>, client: u32) {
    exists c :: 0 <= c < LINE && !Member(acc, client, c) && !Names(ns, client, c)
  }

  lemma EntryIsUnion(acc: RangeMap, n: Named, free: int)
    requires NormalMap(acc) && (forall j :: 0 <= j < |n.ranges| ==> n.ranges[j].Valid())
    requires 0 <= free < LINE && !Member(acc, n.client, free) && !Covers(n.ranges, free)
    ensures NormalMap(AfterEntry(acc, n))
    ensures forall client: u32, c: int ::
              Member(AfterEntry(acc, n), client, c) <==>
              Member(acc, client, c) || (client == n.client && Covers(n.ranges, c))
  {
    hide Covers, InsertAll, Normal;
    forall c
      ensures !Covers([], c)
    {
      CoversNothing(c);
    }
    NormalNothing();
    InsertAllIsUnion(RangesOf(acc, n.client), n.ranges, free);
  }

  lemma NormalNothing()
    ensures Normal([])
  {
  }

  /** What the reader holds is normalized and is exactly the union of what the
      entries name, unless that is the whole 32-bit line of some client. */
  lemma {:induction false} GatherIsUnion(acc: RangeMap, ns: seq<Named>)
    requires NormalMap(acc) && RangesOk(ns) && forall client: u32 :: Spare(acc, ns, client)
    ensures NormalMap(Gather(acc, ns))
    ensures forall client: u32, c: int :: Member(Gather(acc, ns), client, c) <==>
              Member(acc, client, c) || Names(ns, client, c)
    decreases |ns|
  {
    if ns != [] {
      hide Covers, InsertAll, NormalMap, Member, Gather;
      var n := ns[0];
      assert Spare(acc, ns, n.client);
      var free :| 0 <= free < LINE && !Member(acc, n.client, free) && !Names(ns, n.client, free);
      EntryIsUnion(acc, n, free);
      var next := AfterEntry(acc, n);
      forall client: u32
        ensures Spare(next, ns[1..], client)
      {
        assert Spare(acc, ns, client);
        var c :| 0 <= c < LINE && !Member(acc, client, c) && !Names(ns, client, c);
        assert !Member(next, client, c) && !Names(ns[1..], client, c);
      }
      GatherStep(acc, ns);
      GatherIsUnion(next, ns[1..]);
    }
  }

  lemma GatherStep(acc: RangeMap, ns: seq<Named>)
    requires ns != []
    ensures Gather(acc, ns) == Gather(AfterEntry(acc, ns[0]), ns[1..])
  {
  }
}
