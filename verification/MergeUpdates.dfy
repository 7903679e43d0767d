/** MergeUpdatesV1 from bytes to bytes: decode each update, fold the lists and
    delete sets, write the result. Parallel aggregation is taken one by one. */
module MergeUpdates {
  import opened Prelude
  import opened Orders
  import opened Wire
  import opened IdSets
  import opened IdSetObject
  import opened Structs
  import opened Sources
  import opened Merge
  import opened Updates
  import opened CodecV1
  import opened DeleteSets
  import opened UpdateV1
  import opened RawValues
  import opened PerClient
  import opened Reread
  import LazyReaderV1

  function EntryOf(u: Update): Entry {
    Entry(Group(u.structs), u.deletes)
  }

  // ----- Decoded structs can be written again, and so can every merge -----

  lemma ReadyConcat(a: seq<Struct>, b: seq<Struct>)
    requires Ready(a) && Ready(b)
    ensures Ready(a + b)
  {
  }

  lemma NothingReady(b: bytes)
    ensures Ready([]) && ReadBlocks(b, 0) == Ok(([], b)) && forall id :: ReadStructs(b, 0, id) == Ok(([], b))
  {
    hide Encodable;
  }

  lemma StructsParts(b: bytes, n: nat, id: ID) returns (s: Struct, more: seq<Struct>, b1: bytes, next: ID)
    requires n > 0 && ReadStructs(b, n, id).Ok?
    ensures Encodable(s) && ReadStructs(b1, n - 1, next).Ok?
    ensures more == ReadStructs(b1, n - 1, next).value.0 && ReadStructs(b, n, id).value.0 == [s] + more
  {
    hide ReadStruct, Encodable;
    ReadStructEncodable(b, id);
    s, b1 := ReadStruct(b, id).value.0, ReadStruct(b, id).value.1;
    next := ID(id.client, AsU32(s.End()));
    more := ReadStructs(b1, n - 1, next).value.0;
  }

  lemma ReadyOne(s: Struct)
    requires Encodable(s)
    ensures Ready([s])
  {
    hide Encodable;
  }

  lemma {:induction false} StructsReady(b: bytes, n: nat, id: ID)
    requires ReadStructs(b, n, id).Ok?
    ensures Ready(ReadStructs(b, n, id).value.0)
    decreases n
  {
    hide Ready, ReadStructs, Encodable, ReadBlocks;
    if n == 0 {
      NothingReady(b);
    } else {
      var s, more, b1, next := StructsParts(b, n, id);
      StructsReady(b1, n - 1, next);
      ReadyOne(s);
      ReadyConcat([s], more);
    }
  }

  /** What a successful read of n blocks is made of. */
  lemma BlocksParts(b: bytes, n: nat) returns (l: seq<Struct>, more: seq<Struct>, b2: bytes, count: nat, id: ID,
        b3: bytes)
    requires n > 0 && ReadBlocks(b, n).Ok?
    ensures ReadStructs(b2, count, id) == Ok((l, b3)) && ReadBlocks(b3, n - 1).Ok?
    ensures more == ReadBlocks(b3, n - 1).value.0 && ReadBlocks(b, n).value.0 == l + more
  {
    hide ReadStructs, ReadVarUint, ReadId;
    var header := ReadVarUint(b).value;
    var start := ReadId(header.1).value;
    count, id, b2 := header.0, start.0, start.1;
    l, b3 := ReadStructs(b2, count, id).value.0, ReadStructs(b2, count, id).value.1;
    more := ReadBlocks(b3, n - 1).value.0;
  }

  lemma {:induction false} BlocksReady(b: bytes, n: nat)
    requires ReadBlocks(b, n).Ok?
    ensures Ready(ReadBlocks(b, n).value.0)
    decreases n
  {
    hide Ready, ReadStructs, ReadBlocks;
    if n == 0 {
      NothingReady(b);
    } else {
      var l, more, b2, count, id, b3 := BlocksParts(b, n);
      StructsReady(b2, count, id);
      BlocksReady(b3, n - 1);
      ReadyConcat(l, more);
    }
  }

  /** Whatever is decoded can be written: decoding refuses what it could not. */
  lemma DecodedReady(b: bytes)
    requires Decode(b).Ok?
    ensures Ready(Decode(b).value.structs)
  {
    hide Ready, ReadBlocks, ReadVarUint, ReadDeletes;
    var (n, b1) := ReadVarUint(b).value;
    BlocksReady(b1, n);
  }

  /** What is carried through a merge: structs can be written, and without loss
      when all inputs can. */
  ghost function Carried(lossless: bool): Struct -> bool {
    (s: Struct) => Encodable(s) && (lossless ==> Writable(s))
  }

  lemma CarriedClosed(lossless: bool)
    ensures ClosedUnderCuts(Carried(lossless))
  {
    hide Encodable, Writable, SliceStruct;
    var ok := Carried(lossless);
    forall s: Struct, start: nat | ok(s) && SliceStruct(s, start, 0).Ok?
      ensures ok(SliceStruct(s, start, 0).value)
    {
      SliceOfOk(s, start);
      SliceEncodable(s, start, 0);
      if lossless {
        SliceWritable(s, start, 0);
      }
    }
    forall id: ID, len: u32 | Checked(Skip(id, len)).Ok?
      ensures ok(Skip(id, len))
    {
      SkipCarried(id, len);
    }
  }

  lemma SliceOfOk(s: Struct, start: nat)
    requires SliceStruct(s, start, 0).Ok?
    ensures start < s.Length()
  {
  }

  lemma SkipCarried(id: ID, len: u32)
    requires Checked(Skip(id, len)).Ok?
    ensures Encodable(Skip(id, len)) && Writable(Skip(id, len))
  {
  }

  lemma CarriedIn(b: bytes, lossless: bool)
    requires Decode(b).Ok?
    requires lossless ==> WritableBlocks(EntryOf(Decode(b).value).blocks)
    ensures AllIn(EntryOf(Decode(b).value).blocks, Carried(lossless))
  {
    DecodedReady(b);
    hide Decode, Group, Encodable, Writable;
    var structs := Decode(b).value.structs;
    var g := Group(structs);
    forall k, i | k in g && 0 <= i < |g[k]|
      ensures Carried(lossless)(g[k][i])
    {
      InGroup(structs, g[k][i]);
      assert g[k][i] in g[k];
    }
  }

  /** A merge of lists without loss is one. */
  lemma MergeWritable(m: Entry)
    requires WellFormedEntry(m) && |m.blocks| <= MAX_U32 && AllIn(m.blocks, Carried(true))
    ensures WritableBlocks(m.blocks)
  {
    hide Encodable, Writable, NormalMap;
    forall k | k in m.blocks
      ensures WellFormed(k, m.blocks[k]) && |m.blocks[k]| <= MAX_U32 && forall s :: s in m.blocks[k] ==> Writable(s)
    {
      ChainLength(k, m.blocks[k]);
      assert AllOf(m.blocks[k], Carried(true));
    }
  }

  lemma MergeReady(m: Entry, lossless: bool)
    requires AllIn(m.blocks, Carried(lossless))
    ensures Ready(Canonical(m.blocks)) && Sound(Canonical(m.blocks))
  {
    var order := Desc(m.blocks.Keys);
    forall s | s in Canonical(m.blocks)
      ensures Encodable(s)
    {
      InLists(order, m.blocks, s);
      hide Encodable, Writable;
      var k :| k in order && s in m.blocks[k];
      assert AllOf(m.blocks[k], Carried(lossless));
      var i :| 0 <= i < |m.blocks[k]| && m.blocks[k][i] == s;
    }
  }

  ghost function Bytes(m: Entry): bytes {
    EncFragments(Canonical(m.blocks)) + EncDeletes(m.deletes, Absolute)
  }

  lemma SameUnitsMerge(m: Entry, x: Entry, es: seq<Entry>)
    requires MergeOf(m, es) && WellFormedBlocks(x.blocks) && x.deletes == m.deletes
    requires forall id: ID :: UnitOf(x.blocks, id) == UnitOf(m.blocks, id)
    ensures MergeOf(x, es)
  {
    hide WellFormedBlocks, NormalMap, UnitOf, Member;
  }

  lemma SameFullUnits(m: Entry, x: Entry, es: seq<Entry>)
    requires FullMergeOf(m, es) && forall id: ID :: FullUnitOf(x.blocks, id) == FullUnitOf(m.blocks, id)
    ensures FullMergeOf(x, es)
  {
    hide FullUnitOf, FromOne;
  }

  /** The bytes of a merge without loss, read back: the units and the deletions
      of all that was merged. */
  lemma MergeReadBack(m: Entry, es: seq<Entry>)
    requires MergeOf(m, es) && FullMergeOf(m, es) && WritableBlocks(m.blocks) && |m.deletes| <= MAX_U32
    ensures Decode(Bytes(m)).Ok?
    ensures MergeOf(EntryOf(Decode(Bytes(m)).value), es) && FullMergeOf(EntryOf(Decode(Bytes(m)).value), es)
  {
    assert NormalMap(m.deletes);
    hide MergeOf, FullMergeOf, NormalMap;
    var order := Desc(m.blocks.Keys);
    DistinctDesc(m.blocks.Keys);
    DescSize(m.blocks.Keys);
    assert |m.blocks.Keys| == |m.blocks|;
    assert |order| <= MAX_U32;
    NormalIsWire(m.deletes);
    NormBlocksSame(m.blocks);
    NormKeys(m.blocks);
    WireIsWellFormed(NormBlocks(m.blocks));
    hide WritableBlocks, Decode, EncFragments, EncDeletes, Flatten, NormBlocks, Distinct, WireBlocks, Group,
        WireDeletes,
         WellFormedBlocks, UnitOf, FullUnitOf;
    WrittenRoundTrip(order, m.blocks, m.deletes);
    GroupOfFlatten(order, NormBlocks(m.blocks));
    SameUnitsMerge(m, Entry(NormBlocks(m.blocks), m.deletes), es);
    SameFullUnits(m, Entry(NormBlocks(m.blocks), m.deletes), es);
  }

  ghost predicate AllDecode(updates: seq<bytes>) {
    forall i :: 0 <= i < |updates| ==> Decode(updates[i]).Ok?
  }

  ghost function Entries(updates: seq<bytes>): seq<Entry>
    requires AllDecode(updates)
  {
    seq(|updates|, i requires 0 <= i < |updates| => EntryOf(Decode(updates[i]).value))
  }

  /** No input that decodes deletes the clock. */
  ghost predicate Undeleted(updates: seq<bytes>, client: u32, c: int) {
    0 <= c < LINE &&
    forall i :: 0 <= i < |updates| && Decode(updates[i]).Ok? ==> !Member(Decode(updates[i]).value.deletes, client, c)
  }

  ghost predicate SomeUndeleted(updates: seq<bytes>, client: u32) {
    exists c: int :: Undeleted(updates, client, c)
  }

  /** Every input that decodes is well formed: contiguous lists. No client's lists
      vanish on the way, and all deletions together leave some clock free for
      every client. */
  ghost predicate Mergeable(updates: seq<bytes>) {
    && (forall i :: 0 <= i < |updates| && Decode(updates[i]).Ok? ==> WellFormedEntry(EntryOf(Decode(updates[i]).value)))
    && (forall client: u32 :: SomeUndeleted(updates, client))
    && (AllDecode(updates) ==> NoneVanish(Entries(updates)))
  }

  lemma MergeableRoom(updates: seq<bytes>)
    requires AllDecode(updates) && Mergeable(updates)
    ensures RoomIn(DeletesOf(Entries(updates))) && NoneVanish(Entries(updates))
  {
    hide Decode, Group, NoneVanish, WellFormedEntry, Member;
    var maps := DeletesOf(Entries(updates));
    forall client: u32
      ensures HasFree(maps, client)
    {
      assert SomeUndeleted(updates, client);
      var c: int :| Undeleted(updates, client, c);
      assert FreeIn(maps, client, c);
    }
  }

  /** Every input is written without loss. */
  ghost predicate Lossless(updates: seq<bytes>)
    requires AllDecode(updates)
  {
    forall i :: 0 <= i < |updates| ==> WritableBlocks(EntryOf(Decode(updates[i]).value).blocks)
  }

  /** Inputs of moderate size whose raw values the V2 reader takes too. */
  ghost predicate Moderate(updates: seq<bytes>)
    requires AllDecode(updates)
  {
    forall i :: 0 <= i < |updates| ==> Sized(updates[i]) && forall s :: s in Decode(updates[i]).value.structs ==>
        Fits(s)
  }

  /** Such inputs are without loss. */
  lemma ModerateIsLossless(updates: seq<bytes>)
    requires AllDecode(updates) && Mergeable(updates) && Moderate(updates)
    ensures Lossless(updates)
  {
    hide Decode, Group, Fits, Writable, NormalMap;
    forall i | 0 <= i < |updates|
      ensures WritableBlocks(EntryOf(Decode(updates[i]).value).blocks)
    {
      assert WellFormedEntry(EntryOf(Decode(updates[i]).value));
      DecodedLossless(updates[i]);
    }
  }

  /** And any input of up to a mebibyte is moderate. */
  lemma ShortIsModerate(updates: seq<bytes>)
    requires AllDecode(updates) && forall i :: 0 <= i < |updates| ==> |updates[i]| <= COLLECTION_LIMIT
    ensures Moderate(updates)
  {
    hide Decode, Fits, Writable;
    forall i | 0 <= i < |updates|
      ensures Sized(updates[i]) && forall s :: s in Decode(updates[i]).value.structs ==> Fits(s)
    {
      DecodedWire(updates[i]);
    }
  }

  /** Fails exactly when an update does not decode, with the first one's error;
      otherwise the bytes are those of a merge of all updates. */
  method MergeUpdatesV1(updates: seq<bytes>) returns (r: Result<bytes>, ghost m: Entry)
    requires Mergeable(updates)
    ensures r.Ok? <==> AllDecode(updates)
    ensures r.Err? ==> exists i :: 0 <= i < |updates| && AllDecode(updates[..i]) && Decode(updates[i]) == Err(r.error)
    ensures r.Ok? ==> r.value == Bytes(m) && MergeOf(m, Entries(updates)) && FullMergeOf(m, Entries(updates))
    ensures r.Ok? && (Lossless(updates) || Moderate(updates)) && |m.blocks| <= MAX_U32 && |m.deletes| <= MAX_U32 ==>
              && Decode(r.value).Ok? && MergeOf(EntryOf(Decode(r.value).value), Entries(updates))
              && FullMergeOf(EntryOf(Decode(r.value).value), Entries(updates))
  {
    hide Decode, Group, EncFragments, EncDeletes, Canonical, NormalMap, WellFormedBlocks;
    var entries: seq<Entry> := [];
    m := Entry(map[], map[]);
    for i := 0 to |updates|
      invariant |entries| == i && AllDecode(updates[..i])
      invariant forall j :: 0 <= j < i ==> Decode(updates[j]).Ok? && entries[j] == EntryOf(Decode(updates[j]).value)
    {
      var u := LazyReaderV1.DecodeV1(updates[i]);
      if u.Err? {
        return Err(u.error), m;
      }
      var blocks := GroupByClient(u.value.structs);
      entries := entries + [Entry(blocks, u.value.deletes)];
      assert updates[..i + 1] == updates[..i] + [updates[i]];
    }
    assert updates[..|updates|] == updates;
    ghost var lossless := Lossless(updates);
    ghost var ok := Carried(lossless);
    forall i | 0 <= i < |entries|
      ensures AllIn(entries[i].blocks, ok) && WellFormedEntry(entries[i])
    {
      CarriedIn(updates[i], lossless);
    }
    assert entries == Entries(updates);
    if Moderate(updates) {
      ModerateIsLossless(updates);
    }
    CarriedClosed(lossless);
    MergeableRoom(updates);
    hide NoneVanish, RoomIn, Mergeable, Carried, ClosedUnderCuts, AllIn, WellFormedEntry, MergeOf, FullMergeOf,
        Lossless,
        Moderate, WritableBlocks;
    var merged := MergeDecoded(entries, ok);
    m := merged;
    MergeReady(merged, lossless);
    var body := WriteGroups(merged.blocks);
    var out := AppendDeletes(body.value, merged.deletes, Absolute);
    MergedBytes(merged, entries, lossless);
    r := Ok(out);
  }

  lemma MergedBytes(m: Entry, es: seq<Entry>, lossless: bool)
    requires MergeOf(m, es) && FullMergeOf(m, es) && AllIn(m.blocks, Carried(lossless))
    ensures lossless && |m.blocks| <= MAX_U32 && |m.deletes| <= MAX_U32 ==>
              && Decode(Bytes(m)).Ok? && MergeOf(EntryOf(Decode(Bytes(m)).value), es)
              && FullMergeOf(EntryOf(Decode(Bytes(m)).value), es)
  {
    hide Decode, Bytes, WritableBlocks, Carried, AllIn;
    if lossless && |m.blocks| <= MAX_U32 && |m.deletes| <= MAX_U32 {
      MergeWritable(m);
      MergeReadBack(m, es);
    }
  }
}
