/** Telling V1 from V2 bytes. */
module Formats {
  import opened Prelude
  import opened Wire
  import opened Orders
  import opened RawValues
  import opened Structs
  import opened IdSets
  import opened IdSetObject
  import opened Updates
  import opened CodecV1
  import opened DeleteSets
  import opened UpdateV1
  import opened CodecV2
  import opened UpdateV2
  import DeleteWords
  import UpdateWordsV2

  /** Nine length-prefixed arrays, whatever is in them. */
  function HeaderPrefix(b: bytes, n: nat): Result<()>
    decreases n
  {
    if n == 0 then Ok(())
    else
      var (_, rest) :- ReadVarBytes(b);
      HeaderPrefix(rest, n - 1)
  }

  /** isMalformedUpdatePayloadForV1. */
  predicate Malformed(e: Error) {
    e in {UnexpectedEOF, NonCanonical, Overflow, InvalidLength, StructOverflow, RangeOverflow}
  }

  /** detectUpdateFormatWithReason: a first number other than zero is V1. After
      a zero, V1 if the rest is exactly one delete set, else V2 if it starts
      with nine arrays. */
  function Detect(update: bytes): Result<Format> {
    if update == [] then Err(UnknownFormat)
    else
      var (first, rest) :- ReadVarUint(update);
      if first != 0 then Ok(V1)
      else
        var v1 := ReadDeletes(rest, Absolute);
        if v1.Ok? && v1.value.1 == [] then Ok(V1)
        else if HeaderPrefix(rest, 9).Ok? then Ok(V2)
        else Err(if v1.Ok? then TrailingBytes else if Malformed(v1.error) then v1.error else AmbiguousFormat)
  }

  lemma {:induction false} GroupsMalformed(b: bytes, i: nat)
    requires i <= 4
    ensures ReadGroups(b, i).Err? ==> Malformed(ReadGroups(b, i).error)
    decreases |b|
  {
    if b != [] && i < 4 {
      GroupsMalformed(b[1..], i + 1);
    }
  }

  lemma VarUintMalformed(b: bytes)
    ensures ReadVarUint(b).Err? ==> Malformed(ReadVarUint(b).error)
  {
    GroupsMalformed(b, 0);
    hide ReadGroups;
  }

  lemma RangeMalformed(b: bytes, cur: nat)
    ensures ReadRange(b, cur, Absolute).Err? ==> Malformed(ReadRange(b, cur, Absolute).error)
  {
    hide ReadVarUint;
    VarUintMalformed(b);
    if ReadVarUint(b).Ok? {
      VarUintMalformed(ReadVarUint(b).value.1);
    }
  }

  lemma {:induction false} RangesMalformed(b: bytes, n: nat, cur: nat, acc: seq<Range>)
    ensures ReadRanges(b, n, cur, acc, Absolute).Err? ==> Malformed(ReadRanges(b, n, cur, acc, Absolute).error)
    decreases n
  {
    if n > 0 {
      hide ReadRange, Insert;
      RangeMalformed(b, cur);
      if ReadRange(b, cur, Absolute).Ok? {
        var (r, rest) := ReadRange(b, cur, Absolute).value;
        var checked := NewRange(r.clock, r.len);
        if checked.Ok? {
          RangesMalformed(rest, n - 1, r.End(), Insert(acc, checked.value));
        }
      }
    }
  }

  lemma {:induction false} ClientsMalformed(b: bytes, n: nat, acc: RangeMap)
    ensures ReadClients(b, n, acc, Absolute).Err? ==> Malformed(ReadClients(b, n, acc, Absolute).error)
    decreases n
  {
    if n > 0 {
      hide ReadVarUint, ReadRanges;
      VarUintMalformed(b);
      if ReadVarUint(b).Ok? {
        var (client, b1) := ReadVarUint(b).value;
        VarUintMalformed(b1);
        if ReadVarUint(b1).Ok? {
          var (count, b2) := ReadVarUint(b1).value;
          RangesMalformed(b2, count, 0, RangesOf(acc, client));
          if ReadRanges(b2, count, 0, RangesOf(acc, client), Absolute).Ok? {
            var (ranges, rest) := ReadRanges(b2, count, 0, RangesOf(acc, client), Absolute).value;
            ClientsMalformed(rest, n - 1, if count == 0 then acc else acc[client := ranges]);
          }
        }
      }
    }
  }

  /** A delete set that cannot be read is malformed, so no single update is ever
      reported as ambiguous. */
  lemma NeverAmbiguous(update: bytes)
    ensures Detect(update) != Err(AmbiguousFormat)
  {
    VarUintMalformed(update);
    hide ReadVarUint, ReadClients, HeaderPrefix;
    if ReadVarUint(update).Ok? {
      var rest := ReadVarUint(update).value.1;
      VarUintMalformed(rest);
      if ReadVarUint(rest).Ok? {
        ClientsMalformed(ReadVarUint(rest).value.1, ReadVarUint(rest).value.0, map[]);
      }
    }
  }

  lemma {:induction false} PrefixOfArrays(data: seq<bytes>, rest: bytes)
    requires forall a :: a in data ==> |a| <= MAX_U32
    ensures HeaderPrefix(Arrays(data) + rest, |data|).Ok?
  {
    hide ReadVarBytes, VarBytes;
    if data != [] {
      assert data[0] in data && forall a :: a in data[1..] ==> a in data;
      Assoc(VarBytes(data[0]), Arrays(data[1..]), rest);
      VarBytesRoundTrip(data[0], Arrays(data[1..]) + rest);
      PrefixOfArrays(data[1..], rest);
    }
  }

  lemma {:induction false} PrefixGot(b: bytes, n: nat)
    ensures HeaderPrefix(b, n).Ok? <==> ReadArrays(b, n).Ok?
    decreases n
  {
    hide ReadVarBytes;
    if n > 0 && ReadVarBytes(b).Ok? {
      PrefixGot(ReadVarBytes(b).value.1, n - 1);
    }
  }

  /** Nine length-prefixed arrays, and anything. */
  ghost predicate Columnar(b: bytes) {
    exists a, rest :: |a| == 9 && FitArrays(a) && b == Arrays(a) + rest
  }

  lemma ColumnarExact(b: bytes)
    ensures Columnar(b) <==> HeaderPrefix(b, 9).Ok?
  {
    hide HeaderPrefix, ReadArrays, Arrays, FitArrays;
    PrefixGot(b, 9);
    if ReadArrays(b, 9).Ok? {
      UpdateWordsV2.ArraysGot(b, 9);
    }
    if Columnar(b) {
      var a: seq<bytes>, rest: bytes :| |a| == 9 && FitArrays(a) && b == Arrays(a) + rest;
      ArraysRoundTrip(a, rest);
    }
  }

  /** Exactly one V1 delete set. */
  ghost predicate OneDeleteSet(b: bytes) {
    exists es :: DeleteWords.EntriesOk(es) && b == DeleteWords.SpellDeletes(es)
                 && DeleteWords.MeanEntries(es, Absolute).Ok?
  }

  lemma OneDeleteSetExact(b: bytes)
    ensures OneDeleteSet(b) <==> ReadDeletes(b, Absolute).Ok? && ReadDeletes(b, Absolute).value.1 == []
  {
    hide ReadDeletes, DeleteWords.EntriesOk, DeleteWords.SpellDeletes, DeleteWords.MeanEntries, DeleteWords.Gather;
    if ReadDeletes(b, Absolute).Ok? && ReadDeletes(b, Absolute).value.1 == [] {
      DeleteWords.DeletesExact(b, Absolute, ReadDeletes(b, Absolute).value.0, []);
      var es :| DeleteWords.EntriesOk(es) && b == DeleteWords.SpellDeletes(es) + []
        && DeleteWords.MeanEntries(es, Absolute).Ok?;
      assert b == DeleteWords.SpellDeletes(es);
    }
    if OneDeleteSet(b) {
      var es :| DeleteWords.EntriesOk(es) && b == DeleteWords.SpellDeletes(es)
        && DeleteWords.MeanEntries(es, Absolute).Ok?;
      assert b == DeleteWords.SpellDeletes(es) + [];
      DeleteWords.DeletesSpelled(es, Absolute, []);
    }
  }

  /** What is taken for which format: V1 is whatever starts with a number other
      than 0, and a 0 with exactly one delete set behind it; V2 is any other 0 in
      front of nine length-prefixed arrays. Nothing else is taken for an update. */
  lemma DetectExact(update: bytes)
    ensures Detect(update) == Ok(V1) <==>
            && ReadVarUint(update).Ok?
            && (ReadVarUint(update).value.0 != 0 || OneDeleteSet(ReadVarUint(update).value.1))
    ensures Detect(update) == Ok(V2) <==>
            && update != [] && update[0] == 0 && Columnar(update[1..]) && !OneDeleteSet(update[1..])
    ensures Detect(update) == Err(UnknownFormat) <==> update == []
  {
    VarUintMalformed(update);
    ZeroFirst(update);
    hide ReadVarUint, ReadDeletes, HeaderPrefix, OneDeleteSet, Columnar;
    if ReadVarUint(update).Ok? {
      var rest := ReadVarUint(update).value.1;
      OneDeleteSetExact(rest);
      ColumnarExact(rest);
    }
  }

  lemma ZeroFirst(b: bytes)
    ensures (ReadVarUint(b).Ok? && ReadVarUint(b).value.0 == 0) <==> b != [] && b[0] == 0
    ensures b != [] && b[0] == 0 ==> ReadVarUint(b) == Ok((0, b[1..]))
  {
    if ReadVarUint(b).Ok? {
      VarUintCanonical(b);
      assert VarUint(0) == [0];
    }
  }

  lemma NotEmpty(v: nat, rest: bytes)
    ensures VarUint(v) + rest != []
  {
  }

  /** Every V1 update is told to be V1: with structs by its fragment count, and
      without by its delete set, which is all there is. */
  lemma DetectsV1(b: Blocks, deletes: RangeMap)
    requires WireBlocks(b) && WireDeletes(deletes, Absolute)
    ensures Detect(EncFragments(Canonical(b)) + EncDeletes(deletes, Absolute)) == Ok(V1)
  {
    var order := Desc(b.Keys);
    CanonicalReadBack(b, deletes);
    assert |b| <= MAX_U32;
    FragmentsOfFlatten(order, b);
    hide VarUint, ReadVarUint, EncFragments, Flatten, WireBlocks, WireDeletes, EncDeletes, ReadDeletes,
        WellFormedBlocks,
         Distinct, Descending, Decode, EncRun, HeaderPrefix;
    var body := Flat(Lists(order, b), EncRun);
    var dels := EncDeletes(deletes, Absolute);
    Assoc(VarUint(|order|), body, dels);
    VarUintRoundTrip(|order|, body + dels);
    NotEmpty(|order|, body + dels);
    if |order| == 0 {
      assert body == [] && body + dels == dels && dels + [] == dels;
      DeletesRoundTrip(deletes, Absolute, []);
    }
  }

  lemma LayoutParts(c: Cols)
    requires FitCols(c)
    ensures ReadVarUint(Layout(c)) == Ok((0, Arrays(Coded(c)) + c.rest)) && Layout(c) != []
    ensures HeaderPrefix(Arrays(Coded(c)) + c.rest, 9).Ok?
  {
    hide VarUint, ReadVarUint, Arrays, HeaderPrefix;
    VarUintRoundTrip(0, Arrays(Coded(c)) + c.rest);
    NotEmpty(0, Arrays(Coded(c)) + c.rest);
    PrefixOfArrays(Coded(c), c.rest);
  }

  /** V2 bytes are told to be V2, unless what follows the flag happens to be
      exactly one V1 delete set; then they are taken for V1. */
  lemma DetectsV2(c: Cols)
    requires FitCols(c)
    ensures var v1 := ReadDeletes(Arrays(Coded(c)) + c.rest, Absolute);
            Detect(Layout(c)) == if v1.Ok? && v1.value.1 == [] then Ok(V1) else Ok(V2)
  {
    LayoutParts(c);
    hide Layout, ReadDeletes, HeaderPrefix, FitCols, Arrays, Coded, ReadVarUint;
  }

  /** Without keys the first column is empty and reads as a delete set of no
      clients, with the other columns left over: V2 for certain. */
  lemma DetectsV2WithoutKeys(c: Cols)
    requires FitCols(c) && c.keyClock == []
    ensures Detect(Layout(c)) == Ok(V2)
  {
    DetectsV2(c);
    EmptyColumn(c);
  }

  lemma EmptyColumn(c: Cols)
    requires c.keyClock == []
    ensures var b := Arrays(Coded(c)) + c.rest;
            ReadDeletes(b, Absolute).Ok? && ReadDeletes(b, Absolute).value.1 != []
  {
    var a := Coded(c);
    assert a[0] == [] && VarBytes([]) == [0];
    var tail := Arrays(a[1..]) + c.rest;
    Assoc(VarBytes([]), Arrays(a[1..]), c.rest);
    assert Arrays(a) + c.rest == [0] + tail;
    VarUintRoundTrip(0, tail);
    assert a[1..] != [] && Arrays(a[1..]) != [] by {
      NotEmpty(AsU32(|a[1]|), a[1]);
      assert a[1..][0] == a[1];
    }
  }

  /** An update without format contents and without named types writes no keys. */
  lemma {:induction false} KeylessList(l: seq<Struct>, n: nat)
    requires KeysIn(l) == 0
    ensures PutList(l, n).keyClock == []
  {
    if l != [] {
      KeylessList(l[1..], n + KeysOf(l[0]));
      KeylessStruct(l[0], n);
    }
  }

  lemma KeylessStruct(s: Struct, n: nat)
    requires KeysOf(s) == 0
    ensures PutStruct(s, n).keyClock == []
  {
    if s.Item? {
      KeylessContent(s.content, n);
      KeylessPlace(s);
      hide PutContent, PutPlace, Info;
    }
  }

  lemma KeylessContent(c: Content, n: nat)
    requires Keys(c) == 0
    ensures PutContent(c, n).keyClock == []
  {
  }

  lemma KeylessPlace(s: Struct)
    requires s.Item?
    ensures PutPlace(s).keyClock == []
  {
  }

  lemma {:induction false} KeylessBlocks(order: seq<u32>, b: Blocks, n: nat)
    requires (forall k :: k in order ==> k in b) && AllKeys(order, b) == 0
    ensures PutBlocks(order, b, n).keyClock == []
  {
    hide PutList, KeysIn;
    if order != [] {
      KeylessList(b[order[0]], n);
      KeylessBlocks(order[1..], b, n + KeysIn(b[order[0]]));
    }
  }

  /** So every V2 update without keys is detected. */
  lemma DetectsKeyless(b: Blocks, deletes: RangeMap)
    requires FitsV2(b, deletes) && AllKeys(Desc(b.Keys), b) == 0
    ensures Detect(Layout(PutUpdate(b, deletes))) == Ok(V2)
  {
    KeylessBlocks(Desc(b.Keys), b, 0);
    hide Layout, Detect, FitCols, PutBlocks, EncDeletes;
    DetectsV2WithoutKeys(PutUpdate(b, deletes));
  }

  /** mergeUpdateFormats: the one format of all updates whose format is known. */
  method MergeFormats(formats: seq<Option<Format>>) returns (r: Result<Format>)
    ensures r.Ok? <==> (exists i :: 0 <= i < |formats| && formats[i].Some?) &&
                       forall i, j :: 0 <= i < |formats| && 0 <= j < |formats| && formats[i].Some? && formats[j].Some? ==>
                         formats[i] == formats[j]
    ensures r.Ok? ==> Some(r.value) in formats
    ensures r == Err(UnknownFormat) <==> forall i :: 0 <= i < |formats| ==> formats[i].None?
  {
    var last: Option<Format> := None;
    for i := 0 to |formats|
      invariant last.None? ==> forall j :: 0 <= j < i ==> formats[j].None?
      invariant last.Some? ==> last in formats[..i] && forall j :: 0 <= j < i && formats[j].Some? ==> formats[j] == last
    {
      if formats[i].Some? {
        if last.Some? && formats[i] != last {
          ghost var k :| 0 <= k < i && formats[k] == last;
          return Err(MismatchedFormats);
        }
        last := formats[i];
      }
    }
    if last.None? {
      return Err(UnknownFormat);
    }
    r := Ok(last.value);
  }
}
