/** Whole updates in V2 form: nine length-prefixed columns, then the rest
    stream with the block headers, Skip lengths, raw values and delete set. */
module UpdateV2 {
  import opened Prelude
  import opened Wire
  import opened Orders
  import opened RawValues
  import opened Structs
  import opened IdSetObject
  import opened Updates
  import opened CodecV1
  import opened DeleteSets
  import opened UpdateV1
  import opened Lib0
  import opened CodecV2

  // ----- Writing -----

  function KeysIn(l: seq<Struct>): nat {
    if l == [] then 0 else KeysOf(l[0]) + KeysIn(l[1..])
  }

  function PutList(l: seq<Struct>, n: nat): Cols {
    if l == [] then NOTHING else PutStruct(l[0], n).Plus(PutList(l[1..], n + KeysOf(l[0])))
  }

  /** Count, client and first clock, then the structs. */
  function PutBlock(client: u32, l: seq<Struct>, n: nat): Cols {
    Rest(VarUint(AsU32(|l|))).Plus(Client(client).Plus(
      (if l == [] then NOTHING else Rest(VarUint(l[0].id.clock))).Plus(PutList(l, n))))
  }

  function PutBlocks(order: seq<u32>, b: Blocks, n: nat): Cols
    requires forall k :: k in order ==> k in b
  {
    if order == [] then NOTHING
    else PutBlock(order[0], b[order[0]], n).Plus(PutBlocks(order[1..], b, n + KeysIn(b[order[0]])))
  }

  function AllKeys(order: seq<u32>, b: Blocks): nat
    requires forall k :: k in order ==> k in b
  {
    if order == [] then 0 else KeysIn(b[order[0]]) + AllKeys(order[1..], b)
  }

  /** All columns of an update. */
  ghost function PutUpdate(b: Blocks, deletes: RangeMap): Cols {
    Rest(VarUint(AsU32(|Desc(b.Keys)|))).Plus(PutBlocks(Desc(b.Keys), b, 0).Plus(Rest(EncDeletes(deletes, Delta))))
  }

  function Arrays(data: seq<bytes>): bytes {
    if data == [] then [] else VarBytes(data[0]) + Arrays(data[1..])
  }

  function Coded(c: Cols): seq<bytes> {
    [EncDiffs(c.keyClock), EncUints(c.client), EncDiffs(c.left), EncDiffs(c.right), EncBytes(c.info),
     EncStrings(c.strings), EncBytes(c.parentInfo), EncUints(c.typeRef), EncUints(c.lengths)]
  }

  /** Feature flag 0, the nine columns, the rest. */
  function Layout(c: Cols): bytes {
    VarUint(0) + (Arrays(Coded(c)) + c.rest)
  }

  ghost function EncodeTwo(u: Update): bytes {
    Layout(PutUpdate(Group(u.structs), u.deletes))
  }

  // ----- Reading -----

  function ReadArrays(b: bytes, n: nat): (r: Result<(seq<bytes>, bytes)>)
    ensures r.Ok? ==> |r.value.0| == n
    decreases n
  {
    if n == 0 then Ok(([], b))
    else
      var (first, b1) :- ReadVarBytes(b);
      var (more, rest) :- ReadArrays(b1, n - 1);
      Ok(([first] + more, rest))
  }

  /** Nine cursors at the start of their columns. */
  function Fresh(a: seq<bytes>, strings: StringState, rest: bytes): Decoder
    requires |a| == 9
  {
    Decoder(DiffState(a[0], 0, 0, 0), UintState(a[1], 0, 0), DiffState(a[2], 0, 0, 0), DiffState(a[3], 0, 0, 0),
            ByteState(a[4], 0, 0), strings, ByteState(a[6], 0, 0), UintState(a[7], 0, 0), UintState(a[8], 0, 0),
                rest, [])
  }

  function OpenDecoder(b: bytes): Result<Decoder> {
    var (flag, b1) :- ReadVarUint(b);
    if flag != 0 then Err(UnsupportedFeature)
    else
      var (a, rest) :- ReadArrays(b1, 9);
      var strings :- OpenStrings(a[5]);
      Ok(Fresh(a, strings, rest))
  }

  function GetStructs(d: Decoder, n: nat, id: ID): Read<seq<Struct>>
    decreases n
  {
    if n == 0 then Ok(([], d))
    else
      var (s, d1) :- GetStruct(d, id);
      var (more, d2) :- GetStructs(d1, n - 1, ID(id.client, AsU32(s.End())));
      Ok(([s] + more, d2))
  }

  function GetHeader(d: Decoder): Read<(u32, ID)> {
    var (count, d1) :- GetRestUint(d);
    var (client, d2) :- GetClient(d1);
    var (clock, d3) :- GetRestUint(d2);
    Ok(((count, ID(client, clock)), d3))
  }

  function GetBlocks(d: Decoder, n: nat): Read<seq<Struct>>
    decreases n
  {
    if n == 0 then Ok(([], d))
    else
      var ((count, id), d1) :- GetHeader(d);
      var (l, d2) :- GetStructs(d1, count, id);
      var (more, d3) :- GetBlocks(d2, n - 1);
      Ok((l + more, d3))
  }

  /** ensureDrained: no column has anything left. */
  predicate Drained(d: Decoder) {
    && DiffDrained(d.keyClock) && UintDrained(d.client) && DiffDrained(d.left) && DiffDrained(d.right)
    && ByteDrained(d.info) && StringDrained(d.strings) && ByteDrained(d.parentInfo)
    && UintDrained(d.typeRef) && UintDrained(d.lengths)
  }

  /** After the structs: the delete set, nothing after it, all columns empty. */
  function Closing(d: Decoder): Result<RangeMap> {
    var (deletes, rest) :- ReadDeletes(d.rest, Delta);
    if rest != [] then Err(TrailingBytes)
    else if !Drained(d) then Err(TrailingBytes)
    else Ok(deletes)
  }

  function DecodeTwo(b: bytes): Result<Update> {
    var d :- OpenDecoder(b);
    var (n, d1) :- GetRestUint(d);
    var (structs, d2) :- GetBlocks(d1, n);
    var deletes :- Closing(d2);
    Ok(Update(structs, deletes))
  }

  // ----- Round trip -----

  lemma GetStructsStep(d: Decoder, n: nat, id: ID, s: Struct, d1: Decoder, more: seq<Struct>, d2: Decoder)
    requires n > 0 && GetStruct(d, id) == Ok((s, d1)) && s.End() <= MAX_U32
    requires GetStructs(d1, n - 1, ID(id.client, s.End())) == Ok((more, d2))
    ensures GetStructs(d, n, id) == Ok(([s] + more, d2))
  {
    hide GetStruct;
  }

  lemma {:induction false} ListRead(client: u32, l: seq<Struct>, id: ID, d: Decoder, c: Cols)
    requires Chain(client, l) && (forall i :: 0 <= i < |l| ==> WireStruct(l[i]))
    requires id.client == client && (l != [] ==> id == l[0].id)
    requires |d.keys| + KeysIn(l) <= MAX_U32 && Holds(d, PutList(l, |d.keys|).Plus(c))
    ensures ReadsKeys(GetStructs(d, |l|, id), l, d, KeysIn(l), c)
    decreases |l|
  {
    hide GetStruct, PutStruct, WireStruct, Holds, KeysOf, Cols.Plus;
    if l == [] {
      NothingPlus(c);
    } else {
      var s, tail := l[0], l[1..];
      var rest := PutList(tail, |d.keys| + KeysOf(s));
      PlusAssoc(PutStruct(s, |d.keys|), rest, c);
      StructRead(s, d, rest.Plus(c));
      var d1 := GetStruct(d, id).value.1;
      var next := ID(client, s.End());
      NextId(client, l);
      ListRead(client, tail, next, d1, c);
      hide GetStructs;
      GetStructsStep(d, |l|, id, s, d1, tail, GetStructs(d1, |tail|, next).value.1);
      assert l == [s] + tail;
    }
  }

  lemma NextId(client: u32, l: seq<Struct>)
    requires Chain(client, l) && l != []
    ensures l[0].End() <= MAX_U32 && Chain(client, l[1..]) && l[0].id.client == client
    ensures l[1..] != [] ==> l[1..][0].id == ID(client, l[0].End())
  {
    if |l| > 1 {
      ChainSuffix(client, l, 1);
    }
  }

  lemma HeaderRead(d: Decoder, count: u32, id: ID, c: Cols)
    requires Holds(d, Rest(VarUint(count)).Plus(Client(id.client).Plus(Rest(VarUint(id.clock)).Plus(c))))
    ensures Reads(GetHeader(d), (count, id), d, c)
  {
    hide Holds, GetRestUint, GetClient, Rest, Client, VarUint, Cols.Plus;
    RestUintRead(d, count, Client(id.client).Plus(Rest(VarUint(id.clock)).Plus(c)));
    var d1 := GetRestUint(d).value.1;
    ClientRead(d1, id.client, Rest(VarUint(id.clock)).Plus(c));
    RestUintRead(GetClient(d1).value.1, id.clock, c);
  }

  lemma BlockPlus(client: u32, l: seq<Struct>, n: nat, c: Cols)
    requires l != []
    ensures PutBlock(client, l, n).Plus(c) ==
            Rest(VarUint(AsU32(|l|))).Plus(Client(client).Plus(Rest(VarUint(l[0].id.clock)).Plus(PutList(l,
                n).Plus(c))))
  {
    hide Rest, Client, VarUint, PutList, Cols.Plus;
    PartsPlus(Rest(VarUint(AsU32(|l|))), Client(client), Rest(VarUint(l[0].id.clock)), PutList(l, n), c);
  }

  lemma GetBlocksStep(d: Decoder, n: nat, count: u32, id: ID, d1: Decoder, l: seq<Struct>, d2: Decoder,
                      more: seq<Struct>, d3: Decoder)
    requires n > 0 && GetHeader(d) == Ok(((count, id), d1)) && GetStructs(d1, count, id) == Ok((l, d2))
    requires GetBlocks(d2, n - 1) == Ok((more, d3))
    ensures GetBlocks(d, n) == Ok((l + more, d3))
  {
    hide GetHeader, GetStructs;
  }

  lemma BlockRead(client: u32, l: seq<Struct>, d: Decoder, c: Cols) returns (d1: Decoder, d2: Decoder)
    requires WireList(client, l) && |d.keys| + KeysIn(l) <= MAX_U32
    requires Holds(d, PutBlock(client, l, |d.keys|).Plus(c))
    ensures GetHeader(d) == Ok(((|l|, l[0].id), d1)) && GetStructs(d1, |l|, l[0].id) == Ok((l, d2))
    ensures Holds(d2, c) && |d2.keys| == |d.keys| + KeysIn(l)
  {
    hide Holds, GetHeader, GetStructs, PutBlock, PutList, Cols.Plus, WireStruct, KeysIn;
    NextId(client, l);
    BlockPlus(client, l, |d.keys|, c);
    HeaderRead(d, |l|, l[0].id, PutList(l, |d.keys|).Plus(c));
    d1 := GetHeader(d).value.1;
    ListRead(client, l, l[0].id, d1, c);
    d2 := GetStructs(d1, |l|, l[0].id).value.1;
  }

  lemma {:induction false} BlocksRead(order: seq<u32>, b: Blocks, d: Decoder, c: Cols)
    requires (forall k :: k in order ==> k in b) && WireBlocks(b)
    requires |d.keys| + AllKeys(order, b) <= MAX_U32 && Holds(d, PutBlocks(order, b, |d.keys|).Plus(c))
    ensures ReadsKeys(GetBlocks(d, |order|), Flatten(order, b), d, AllKeys(order, b), c)
    decreases |order|
  {
    hide Holds, GetHeader, GetStructs, PutBlock, WireList, KeysIn, Cols.Plus, HasUnits;
    if order == [] {
      NothingPlus(c);
    } else {
      var k, tail := order[0], order[1..];
      assert k in order && WireList(k, b[k]);
      var rest := PutBlocks(tail, b, |d.keys| + KeysIn(b[k]));
      PlusAssoc(PutBlock(k, b[k], |d.keys|), rest, c);
      var d1, d2 := BlockRead(k, b[k], d, rest.Plus(c));
      BlocksRead(tail, b, d2, c);
      hide GetBlocks;
      WireCount(k, b[k]);
      GetBlocksStep(d, |order|, |b[k]|, b[k][0].id, d1, b[k], d2, Flatten(tail, b), GetBlocks(d2, |tail|).value.1);
    }
  }

  lemma WireCount(client: u32, l: seq<Struct>)
    requires WireList(client, l)
    ensures 0 < |l| <= MAX_U32
  {
  }

  // ----- The layout -----

  /** The columns and their codes fit in 32-bit lengths. */
  predicate FitCols(c: Cols) {
    && |c.keyClock| <= MAX_U32 && |c.client| <= MAX_U32 && |c.left| <= MAX_U32 && |c.right| <= MAX_U32
    && |c.info| <= MAX_U32 && FitStrings(c.strings) && |c.parentInfo| <= MAX_U32 && |c.typeRef| <= MAX_U32
    && |c.lengths| <= MAX_U32 && forall a :: a in Coded(c) ==> |a| <= MAX_U32
  }

  predicate FitArrays(data: seq<bytes>) {
    forall a :: a in data ==> |a| <= MAX_U32
  }

  lemma FitTail(data: seq<bytes>)
    requires FitArrays(data) && data != []
    ensures |data[0]| <= MAX_U32 && FitArrays(data[1..])
  {
    assert data[0] in data && forall a :: a in data[1..] ==> a in data;
  }

  lemma OneMoreArray(b: bytes, first: bytes, b1: bytes, more: seq<bytes>, rest: bytes)
    requires ReadVarBytes(b) == Ok((first, b1)) && ReadArrays(b1, |more|) == Ok((more, rest))
    ensures ReadArrays(b, |more| + 1) == Ok(([first] + more, rest))
  {
    hide ReadVarBytes;
  }

  lemma ArraysPrepend(first: bytes, more: seq<bytes>)
    ensures Arrays([first] + more) == VarBytes(first) + Arrays(more)
  {
    hide VarBytes;
    assert ([first] + more)[1..] == more;
  }

  lemma ArraysStep(first: bytes, more: seq<bytes>, rest: bytes)
    requires |first| <= MAX_U32 && ReadArrays(Arrays(more) + rest, |more|) == Ok((more, rest))
    ensures ReadArrays(Arrays([first] + more) + rest, |more| + 1) == Ok(([first] + more, rest))
  {
    hide ReadVarBytes, VarBytes, Arrays, ReadArrays;
    ArraysPrepend(first, more);
    var tail := Arrays(more) + rest;
    VarBytesRoundTrip(first, tail);
    Assoc(VarBytes(first), Arrays(more), rest);
    OneMoreArray(VarBytes(first) + tail, first, tail, more, rest);
  }

  lemma ArraysCons(data: seq<bytes>, rest: bytes)
    requires data != [] && |data[0]| <= MAX_U32
    requires ReadArrays(Arrays(data[1..]) + rest, |data| - 1) == Ok((data[1..], rest))
    ensures ReadArrays(Arrays(data) + rest, |data|) == Ok((data, rest))
  {
    hide Arrays, ReadArrays;
    ArraysStep(data[0], data[1..], rest);
    assert [data[0]] + data[1..] == data;
  }

  lemma NoArrays(rest: bytes)
    ensures ReadArrays(Arrays([]) + rest, 0) == Ok(([], rest))
  {
    assert [] + rest == rest;
  }

  lemma {:induction false} ArraysRoundTrip(data: seq<bytes>, rest: bytes)
    requires FitArrays(data)
    ensures ReadArrays(Arrays(data) + rest, |data|) == Ok((data, rest))
  {
    hide Arrays, ReadArrays, FitArrays;
    if data == [] {
      NoArrays(rest);
    } else {
      FitTail(data);
      ArraysRoundTrip(data[1..], rest);
      ArraysCons(data, rest);
    }
  }

  lemma FreshYields(c: Cols)
    requires FitCols(c)
    ensures OpenStrings(EncStrings(c.strings)).Ok?
    ensures Holds(Fresh(Coded(c), OpenStrings(EncStrings(c.strings)).value, c.rest), c)
  {
    hide EncDiffs, EncUints, EncBytes, EncStrings, OpenStrings, DiffYields, UintYields, ByteYields, StringYields;
    DiffsRoundTrip(c.keyClock);
    UintsRoundTrip(c.client);
    DiffsRoundTrip(c.left);
    DiffsRoundTrip(c.right);
    BytesRoundTrip(c.info);
    StringsRoundTrip(c.strings);
    BytesRoundTrip(c.parentInfo);
    UintsRoundTrip(c.typeRef);
    UintsRoundTrip(c.lengths);
  }

  lemma OpenSteps(b: bytes, b1: bytes, a: seq<bytes>, rest: bytes)
    requires ReadVarUint(b) == Ok((0, b1)) && ReadArrays(b1, 9) == Ok((a, rest)) && OpenStrings(a[5]).Ok?
    ensures OpenDecoder(b) == Ok(Fresh(a, OpenStrings(a[5]).value, rest))
  {
    hide OpenStrings, ReadArrays, ReadVarUint;
  }

  lemma LayoutOpens(c: Cols)
    requires FitCols(c)
    ensures OpenDecoder(Layout(c)).Ok? && Holds(OpenDecoder(Layout(c)).value, c)
    ensures OpenDecoder(Layout(c)).value.keys == []
  {
    FreshYields(c);
    hide VarUint, ReadVarUint, Arrays, ReadArrays, EncDiffs, EncUints, EncBytes, EncStrings, OpenStrings,
        OpenDecoder, Holds;
    VarUintRoundTrip(0, Arrays(Coded(c)) + c.rest);
    ArraysRoundTrip(Coded(c), c.rest);
    OpenSteps(Layout(c), Arrays(Coded(c)) + c.rest, Coded(c), c.rest);
  }

  /** With nothing to yield every column is drained. */
  lemma NothingIsDrained(d: Decoder, b: bytes)
    requires Holds(d, Rest(b))
    ensures Drained(d) && d.rest == b
  {
  }

  lemma DecodeTwoSteps(b: bytes, d: Decoder, n: u32, d1: Decoder, structs: seq<Struct>, d2: Decoder, deletes: RangeMap)
    requires OpenDecoder(b) == Ok(d) && GetRestUint(d) == Ok((n, d1)) && GetBlocks(d1, n) == Ok((structs, d2))
    requires ReadDeletes(d2.rest, Delta) == Ok((deletes, [])) && Drained(d2)
    ensures DecodeTwo(b) == Ok(Update(structs, deletes))
  {
    hide OpenDecoder, GetRestUint, GetBlocks, ReadDeletes, Drained;
  }

  /** Everything an update needs to fit the V2 columns. */
  ghost predicate FitsV2(b: Blocks, deletes: RangeMap) {
    && WireDeletes(deletes, Delta) && FitCols(PutUpdate(b, deletes)) && AllKeys(Desc(b.Keys), b) <= MAX_U32
  }

  /** What V2 writes of wire-normal lists it reads back, with every column and
      the rest stream used up. */
  lemma LayoutRoundTrip(b: Blocks, deletes: RangeMap)
    requires WireBlocks(b) && FitsV2(b, deletes)
    ensures DecodeTwo(Layout(PutUpdate(b, deletes))) == Ok(Update(Canonical(b), deletes))
  {
    var order := Desc(b.Keys);
    DescSize(b.Keys);
    assert |b.Keys| == |b|;
    hide WireBlocks, FitCols, Layout, OpenDecoder, GetRestUint, GetBlocks, Holds, PutBlocks, Rest, VarUint, Cols.Plus,
         ReadDeletes, EncDeletes, Drained, Flatten, AllKeys, WireDeletes, Descending, DecodeTwo;
    var dels := Rest(EncDeletes(deletes, Delta));
    LayoutOpens(PutUpdate(b, deletes));
    var d := OpenDecoder(Layout(PutUpdate(b, deletes))).value;
    RestUintRead(d, |order|, PutBlocks(order, b, 0).Plus(dels));
    var d1 := GetRestUint(d).value.1;
    BlocksRead(order, b, d1, dels);
    var d2 := GetBlocks(d1, |order|).value.1;
    NothingIsDrained(d2, EncDeletes(deletes, Delta));
    DeletesRoundTrip(deletes, Delta, []);
    assert EncDeletes(deletes, Delta) + [] == EncDeletes(deletes, Delta);
    DecodeTwoSteps(Layout(PutUpdate(b, deletes)), d, |order|, d1, Flatten(order, b), d2, deletes);
  }

  // ----- Up to what the wire drops -----

  lemma NormalizedColumns(s: Struct, n: nat)
    ensures PutStruct(Normalized(s), n) == PutStruct(s, n) && KeysOf(Normalized(s)) == KeysOf(s)
  {
    hide PutContent, PutLeft, PutRight, PutParent, Info1, Rest, Len, Keys, Cols.Plus;
  }

  lemma {:induction false} NormListColumns(l: seq<Struct>, n: nat)
    ensures PutList(NormList(l), n) == PutList(l, n) && KeysIn(NormList(l)) == KeysIn(l) && |NormList(l)| == |l|
    ensures l != [] ==> NormList(l)[0].id == l[0].id
  {
    hide PutStruct, Normalized, KeysOf, Cols.Plus;
    if l != [] {
      NormalizedColumns(l[0], n);
      NormalizedSame(l[0]);
      NormListColumns(l[1..], n + KeysOf(l[0]));
      assert NormList(l)[1..] == NormList(l[1..]);
    }
  }

  lemma {:induction false} NormColumns(order: seq<u32>, b: Blocks, n: nat)
    requires forall k :: k in order ==> k in b
    ensures PutBlocks(order, NormBlocks(b), n) == PutBlocks(order, b, n)
    ensures AllKeys(order, NormBlocks(b)) == AllKeys(order, b)
  {
    hide PutList, NormList, KeysIn, Rest, Client, Cols.Plus, VarUint;
    if order != [] {
      var k := order[0];
      assert k in order;
      NormListColumns(b[k], n);
      NormColumns(order[1..], b, n + KeysIn(b[k]));
    }
  }

  /** What V2 writes of an update, it reads back: the structs grouped by client
      in descending order, every unit as it was, and the same delete set. */
  lemma RoundTripTwo(u: Update)
    requires WritableBlocks(Group(u.structs)) && FitsV2(Group(u.structs), u.deletes)
    ensures var b := Group(u.structs);
            && DecodeTwo(EncodeTwo(u)) == Ok(Update(Flatten(Desc(b.Keys), NormBlocks(b)), u.deletes))
            && (forall id: ID :: FullUnitOf(NormBlocks(b), id) == FullUnitOf(b, id))
            && (WireBlocks(b) ==> NormBlocks(b) == b)
  {
    var b := Group(u.structs);
    NormBlocksSame(b);
    NormKeys(b);
    NormColumns(Desc(b.Keys), b, 0);
    hide Group, WritableBlocks, WireBlocks, Flatten, NormBlocks, FitCols, PutBlocks, DecodeTwo, Layout, Cols.Plus,
         WireDeletes, AllKeys, Rest, EncDeletes;
    LayoutRoundTrip(NormBlocks(b), u.deletes);
  }

  /** Canonical V1 bytes survive the way through V2: decoded, written as V2,
      decoded again and written as V1, they are the same bytes. */
  lemma ThroughV2(b: Blocks, deletes: RangeMap)
    requires WireBlocks(b) && WireDeletes(deletes, Absolute) && FitsV2(b, deletes)
    ensures var v1 := EncFragments(Canonical(b)) + EncDeletes(deletes, Absolute);
            && Decode(v1).Ok? && DecodeTwo(EncodeTwo(Decode(v1).value)).Ok?
            && Encode(DecodeTwo(EncodeTwo(Decode(v1).value)).value) == v1
  {
    CanonicalReadBack(b, deletes);
    GroupOfFlatten(Desc(b.Keys), b);
    hide Group, WireBlocks, Flatten, FitsV2, DecodeTwo, Layout, Decode, EncFragments, EncDeletes, WireDeletes,
        PutUpdate;
    LayoutRoundTrip(b, deletes);
  }

  // ----- The decoding loops -----

  /** Structs read so far, then what is still to be read. */
  ghost function More(l: seq<Struct>, r: Read<seq<Struct>>): Read<seq<Struct>> {
    match r
    case Ok((more, d)) => Ok((l + more, d))
    case Err(e) => Err(e)
  }

  lemma StructsTurn(l: seq<Struct>, d: Decoder, n: nat, id: ID)
    requires n > 0
    ensures match GetStruct(d, id)
            case Err(e) => More(l, GetStructs(d, n, id)) == Err(e)
            case Ok((s, d1)) =>
              More(l, GetStructs(d, n, id)) == More(l + [s], GetStructs(d1, n - 1, ID(id.client, AsU32(s.End()))))
  {
    hide GetStruct;
    var r := GetStruct(d, id);
    if r.Ok? {
      var more := GetStructs(r.value.1, n - 1, ID(id.client, AsU32(r.value.0.End())));
      if more.Ok? {
        Assoc(l, [r.value.0], more.value.0);
      }
    }
  }

  lemma BlocksTurn(l: seq<Struct>, d: Decoder, n: nat)
    requires n > 0
    ensures match GetHeader(d)
            case Err(e) => More(l, GetBlocks(d, n)) == Err(e)
            case Ok(((count, id), d1)) =>
              match More(l, GetStructs(d1, count, id))
              case Err(e) => More(l, GetBlocks(d, n)) == Err(e)
              case Ok((all, d2)) => More(l, GetBlocks(d, n)) == More(all, GetBlocks(d2, n - 1))
  {
    hide GetHeader, GetStructs;
    var h := GetHeader(d);
    if h.Ok? {
      var r := GetStructs(h.value.1, h.value.0.0, h.value.0.1);
      if r.Ok? {
        var more := GetBlocks(r.value.1, n - 1);
        if more.Ok? {
          Assoc(l, r.value.0, more.value.0);
        }
      }
    }
  }

  /** The inner loop: the structs of one block, clocks counted up. */
  method ReadBlock(d0: Decoder, structs0: seq<Struct>, count: u32, client: u32, start: u32)
    returns (r: Read<seq<Struct>>)
    ensures r == More(structs0, GetStructs(d0, count, ID(client, start)))
  {
    hide GetStruct, GetStructs;
    var d, structs, clock := d0, structs0, start;
    for j := 0 to count
      invariant More(structs0, GetStructs(d0, count, ID(client, start))) ==
                More(structs, GetStructs(d, count - j, ID(client, clock)))
    {
      StructsTurn(structs, d, count - j, ID(client, clock));
      var next := GetStruct(d, ID(client, clock));
      if next.Err? {
        return Err(next.error);
      }
      structs := structs + [next.value.0];
      clock := AsU32(next.value.0.End());
      d := next.value.1;
    }
    StructsDone(structs, d, ID(client, clock));
    r := Ok((structs, d));
  }

  lemma StructsDone(l: seq<Struct>, d: Decoder, id: ID)
    ensures More(l, GetStructs(d, 0, id)) == Ok((l, d)) && More(l, GetBlocks(d, 0)) == Ok((l, d))
  {
    assert l + [] == l;
  }

  lemma NoneBefore(r: Read<seq<Struct>>)
    ensures More([], r) == r
  {
    if r.Ok? {
      assert [] + r.value.0 == r.value.0;
    }
  }

  /** DecodeV2: the columns are opened, blocks and structs read in two nested
      loops, and nothing may be left anywhere. */
  method DecodeV2(update: bytes) returns (r: Result<Update>)
    ensures r == DecodeTwo(update)
  {
    hide OpenDecoder, GetRestUint, GetHeader, GetStructs, GetBlocks, Closing;
    var start := OpenDecoder(update);
    if start.Err? {
      return Err(start.error);
    }
    var blocks := GetRestUint(start.value);
    if blocks.Err? {
      return Err(blocks.error);
    }
    var n := blocks.value.0;
    var d := blocks.value.1;
    var structs: seq<Struct> := [];
    ghost var all := GetBlocks(d, n);
    NoneBefore(all);
    for i := 0 to n
      invariant all == More(structs, GetBlocks(d, n - i))
    {
      BlocksTurn(structs, d, n - i);
      var header := GetHeader(d);
      if header.Err? {
        return Err(header.error);
      }
      var (count, id) := header.value.0;
      var block := ReadBlock(header.value.1, structs, count, id.client, id.clock);
      if block.Err? {
        return Err(block.error);
      }
      structs, d := block.value.0, block.value.1;
    }
    StructsDone(structs, d, ID(0, 0));
    var deletes := Closing(d);
    if deletes.Err? {
      return Err(deletes.error);
    }
    r := Ok(Update(structs, deletes.value));
  }
}
