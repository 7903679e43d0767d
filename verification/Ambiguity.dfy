/** One update whose V2 bytes are taken for V1: what follows the feature flag
    reads as a V1 delete set of two clients, to the last byte. */
module Ambiguity {
  import opened Prelude
  import opened Orders
  import opened Wire
  import opened Text
  import opened RawValues
  import opened IdSets
  import opened IdSetObject
  import opened Structs
  import opened Updates
  import opened CodecV1
  import opened DeleteSets
  import opened UpdateV1
  import opened Lib0
  import opened CodecV2
  import opened UpdateV2
  import opened Formats

  /** A format mark, and a named type behind it. */
  const MARK := Item(ID(1, 1), None, None, Root("p"), "", false, Format("k", [126]))
  const NAMED := Item(ID(1, 2), Some(ID(2, 7)), Some(ID(3, 1)), NoParent, "", false, Type(3, "m"))
  const BLOCKS: Blocks := map[1 := [MARK, NAMED]]
  const DELETED: RangeMap := map[1 := [Range(1, 2), Range(5, 2)]]

  /** Its columns. */
  const COLUMNS := Cols([0, 1], [1, 2, 3], [7], [1], [6, 199], ["p", "k", "m"], [1], [3], [],
                        [1, 2, 1, 126, 1, 1, 2, 1, 1, 2, 1])

  /** The bytes after the flag, column by column. */
  const FIRST_COLUMNS: bytes := [2, 0, 2, 3, 1, 2, 3, 1, 14]
  const LAST_COLUMNS: bytes := [1, 2, 3, 6, 0, 199, 6, 3, 112, 107, 109, 65, 1, 1, 1, 1, 3, 0]
  const V2_BODY: bytes := FIRST_COLUMNS + LAST_COLUMNS + COLUMNS.rest

  lemma OneClient(m: set<u32>)
    requires m == {1}
    ensures Desc(m) == [1]
  {
    DescSize(m);
    assert Desc(m)[0] in Desc(m);
  }

  lemma RangeBytes()
    ensures EncClient(1, [Range(1, 2), Range(5, 2)], Delta) == [1, 2, 1, 1, 2, 1]
  {
    var rs := [Range(1, 2), Range(5, 2)];
    assert EncRanges(rs, 1, Delta) == [2, 1];
    assert EncRanges(rs, 0, Delta) == [1, 1, 2, 1];
  }

  lemma DeletedBytes()
    ensures EncDeletes(DELETED, Delta) == [1, 1, 2, 1, 1, 2, 1]
  {
    assert DELETED.Keys == {1};
    OneClient(DELETED.Keys);
    RangeBytes();
    hide EncClient, Desc;
    assert RangesOf(DELETED, 1) == [Range(1, 2), Range(5, 2)];
    assert |DELETED| == |DELETED.Keys| == 1;
  }

  lemma DeletedFits()
    ensures WireDeletes(DELETED, Delta)
  {
    assert |DELETED| == |DELETED.Keys| == 1;
  }

  lemma MarkColumns()
    ensures PutStruct(MARK, 0) == Cols([0], [], [], [], [6], ["p", "k"], [1], [], [], [126])
    ensures KeysOf(MARK) == 1
  {
  }

  lemma NamedColumns()
    ensures PutStruct(NAMED, 1) == Cols([1], [2, 3], [7], [1], [199], ["m"], [], [3], [], [])
    ensures KeysOf(NAMED) == 1
  {
  }

  lemma ListOfTwo(a: Struct, b: Struct)
    ensures PutList([a, b], 0) == PutStruct(a, 0).Plus(PutStruct(b, KeysOf(a)))
    ensures KeysIn([a, b]) == KeysOf(a) + KeysOf(b)
  {
    hide PutStruct, KeysOf;
    assert [a, b][1..] == [b] && [b][1..] == [];
    NothingPlus(PutStruct(b, KeysOf(a)));
    assert PutList([b], KeysOf(a)) == PutStruct(b, KeysOf(a)).Plus(PutList([], KeysOf(a) + KeysOf(b)));
    assert KeysIn([b]) == KeysOf(b) + KeysIn([]);
  }

  lemma ListColumns()
    ensures PutList([MARK, NAMED], 0) == Cols([0, 1], [2, 3], [7], [1], [6, 199], ["p", "k", "m"], [1], [3], [], [126])
    ensures KeysIn([MARK, NAMED]) == 2
  {
    MarkColumns();
    NamedColumns();
    hide PutStruct, KeysOf, PutList, KeysIn;
    ListOfTwo(MARK, NAMED);
  }

  lemma BlockColumns()
    ensures PutBlock(1, [MARK, NAMED], 0) ==
            Cols([0, 1], [1, 2, 3], [7], [1], [6, 199], ["p", "k", "m"], [1], [3], [], [2, 1, 126])
  {
    ListColumns();
    hide PutList;
  }

  lemma OneBlock(l: seq<Struct>, b: Blocks)
    requires b == map[1 := l]
    ensures PutBlocks([1], b, 0) == PutBlock(1, l, 0) && AllKeys([1], b) == KeysIn(l)
  {
    hide PutBlock, KeysIn;
    assert [1][1..] == [];
    NothingPlus(PutBlock(1, l, 0));
  }

  lemma ItsColumns()
    ensures PutUpdate(BLOCKS, DELETED) == COLUMNS && AllKeys(Desc(BLOCKS.Keys), BLOCKS) == 2
  {
    assert BLOCKS.Keys == {1};
    OneClient(BLOCKS.Keys);
    OneBlock([MARK, NAMED], BLOCKS);
    ListColumns();
    BlockColumns();
    DeletedBytes();
    hide PutBlock, PutBlocks, AllKeys, EncDeletes, KeysIn, Desc, PutList;
    Assemble(PutBlocks([1], BLOCKS, 0), EncDeletes(DELETED, Delta));
  }

  /** Block count, block, delete set. */
  lemma Assemble(block: Cols, deletes: bytes)
    requires block == Cols([0, 1], [1, 2, 3], [7], [1], [6, 199], ["p", "k", "m"], [1], [3], [], [2, 1, 126])
    requires deletes == [1, 1, 2, 1, 1, 2, 1]
    ensures Rest(VarUint(1)).Plus(block.Plus(Rest(deletes))) == COLUMNS
  {
  }

  lemma ColumnBytes()
    ensures Coded(COLUMNS) == [[0, 2], [1, 2, 3], [14], [2], [6, 0, 199], [3, 112, 107, 109, 65, 1], [1], [3], []]
    ensures FitCols(COLUMNS)
  {
    KeyBytes();
    ClientBytes();
    InfoBytes();
    TextBytes();
    hide EncDiffs, EncUints, EncBytes, EncStrings;
    SingleBytes();
  }

  lemma KeyBytes()
    ensures EncDiffs([0, 1]) == [0, 2]
  {
    assert [0, 1][1..] == [1] && [1][1..] == [];
    assert DiffRuns(1, 1, 1, []) == [2];
    assert DiffRuns(0, 0, 1, [1]) == DiffRun(0, 1) + DiffRuns(1, 1, 1, []);
    assert DiffRuns(0, 0, 0, [0, 1]) == DiffRun(0, 0) + DiffRuns(0, 0, 1, [1]);
  }

  lemma ClientBytes()
    ensures EncUints([1, 2, 3]) == [1, 2, 3]
  {
    assert [1, 2, 3][1..] == [2, 3] && [2, 3][1..] == [3] && [3][1..] == [];
    assert UintRuns(3, 1, []) == [3];
    assert UintRuns(2, 1, [3]) == [2, 3];
    assert UintRuns(1, 1, [2, 3]) == [1, 2, 3];
  }

  lemma InfoBytes()
    ensures EncBytes([6, 199]) == [6, 0, 199]
  {
    assert [6, 199][1..] == [199] && [199][1..] == [];
  }

  lemma TextBytes()
    ensures EncStrings(["p", "k", "m"]) == [3, 112, 107, 109, 65, 1] && FitStrings(["p", "k", "m"])
  {
    var strs := ["p", "k", "m"];
    assert strs[1..] == ["k", "m"] && strs[1..][1..] == ["m"] && strs[1..][1..][1..] == [];
    TableBytes();
    assert JoinedText(["m"]) == "m" && JoinedText(["k", "m"]) == "km" && JoinedText(strs) == "pkm";
    assert Lengths(["m"]) == [1] && Lengths(["k", "m"]) == [1, 1] && Lengths(strs) == [1, 1, 1];
    LengthBytes();
    hide Utf8, Units, EncUints;
  }

  lemma TableBytes()
    ensures Utf8("pkm") == [112, 107, 109] && |Units("pkm")| == 3
    ensures Utf16Length("p") == Utf16Length("k") == Utf16Length("m") == 1
  {
    assert "pkm"[1..] == "km" && "km"[1..] == "m" && "m"[1..] == "";
  }

  lemma LengthBytes()
    ensures EncUints([1, 1, 1]) == [65, 1]
  {
    assert [1, 1, 1][1..] == [1, 1] && [1, 1][1..] == [1] && [1][1..] == [];
    assert UintRuns(1, 3, []) == [65, 1];
    assert UintRuns(1, 2, [1]) == [65, 1];
    assert UintRuns(1, 1, [1, 1]) == [65, 1];
  }

  lemma SingleBytes()
    ensures EncDiffs([7]) == [14] && EncDiffs([1]) == [2] && EncBytes([1]) == [1] && EncUints([3]) == [3]
          && EncUints([]) == []
  {
    assert [7][1..] == [] && [1][1..] == [] && [3][1..] == [];
  }

  // ----- Read as a V1 delete set -----

  /** A range whose two numbers take a byte each. */
  lemma ShortRange(b: bytes, n: nat, cur: nat, acc: seq<Range>)
    requires n > 0 && |b| >= 2 && b[0] < 128 && 0 < b[1] < 128
    ensures ReadRanges(b, n, cur, acc, Absolute) ==
            ReadRanges(b[2..], n - 1, b[0] + b[1], Insert(acc, Range(b[0], b[1])), Absolute)
  {
    assert b[1..][0] == b[1] && b[1..][1..] == b[2..];
  }

  predicate ShortRanges(b: bytes) {
    |b| % 2 == 0 && forall i :: 0 <= i < |b| ==> b[i] < 128 && (i % 2 == 1 ==> b[i] > 0)
  }

  lemma ShorterShort(b: bytes)
    requires ShortRanges(b) && b != []
    ensures ShortRanges(b[2..])
  {
    assert forall i :: 0 <= i < |b[2..]| ==> b[2..][i] == b[i + 2];
  }

  lemma {:induction false} ManyShortRanges(b: bytes, rest: bytes, n: nat, cur: nat,
        acc: seq<Range>) returns (cur1: nat, acc1: seq<Range>)
    requires ShortRanges(b) && n >= |b| / 2
    ensures ReadRanges(b + rest, n, cur, acc, Absolute) == ReadRanges(rest, n - |b| / 2, cur1, acc1, Absolute)
    decreases |b|
  {
    hide Insert, ReadRanges;
    if b == [] {
      assert b + rest == rest;
      cur1, acc1 := cur, acc;
    } else {
      assert b[0] < 128 && b[1] < 128 && b[1] > 0;
      assert (b + rest)[0] == b[0] && (b + rest)[1] == b[1];
      ShortRange(b + rest, n, cur, acc);
      assert (b + rest)[2..] == b[2..] + rest;
      ShorterShort(b);
      cur1, acc1 := ManyShortRanges(b[2..], rest, n - 1, b[0] + b[1], Insert(acc, Range(b[0], b[1])));
    }
  }

  /** The one range with a length of two bytes. */
  lemma LongRange(rest: bytes, n: nat, cur: nat, acc: seq<Range>)
    requires n > 0
    ensures ReadRanges([0, 199, 6] + rest, n, cur, acc, Absolute) ==
            ReadRanges(rest, n - 1, 839, Insert(acc, Range(0, 839)), Absolute)
  {
    var b := [0, 199, 6] + rest;
    assert b[1..] == [199, 6] + rest && b[1..][1..] == [6] + rest && b[1..][1..][1..] == rest;
    assert ReadGroups([6] + rest, 1) == Ok((6, rest));
    assert ReadVarUint([199, 6] + rest) == Ok((839, rest));
  }

  lemma OneByte(v: byte, rest: bytes)
    requires v < 128
    ensures ReadVarUint([v] + rest) == Ok((v, rest))
  {
    assert ([v] + rest)[1..] == rest;
  }

  /** Client 1 with 14 ranges, to the end. */
  lemma SecondClient(acc: seq<Range>)
    ensures var b := [1, 2, 3, 6] + ([0, 199, 6] + ([3, 112, 107, 109, 65, 1, 1, 1, 1, 3, 0] + COLUMNS.rest));
            ReadRanges(b, 14, 0, acc, Absolute).Ok? && ReadRanges(b, 14, 0, acc, Absolute).value.1 == []
  {
    var last: bytes := [3, 112, 107, 109, 65, 1, 1, 1, 1, 3, 0] + COLUMNS.rest;
    LastShort();
    hide ReadRanges, Insert, ShortRanges;
    FirstShort();
    var cur1, acc1 := ManyShortRanges([1, 2, 3, 6], [0, 199, 6] + last, 14, 0, acc);
    LongRange(last, 12, cur1, acc1);
    var cur2, acc2 := ManyShortRanges(last, [], 11, 839, Insert(acc1, Range(0, 839)));
    assert last + [] == last;
    NoMoreRanges(cur2, acc2);
  }

  lemma FirstShort()
    ensures ShortRanges([1, 2, 3, 6]) && ShortRanges([3, 1, 2, 3])
  {
  }

  lemma LastShort()
    ensures ShortRanges([3, 112, 107, 109, 65, 1, 1, 1, 1, 3, 0] + COLUMNS.rest)
    ensures |[3, 112, 107, 109, 65, 1, 1, 1, 1, 3, 0] + COLUMNS.rest| == 22
  {
    assert [3, 112, 107, 109, 65, 1, 1, 1, 1, 3, 0] + COLUMNS.rest ==
           [3, 112, 107, 109, 65, 1, 1, 1, 1, 3, 0, 1, 2, 1, 126, 1, 1, 2, 1, 1, 2, 1];
  }

  lemma NoMoreRanges(cur: nat, acc: seq<Range>)
    ensures ReadRanges([], 0, cur, acc, Absolute) == Ok((acc, []))
  {
  }

  /** Two clients: client 0 with two ranges, then client 1. */
  lemma BodyIsDeleteSet()
    ensures ReadDeletes(V2_BODY, Absolute).Ok? && ReadDeletes(V2_BODY, Absolute).value.1 == []
  {
    hide ReadVarUint, ReadRanges, Insert, ShortRanges, ReadClients;
    var tail: bytes := [1, 2, 3, 6] + ([0, 199, 6] + ([3, 112, 107, 109, 65, 1, 1, 1, 1, 3, 0] + COLUMNS.rest));
    var first: bytes := [0] + ([2] + ([3, 1, 2, 3] + ([1] + ([14] + tail))));
    assert V2_BODY == [2] + first;
    OneByte(2, first);
    SecondClient([]);
    ClientsAreTwo(tail);
  }

  lemma ClientsAreTwo(tail: bytes)
    requires ReadRanges(tail, 14, 0, [], Absolute).Ok? && ReadRanges(tail, 14, 0, [], Absolute).value.1 == []
    ensures var first := [0] + ([2] + ([3, 1, 2, 3] + ([1] + ([14] + tail))));
            ReadClients(first, 2, map[], Absolute).Ok? && ReadClients(first, 2, map[], Absolute).value.1 == []
  {
    hide ReadVarUint, ReadRanges, Insert, ShortRanges, ReadClients;
    var second: bytes := [1] + ([14] + tail);
    OneByte(0, [2] + ([3, 1, 2, 3] + second));
    OneByte(2, [3, 1, 2, 3] + second);
    OneByte(1, [14] + tail);
    OneByte(14, tail);
    FirstShort();
    var cur, acc := ManyShortRanges([3, 1, 2, 3], second, 2, 0, []);
    RangesDone(second, cur, acc);
    TwoClients([0] + ([2] + ([3, 1, 2, 3] + second)), second, tail, acc);
  }

  lemma RangesDone(b: bytes, cur: nat, acc: seq<Range>)
    ensures ReadRanges(b, 0, cur, acc, Absolute) == Ok((acc, b))
  {
  }

  lemma TwoClients(first: bytes, second: bytes, tail: bytes, acc: seq<Range>)
    requires ReadVarUint(first) == Ok((0, [2] + ([3, 1, 2, 3] + second)))
    requires ReadVarUint([2] + ([3, 1, 2, 3] + second)) == Ok((2, [3, 1, 2, 3] + second))
    requires ReadRanges([3, 1, 2, 3] + second, 2, 0, [], Absolute) == Ok((acc, second))
    requires ReadVarUint(second) == Ok((1, [14] + tail)) && ReadVarUint([14] + tail) == Ok((14, tail))
    requires ReadRanges(tail, 14, 0, [], Absolute).Ok? && ReadRanges(tail, 14, 0, [], Absolute).value.1 == []
    ensures ReadClients(first, 2, map[], Absolute).Ok? && ReadClients(first, 2, map[], Absolute).value.1 == []
  {
    hide ReadVarUint, ReadRanges;
    var after := map[0 := acc];
    assert ReadClients(second, 1, after, Absolute).Ok? && ReadClients(second, 1, after, Absolute).value.1 == [];
  }

  // ----- The failure -----

  lemma OneArray(x: bytes, more: seq<bytes>)
    requires |x| < 128
    ensures Arrays([x] + more) == [|x|] + (x + Arrays(more))
  {
    assert ([x] + more)[1..] == more;
    assert VarBytes(x) == [|x|] + x;
    Assoc([|x|], x, Arrays(more));
  }

  lemma NineArrays(a: bytes, b: bytes, c: bytes, d: bytes, e: bytes, f: bytes, g: bytes, h: bytes, i: bytes)
    ensures [a, b, c, d, e, f, g, h, i] == [a] + ([b] + ([c] + ([d] + ([e] + ([f] + ([g] + ([h] + [i])))))))
  {
  }

  lemma BodyBytes()
    ensures Arrays(Coded(COLUMNS)) + COLUMNS.rest == V2_BODY
  {
    ColumnBytes();
    hide Coded, Arrays, FitCols;
    NineArrays([0, 2], [1, 2, 3], [14], [2], [6, 0, 199], [3, 112, 107, 109, 65, 1], [1], [3], []);
    LastArrays();
    FirstArrays([[2]] + ([[6, 0, 199]] + ([[3, 112, 107, 109, 65, 1]] + ([[1]] + ([[3]] + [[]])))));
  }

  lemma FirstArrays(last: seq<bytes>)
    ensures Arrays([[0, 2]] + ([[1, 2, 3]] + ([[14]] + last))) == FIRST_COLUMNS + Arrays(last)
  {
    hide Arrays;
    OneArray([14], last);
    OneArray([1, 2, 3], [[14]] + last);
    OneArray([0, 2], [[1, 2, 3]] + ([[14]] + last));
  }

  lemma LastArray()
    ensures Arrays([[]]) == [0]
  {
    var none: seq<bytes> := [];
    var one: seq<bytes> := [[]];
    assert one[1..] == none && VarBytes([]) == [0];
  }

  lemma LastArrays()
    ensures Arrays([[2]] + ([[6, 0, 199]] + ([[3, 112, 107, 109, 65, 1]] + ([[1]] + ([[3]] + [[]]))))) == LAST_COLUMNS
  {
    LastArray();
    hide Arrays;
    OneArray([3], [[]]);
    OneArray([1], [[3]] + [[]]);
    OneArray([3, 112, 107, 109, 65, 1], [[1]] + ([[3]] + [[]]));
    OneArray([6, 0, 199], [[3, 112, 107, 109, 65, 1]] + ([[1]] + ([[3]] + [[]])));
    OneArray([2], [[6, 0, 199]] + ([[3, 112, 107, 109, 65, 1]] + ([[1]] + ([[3]] + [[]]))));
  }

  lemma ShortNames()
    ensures ShortText("p") && ShortText("k") && ShortText("m") && ShortText("")
  {
    assert "p"[1..] == "" && "k"[1..] == "" && "m"[1..] == "";
    assert Utf8("p") == CharUtf8('p') + Utf8("") && Utf8("k") == CharUtf8('k') + Utf8("")
        && Utf8("m") == CharUtf8('m') + Utf8("");
  }

  lemma WireMark()
    ensures WireStruct(MARK) && MARK.End() == 2
  {
    ShortNames();
    hide ShortText;
    assert [126][0] == 126 && JsonValue([126]);
  }

  lemma WireNamed()
    ensures WireStruct(NAMED)
  {
    ShortNames();
    hide ShortText;
  }

  lemma ItIsWire()
    ensures WireBlocks(BLOCKS)
  {
    WireMark();
    WireNamed();
    hide WireStruct;
    var l := [MARK, NAMED];
    assert l[1..] == [NAMED] && l[1..][1..] == [];
    assert Chain(1, [NAMED]) && Chain(1, l);
    assert HasUnits(l) by {
      assert !l[0].Skip?;
    }
    assert WireList(1, l);
    assert |BLOCKS| == |BLOCKS.Keys| == 1;
  }

  /** An update that V2 writes and reads back, and that detection takes for V1. */
  lemma TakenForV1()
    ensures WireBlocks(BLOCKS) && FitsV2(BLOCKS, DELETED)
    ensures var v2 := Layout(PutUpdate(BLOCKS, DELETED));
            DecodeTwo(v2) == Ok(Update(Canonical(BLOCKS), DELETED)) && Detect(v2) == Ok(V1)
  {
    ItIsWire();
    ItsColumns();
    ColumnBytes();
    DeletedFits();
    BodyBytes();
    BodyIsDeleteSet();
    hide WireBlocks, FitCols, PutUpdate, DecodeTwo, Layout, Detect, ReadDeletes, WireDeletes, AllKeys, Arrays, Coded;
    LayoutRoundTrip(BLOCKS, DELETED);
    DetectsV2(COLUMNS);
  }
}
