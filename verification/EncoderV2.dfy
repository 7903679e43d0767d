/** The V2 encoder as the object it is: nine column encoders, a rest buffer and
    a key counter. */
module EncoderV2 {
  import opened Prelude
  import opened Wire
  import opened Orders
  import opened Structs
  import opened IdSetObject
  import opened Updates
  import opened CodecV1
  import opened DeleteSets
  import opened UpdateV1
  import opened Columns
  import opened Lib0
  import opened CodecV2
  import opened UpdateV2

  class UpdateEncoderV2 {
    var rest: bytes
    const keyClock: IntDiffOptRleEncoder
    const client: UintOptRleEncoder
    const leftClock: IntDiffOptRleEncoder
    const rightClock: IntDiffOptRleEncoder
    const info: RleByteEncoder
    const strings: StringEncoder
    const parentInfo: RleByteEncoder
    const typeRef: UintOptRleEncoder
    const lengths: UintOptRleEncoder
    var keyClockN: nat

    ghost function Parts(): set<object> {
      {keyClock, client, leftClock, rightClock, info, strings, strings.lengths, parentInfo, typeRef, lengths}
    }

    /** No column encoder is shared. */
    ghost predicate Separate() {
      && keyClock != leftClock && keyClock != rightClock && leftClock != rightClock && info != parentInfo
      && client != typeRef && client != lengths && typeRef != lengths
      && strings.lengths != client && strings.lengths != typeRef && strings.lengths != lengths
    }

    ghost predicate Valid()
      reads this, Parts()
    {
      && Separate()
      && keyClock.Valid() && client.Valid() && leftClock.Valid() && rightClock.Valid() && info.Valid()
      && strings.Valid() && parentInfo.Valid() && typeRef.Valid() && lengths.Valid()
    }

    /** Everything written so far, by column. */
    ghost function Log(): Cols
      reads this, Parts()
    {
      Cols(keyClock.written, client.written, leftClock.written, rightClock.written, info.written, strings.written,
           parentInfo.written, typeRef.written, lengths.written, rest)
    }

    constructor ()
      ensures Valid() && Log() == NOTHING && keyClockN == 0 && fresh(Parts())
    {
      rest, keyClockN := [], 0;
      keyClock := new IntDiffOptRleEncoder();
      client := new UintOptRleEncoder();
      leftClock := new IntDiffOptRleEncoder();
      rightClock := new IntDiffOptRleEncoder();
      info := new RleByteEncoder();
      strings := new StringEncoder();
      parentInfo := new RleByteEncoder();
      typeRef := new UintOptRleEncoder();
      lengths := new UintOptRleEncoder();
    }

    method WriteLeftId(id: ID)
      requires Valid()
      modifies Parts()
      ensures Valid() && Log() == old(Log()).Plus(LeftId(id)) && keyClockN == old(keyClockN)
    {
      NothingPlus(Log());
      hide UintHolds, DiffHolds, ByteHolds, StringEncoder.Valid;
      client.Write(id.client);
      leftClock.Write(id.clock);
    }

    method WriteRightId(id: ID)
      requires Valid()
      modifies Parts()
      ensures Valid() && Log() == old(Log()).Plus(RightId(id)) && keyClockN == old(keyClockN)
    {
      NothingPlus(Log());
      hide UintHolds, DiffHolds, ByteHolds, StringEncoder.Valid;
      client.Write(id.client);
      rightClock.Write(id.clock);
    }

    method WriteString(s: string)
      requires Valid()
      modifies Parts()
      ensures Valid() && Log() == old(Log()).Plus(Text1(s)) && keyClockN == old(keyClockN)
    {
      NothingPlus(Log());
      hide UintHolds, DiffHolds, ByteHolds;
      strings.Write(s);
    }

    method WriteLen(n: u32)
      requires Valid()
      modifies Parts()
      ensures Valid() && Log() == old(Log()).Plus(Len(n)) && keyClockN == old(keyClockN)
    {
      NothingPlus(Log());
      hide UintHolds, DiffHolds, ByteHolds, StringEncoder.Valid;
      lengths.Write(n);
    }

    method WriteInfo(x: byte)
      requires Valid()
      modifies Parts()
      ensures Valid() && Log() == old(Log()).Plus(Info1(x)) && keyClockN == old(keyClockN)
    {
      NothingPlus(Log());
      hide UintHolds, DiffHolds, ByteHolds, StringEncoder.Valid;
      info.Write(x);
    }

    method WriteParentKind(x: byte)
      requires Valid()
      modifies Parts()
      ensures Valid() && Log() == old(Log()).Plus(ParentKind(x)) && keyClockN == old(keyClockN)
    {
      NothingPlus(Log());
      hide UintHolds, DiffHolds, ByteHolds, StringEncoder.Valid;
      parentInfo.Write(x);
    }

    method WriteTypeRef(x: u32)
      requires Valid()
      modifies Parts()
      ensures Valid() && Log() == old(Log()).Plus(TypeRef(x)) && keyClockN == old(keyClockN)
    {
      NothingPlus(Log());
      hide UintHolds, DiffHolds, ByteHolds, StringEncoder.Valid;
      typeRef.Write(x);
    }

    method WriteClient(x: u32)
      requires Valid()
      modifies Parts()
      ensures Valid() && Log() == old(Log()).Plus(Client(x)) && keyClockN == old(keyClockN)
    {
      NothingPlus(Log());
      hide UintHolds, DiffHolds, ByteHolds, StringEncoder.Valid;
      client.Write(x);
    }

    method AppendRest(b: bytes)
      requires Valid()
      modifies this`rest
      ensures Valid() && Log() == old(Log()).Plus(Rest(b))
    {
      NothingPlus(Log());
      hide UintHolds, DiffHolds, ByteHolds, StringEncoder.Valid;
      rest := rest + b;
    }

    /** The next key number, then the text. */
    method WriteKey(key: string)
      requires Valid()
      modifies Parts(), this`keyClockN
      ensures Valid() && Log() == old(Log()).Plus(Key(key, old(keyClockN))) && keyClockN == old(keyClockN) + 1
    {
      NothingPlus(Log());
      hide UintHolds, DiffHolds, ByteHolds;
      keyClock.Write(AsU32(keyClockN));
      keyClockN := keyClockN + 1;
      strings.Write(key);
    }

    method WriteStrings(values: seq<string>)
      requires Valid()
      modifies Parts()
      ensures Valid() && Log() == old(Log()).Plus(Texts(values)) && keyClockN == old(keyClockN)
    {
      hide Valid, Log, Texts, Text1, Cols.Plus;
      ghost var before := Log();
      NothingListed(before);
      for i := 0 to |values|
        invariant Valid() && Log() == before.Plus(Texts(values[..i])) && keyClockN == old(keyClockN)
      {
        assert values[..i + 1] == values[..i] + [values[i]];
        TextsBack(before, values[..i], values[i]);
        WriteString(values[i]);
      }
      assert values[..|values|] == values;
    }

    method WriteAnys(items: seq<bytes>)
      requires Valid()
      modifies this`rest
      ensures Valid() && Log() == old(Log()).Plus(Rest(Concat(items)))
    {
      hide Valid, Log, Rest, Cols.Plus, Concat;
      ghost var before := Log();
      NothingListed(before);
      for i := 0 to |items|
        invariant Valid() && Log() == before.Plus(Rest(Concat(items[..i])))
      {
        assert items[..i + 1] == items[..i] + [items[i]];
        RestBack(before, items[..i], items[i]);
        AppendRest(items[i]);
      }
      assert items[..|items|] == items;
    }

    /** writeContent, by kind. */
    method WriteContent(c: Content)
      requires Valid()
      modifies Parts(), this`rest, this`keyClockN
      ensures Valid() && Log() == old(Log()).Plus(PutContent(c, old(keyClockN)))
      ensures keyClockN == old(keyClockN) + Keys(c)
    {
      ghost var before, n := Log(), keyClockN;
      hide Valid, Log, Texts, Text1, Len, Rest, TypeRef, Key, Cols.Plus, Concat, VarBytes;
      match c {
        case Deleted(k) =>
          WriteLen(k);
        case Json(values) =>
          WriteLen(AsU32(|values|));
          WriteStrings(values);
          PlusAssoc(before, Len(AsU32(|values|)), Texts(values));
        case Binary(buf) =>
          AppendRest(VarBytes(buf));
        case Str(text) =>
          WriteString(text);
        case Embed(raw) =>
          AppendRest(raw);
        case Format(key, raw) =>
          WriteKey(key);
          AppendRest(raw);
          PlusAssoc(before, Key(key, n), Rest(raw));
        case Type(ref, name) =>
          WriteTypeRef(ref);
          if NamedType(ref) {
            WriteKey(name);
            PlusAssoc(before, TypeRef(ref), Key(name, n));
          } else {
            NothingPlus(TypeRef(ref));
          }
        case Any(items) =>
          WriteLen(AsU32(|items|));
          WriteAnys(items);
          PlusAssoc(before, Len(AsU32(|items|)), Rest(Concat(items)));
        case Doc(guid, raw) =>
          WriteString(guid);
          AppendRest(raw);
          PlusAssoc(before, Text1(guid), Rest(raw));
      }
    }

    /** Parent and parentSub of an item without origins. */
    method WritePlace(s: Struct) returns (r: Result<()>)
      requires Valid() && s.Item?
      modifies Parts()
      ensures keyClockN == old(keyClockN)
      ensures if EncPlace(s).Ok? then r == Ok(()) && Valid() && Log() == old(Log()).Plus(PutPlace(s)) else r.Err?
    {
      ghost var before := Log();
      hide Valid, Log, Text1, ParentKind, LeftId, Cols.Plus, VarStr, EncId;
      if Placed(s) {
        NothingPlus(before);
        return Ok(());
      }
      match s.parent {
        case Root(name) =>
          WriteParentKind(1);
          WriteString(name);
          PlusAssoc(before, ParentKind(1), Text1(name));
        case ParentId(id) =>
          WriteParentKind(0);
          WriteLeftId(id);
          PlusAssoc(before, ParentKind(0), LeftId(id));
        case NoParent =>
          return Err(MissingParent);
      }
      if s.parentSub != "" {
        WriteString(s.parentSub);
        PlusAssoc(before, PutParent(s.parent), Text1(s.parentSub));
      } else {
        NothingPlus(PutParent(s.parent));
      }
      r := Ok(());
    }

    /** writeItem: header, origins, place, content. */
    method WriteItem(s: Struct) returns (r: Result<()>)
      requires Valid() && s.Item?
      modifies Parts(), this`rest, this`keyClockN
      ensures if EncStruct(s).Ok?
              then r == Ok(()) && Valid() && Log() == old(Log()).Plus(PutStruct(s, old(keyClockN))) &&
                   keyClockN == old(keyClockN) + KeysOf(s)
              else r.Err?
    {
      ghost var before, n := Log(), keyClockN;
      EncodableByPlace(s);
      hide Valid, Log, Info1, LeftId, RightId, PutPlace, PutContent, Cols.Plus, EncStruct, EncPlace, Info, Keys;
      WriteInfo(Info(s));
      NothingPlus(before.Plus(Info1(Info(s))));
      if s.origin.Some? {
        WriteLeftId(s.origin.value);
      }
      NothingPlus(before.Plus(Info1(Info(s))).Plus(PutLeft(s.origin)));
      if s.rightOrigin.Some? {
        WriteRightId(s.rightOrigin.value);
      }
      var place := WritePlace(s);
      if place.Err? {
        return place;
      }
      WriteContent(s.content);
      FivePlus(before, Info1(Info(s)), PutLeft(s.origin), PutRight(s.rightOrigin), PutPlace(s),
          PutContent(s.content, n));
      r := Ok(());
    }

    /** writeStruct. */
    method WriteStruct(s: Struct) returns (r: Result<()>)
      requires Valid()
      modifies Parts(), this`rest, this`keyClockN
      ensures if EncStruct(s).Ok?
              then r == Ok(()) && Valid() && Log() == old(Log()).Plus(PutStruct(s, old(keyClockN))) &&
                   keyClockN == old(keyClockN) + KeysOf(s)
              else r.Err?
    {
      ghost var before := Log();
      hide Valid, Log, Info1, Len, Rest, Cols.Plus, VarUint, PutContent, PutPlace;
      match s {
        case GC(_, len) =>
          WriteInfo(0);
          WriteLen(len);
          PlusAssoc(before, Info1(0), Len(len));
          r := Ok(());
        case Skip(_, len) =>
          WriteInfo(10);
          AppendRest(VarUint(len));
          PlusAssoc(before, Info1(10), Rest(VarUint(len)));
          r := Ok(());
        case Item(_, _, _, _, _, _, _) =>
          r := WriteItem(s);
      }
    }

    /** The structs of one client behind their header. */
    method WriteBlock(k: u32, l: seq<Struct>) returns (r: Result<()>)
      requires Valid() && l != []
      modifies Parts(), this`rest, this`keyClockN
      ensures Ready(l) ==> r == Ok(()) && Valid() && Log() == old(Log()).Plus(PutBlock(k, l, old(keyClockN))) &&
                           keyClockN == old(keyClockN) + KeysIn(l)
      ensures (exists s :: s in l && EncStruct(s).Err?) ==> r.Err?
    {
      ghost var before, n := Log(), keyClockN;
      hide Valid, Log, Rest, Client, PutStruct, Cols.Plus, VarUint, EncStruct, KeysOf;
      AppendRest(VarUint(AsU32(|l|)));
      WriteClient(k);
      AppendRest(VarUint(l[0].id.clock));
      ghost var head := Log();
      NothingPlus(head);
      for j := 0 to |l|
        invariant Valid() && Log() == head.Plus(PutList(l[..j], n)) && keyClockN == n + KeysIn(l[..j])
        invariant forall s :: s in l[..j] ==> EncStruct(s).Ok?
      {
        assert l[j] in l && l[..j + 1] == l[..j] + [l[j]];
        PutListBack(head, l[..j], l[j], n);
        var written := WriteStruct(l[j]);
        if written.Err? {
          return written;
        }
      }
      assert l[..|l|] == l;
      PartsJoin(before, Rest(VarUint(AsU32(|l|))), Client(k), Rest(VarUint(l[0].id.clock)), PutList(l, n));
      r := Ok(());
    }

    /** bytes: flag, columns, rest. */
    method Bytes() returns (out: bytes)
      requires Valid()
      modifies Parts()
      ensures out == Layout(old(Log()))
    {
      ghost var want := Coded(Log());
      ghost var tail := rest;
      hide Arrays, UintHolds, DiffHolds, ByteHolds, EncDiffs, EncUints, EncBytes, EncStrings, VarUint;
      var c0 := keyClock.Bytes();
      var c1 := client.Bytes();
      var c2 := leftClock.Bytes();
      var c3 := rightClock.Bytes();
      var c4 := info.Bytes();
      var c5 := strings.Bytes();
      var c6 := parentInfo.Bytes();
      var c7 := typeRef.Bytes();
      var c8 := lengths.Bytes();
      assert want == [c0, c1, c2, c3, c4, c5, c6, c7, c8];
      out := AppendArrays(VarUint(0), [c0, c1, c2, c3, c4, c5, c6, c7, c8]);
      Assoc(VarUint(0), Arrays(want), tail);
      out := out + rest;
    }
  }

  /** Each column behind its length. */
  method AppendArrays(dst: bytes, columns: seq<bytes>) returns (out: bytes)
    ensures out == dst + Arrays(columns)
  {
    out := dst;
    assert dst + [] == dst;
    for i := 0 to |columns|
      invariant out == dst + Arrays(columns[..i])
    {
      assert columns[..i + 1] == columns[..i] + [columns[i]];
      ArraysBack(columns[..i], columns[i]);
      Assoc(dst, Arrays(columns[..i]), VarBytes(columns[i]));
      out := out + VarBytes(columns[i]);
    }
    assert columns[..|columns|] == columns;
  }

  lemma NothingListed(before: Cols)
    ensures before.Plus(Texts([])) == before && before.Plus(Rest(Concat([]))) == before
  {
    NothingPlus(before);
  }

  lemma TextsBack(before: Cols, values: seq<string>, s: string)
    ensures before.Plus(Texts(values)).Plus(Text1(s)) == before.Plus(Texts(values + [s]))
  {
    PlusAssoc(before, Texts(values), Text1(s));
    assert Texts(values).Plus(Text1(s)) == Texts(values + [s]);
  }

  lemma {:induction false} ConcatBack(items: seq<bytes>, x: bytes)
    ensures Concat(items + [x]) == Concat(items) + x
  {
    if items == [] {
      assert ([] + [x])[1..] == [] && x + [] == x && [] + x == x;
    } else {
      ConcatBack(items[1..], x);
      assert (items + [x])[1..] == items[1..] + [x];
      Assoc(items[0], Concat(items[1..]), x);
    }
  }

  lemma RestBack(before: Cols, items: seq<bytes>, x: bytes)
    ensures before.Plus(Rest(Concat(items))).Plus(Rest(x)) == before.Plus(Rest(Concat(items + [x])))
  {
    ConcatBack(items, x);
    PlusAssoc(before, Rest(Concat(items)), Rest(x));
    assert Rest(Concat(items)).Plus(Rest(x)) == Rest(Concat(items) + x);
  }

  lemma {:induction false} ArraysBack(data: seq<bytes>, x: bytes)
    ensures Arrays(data + [x]) == Arrays(data) + VarBytes(x)
  {
    hide VarBytes;
    if data == [] {
      assert ([] + [x])[1..] == [] && VarBytes(x) + [] == VarBytes(x) && [] + VarBytes(x) == VarBytes(x);
    } else {
      ArraysBack(data[1..], x);
      assert (data + [x])[1..] == data[1..] + [x];
      Assoc(VarBytes(data[0]), Arrays(data[1..]), VarBytes(x));
    }
  }

  lemma EncodableByPlace(s: Struct)
    requires s.Item?
    ensures EncStruct(s).Ok? == EncPlace(s).Ok?
  {
    hide EncContent, EncPlace, EncId, Info;
  }

  lemma FivePlus(a: Cols, b: Cols, c: Cols, d: Cols, e: Cols, f: Cols)
    ensures a.Plus(b).Plus(c).Plus(d).Plus(e).Plus(f) == a.Plus(b.Plus(c.Plus(d.Plus(e.Plus(f)))))
  {
    hide Cols.Plus;
    PlusAssoc(a.Plus(b).Plus(c).Plus(d), e, f);
    PlusAssoc(a.Plus(b).Plus(c), d, e.Plus(f));
    PlusAssoc(a.Plus(b), c, d.Plus(e.Plus(f)));
    PlusAssoc(a, b, c.Plus(d.Plus(e.Plus(f))));
  }

  lemma PartsJoin(a: Cols, b: Cols, c: Cols, d: Cols, e: Cols)
    ensures a.Plus(b).Plus(c).Plus(d).Plus(e) == a.Plus(b.Plus(c.Plus(d.Plus(e))))
  {
    hide Cols.Plus;
    PlusAssoc(a.Plus(b).Plus(c), d, e);
    PlusAssoc(a.Plus(b), c, d.Plus(e));
    PlusAssoc(a, b, c.Plus(d.Plus(e)));
  }

  lemma {:induction false} KeysBack(l: seq<Struct>, s: Struct)
    ensures KeysIn(l + [s]) == KeysIn(l) + KeysOf(s)
  {
    hide KeysOf;
    if l == [] {
      assert ([] + [s])[1..] == [];
    } else {
      KeysBack(l[1..], s);
      assert (l + [s])[1..] == l[1..] + [s];
    }
  }

  lemma {:induction false} PutListMore(l: seq<Struct>, s: Struct, n: nat)
    ensures PutList(l + [s], n) == PutList(l, n).Plus(PutStruct(s, n + KeysIn(l)))
  {
    hide KeysOf, PutStruct, Cols.Plus;
    if l == [] {
      assert ([] + [s])[1..] == [];
      NothingPlus(PutStruct(s, n));
    } else {
      PutListMore(l[1..], s, n + KeysOf(l[0]));
      assert (l + [s])[1..] == l[1..] + [s];
      PlusAssoc(PutStruct(l[0], n), PutList(l[1..], n + KeysOf(l[0])), PutStruct(s, n + KeysIn(l)));
    }
  }

  lemma PutListBack(head: Cols, l: seq<Struct>, s: Struct, n: nat)
    ensures head.Plus(PutList(l, n)).Plus(PutStruct(s, n + KeysIn(l))) == head.Plus(PutList(l + [s], n))
    ensures KeysIn(l + [s]) == KeysIn(l) + KeysOf(s)
  {
    hide KeysOf, PutStruct, Cols.Plus;
    PlusAssoc(head, PutList(l, n), PutStruct(s, n + KeysIn(l)));
    PutListMore(l, s, n);
    KeysBack(l, s);
  }

  lemma {:induction false} PutBlocksMore(order: seq<u32>, b: Blocks, k: u32, n: nat)
    requires (forall x :: x in order ==> x in b) && k in b
    ensures PutBlocks(order + [k], b, n) == PutBlocks(order, b, n).Plus(PutBlock(k, b[k], n + AllKeys(order, b)))
    ensures AllKeys(order + [k], b) == AllKeys(order, b) + KeysIn(b[k])
  {
    hide KeysIn, PutBlock, Cols.Plus;
    if order == [] {
      assert ([] + [k])[1..] == [];
      NothingPlus(PutBlock(k, b[k], n));
    } else {
      var first := order[0];
      assert first in order;
      PutBlocksMore(order[1..], b, k, n + KeysIn(b[first]));
      assert (order + [k])[1..] == order[1..] + [k];
      PlusAssoc(PutBlock(first, b[first], n), PutBlocks(order[1..], b, n + KeysIn(b[first])),
                PutBlock(k, b[k], n + AllKeys(order, b)));
    }
  }

  lemma PutBlocksBack(head: Cols, order: seq<u32>, b: Blocks, k: u32)
    requires (forall x :: x in order ==> x in b) && k in b
    ensures head.Plus(PutBlocks(order, b, 0)).Plus(PutBlock(k, b[k], AllKeys(order, b))) ==
            head.Plus(PutBlocks(order + [k], b, 0))
    ensures AllKeys(order + [k], b) == AllKeys(order, b) + KeysIn(b[k])
  {
    hide KeysIn, PutBlock, Cols.Plus, PutBlocks;
    PlusAssoc(head, PutBlocks(order, b, 0), PutBlock(k, b[k], AllKeys(order, b)));
    PutBlocksMore(order, b, k, 0);
  }

  /** The blocks of the clients in order[..i] are written behind `head`. */
  ghost predicate BlocksWritten(e: UpdateEncoderV2, head: Cols, order: seq<u32>, i: nat, b: Blocks)
    reads e, e.Parts()
  {
    && i <= |order| && (forall k :: k in order ==> k in b)
    && e.Valid() && e.Log() == head.Plus(PutBlocks(order[..i], b, 0)) && e.keyClockN == AllKeys(order[..i], b)
  }

  lemma NoBlocks(head: Cols, b: Blocks)
    ensures head.Plus(PutBlocks([], b, 0)) == head && AllKeys([], b) == 0
  {
    NothingPlus(head);
  }

  lemma NextBlock(head: Cols, order: seq<u32>, i: nat, b: Blocks)
    requires i < |order| && (forall k :: k in order ==> k in b)
    ensures order[i] in b
    ensures head.Plus(PutBlocks(order[..i], b, 0)).Plus(PutBlock(order[i], b[order[i]], AllKeys(order[..i], b))) ==
            head.Plus(PutBlocks(order[..i + 1], b, 0))
    ensures AllKeys(order[..i + 1], b) == AllKeys(order[..i], b) + KeysIn(b[order[i]])
  {
    assert order[i] in order && order[..i + 1] == order[..i] + [order[i]];
    PutBlocksBack(head, order[..i], b, order[i]);
  }

  /** One client's block, if its structs can be written. */
  method WriteNext(e: UpdateEncoderV2, ghost head: Cols, order: seq<u32>, i: nat, b: Blocks) returns (r: Result<()>)
    requires BlocksWritten(e, head, order, i, b) && i < |order|
    requires b[order[i]] != [] && Sound(b[order[i]])
    modifies e.Parts(), e`rest, e`keyClockN
    ensures r.Ok? ==> BlocksWritten(e, head, order, i + 1, b) && Ready(b[order[i]])
    ensures r.Err? ==> !Ready(b[order[i]])
  {
    NextBlock(head, order, i, b);
    var l := b[order[i]];
    hide UpdateEncoderV2.Valid, UpdateEncoderV2.Log, PutBlock, PutBlocks, AllKeys, KeysIn, Cols.Plus, EncStruct;
    r := e.WriteBlock(order[i], l);
  }

  /** The loop over the clients. */
  method WriteOrdered(e: UpdateEncoderV2, order: seq<u32>, groups: Blocks, ghost head: Cols) returns (r: Result<()>)
    requires BlocksWritten(e, head, order, 0, groups) && WrittenTo(order, 0, groups, [])
    requires (forall k :: k in groups ==> groups[k] != []) && Sound(Flatten(order, groups))
    modifies e.Parts(), e`rest, e`keyClockN
    ensures r.Ok? ==> BlocksWritten(e, head, order, |order|, groups) && Ready(Flatten(order, groups))
    ensures r.Err? ==> !Ready(Flatten(order, groups))
  {
    hide BlocksWritten, WrittenTo, Flatten, Ready, Sound;
    ghost var log: seq<Struct> := [];
    for i := 0 to |order|
      invariant BlocksWritten(e, head, order, i, groups) && WrittenTo(order, i, groups, log)
    {
      WrittenOne(order, i, groups, log);
      r := WriteNext(e, head, order, i, groups);
      if r.Err? {
        return;
      }
      log := log + groups[order[i]];
    }
    WrittenAll(order, groups, log);
    r := Ok(());
  }

  /** writeStructGroups. */
  method WriteStructGroups(e: UpdateEncoderV2, groups: Blocks) returns (r: Result<()>)
    requires e.Valid() && e.Log() == NOTHING && e.keyClockN == 0
    requires (forall k :: k in groups ==> groups[k] != []) && Sound(Canonical(groups))
    modifies e.Parts(), e`rest, e`keyClockN
    ensures r.Ok? ==>
              && e.Valid() && Ready(Canonical(groups))
              && e.Log() == Rest(VarUint(AsU32(|Desc(groups.Keys)|))).Plus(PutBlocks(Desc(groups.Keys), groups, 0))
    ensures r.Err? ==> !Ready(Canonical(groups))
  {
    hide UpdateEncoderV2.Valid, UpdateEncoderV2.Log, PutBlocks, Cols.Plus, Flatten, Ready, Sound, WrittenTo,
         Descending, BlocksWritten, Rest, VarUint;
    var order := SortDesc(groups.Keys);
    ghost var head := Rest(VarUint(AsU32(|order|)));
    NothingPlus(head);
    WrittenNone(order, groups);
    e.AppendRest(VarUint(AsU32(|order|)));
    BlocksNone(e, head, order, groups);
    r := WriteOrdered(e, order, groups, head);
    if r.Ok? {
      BlocksAll(e, head, order, groups);
    }
  }

  lemma BlocksNone(e: UpdateEncoderV2, head: Cols, order: seq<u32>, b: Blocks)
    requires e.Valid() && e.Log() == head && e.keyClockN == 0 && forall k :: k in order ==> k in b
    ensures BlocksWritten(e, head, order, 0, b)
  {
    hide UpdateEncoderV2.Valid, UpdateEncoderV2.Log, PutBlock, Cols.Plus;
    assert order[..0] == [];
    NoBlocks(head, b);
  }

  lemma BlocksAll(e: UpdateEncoderV2, head: Cols, order: seq<u32>, b: Blocks)
    requires BlocksWritten(e, head, order, |order|, b)
    ensures e.Valid() && (forall k :: k in order ==> k in b) && e.Log() == head.Plus(PutBlocks(order, b, 0))
  {
    hide UpdateEncoderV2.Valid, UpdateEncoderV2.Log, PutBlock, Cols.Plus;
    assert order[..|order|] == order;
  }

  lemma GroupsFilled(structs: seq<Struct>)
    ensures forall k :: k in Group(structs) ==> Group(structs)[k] != []
  {
    hide SortByClock, OfClient;
    var b := Group(structs);
    forall k | k in b
      ensures b[k] != []
    {
      var s :| s in structs && s.id.client == k;
      InGroup(structs, s);
      assert s in b[k];
    }
  }

  /** EncodeV2: refused exactly when some struct cannot be written, otherwise
      the canonical columns in their layout. */
  method EncodeV2(u: Update) returns (r: Result<bytes>)
    requires Sound(u.structs)
    ensures Ready(u.structs) ==> r == Ok(EncodeTwo(u))
    ensures !Ready(u.structs) ==> r.Err?
  {
    CanonicalMembers(u.structs);
    GroupsFilled(u.structs);
    var groups := GroupByClient(u.structs);
    var e := new UpdateEncoderV2();
    hide Group, Layout, Rest, Cols.Plus, EncDeletes, PutBlocks, UpdateEncoderV2.Log, UpdateEncoderV2.Valid, Canonical,
         EncStruct;
    var written := WriteStructGroups(e, groups);
    if written.Err? {
      return Err(written.error);
    }
    var dels := AppendDeletes([], u.deletes, Delta);
    assert [] + EncDeletes(u.deletes, Delta) == EncDeletes(u.deletes, Delta);
    e.AppendRest(dels);
    PlusAssoc(Rest(VarUint(AsU32(|Desc(groups.Keys)|))), PutBlocks(Desc(groups.Keys), groups, 0), Rest(dels));
    var out := e.Bytes();
    r := Ok(out);
  }
}
