/** What V1 decoding yields is wire-normal again, so that re-encoding loses
    nothing: sizes are the only limit. */
module Reread {
  import opened Prelude
  import opened Wire
  import opened Text
  import opened RawValues
  import opened Structs
  import opened Updates
  import opened CodecV1
  import opened DeleteSets
  import opened UpdateV1
  import opened PerClient

  /** Raw values that the V2 reader takes too: their collections are within its
      limit. */
  predicate RawFits(c: Content) {
    match c
    case Embed(raw) => JsonSize(raw, V2).Ok?
    case Format(_, raw) => JsonSize(raw, V2).Ok?
    case Any(items) => forall k :: 0 <= k < |items| ==> AnySize(items[k], V2).Ok?
    case Doc(_, raw) => AnySize(raw, V2).Ok?
    case _ => true
  }

  predicate Fits(s: Struct) {
    s.Item? ==> RawFits(s.content)
  }

  /** Short enough that texts cannot grow beyond 32 bits when written again. */
  predicate Sized(b: bytes) {
    3 * |b| <= MAX_U32
  }

  lemma VarBytesWithin(b: bytes)
    requires ReadVarBytes(b).Ok?
    ensures |ReadVarBytes(b).value.0| + |ReadVarBytes(b).value.1| < |b|
  {
  }

  lemma StrWire(b: bytes)
    requires ReadStr(b).Ok? && Sized(b)
    ensures ShortText(ReadStr(b).value.0) && |ReadStr(b).value.1| < |b|
  {
    VarBytesWithin(b);
    RereadSize(ReadVarBytes(b).value.0);
    hide FromUtf8, Utf8, ReadVarBytes;
  }

  lemma {:induction false} StrsWire(b: bytes, n: nat)
    requires ReadStrs(b, n).Ok? && Sized(b)
    ensures var (values, rest) := ReadStrs(b, n).value;
            |values| == n && |rest| <= |b| && forall k :: 0 <= k < n ==> ShortText(values[k])
    decreases n
  {
    hide ReadStr, ShortText;
    if n > 0 {
      StrWire(b);
      StrsWire(ReadStr(b).value.1, n - 1);
    }
  }

  lemma AnyWire(b: bytes)
    requires ReadAny(b, V1).Ok?
    ensures var (raw, rest) := ReadAny(b, V1).value;
            && |raw| + |rest| == |b| && (AnySize(raw, V2).Ok? ==> AnyValue(raw))
            && (|b| <= COLLECTION_LIMIT ==> AnySize(raw, V2).Ok?)
  {
    hide AnySize;
    var n := AnySize(b, V1).value;
    AnySizePrefix(b, V1, n);
    var raw := b[..n];
    if AnySize(raw, V2).Ok? {
      AnySameSize(raw);
    }
    if |b| <= COLLECTION_LIMIT {
      ShortAnyReads(raw);
    }
  }

  lemma JsonWire(b: bytes)
    requires ReadJson(b, V1).Ok?
    ensures var (raw, rest) := ReadJson(b, V1).value;
            && |raw| + |rest| == |b| && (JsonSize(raw, V2).Ok? ==> JsonValue(raw))
            && (|b| <= COLLECTION_LIMIT ==> JsonSize(raw, V2).Ok?)
  {
    hide AnySize, VarBytesSize;
    if 116 <= b[0] <= 127 {
      AnyWire(b);
    } else {
      VarBytesSizePrefix(b, VarBytesSize(b).value);
    }
  }

  lemma {:induction false} AnysWire(b: bytes, n: nat)
    requires ReadAnys(b, n).Ok?
    ensures var (items, rest) := ReadAnys(b, n).value;
            && |items| == n && |rest| <= |b|
            && forall k :: 0 <= k < n ==>
                 && (AnySize(items[k], V2).Ok? ==> AnyValue(items[k]))
                 && (|b| <= COLLECTION_LIMIT ==> AnySize(items[k], V2).Ok?)
    decreases n
  {
    hide ReadAny, AnySize, AnyValue;
    if n > 0 {
      AnyWire(b);
      AnysWire(ReadAny(b, V1).value.1, n - 1);
    }
  }

  lemma TypeWire(b: bytes)
    requires ReadType(b).Ok? && Sized(b)
    ensures WireContent(ReadType(b).value.0) && ReadType(b).value.0.Type? && |ReadType(b).value.1| <= |b|
  {
    hide ReadVarUint, ReadStr;
    var (typeRef, b1) := ReadVarUint(b).value;
    if NamedType(typeRef) {
      StrWire(b1);
    }
    assert ShortText("") by {
      assert Utf8("") == [];
    }
  }

  lemma TextsWire(b: bytes)
    requires ReadTexts(b).Ok? && Sized(b)
    ensures WireContent(ReadTexts(b).value.0) && ReadTexts(b).value.0.Json? && |ReadTexts(b).value.1| <= |b|
  {
    hide ReadVarUint, ReadStrs, ShortText;
    var (n, b1) := ReadVarUint(b).value;
    StrsWire(b1, n);
  }

  lemma ValuesWire(b: bytes)
    requires ReadValues(b).Ok?
    ensures var (c, rest) := ReadValues(b).value;
            && c.Any? && |rest| <= |b| && (RawFits(c) ==> WireContent(c)) && (|b| <= COLLECTION_LIMIT ==> RawFits(c))
  {
    hide ReadVarUint, ReadAnys, AnyValue, AnySize;
    var (n, b1) := ReadVarUint(b).value;
    AnysWire(b1, n);
  }

  lemma FormatWire(b: bytes)
    requires ReadContent(6, b).Ok? && Sized(b)
    ensures var (c, rest) := ReadContent(6, b).value;
            && |rest| <= |b| && (RawFits(c) ==> WireContent(c)) && (|b| <= COLLECTION_LIMIT ==> RawFits(c))
  {
    hide ReadStr, ReadJson, JsonSize, JsonValue, ShortText;
    StrWire(b);
    JsonWire(ReadStr(b).value.1);
  }

  lemma DocWire(b: bytes)
    requires ReadContent(9, b).Ok? && Sized(b)
    ensures var (c, rest) := ReadContent(9, b).value;
            && |rest| <= |b| && (RawFits(c) ==> WireContent(c)) && (|b| <= COLLECTION_LIMIT ==> RawFits(c))
  {
    hide ReadStr, ReadAny, AnySize, AnyValue, ShortText;
    StrWire(b);
    AnyWire(ReadStr(b).value.1);
  }

  lemma ContentWire(ref: nat, b: bytes)
    requires ReadContent(ref, b).Ok? && Sized(b)
    ensures var (c, rest) := ReadContent(ref, b).value;
            && |rest| <= |b| && (RawFits(c) ==> WireContent(c)) && (|b| <= COLLECTION_LIMIT ==> RawFits(c))
  {
    hide ReadStr, ReadJson, ReadAny, ReadVarUint, ReadVarBytes, ReadTexts, ReadValues, ReadType, JsonSize, AnySize,
        JsonValue, AnyValue,
         ShortText;
    match ref
    case 2 => TextsWire(b);
    case 3 => VarBytesWithin(b);
    case 4 => StrWire(b);
    case 5 => JsonWire(b);
    case 6 => FormatWire(b);
    case 7 => TypeWire(b);
    case 8 => ValuesWire(b);
    case 9 => DocWire(b);
    case _ =>
  }

  lemma OptIdWithin(has: bool, b: bytes)
    requires ReadOptId(has, b).Ok?
    ensures |ReadOptId(has, b).value.1| <= |b|
  {
    hide ReadId;
  }

  lemma ParentWire(b: bytes)
    requires ReadParent(b).Ok? && Sized(b)
    ensures WireParent(ReadParent(b).value.0) && |ReadParent(b).value.1| <= |b|
  {
    hide ReadVarUint, ReadStr, ReadId, ShortText;
    var (kind, b1) := ReadVarUint(b).value;
    if kind == 1 {
      StrWire(b1);
    }
  }

  lemma PlaceWire(placed: bool, hasSub: bool, b: bytes)
    requires ReadPlace(placed, hasSub, b).Ok? && Sized(b)
    ensures var ((parent, sub), rest) := ReadPlace(placed, hasSub, b).value;
            && |rest| <= |b|
            && (if placed then parent == NoParent && sub == "" else WireParent(parent) && ShortText(sub))
  {
    hide ReadParent, ReadStr, WireParent;
    if !placed {
      ParentWire(b);
      if hasSub {
        StrWire(ReadParent(b).value.1);
      }
    }
    assert ShortText("") by {
      assert Utf8("") == [];
    }
  }

  lemma OptIdIs(has: bool, b: bytes)
    requires ReadOptId(has, b).Ok?
    ensures ReadOptId(has, b).value.0.Some? == has
  {
    hide ReadId;
  }

  lemma ItemWire(info: byte, b: bytes, id: ID)
    requires ReadItem(info, b, id).Ok? && Sized(b)
    ensures var (s, rest) := ReadItem(info, b, id).value;
            && |rest| <= |b| && (Fits(s) ==> WireStruct(s)) && (|b| <= COLLECTION_LIMIT ==> Fits(s))
  {
    hide ReadOptId, ReadPlace, ReadContent, WireContent, WireParent, ShortText, RawFits, Content.Length;
    var (origin, b1) := ReadOptId(HasOrigin(info), b).value;
    OptIdWithin(HasOrigin(info), b);
    OptIdIs(HasOrigin(info), b);
    var (rightOrigin, b2) := ReadOptId(HasRight(info), b1).value;
    OptIdWithin(HasRight(info), b1);
    OptIdIs(HasRight(info), b1);
    PlaceWire(HasOrigin(info) || HasRight(info), HasSub(info), b2);
    var (place, b3) := ReadPlace(HasOrigin(info) || HasRight(info), HasSub(info), b2).value;
    ContentWire(info % 0x20, b3);
  }

  /** A struct that is read is wire-normal. */
  lemma StructWire(b: bytes, id: ID)
    requires ReadStruct(b, id).Ok? && Sized(b)
    ensures var (s, rest) := ReadStruct(b, id).value;
            && |rest| < |b| && (Fits(s) ==> Writable(s)) && (|b| <= COLLECTION_LIMIT ==> Fits(s))
  {
    hide ReadItem, ReadVarUint, RawFits, WireContent, WireParent;
    if b[0] != 10 && b[0] % 0x20 != 0 {
      ItemWire(b[0], b[1..], id);
    }
    NormalizedSame(ReadStruct(b, id).value.0);
  }

  /** No more structs than bytes, and what holds of each. */
  ghost predicate WireAgain(l: seq<Struct>, b: bytes, rest: bytes) {
    && |l| + |rest| <= |b|
    && forall s :: s in l ==> (Fits(s) ==> Writable(s)) && (|b| <= COLLECTION_LIMIT ==> Fits(s))
  }

  lemma WireJoin(l: seq<Struct>, more: seq<Struct>, b: bytes, b1: bytes, rest: bytes)
    requires WireAgain(l, b, b1) && WireAgain(more, b1, rest)
    ensures WireAgain(l + more, b, rest)
  {
    hide Fits, Writable;
  }

  lemma {:induction false} StructsWire(b: bytes, n: nat, id: ID)
    requires ReadStructs(b, n, id).Ok? && Sized(b)
    ensures WireAgain(ReadStructs(b, n, id).value.0, b, ReadStructs(b, n, id).value.1)
    decreases n
  {
    hide ReadStruct, Fits, Writable;
    if n > 0 {
      StructWire(b, id);
      var (s, b1) := ReadStruct(b, id).value;
      StructsWire(b1, n - 1, ID(id.client, AsU32(s.End())));
      assert WireAgain([s], b, b1);
      WireJoin([s], ReadStructs(b1, n - 1, ID(id.client, AsU32(s.End()))).value.0, b, b1,
          ReadStructs(b, n, id).value.1);
    }
  }

  lemma HeaderWithin(b: bytes)
    requires ReadVarUint(b).Ok? && ReadId(ReadVarUint(b).value.1).Ok?
    ensures |ReadId(ReadVarUint(b).value.1).value.1| < |b|
  {
  }

  lemma WireLater(l: seq<Struct>, b: bytes, b1: bytes, rest: bytes)
    requires WireAgain(l, b1, rest) && |b1| <= |b|
    ensures WireAgain(l, b, rest)
  {
    hide Fits, Writable;
  }

  lemma {:induction false} BlocksWire(b: bytes, n: nat)
    requires ReadBlocks(b, n).Ok? && Sized(b)
    ensures WireAgain(ReadBlocks(b, n).value.0, b, ReadBlocks(b, n).value.1)
    decreases n
  {
    hide ReadVarUint, ReadId, ReadStructs, Fits, Writable;
    if n > 0 {
      HeaderWithin(b);
      var (count, b1) := ReadVarUint(b).value;
      var (id, b2) := ReadId(b1).value;
      StructsWire(b2, count, id);
      var (l, b3) := ReadStructs(b2, count, id).value;
      BlocksWire(b3, n - 1);
      var (more, rest) := ReadBlocks(b3, n - 1).value;
      hide WireAgain;
      WireLater(l, b, b2, b3);
      WireJoin(l, more, b, b3, rest);
    }
  }

  /** A decoded update has no more structs than bytes, and each can be written
      without loss. */
  lemma DecodedWire(b: bytes)
    requires Decode(b).Ok? && Sized(b)
    ensures var l := Decode(b).value.structs;
            |l| <= |b| && forall s :: s in l ==> (Fits(s) ==> Writable(s)) && (|b| <= COLLECTION_LIMIT ==> Fits(s))
  {
    hide ReadVarUint, ReadBlocks, ReadDeletes, Fits, Writable;
    var (n, b1) := ReadVarUint(b).value;
    BlocksWire(b1, n);
  }

  lemma OneClient(s: Struct)
    ensures ClientsOf([s]) == {s.id.client}
  {
    assert [s][0] in [s];
  }

  lemma {:induction false} ClientsWithin(l: seq<Struct>)
    ensures |ClientsOf(l)| <= |l|
  {
    if l != [] {
      OneClient(l[0]);
      assert l == [l[0]] + l[1..];
      ClientsConcat([l[0]], l[1..]);
      hide ClientsOf;
      ClientsWithin(l[1..]);
    } else {
      assert ClientsOf(l) == {};
    }
  }

  /** So a well-formed update of moderate size is written without loss. */
  lemma DecodedLossless(b: bytes)
    requires Decode(b).Ok? && Sized(b) && WellFormedBlocks(Group(Decode(b).value.structs))
    requires forall s :: s in Decode(b).value.structs ==> Fits(s)
    ensures WritableBlocks(Group(Decode(b).value.structs))
  {
    DecodedWire(b);
    var l := Decode(b).value.structs;
    ClientsWithin(l);
    hide Decode, Fits, Writable, SortByClock, OfClient, Chain, HasUnits;
    var g := Group(l);
    assert g.Keys == ClientsOf(l) && |g| == |g.Keys|;
    forall k | k in g
      ensures WellFormed(k, g[k]) && |g[k]| <= MAX_U32 && forall s :: s in g[k] ==> Writable(s)
    {
      assert WellFormed(k, g[k]);
      NonEmpty(k, g[k]);
      ChainLength(k, g[k]);
      forall s | s in g[k]
        ensures Writable(s)
      {
        InGroup(l, s);
      }
    }
  }

  lemma NonEmpty(client: u32, l: seq<Struct>)
    requires WellFormed(client, l)
    ensures l != []
  {
  }
}
