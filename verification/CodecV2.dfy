/** The V2 wire form: each field of a struct goes to one of nine columns or to
    the rest stream; header, origin, right origin and parent ids share the
    client column. */
module CodecV2 {
  import opened Prelude
  import opened Wire
  import opened Text
  import opened RawValues
  import opened Structs
  import opened CodecV1
  import opened Lib0

  /** What is written to each column, in order. */
  datatype Cols = Cols(keyClock: seq<u32>, client: seq<u32>, left: seq<u32>, right: seq<u32>, info: seq<byte>,
                       strings: seq<string>, parentInfo: seq<byte>, typeRef: seq<u32>, lengths: seq<u32>, rest: bytes)
  {
    function Plus(c: Cols): Cols {
      Cols(keyClock + c.keyClock, client + c.client, left + c.left, right + c.right, info + c.info,
           strings + c.strings, parentInfo + c.parentInfo, typeRef + c.typeRef, lengths + c.lengths, rest + c.rest)
    }
  }

  const NOTHING := Cols([], [], [], [], [], [], [], [], [], [])

  lemma PlusAssoc(a: Cols, b: Cols, c: Cols)
    ensures a.Plus(b).Plus(c) == a.Plus(b.Plus(c))
  {
    Assoc(a.keyClock, b.keyClock, c.keyClock);
    Assoc(a.client, b.client, c.client);
    Assoc(a.left, b.left, c.left);
    Assoc(a.right, b.right, c.right);
    Assoc(a.info, b.info, c.info);
    Assoc(a.strings, b.strings, c.strings);
    Assoc(a.parentInfo, b.parentInfo, c.parentInfo);
    Assoc(a.typeRef, b.typeRef, c.typeRef);
    Assoc(a.lengths, b.lengths, c.lengths);
    Assoc(a.rest, b.rest, c.rest);
  }

  lemma NothingPlus(c: Cols)
    ensures NOTHING.Plus(c) == c && c.Plus(NOTHING) == c
  {
  }

  // ----- Writing -----

  function Client(x: u32): Cols { NOTHING.(client := [x]) }

  function Info1(x: byte): Cols { NOTHING.(info := [x]) }

  function Text1(s: string): Cols { NOTHING.(strings := [s]) }

  function Texts(s: seq<string>): Cols { NOTHING.(strings := s) }

  function Len(x: u32): Cols { NOTHING.(lengths := [x]) }

  function Rest(b: bytes): Cols { NOTHING.(rest := b) }

  function TypeRef(x: u32): Cols { NOTHING.(typeRef := [x]) }

  function ParentKind(x: byte): Cols { NOTHING.(parentInfo := [x]) }

  function LeftId(id: ID): Cols {
    NOTHING.(client := [id.client], left := [id.clock])
  }

  function RightId(id: ID): Cols {
    NOTHING.(client := [id.client], right := [id.clock])
  }

  /** Keys are numbered as they are written; the text follows every time. */
  function Key(key: string, n: nat): Cols {
    NOTHING.(keyClock := [AsU32(n)], strings := [key])
  }

  /** How many keys a content writes. */
  function Keys(c: Content): nat {
    if c.Format? || (c.Type? && NamedType(c.typeRef)) then 1 else 0
  }

  function PutContent(c: Content, n: nat): Cols {
    match c
    case Deleted(k) => Len(k)
    case Json(values) => Len(AsU32(|values|)).Plus(Texts(values))
    case Binary(buf) => Rest(VarBytes(buf))
    case Str(text) => Text1(text)
    case Embed(raw) => Rest(raw)
    case Format(key, raw) => Key(key, n).Plus(Rest(raw))
    case Type(typeRef, name) => TypeRef(typeRef).Plus(if NamedType(typeRef) then Key(name, n) else NOTHING)
    case Any(items) => Len(AsU32(|items|)).Plus(Rest(Concat(items)))
    case Doc(guid, raw) => Text1(guid).Plus(Rest(raw))
  }

  function PutLeft(id: Option<ID>): Cols {
    if id.Some? then LeftId(id.value) else NOTHING
  }

  function PutRight(id: Option<ID>): Cols {
    if id.Some? then RightId(id.value) else NOTHING
  }

  function PutParent(p: Parent): Cols {
    match p
    case Root(name) => ParentKind(1).Plus(Text1(name))
    case ParentId(id) => ParentKind(0).Plus(LeftId(id))
    case NoParent => NOTHING
  }

  function PutPlace(s: Struct): Cols
    requires s.Item?
  {
    if Placed(s) then NOTHING
    else PutParent(s.parent).Plus(if s.parentSub != "" then Text1(s.parentSub) else NOTHING)
  }

  /** writeStruct: the columns of one struct, its identifier left out. */
  function PutStruct(s: Struct, n: nat): Cols {
    match s
    case GC(_, len) => Info1(0).Plus(Len(len))
    case Skip(_, len) => Info1(10).Plus(Rest(VarUint(len)))
    case Item(_, origin, rightOrigin, _, _, _, content) =>
      Info1(Info(s)).Plus(PutLeft(origin).Plus(PutRight(rightOrigin).Plus(PutPlace(s).Plus(PutContent(content, n)))))
  }

  function KeysOf(s: Struct): nat {
    if s.Item? then Keys(s.content) else 0
  }

  // ----- Reading -----

  /** A cursor into each column, and the keys read so far. */
  datatype Decoder = Decoder(keyClock: DiffState, client: UintState, left: DiffState, right: DiffState, info: ByteState,
                             strings: StringState, parentInfo: ByteState, typeRef: UintState, lengths: UintState,
                             rest: bytes, keys: seq<string>)

  type Read<+T> = Result<(T, Decoder)>

  function GetClient(d: Decoder): Read<u32> {
    var (x, st) :- ReadUint(d.client);
    Ok((x, d.(client := st)))
  }

  function GetLen(d: Decoder): Read<u32> {
    var (x, st) :- ReadUint(d.lengths);
    Ok((x, d.(lengths := st)))
  }

  function GetTypeRef(d: Decoder): Read<u32> {
    var (x, st) :- ReadUint(d.typeRef);
    Ok((x, d.(typeRef := st)))
  }

  function GetInfo(d: Decoder): Read<byte> {
    var (x, st) :- ReadByteRun(d.info);
    Ok((x, d.(info := st)))
  }

  function GetParentKind(d: Decoder): Read<byte> {
    var (x, st) :- ReadByteRun(d.parentInfo);
    if x > 1 then Err(InvalidParentInfo) else Ok((x, d.(parentInfo := st)))
  }

  function GetString(d: Decoder): Read<string> {
    var (x, st) :- ReadText(d.strings);
    Ok((x, d.(strings := st)))
  }

  function GetLeftId(d: Decoder): Read<ID> {
    var (client, d1) :- GetClient(d);
    var (clock, st) :- ReadDiff(d1.left);
    Ok((ID(client, clock), d1.(left := st)))
  }

  function GetRightId(d: Decoder): Read<ID> {
    var (client, d1) :- GetClient(d);
    var (clock, st) :- ReadDiff(d1.right);
    Ok((ID(client, clock), d1.(right := st)))
  }

  /** A key seen before, by number, or the next new one. */
  function GetKey(d: Decoder): Read<string> {
    var (number, st) :- ReadDiff(d.keyClock);
    var d1 := d.(keyClock := st);
    if number < |d.keys| then Ok((d.keys[number], d1))
    else
      var (key, d2) :- GetString(d1);
      Ok((key, d2.(keys := d2.keys + [key])))
  }

  function GetRestUint(d: Decoder): Read<u32> {
    var (x, rest) :- ReadVarUint(d.rest);
    Ok((x, d.(rest := rest)))
  }

  function GetStrings(d: Decoder, n: nat): Read<seq<string>>
    decreases n
  {
    if n == 0 then Ok(([], d))
    else
      var (s, d1) :- GetString(d);
      var (more, d2) :- GetStrings(d1, n - 1);
      Ok(([s] + more, d2))
  }

  function GetAnys(b: bytes, n: nat): Result<(seq<bytes>, bytes)>
    decreases n
  {
    if n == 0 then Ok(([], b))
    else
      var (v, b1) :- ReadAny(b, V2);
      var (more, rest) :- GetAnys(b1, n - 1);
      Ok(([v] + more, rest))
  }

  function GetJson(d: Decoder): Read<Content> {
    var (n, d1) :- GetLen(d);
    if n > COLLECTION_LIMIT then Err(CollectionTooLarge)
    else
      var (values, d2) :- GetStrings(d1, n);
      Ok((Json(values), d2))
  }

  function GetAny(d: Decoder): Read<Content> {
    var (n, d1) :- GetLen(d);
    if n > COLLECTION_LIMIT then Err(CollectionTooLarge)
    else
      var (items, rest) :- GetAnys(d1.rest, n);
      Ok((Any(items), d1.(rest := rest)))
  }

  function GetType(d: Decoder): Read<Content> {
    var (typeRef, d1) :- GetTypeRef(d);
    if typeRef > 6 then Err(UnknownTypeRef)
    else if NamedType(typeRef) then
      var (name, d2) :- GetKey(d1);
      Ok((Type(typeRef, name), d2))
    else Ok((Type(typeRef, ""), d1))
  }

  function GetFormat(d: Decoder): Read<Content> {
    var (key, d1) :- GetKey(d);
    var (raw, rest) :- ReadJson(d1.rest, V2);
    Ok((Format(key, raw), d1.(rest := rest)))
  }

  function GetDoc(d: Decoder): Read<Content> {
    var (guid, d1) :- GetString(d);
    var (raw, rest) :- ReadAny(d1.rest, V2);
    Ok((Doc(guid, raw), d1.(rest := rest)))
  }

  /** readItemContentV2, by content reference. */
  function GetContent(ref: nat, d: Decoder): Read<Content> {
    match ref
    case 1 =>
      var (n, d1) :- GetLen(d);
      Ok((Deleted(n), d1))
    case 2 => GetJson(d)
    case 3 =>
      var (buf, rest) :- ReadVarBytes(d.rest);
      Ok((Binary(buf), d.(rest := rest)))
    case 4 =>
      var (text, d1) :- GetString(d);
      Ok((Str(text), d1))
    case 5 =>
      var (raw, rest) :- ReadJson(d.rest, V2);
      Ok((Embed(raw), d.(rest := rest)))
    case 6 => GetFormat(d)
    case 7 => GetType(d)
    case 8 => GetAny(d)
    case 9 => GetDoc(d)
    case _ => Err(UnknownContentRef)
  }

  function GetLeft(has: bool, d: Decoder): Read<Option<ID>> {
    if !has then Ok((None, d))
    else
      var (id, d1) :- GetLeftId(d);
      Ok((Some(id), d1))
  }

  function GetRight(has: bool, d: Decoder): Read<Option<ID>> {
    if !has then Ok((None, d))
    else
      var (id, d1) :- GetRightId(d);
      Ok((Some(id), d1))
  }

  function GetParent(d: Decoder): Read<Parent> {
    var (kind, d1) :- GetParentKind(d);
    if kind == 1 then
      var (name, d2) :- GetString(d1);
      if name == "" then Err(InvalidParentRoot) else Ok((Root(name), d2))
    else
      var (id, d2) :- GetLeftId(d1);
      Ok((ParentId(id), d2))
  }

  function GetPlace(placed: bool, hasSub: bool, d: Decoder): Read<(Parent, string)> {
    if placed then Ok(((NoParent, ""), d))
    else
      var (parent, d1) :- GetParent(d);
      if hasSub then
        var (sub, d2) :- GetString(d1);
        Ok(((parent, sub), d2))
      else Ok(((parent, ""), d1))
  }

  function GetItem(info: byte, d: Decoder, id: ID): Read<Struct> {
    var (origin, d1) :- GetLeft(HasOrigin(info), d);
    var (rightOrigin, d2) :- GetRight(HasRight(info), d1);
    var ((parent, sub), d3) :- GetPlace(HasOrigin(info) || HasRight(info), HasSub(info), d2);
    var (content, d4) :- GetContent(info % 0x20, d3);
    var item :- Checked(Item(id, origin, rightOrigin, parent, sub, false, content));
    Ok((item, d4))
  }

  /** readStructV2, after its info byte: a Skip's length is in the rest stream,
      a GC's in the length column. */
  function GetStruct(d: Decoder, id: ID): Read<Struct> {
    var (info, d1) :- GetInfo(d);
    if info == 10 then
      var (n, d2) :- GetRestUint(d1);
      var s :- Checked(Skip(id, n));
      Ok((s, d2))
    else if info % 0x20 != 0 then GetItem(info, d1, id)
    else
      var (n, d2) :- GetLen(d1);
      var s :- Checked(GC(id, n));
      Ok((s, d2))
  }

  // ----- What a decoder still holds -----

  /** Each cursor yields exactly its column, and is then drained. */
  predicate Holds(d: Decoder, c: Cols) {
    && DiffYields(d.keyClock, c.keyClock) && UintYields(d.client, c.client)
    && DiffYields(d.left, c.left) && DiffYields(d.right, c.right)
    && ByteYields(d.info, c.info) && StringYields(d.strings, c.strings)
    && ByteYields(d.parentInfo, c.parentInfo) && UintYields(d.typeRef, c.typeRef)
    && UintYields(d.lengths, c.lengths) && d.rest == c.rest
  }

  /** `got` is `want`, and what is left holds `c` with the same keys known. */
  ghost predicate Reads<T>(got: Read<T>, want: T, d: Decoder, c: Cols) {
    got.Ok? && got.value.0 == want && Holds(got.value.1, c) && got.value.1.keys == d.keys
  }

  lemma ClientRead(d: Decoder, x: u32, c: Cols)
    requires Holds(d, Client(x).Plus(c))
    ensures Reads(GetClient(d), x, d, c)
  {
    hide ReadUint, ReadDiff, ReadByteRun, ReadText;
    FrontOf(x, c.client);
    assert Client(x).Plus(c) == NOTHING.Plus(c).(client := [x] + c.client);
    NothingPlus(c);
  }

  lemma FrontOf<T>(x: T, s: seq<T>)
    ensures ([x] + s)[0] == x && ([x] + s)[1..] == s
  {
  }

  lemma LenRead(d: Decoder, x: u32, c: Cols)
    requires Holds(d, Len(x).Plus(c))
    ensures Reads(GetLen(d), x, d, c)
  {
    hide ReadUint, ReadDiff, ReadByteRun, ReadText;
    FrontOf(x, c.lengths);
    NothingPlus(c);
  }

  lemma TypeRefRead(d: Decoder, x: u32, c: Cols)
    requires Holds(d, TypeRef(x).Plus(c))
    ensures Reads(GetTypeRef(d), x, d, c)
  {
    hide ReadUint, ReadDiff, ReadByteRun, ReadText;
    FrontOf(x, c.typeRef);
    NothingPlus(c);
  }

  lemma InfoRead(d: Decoder, x: byte, c: Cols)
    requires Holds(d, Info1(x).Plus(c))
    ensures Reads(GetInfo(d), x, d, c)
  {
    hide ReadUint, ReadDiff, ReadByteRun, ReadText;
    FrontOf(x, c.info);
    NothingPlus(c);
  }

  lemma ParentKindRead(d: Decoder, x: byte, c: Cols)
    requires Holds(d, ParentKind(x).Plus(c)) && x <= 1
    ensures Reads(GetParentKind(d), x, d, c)
  {
    hide ReadUint, ReadDiff, ReadByteRun, ReadText;
    FrontOf(x, c.parentInfo);
    NothingPlus(c);
  }

  lemma StringRead(d: Decoder, x: string, c: Cols)
    requires Holds(d, Text1(x).Plus(c))
    ensures Reads(GetString(d), x, d, c)
  {
    hide ReadUint, ReadDiff, ReadByteRun, ReadText;
    FrontOf(x, c.strings);
    NothingPlus(c);
  }

  lemma LeftIdRead(d: Decoder, id: ID, c: Cols)
    requires Holds(d, LeftId(id).Plus(c))
    ensures Reads(GetLeftId(d), id, d, c)
  {
    hide ReadUint, ReadDiff, ReadByteRun, ReadText;
    FrontOf(id.client, c.client);
    FrontOf(id.clock, c.left);
    NothingPlus(c);
  }

  lemma RightIdRead(d: Decoder, id: ID, c: Cols)
    requires Holds(d, RightId(id).Plus(c))
    ensures Reads(GetRightId(d), id, d, c)
  {
    hide ReadUint, ReadDiff, ReadByteRun, ReadText;
    FrontOf(id.client, c.client);
    FrontOf(id.clock, c.right);
    NothingPlus(c);
  }

  /** The next key number is past all keys known, so its text is read. */
  lemma KeyRead(d: Decoder, key: string, c: Cols)
    requires Holds(d, Key(key, |d.keys|).Plus(c)) && |d.keys| <= MAX_U32
    ensures GetKey(d).Ok? && GetKey(d).value.0 == key && Holds(GetKey(d).value.1, c)
    ensures GetKey(d).value.1.keys == d.keys + [key]
  {
    hide ReadUint, ReadDiff, ReadByteRun, ReadText;
    FrontOf(AsU32(|d.keys|), c.keyClock);
    FrontOf(key, c.strings);
    NothingPlus(c);
  }

  // ----- Round trip of one struct -----

  lemma RestRead(d: Decoder, b: bytes, c: Cols)
    requires Holds(d, Rest(b).Plus(c))
    ensures d.rest == b + c.rest && Holds(d.(rest := c.rest), c)
  {
    hide DiffYields, UintYields, ByteYields, StringYields;
    NothingPlus(c);
  }

  lemma TextsFront(s: string, more: seq<string>, c: Cols)
    ensures Texts([s] + more).Plus(c) == Text1(s).Plus(Texts(more).Plus(c))
  {
    NothingPlus(c);
    Assoc([s], more, c.strings);
  }

  lemma {:induction false} StringsRead(d: Decoder, values: seq<string>, c: Cols)
    requires Holds(d, Texts(values).Plus(c))
    ensures Reads(GetStrings(d, |values|), values, d, c)
    decreases |values|
  {
    hide Holds, GetString;
    if values == [] {
      NothingPlus(c);
      assert Texts(values) == NOTHING;
    } else {
      assert values == [values[0]] + values[1..];
      TextsFront(values[0], values[1..], c);
      hide Texts, Text1;
      StringRead(d, values[0], Texts(values[1..]).Plus(c));
      StringsRead(GetString(d).value.1, values[1..], c);
    }
  }

  lemma {:induction false} AnysRead(items: seq<bytes>, rest: bytes)
    requires forall k :: 0 <= k < |items| ==> AnyValue(items[k])
    ensures GetAnys(Concat(items) + rest, |items|) == Ok((items, rest))
  {
    hide ReadAny, AnyValue;
    if items == [] {
      assert Concat(items) + rest == rest;
    } else {
      Assoc(items[0], Concat(items[1..]), rest);
      AnyRoundTrip(items[0], V2, Concat(items[1..]) + rest);
      AnysRead(items[1..], rest);
      assert items == [items[0]] + items[1..];
    }
  }

  /** `got` is `want`, what is left holds `c`, and `n` more keys are known. */
  ghost predicate ReadsKeys<T>(got: Read<T>, want: T, d: Decoder, n: nat, c: Cols) {
    got.Ok? && got.value.0 == want && Holds(got.value.1, c) && |got.value.1.keys| == |d.keys| + n
  }

  lemma JsonRead(d: Decoder, values: seq<string>, c: Cols)
    requires WireContent(Json(values)) && Holds(d, Len(AsU32(|values|)).Plus(Texts(values)).Plus(c))
    ensures Reads(GetJson(d), Json(values), d, c)
  {
    hide Holds, GetLen, GetStrings, Len, Texts;
    PlusAssoc(Len(AsU32(|values|)), Texts(values), c);
    LenRead(d, |values|, Texts(values).Plus(c));
    StringsRead(GetLen(d).value.1, values, c);
  }

  lemma AnyFits(items: seq<bytes>)
    requires WireContent(Any(items))
    ensures |items| <= COLLECTION_LIMIT && AsU32(|items|) == |items|
    ensures forall k :: 0 <= k < |items| ==> AnyValue(items[k])
  {
    hide AnyValue;
  }

  lemma AnyRead(d: Decoder, items: seq<bytes>, c: Cols)
    requires WireContent(Any(items)) && Holds(d, Len(AsU32(|items|)).Plus(Rest(Concat(items))).Plus(c))
    ensures Reads(GetAny(d), Any(items), d, c)
  {
    hide Holds, GetLen, GetAnys, Len, Rest, Concat, AnyValue, Cols.Plus, WireContent;
    AnyFits(items);
    PlusAssoc(Len(AsU32(|items|)), Rest(Concat(items)), c);
    LenRead(d, |items|, Rest(Concat(items)).Plus(c));
    RestRead(GetLen(d).value.1, Concat(items), c);
    AnysRead(items, c.rest);
  }

  lemma FormatRead(d: Decoder, key: string, raw: bytes, c: Cols)
    requires JsonValue(raw) && Holds(d, Key(key, |d.keys|).Plus(Rest(raw)).Plus(c)) && |d.keys| <= MAX_U32
    ensures ReadsKeys(GetFormat(d), Format(key, raw), d, 1, c)
  {
    hide Holds, GetKey, ReadJson, JsonValue, Key, Rest;
    PlusAssoc(Key(key, |d.keys|), Rest(raw), c);
    KeyRead(d, key, Rest(raw).Plus(c));
    RestRead(GetKey(d).value.1, raw, c);
    JsonRoundTrip(raw, V2, c.rest);
  }

  lemma TypeRead(d: Decoder, typeRef: u32, name: string, c: Cols)
    requires WireContent(Type(typeRef, name)) && |d.keys| <= MAX_U32
    requires Holds(d, PutContent(Type(typeRef, name), |d.keys|).Plus(c))
    ensures ReadsKeys(GetType(d), Type(typeRef, name), d, Keys(Type(typeRef, name)), c)
  {
    hide Holds, GetKey, GetTypeRef, Key, TypeRef;
    var key := if NamedType(typeRef) then Key(name, |d.keys|) else NOTHING;
    PlusAssoc(TypeRef(typeRef), key, c);
    TypeRefRead(d, typeRef, key.Plus(c));
    if NamedType(typeRef) {
      KeyRead(GetTypeRef(d).value.1, name, c);
    } else {
      NothingPlus(c);
    }
  }

  lemma DocRead(d: Decoder, guid: string, raw: bytes, c: Cols)
    requires AnyValue(raw) && Holds(d, Text1(guid).Plus(Rest(raw)).Plus(c))
    ensures Reads(GetDoc(d), Doc(guid, raw), d, c)
  {
    hide Holds, GetString, ReadAny, AnyValue, Text1, Rest;
    PlusAssoc(Text1(guid), Rest(raw), c);
    StringRead(d, guid, Rest(raw).Plus(c));
    RestRead(GetString(d).value.1, raw, c);
    AnyRoundTrip(raw, V2, c.rest);
  }

  lemma BinaryRead(d: Decoder, buf: bytes, c: Cols)
    requires |buf| <= MAX_U32 && Holds(d, Rest(VarBytes(buf)).Plus(c))
    ensures Reads(GetContent(3, d), Binary(buf), d, c)
  {
    hide Holds, Rest;
    RestRead(d, VarBytes(buf), c);
    VarBytesRoundTrip(buf, c.rest);
  }

  lemma EmbedRead(d: Decoder, raw: bytes, c: Cols)
    requires JsonValue(raw) && Holds(d, Rest(raw).Plus(c))
    ensures Reads(GetContent(5, d), Embed(raw), d, c)
  {
    hide Holds, Rest, ReadJson;
    RestRead(d, raw, c);
    JsonRoundTrip(raw, V2, c.rest);
  }

  lemma ContentRead(content: Content, d: Decoder, c: Cols)
    requires WireContent(content) && |d.keys| <= MAX_U32 && Holds(d, PutContent(content, |d.keys|).Plus(c))
    ensures ReadsKeys(GetContent(Ref(content), d), content, d, Keys(content), c)
  {
    hide Holds, GetLen, GetString, GetJson, GetAny, GetFormat, GetType, GetDoc;
    match content
    case Deleted(n) => LenRead(d, n, c);
    case Json(values) => JsonRead(d, values, c);
    case Binary(buf) => BinaryRead(d, buf, c);
    case Str(text) => StringRead(d, text, c);
    case Embed(raw) => EmbedRead(d, raw, c);
    case Format(key, raw) => FormatRead(d, key, raw, c);
    case Type(typeRef, name) => TypeRead(d, typeRef, name, c);
    case Any(items) => AnyRead(d, items, c);
    case Doc(guid, raw) => DocRead(d, guid, raw, c);
  }

  lemma LeftRead(id: Option<ID>, d: Decoder, c: Cols)
    requires Holds(d, PutLeft(id).Plus(c))
    ensures Reads(GetLeft(id.Some?, d), id, d, c)
  {
    hide Holds, GetLeftId, LeftId;
    if id.Some? {
      LeftIdRead(d, id.value, c);
    } else {
      NothingPlus(c);
    }
  }

  lemma RightRead(id: Option<ID>, d: Decoder, c: Cols)
    requires Holds(d, PutRight(id).Plus(c))
    ensures Reads(GetRight(id.Some?, d), id, d, c)
  {
    hide Holds, GetRightId, RightId;
    if id.Some? {
      RightIdRead(d, id.value, c);
    } else {
      NothingPlus(c);
    }
  }

  lemma ParentRead(p: Parent, d: Decoder, c: Cols)
    requires WireParent(p) && Holds(d, PutParent(p).Plus(c))
    ensures Reads(GetParent(d), p, d, c)
  {
    hide Holds, GetParentKind, GetString, GetLeftId, ParentKind, Text1, LeftId;
    match p
    case Root(name) =>
      PlusAssoc(ParentKind(1), Text1(name), c);
      ParentKindRead(d, 1, Text1(name).Plus(c));
      StringRead(GetParentKind(d).value.1, name, c);
    case ParentId(id) =>
      PlusAssoc(ParentKind(0), LeftId(id), c);
      ParentKindRead(d, 0, LeftId(id).Plus(c));
      LeftIdRead(GetParentKind(d).value.1, id, c);
  }

  lemma PlaceRead(s: Struct, d: Decoder, c: Cols)
    requires s.Item? && WireStruct(s) && Holds(d, PutPlace(s).Plus(c))
    ensures Reads(GetPlace(Placed(s), !Placed(s) && s.parentSub != "", d), (s.parent, s.parentSub), d, c)
  {
    hide Holds, GetParent, GetString, PutParent, Text1;
    if Placed(s) {
      NothingPlus(c);
    } else {
      var sub := if s.parentSub != "" then Text1(s.parentSub) else NOTHING;
      PlusAssoc(PutParent(s.parent), sub, c);
      ParentRead(s.parent, d, sub.Plus(c));
      if s.parentSub != "" {
        StringRead(GetParent(d).value.1, s.parentSub, c);
      } else {
        NothingPlus(c);
      }
    }
  }

  /** Four parts, one after the other. */
  lemma PartsPlus(a: Cols, b: Cols, p: Cols, k: Cols, c: Cols)
    ensures a.Plus(b.Plus(p.Plus(k))).Plus(c) == a.Plus(b.Plus(p.Plus(k.Plus(c))))
  {
    PlusAssoc(a, b.Plus(p.Plus(k)), c);
    PlusAssoc(b, p.Plus(k), c);
    PlusAssoc(p, k, c);
  }

  lemma ItemSteps(s: Struct, d: Decoder, d1: Decoder, d2: Decoder, d3: Decoder, d4: Decoder)
    requires s.Item? && WireStruct(s)
    requires GetLeft(s.origin.Some?, d) == Ok((s.origin, d1))
    requires GetRight(s.rightOrigin.Some?, d1) == Ok((s.rightOrigin, d2))
    requires GetPlace(Placed(s), !Placed(s) && s.parentSub != "", d2) == Ok(((s.parent, s.parentSub), d3))
    requires GetContent(Ref(s.content), d3) == Ok((s.content, d4))
    ensures GetItem(Info(s), d, s.id) == Ok((s, d4))
  {
    InfoBits(s);
    hide GetLeft, GetRight, GetPlace, GetContent, Info, WireContent, HasOrigin, HasRight, HasSub;
  }

  /** Origin, right origin and place are read; `c` is left. */
  lemma HeadRead(s: Struct, d: Decoder, c: Cols) returns (d1: Decoder, d2: Decoder, d3: Decoder)
    requires s.Item? && WireStruct(s)
    requires Holds(d, PutLeft(s.origin).Plus(PutRight(s.rightOrigin).Plus(PutPlace(s).Plus(c))))
    ensures GetLeft(s.origin.Some?, d) == Ok((s.origin, d1))
    ensures GetRight(s.rightOrigin.Some?, d1) == Ok((s.rightOrigin, d2))
    ensures GetPlace(Placed(s), !Placed(s) && s.parentSub != "", d2) == Ok(((s.parent, s.parentSub), d3))
    ensures Holds(d3, c) && d3.keys == d.keys
  {
    hide Holds, GetLeft, GetRight, GetPlace, PutLeft, PutRight, PutPlace, WireStruct, Cols.Plus;
    LeftRead(s.origin, d, PutRight(s.rightOrigin).Plus(PutPlace(s).Plus(c)));
    d1 := GetLeft(s.origin.Some?, d).value.1;
    RightRead(s.rightOrigin, d1, PutPlace(s).Plus(c));
    d2 := GetRight(s.rightOrigin.Some?, d1).value.1;
    PlaceRead(s, d2, c);
    d3 := GetPlace(Placed(s), !Placed(s) && s.parentSub != "", d2).value.1;
  }

  lemma WireHasContent(s: Struct)
    requires s.Item? && WireStruct(s)
    ensures WireContent(s.content)
  {
    hide WireContent;
  }

  lemma ItemRead(s: Struct, d: Decoder, c: Cols)
    requires s.Item? && WireStruct(s) && |d.keys| <= MAX_U32
    requires Holds(d, PutLeft(s.origin).Plus(PutRight(s.rightOrigin).Plus(PutPlace(s).Plus(
                        PutContent(s.content, |d.keys|)))).Plus(c))
    ensures ReadsKeys(GetItem(Info(s), d, s.id), s, d, KeysOf(s), c)
  {
    hide Holds, GetLeft, GetRight, GetPlace, GetContent, GetItem, PutLeft, PutRight, PutPlace, PutContent, Info, Keys,
         WireContent, WireStruct, Cols.Plus;
    WireHasContent(s);
    PartsPlus(PutLeft(s.origin), PutRight(s.rightOrigin), PutPlace(s), PutContent(s.content, |d.keys|), c);
    var d1, d2, d3 := HeadRead(s, d, PutContent(s.content, |d.keys|).Plus(c));
    ContentRead(s.content, d3, c);
    ItemSteps(s, d, d1, d2, d3, GetContent(Ref(s.content), d3).value.1);
  }

  /** A struct's columns in front of `c` are read as that struct, and leave `c`. */
  lemma StructRead(s: Struct, d: Decoder, c: Cols)
    requires WireStruct(s) && |d.keys| <= MAX_U32 && Holds(d, PutStruct(s, |d.keys|).Plus(c))
    ensures ReadsKeys(GetStruct(d, s.id), s, d, KeysOf(s), c)
  {
    hide Holds, GetInfo, GetLen, GetRestUint, GetItem, Len, Rest, Info1, WireContent;
    match s
    case GC(id, len) =>
      PlusAssoc(Info1(0), Len(len), c);
      InfoRead(d, 0, Len(len).Plus(c));
      LenRead(GetInfo(d).value.1, len, c);
    case Skip(id, len) =>
      PlusAssoc(Info1(10), Rest(VarUint(len)), c);
      InfoRead(d, 10, Rest(VarUint(len)).Plus(c));
      RestUintRead(GetInfo(d).value.1, len, c);
    case Item(_, _, _, _, _, _, _) =>
      ItemStructRead(s, d, c);
  }

  lemma RestUintRead(d: Decoder, x: u32, c: Cols)
    requires Holds(d, Rest(VarUint(x)).Plus(c))
    ensures Reads(GetRestUint(d), x, d, c)
  {
    hide Holds, Rest;
    RestRead(d, VarUint(x), c);
    VarUintRoundTrip(x, c.rest);
  }

  lemma ItemStructRead(s: Struct, d: Decoder, c: Cols)
    requires s.Item? && WireStruct(s) && |d.keys| <= MAX_U32 && Holds(d, PutStruct(s, |d.keys|).Plus(c))
    ensures ReadsKeys(GetStruct(d, s.id), s, d, KeysOf(s), c)
  {
    InfoBits(s);
    hide Holds, GetInfo, GetItem, PutLeft, PutRight, PutPlace, PutContent, Info, Info1, WireContent;
    var body := PutLeft(s.origin).Plus(PutRight(s.rightOrigin).Plus(PutPlace(s).Plus(PutContent(s.content, |d.keys|))));
    PlusAssoc(Info1(Info(s)), body, c);
    InfoRead(d, Info(s), body.Plus(c));
    ItemRead(s, GetInfo(d).value.1, c);
    RefNotZero(s);
  }

  lemma RefNotZero(s: Struct)
    requires s.Item?
    ensures Info(s) % 0x20 != 0 && Info(s) != 10
  {
  }
}
