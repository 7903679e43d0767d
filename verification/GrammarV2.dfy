/** The V2 wire form as a grammar: what each struct puts in the columns, for any
    choice of key numbers and free header bits. The readers take exactly these
    columns. */
module GrammarV2 {
  import opened Prelude
  import opened Wire
  import opened RawValues
  import opened Structs
  import opened CodecV1
  import opened Lib0
  import opened CodecV2

  // ----- Words -----

  datatype Place = Derived | Named(parent: Parent, sub: Option<string>)

  /** A struct as it is put in the columns; `number` is the number of the key
      that a format or a named type has. */
  datatype Word =
    | SkipWord(len: u32)
    | GCWord(high: nat, len: u32)
    | ItemWord(spare: bool, origin: Option<ID>, rightOrigin: Option<ID>, place: Place, content: Content, number: u32)

  predicate ContentOk(c: Content) {
    match c
    case Json(values) => |values| <= COLLECTION_LIMIT
    case Binary(buf) => |buf| <= MAX_U32
    case Embed(raw) => OneJson(raw, V2)
    case Format(_, raw) => OneJson(raw, V2)
    case Type(typeRef, name) => typeRef <= 6 && (!NamedType(typeRef) ==> name == "")
    case Any(items) => |items| <= COLLECTION_LIMIT && forall k :: 0 <= k < |items| ==> OneAny(items[k], V2)
    case Doc(_, raw) => OneAny(raw, V2)
    case _ => true
  }

  predicate PlaceOk(p: Place) {
    p.Named? ==> p.parent.ParentId? || (p.parent.Root? && p.parent.name != "")
  }

  function KeyText(c: Content): Option<string> {
    match c
    case Format(key, _) => Some(key)
    case Type(typeRef, name) => if NamedType(typeRef) then Some(name) else None
    case _ => None
  }

  /** A number below that of the next new key stands for the key read then. */
  predicate NumberOk(c: Content, number: u32, keys: seq<string>) {
    KeyText(c).Some? && number < |keys| ==> keys[number] == KeyText(c).value
  }

  function KeysAfter(c: Content, number: u32, keys: seq<string>): seq<string> {
    if KeyText(c).Some? && number >= |keys| then keys + [KeyText(c).value] else keys
  }

  predicate WordOk(w: Word, keys: seq<string>) {
    match w
    case SkipWord(_) => true
    case GCWord(high, _) => high < 8
    case ItemWord(spare, origin, rightOrigin, place, content, number) =>
      && PlaceOk(place) && ContentOk(content) && NumberOk(content, number, keys)
      && (place.Derived? <==> origin.Some? || rightOrigin.Some?) && (spare ==> place.Derived?)
  }

  function WordKeys(w: Word, keys: seq<string>): seq<string> {
    if w.ItemWord? then KeysAfter(w.content, w.number, keys) else keys
  }

  // ----- Columns -----

  /** A known key is its number alone, a new one also its text. */
  function PutKey(key: string, number: u32, keys: seq<string>): Cols {
    NOTHING.(keyClock := [number], strings := if number < |keys| then [] else [key])
  }

  function PutBody(c: Content, number: u32, keys: seq<string>): Cols {
    match c
    case Format(key, raw) => PutKey(key, number, keys).Plus(Rest(raw))
    case Type(typeRef, name) =>
      TypeRef(typeRef).Plus(if NamedType(typeRef) then PutKey(name, number, keys) else NOTHING)
    case _ => PutContent(c, 0)
  }

  function PutWhere(p: Place): Cols {
    match p
    case Derived => NOTHING
    case Named(parent, sub) => PutParent(parent).Plus(if sub.Some? then Text1(sub.value) else NOTHING)
  }

  predicate HasKey(p: Place) {
    p.Named? && p.sub.Some?
  }

  function HeaderByte(w: Word, keys: seq<string>): byte
    requires WordOk(w, keys)
  {
    match w
    case SkipWord(_) => 10
    case GCWord(high, _) => 0x20 * high
    case ItemWord(spare, origin, rightOrigin, place, content, _) =>
      Ref(content) + (if origin.Some? then 0x80 else 0) + (if rightOrigin.Some? then 0x40 else 0) +
      (if spare || HasKey(place) then 0x20 else 0)
  }

  function PutTail(w: Word, keys: seq<string>): Cols
    requires w.ItemWord?
  {
    PutLeft(w.origin).Plus(PutRight(w.rightOrigin).Plus(PutWhere(w.place).Plus(PutBody(w.content, w.number, keys))))
  }

  function PutWord(w: Word, keys: seq<string>): Cols
    requires WordOk(w, keys)
  {
    Info1(HeaderByte(w, keys)).Plus(
      match w
      case SkipWord(len) => Rest(VarUint(len))
      case GCWord(_, len) => Len(len)
      case ItemWord(_, _, _, _, _, _) => PutTail(w, keys))
  }

  // ----- Meaning -----

  function MeanPlace(p: Place): (Parent, string) {
    match p
    case Derived => (NoParent, "")
    case Named(parent, sub) => (parent, if sub.Some? then sub.value else "")
  }

  function Mean(w: Word, id: ID): Struct {
    match w
    case SkipWord(len) => Skip(id, len)
    case GCWord(_, len) => GC(id, len)
    case ItemWord(_, origin, rightOrigin, place, content, _) =>
      Item(id, origin, rightOrigin, MeanPlace(place).0, MeanPlace(place).1, false, content)
  }

  /** `got` is `want`; what is left holds `c` and knows `keys`. */
  ghost predicate Gets<T>(got: Read<T>, want: T, keys: seq<string>, c: Cols) {
    got.Ok? && got.value.0 == want && Holds(got.value.1, c) && got.value.1.keys == keys
  }

  // ----- The readers take the words -----

  lemma KeyTaken(d: Decoder, key: string, number: u32, c: Cols)
    requires Holds(d, PutKey(key, number, d.keys).Plus(c)) && (number < |d.keys| ==> d.keys[number] == key)
    ensures Gets(GetKey(d), key, if number < |d.keys| then d.keys else d.keys + [key], c)
  {
    hide ReadUint, ReadDiff, ReadByteRun, ReadText;
    FrontOf(number, c.keyClock);
    FrontOf(key, c.strings);
    NothingPlus(c);
  }

  lemma {:induction false} AnysTaken(items: seq<bytes>, rest: bytes)
    requires forall k :: 0 <= k < |items| ==> OneAny(items[k], V2)
    ensures GetAnys(Concat(items) + rest, |items|) == Ok((items, rest))
  {
    hide ReadAny, OneAny;
    if items == [] {
      assert Concat(items) + rest == rest;
    } else {
      Assoc(items[0], Concat(items[1..]), rest);
      OneAnyRead(items[0], V2, Concat(items[1..]) + rest);
      AnysTaken(items[1..], rest);
      assert items == [items[0]] + items[1..];
    }
  }

  lemma TextsTaken(d: Decoder, values: seq<string>, c: Cols)
    requires |values| <= COLLECTION_LIMIT && Holds(d, PutContent(Json(values), 0).Plus(c))
    ensures Gets(GetJson(d), Json(values), d.keys, c)
  {
    hide Holds, GetLen, GetStrings, Len, Texts;
    PlusAssoc(Len(AsU32(|values|)), Texts(values), c);
    LenRead(d, |values|, Texts(values).Plus(c));
    StringsRead(GetLen(d).value.1, values, c);
  }

  lemma ValuesTaken(d: Decoder, items: seq<bytes>, c: Cols)
    requires ContentOk(Any(items)) && Holds(d, PutContent(Any(items), 0).Plus(c))
    ensures Gets(GetAny(d), Any(items), d.keys, c)
  {
    hide Holds, GetLen, GetAnys, Len, Rest, Concat, OneAny, Cols.Plus;
    PlusAssoc(Len(AsU32(|items|)), Rest(Concat(items)), c);
    LenRead(d, |items|, Rest(Concat(items)).Plus(c));
    RestRead(GetLen(d).value.1, Concat(items), c);
    AnysTaken(items, c.rest);
  }

  lemma FormatTaken(d: Decoder, key: string, raw: bytes, number: u32, c: Cols)
    requires OneJson(raw, V2) && NumberOk(Format(key, raw), number, d.keys)
    requires Holds(d, PutBody(Format(key, raw), number, d.keys).Plus(c))
    ensures Gets(GetFormat(d), Format(key, raw), KeysAfter(Format(key, raw), number, d.keys), c)
  {
    hide Holds, GetKey, ReadJson, OneJson, PutKey, Rest;
    PlusAssoc(PutKey(key, number, d.keys), Rest(raw), c);
    KeyTaken(d, key, number, Rest(raw).Plus(c));
    RestRead(GetKey(d).value.1, raw, c);
    OneJsonRead(raw, V2, c.rest);
  }

  lemma TypeTaken(d: Decoder, t: Content, number: u32, c: Cols)
    requires t.Type? && ContentOk(t) && NumberOk(t, number, d.keys) && Holds(d, PutBody(t, number, d.keys).Plus(c))
    ensures Gets(GetType(d), t, KeysAfter(t, number, d.keys), c)
  {
    hide Holds, GetKey, GetTypeRef, PutKey, TypeRef;
    var key := if NamedType(t.typeRef) then PutKey(t.name, number, d.keys) else NOTHING;
    PlusAssoc(TypeRef(t.typeRef), key, c);
    TypeRefRead(d, t.typeRef, key.Plus(c));
    if NamedType(t.typeRef) {
      KeyTaken(GetTypeRef(d).value.1, t.name, number, c);
    } else {
      NothingPlus(c);
    }
  }

  lemma DocTaken(d: Decoder, guid: string, raw: bytes, c: Cols)
    requires OneAny(raw, V2) && Holds(d, PutContent(Doc(guid, raw), 0).Plus(c))
    ensures Gets(GetDoc(d), Doc(guid, raw), d.keys, c)
  {
    hide Holds, GetString, ReadAny, OneAny, Text1, Rest;
    PlusAssoc(Text1(guid), Rest(raw), c);
    StringRead(d, guid, Rest(raw).Plus(c));
    RestRead(GetString(d).value.1, raw, c);
    OneAnyRead(raw, V2, c.rest);
  }

  lemma EmbedTaken(d: Decoder, raw: bytes, c: Cols)
    requires OneJson(raw, V2) && Holds(d, Rest(raw).Plus(c))
    ensures Gets(GetContent(5, d), Embed(raw), d.keys, c)
  {
    hide Holds, Rest, ReadJson;
    RestRead(d, raw, c);
    OneJsonRead(raw, V2, c.rest);
  }

  lemma BodyTaken(content: Content, number: u32, d: Decoder, c: Cols)
    requires ContentOk(content) && NumberOk(content, number, d.keys)
    requires Holds(d, PutBody(content, number, d.keys).Plus(c))
    ensures Gets(GetContent(Ref(content), d), content, KeysAfter(content, number, d.keys), c)
  {
    hide Holds, GetLen, GetString, GetJson, GetAny, GetFormat, GetType, GetDoc, OneAny, OneJson;
    match content
    case Deleted(n) => LenRead(d, n, c);
    case Json(values) => TextsTaken(d, values, c);
    case Binary(buf) => BinaryRead(d, buf, c);
    case Str(text) => StringRead(d, text, c);
    case Embed(raw) => EmbedTaken(d, raw, c);
    case Format(key, raw) => FormatTaken(d, key, raw, number, c);
    case Type(_, _) => TypeTaken(d, content, number, c);
    case Any(items) => ValuesTaken(d, items, c);
    case Doc(guid, raw) => DocTaken(d, guid, raw, c);
  }

  lemma ParentTaken(p: Parent, d: Decoder, c: Cols)
    requires PlaceOk(Named(p, None)) && Holds(d, PutParent(p).Plus(c))
    ensures Gets(GetParent(d), p, d.keys, c)
  {
    hide Holds, GetParentKind, GetString, GetLeftId, ParentKind, Text1, LeftId;
    match p
    case Root(name) =>
      PlusAssoc(ParentKind(1), Text1(name), c);
      ParentKindRead(d, 1, Text1(name).Plus(c));
      StringRead(GetParentKind(d).value.1, name, c);
    case ParentId(id) =>
      PlusAssoc(ParentKind(0), LeftId(id), c);
      ParentKindRead(d, 0, LeftId(id).Plus(c));
      LeftIdRead(GetParentKind(d).value.1, id, c);
  }

  /** Where there is an origin, the bit of the key says nothing. */
  lemma PlaceTaken(p: Place, bit: bool, d: Decoder, c: Cols)
    requires PlaceOk(p) && (p.Named? ==> bit == HasKey(p)) && Holds(d, PutWhere(p).Plus(c))
    ensures Gets(GetPlace(p.Derived?, bit, d), MeanPlace(p), d.keys, c)
  {
    hide Holds, GetParent, GetString, PutParent, Text1;
    if p.Derived? {
      NothingPlus(c);
    } else {
      var sub := if p.sub.Some? then Text1(p.sub.value) else NOTHING;
      PlusAssoc(PutParent(p.parent), sub, c);
      ParentTaken(p.parent, d, sub.Plus(c));
      if p.sub.Some? {
        StringRead(GetParent(d).value.1, p.sub.value, c);
      } else {
        NothingPlus(c);
      }
    }
  }

  lemma HeaderBits(w: Word, keys: seq<string>)
    requires WordOk(w, keys) && w.ItemWord?
    ensures var h := HeaderByte(w, keys);
            && HasOrigin(h) == w.origin.Some? && HasRight(h) == w.rightOrigin.Some?
            && HasSub(h) == (w.spare || HasKey(w.place)) && h % 0x20 == Ref(w.content) && h % 0x20 != 0 && h != 10
  {
    hide ContentOk, PlaceOk, NumberOk;
  }

  /** What a struct's checks make of a reading. */
  ghost predicate GetsChecked(got: Read<Struct>, s: Struct, keys: seq<string>, c: Cols) {
    match Checked(s)
    case Ok(_) => Gets(got, s, keys, c)
    case Err(e) => got == Err(e)
  }

  lemma TailParts(w: Word, keys: seq<string>, c: Cols)
    requires w.ItemWord?
    ensures PutTail(w, keys).Plus(c) == PutLeft(w.origin).Plus(PutRight(w.rightOrigin).Plus(
                                          PutWhere(w.place).Plus(PutBody(w.content, w.number, keys).Plus(c))))
  {
    hide PutLeft, PutRight, PutWhere, PutBody, Cols.Plus;
    PartsPlus(PutLeft(w.origin), PutRight(w.rightOrigin), PutWhere(w.place), PutBody(w.content, w.number, keys), c);
  }

  /** Origins and place are read; `c` is left. */
  lemma HeadTaken(w: Word, d: Decoder, c: Cols) returns (d1: Decoder, d2: Decoder, d3: Decoder)
    requires w.ItemWord? && WordOk(w, d.keys)
    requires Holds(d, PutLeft(w.origin).Plus(PutRight(w.rightOrigin).Plus(PutWhere(w.place).Plus(c))))
    ensures GetLeft(w.origin.Some?, d) == Ok((w.origin, d1))
    ensures GetRight(w.rightOrigin.Some?, d1) == Ok((w.rightOrigin, d2))
    ensures GetPlace(w.place.Derived?, w.spare || HasKey(w.place), d2) == Ok((MeanPlace(w.place), d3))
    ensures Holds(d3, c) && d3.keys == d.keys
  {
    hide Holds, GetLeft, GetRight, GetPlace, PutLeft, PutRight, PutWhere, MeanPlace, PlaceOk, ContentOk, NumberOk,
         Cols.Plus;
    LeftRead(w.origin, d, PutRight(w.rightOrigin).Plus(PutWhere(w.place).Plus(c)));
    d1 := GetLeft(w.origin.Some?, d).value.1;
    RightRead(w.rightOrigin, d1, PutWhere(w.place).Plus(c));
    d2 := GetRight(w.rightOrigin.Some?, d1).value.1;
    PlaceTaken(w.place, w.spare || HasKey(w.place), d2, c);
    d3 := GetPlace(w.place.Derived?, w.spare || HasKey(w.place), d2).value.1;
  }

  lemma ItemSteps(w: Word, id: ID, d: Decoder, d1: Decoder, d2: Decoder, d3: Decoder, d4: Decoder)
    requires w.ItemWord? && WordOk(w, d.keys)
    requires GetLeft(w.origin.Some?, d) == Ok((w.origin, d1))
    requires GetRight(w.rightOrigin.Some?, d1) == Ok((w.rightOrigin, d2))
    requires GetPlace(w.place.Derived?, w.spare || HasKey(w.place), d2) == Ok((MeanPlace(w.place), d3))
    requires GetContent(Ref(w.content), d3) == Ok((w.content, d4))
    ensures GetItem(HeaderByte(w, d.keys), d, id) ==
            match Checked(Mean(w, id)) { case Ok(s) => Ok((s, d4)) case Err(e) => Err(e) }
  {
    HeaderBits(w, d.keys);
    hide GetLeft, GetRight, GetPlace, GetContent, HeaderByte, HasOrigin, HasRight, HasSub, Checked, MeanPlace, PlaceOk,
         ContentOk, NumberOk, Ref;
  }

  lemma CheckedIs(s: Struct)
    ensures Checked(s).Ok? ==> Checked(s).value == s
  {
  }

  lemma ItemTaken(w: Word, id: ID, d: Decoder, c: Cols)
    requires WordOk(w, d.keys) && w.ItemWord? && Holds(d, PutTail(w, d.keys).Plus(c))
    ensures GetsChecked(GetItem(HeaderByte(w, d.keys), d, id), Mean(w, id), WordKeys(w, d.keys), c)
  {
    TailParts(w, d.keys, c);
    CheckedIs(Mean(w, id));
    hide HeaderByte, GetLeft, PutLeft, GetRight, PutRight, GetPlace, PutWhere, GetContent, GetItem, Mean, Checked,
         PutBody, ContentOk, PlaceOk, NumberOk, MeanPlace, KeysAfter, PutTail, Holds, Cols.Plus, Ref;
    var d1, d2, d3 := HeadTaken(w, d, PutBody(w.content, w.number, d.keys).Plus(c));
    BodyTaken(w.content, w.number, d3, c);
    ItemSteps(w, id, d, d1, d2, d3, GetContent(Ref(w.content), d3).value.1);
  }

  /** The columns of a struct in front of `c` are read as what they mean, and
      leave `c`. */
  lemma WordTaken(w: Word, id: ID, d: Decoder, c: Cols)
    requires WordOk(w, d.keys) && Holds(d, PutWord(w, d.keys).Plus(c))
    ensures GetsChecked(GetStruct(d, id), Mean(w, id), WordKeys(w, d.keys), c)
  {
    hide Holds, GetInfo, GetLen, GetRestUint, GetItem, Len, Rest, Info1, ContentOk, PlaceOk, NumberOk, KeysAfter,
         MeanPlace, Content.Length, PutTail, HeaderByte;
    var h := HeaderByte(w, d.keys);
    match w
    case SkipWord(len) =>
      HeaderIs(w, d.keys);
      PlusAssoc(Info1(h), Rest(VarUint(len)), c);
      InfoRead(d, h, Rest(VarUint(len)).Plus(c));
      RestUintRead(GetInfo(d).value.1, len, c);
    case GCWord(_, len) =>
      HeaderIs(w, d.keys);
      PlusAssoc(Info1(h), Len(len), c);
      InfoRead(d, h, Len(len).Plus(c));
      LenRead(GetInfo(d).value.1, len, c);
    case ItemWord(_, _, _, _, _, _) =>
      HeaderBits(w, d.keys);
      PlusAssoc(Info1(h), PutTail(w, d.keys), c);
      InfoRead(d, h, PutTail(w, d.keys).Plus(c));
      ItemTaken(w, id, GetInfo(d).value.1, c);
  }

  lemma HeaderIs(w: Word, keys: seq<string>)
    requires WordOk(w, keys)
    ensures w.SkipWord? ==> HeaderByte(w, keys) == 10
    ensures w.GCWord? ==> HeaderByte(w, keys) == 0x20 * w.high
  {
  }

  // ----- The readers take nothing else -----

  lemma LenGot(d: Decoder, c: Cols)
    requires GetLen(d).Ok? && Holds(GetLen(d).value.1, c)
    ensures Holds(d, Len(GetLen(d).value.0).Plus(c)) && GetLen(d).value.1.keys == d.keys
  {
    hide ReadUint, ReadDiff, ReadByteRun, ReadText;
    FrontOf(GetLen(d).value.0, c.lengths);
    NothingPlus(c);
  }

  lemma ClientGot(d: Decoder, c: Cols)
    requires GetClient(d).Ok? && Holds(GetClient(d).value.1, c)
    ensures Holds(d, Client(GetClient(d).value.0).Plus(c)) && GetClient(d).value.1.keys == d.keys
  {
    hide ReadUint, ReadDiff, ReadByteRun, ReadText;
    FrontOf(GetClient(d).value.0, c.client);
    NothingPlus(c);
  }

  lemma TypeRefGot(d: Decoder, c: Cols)
    requires GetTypeRef(d).Ok? && Holds(GetTypeRef(d).value.1, c)
    ensures Holds(d, TypeRef(GetTypeRef(d).value.0).Plus(c)) && GetTypeRef(d).value.1.keys == d.keys
  {
    hide ReadUint, ReadDiff, ReadByteRun, ReadText;
    FrontOf(GetTypeRef(d).value.0, c.typeRef);
    NothingPlus(c);
  }

  lemma InfoGot(d: Decoder, c: Cols)
    requires GetInfo(d).Ok? && Holds(GetInfo(d).value.1, c)
    ensures Holds(d, Info1(GetInfo(d).value.0).Plus(c)) && GetInfo(d).value.1.keys == d.keys
  {
    hide ReadUint, ReadDiff, ReadByteRun, ReadText;
    FrontOf(GetInfo(d).value.0, c.info);
    NothingPlus(c);
  }

  lemma ParentKindGot(d: Decoder, c: Cols)
    requires GetParentKind(d).Ok? && Holds(GetParentKind(d).value.1, c)
    ensures Holds(d, ParentKind(GetParentKind(d).value.0).Plus(c)) && GetParentKind(d).value.0 <= 1
    ensures GetParentKind(d).value.1.keys == d.keys
  {
    hide ReadUint, ReadDiff, ReadByteRun, ReadText;
    FrontOf(GetParentKind(d).value.0, c.parentInfo);
    NothingPlus(c);
  }

  lemma StringGot(d: Decoder, c: Cols)
    requires GetString(d).Ok? && Holds(GetString(d).value.1, c)
    ensures Holds(d, Text1(GetString(d).value.0).Plus(c)) && GetString(d).value.1.keys == d.keys
  {
    hide ReadUint, ReadDiff, ReadByteRun, ReadText;
    FrontOf(GetString(d).value.0, c.strings);
    NothingPlus(c);
  }

  lemma LeftIdGot(d: Decoder, c: Cols)
    requires GetLeftId(d).Ok? && Holds(GetLeftId(d).value.1, c)
    ensures Holds(d, LeftId(GetLeftId(d).value.0).Plus(c)) && GetLeftId(d).value.1.keys == d.keys
  {
    hide ReadUint, ReadDiff, ReadByteRun, ReadText;
    var id := GetLeftId(d).value.0;
    FrontOf(id.client, c.client);
    FrontOf(id.clock, c.left);
    NothingPlus(c);
  }

  lemma RightIdGot(d: Decoder, c: Cols)
    requires GetRightId(d).Ok? && Holds(GetRightId(d).value.1, c)
    ensures Holds(d, RightId(GetRightId(d).value.0).Plus(c)) && GetRightId(d).value.1.keys == d.keys
  {
    hide ReadUint, ReadDiff, ReadByteRun, ReadText;
    var id := GetRightId(d).value.0;
    FrontOf(id.client, c.client);
    FrontOf(id.clock, c.right);
    NothingPlus(c);
  }

  lemma RestGot(d: Decoder, b: bytes, c: Cols)
    requires Holds(d.(rest := c.rest), c) && d.rest == b + c.rest
    ensures Holds(d, Rest(b).Plus(c))
  {
    hide DiffYields, UintYields, ByteYields, StringYields;
    NothingPlus(c);
  }

  lemma RestUintGot(d: Decoder, c: Cols)
    requires GetRestUint(d).Ok? && Holds(GetRestUint(d).value.1, c)
    ensures Holds(d, Rest(VarUint(GetRestUint(d).value.0)).Plus(c)) && GetRestUint(d).value.1.keys == d.keys
  {
    VarUintCanonical(d.rest);
    hide DiffYields, UintYields, ByteYields, StringYields;
    RestGot(d, VarUint(GetRestUint(d).value.0), c);
  }

  lemma KeyGot(d: Decoder, c: Cols) returns (number: u32)
    requires GetKey(d).Ok? && Holds(GetKey(d).value.1, c)
    ensures var (key, d1) := GetKey(d).value;
            && (number < |d.keys| ==> d.keys[number] == key)
            && Holds(d, PutKey(key, number, d.keys).Plus(c))
            && d1.keys == if number < |d.keys| then d.keys else d.keys + [key]
  {
    hide ReadUint, ReadDiff, ReadByteRun, ReadText;
    number := ReadDiff(d.keyClock).value.0;
    FrontOf(number, c.keyClock);
    FrontOf(GetKey(d).value.0, c.strings);
    NothingPlus(c);
  }

  lemma {:induction false} AnysGot(b: bytes, n: nat)
    requires GetAnys(b, n).Ok?
    ensures var (items, rest) := GetAnys(b, n).value;
            |items| == n && (forall k :: 0 <= k < |items| ==> OneAny(items[k], V2)) && b == Concat(items) + rest
    decreases n
  {
    hide ReadAny, OneAny;
    if n == 0 {
      assert [] + b == b;
    } else {
      ReadsOneAny(b, V2);
      var (v, b1) := ReadAny(b, V2).value;
      AnysGot(b1, n - 1);
      var (more, rest) := GetAnys(b1, n - 1).value;
      assert ([v] + more)[1..] == more;
      Assoc(v, Concat(more), rest);
    }
  }

  lemma {:induction false} StringsGot(d: Decoder, n: nat, c: Cols)
    requires GetStrings(d, n).Ok? && Holds(GetStrings(d, n).value.1, c)
    ensures var (values, d1) := GetStrings(d, n).value;
            |values| == n && Holds(d, Texts(values).Plus(c)) && d1.keys == d.keys
    decreases n
  {
    hide Holds, GetString;
    if n == 0 {
      NothingPlus(c);
      assert Texts([]) == NOTHING;
    } else {
      var (s, d1) := GetString(d).value;
      StringsGot(d1, n - 1, c);
      var more := GetStrings(d1, n - 1).value.0;
      TextsFront(s, more, c);
      hide Texts, Text1;
      StringGot(d, Texts(more).Plus(c));
    }
  }

  /** What a read content was put as. */
  ghost predicate IsBody(ref: nat, d: Decoder, number: u32, c: Cols)
    requires GetContent(ref, d).Ok?
  {
    var (content, d1) := GetContent(ref, d).value;
    && ContentOk(content) && NumberOk(content, number, d.keys) && Ref(content) == ref
    && Holds(d, PutBody(content, number, d.keys).Plus(c)) && d1.keys == KeysAfter(content, number, d.keys)
  }

  lemma ListGot(ref: nat, d: Decoder, c: Cols)
    requires (ref == 2 || ref == 8) && GetContent(ref, d).Ok? && Holds(GetContent(ref, d).value.1, c)
    ensures IsBody(ref, d, 0, c)
  {
    hide Holds, GetLen, GetStrings, GetAnys, Len, Rest, Texts, OneAny, Cols.Plus;
    var (n, d1) := GetLen(d).value;
    if ref == 2 {
      StringsGot(d1, n, c);
      var values := GetStrings(d1, n).value.0;
      LenGot(d, Texts(values).Plus(c));
      PlusAssoc(Len(n), Texts(values), c);
    } else {
      AnysGot(d1.rest, n);
      var (items, rest) := GetAnys(d1.rest, n).value;
      RestIs(d1.(rest := rest), c);
      RestGot(d1, Concat(items), c);
      LenGot(d, Rest(Concat(items)).Plus(c));
      PlusAssoc(Len(n), Rest(Concat(items)), c);
    }
  }

  lemma RestIs(d: Decoder, c: Cols)
    requires Holds(d, c)
    ensures d.rest == c.rest && d.(rest := c.rest) == d
  {
  }

  lemma KeyedGot(ref: nat, d: Decoder, c: Cols) returns (number: u32)
    requires (ref == 6 || ref == 7) && GetContent(ref, d).Ok? && Holds(GetContent(ref, d).value.1, c)
    ensures IsBody(ref, d, number, c)
  {
    hide Holds, GetKey, GetTypeRef, ReadJson, OneJson, PutKey, TypeRef, Rest, Cols.Plus;
    if ref == 6 {
      var (key, d1) := GetKey(d).value;
      ReadsOneJson(d1.rest, V2);
      var (raw, rest) := ReadJson(d1.rest, V2).value;
      RestIs(d1.(rest := rest), c);
      RestGot(d1, raw, c);
      number := KeyGot(d, Rest(raw).Plus(c));
      PlusAssoc(PutKey(key, number, d.keys), Rest(raw), c);
    } else {
      var (typeRef, d1) := GetTypeRef(d).value;
      if NamedType(typeRef) {
        number := KeyGot(d1, c);
        var key := PutKey(GetKey(d1).value.0, number, d1.keys);
        TypeRefGot(d, key.Plus(c));
        PlusAssoc(TypeRef(typeRef), key, c);
      } else {
        number := 0;
        TypeRefGot(d, c);
        NothingPlus(TypeRef(typeRef));
      }
    }
  }

  lemma BodyGot(ref: nat, d: Decoder, c: Cols) returns (number: u32)
    requires GetContent(ref, d).Ok? && Holds(GetContent(ref, d).value.1, c)
    ensures IsBody(ref, d, number, c)
  {
    hide Holds, GetLen, GetString, GetJson, GetAny, GetFormat, GetType, ReadVarBytes, ReadJson, ReadAny, OneJson,
         OneAny, Len, Rest, Text1, VarBytes, Cols.Plus, ContentOk;
    number := 0;
    if ref == 1 {
      LenGot(d, c);
    } else if ref == 3 {
      BinaryGot(d, c);
    } else if ref == 4 {
      StringGot(d, c);
    } else if ref == 5 {
      EmbedGot(d, c);
    } else if ref == 9 {
      DocGot(d, c);
    } else if ref == 6 || ref == 7 {
      number := KeyedGot(ref, d, c);
    } else {
      ListGot(ref, d, c);
    }
    LooseOk();
  }

  lemma LooseOk()
    ensures forall n: u32 :: ContentOk(Deleted(n))
    ensures forall s: string :: ContentOk(Str(s))
  {
  }

  lemma BinaryGot(d: Decoder, c: Cols)
    requires GetContent(3, d).Ok? && Holds(GetContent(3, d).value.1, c)
    ensures IsBody(3, d, 0, c)
  {
    hide Holds, Rest, Cols.Plus;
    VarBytesCanonical(d.rest);
    var (buf, rest) := ReadVarBytes(d.rest).value;
    RestIs(d.(rest := rest), c);
    RestGot(d, VarBytes(buf), c);
  }

  lemma EmbedGot(d: Decoder, c: Cols)
    requires GetContent(5, d).Ok? && Holds(GetContent(5, d).value.1, c)
    ensures IsBody(5, d, 0, c)
  {
    hide Holds, Rest, Cols.Plus, ReadJson, OneJson;
    ReadsOneJson(d.rest, V2);
    var (raw, rest) := ReadJson(d.rest, V2).value;
    RestIs(d.(rest := rest), c);
    RestGot(d, raw, c);
  }

  lemma DocGot(d: Decoder, c: Cols)
    requires GetContent(9, d).Ok? && Holds(GetContent(9, d).value.1, c)
    ensures IsBody(9, d, 0, c)
  {
    hide Holds, Rest, Text1, GetString, Cols.Plus, ReadAny, OneAny;
    var (guid, d1) := GetString(d).value;
    ReadsOneAny(d1.rest, V2);
    var (raw, rest) := ReadAny(d1.rest, V2).value;
    RestIs(d1.(rest := rest), c);
    RestGot(d1, raw, c);
    StringGot(d, Rest(raw).Plus(c));
    PlusAssoc(Text1(guid), Rest(raw), c);
  }

  lemma LeftGot(has: bool, d: Decoder, c: Cols)
    requires GetLeft(has, d).Ok? && Holds(GetLeft(has, d).value.1, c)
    ensures var (id, d1) := GetLeft(has, d).value;
            id.Some? == has && Holds(d, PutLeft(id).Plus(c)) && d1.keys == d.keys
  {
    hide Holds, GetLeftId, LeftId;
    if has {
      LeftIdGot(d, c);
    } else {
      NothingPlus(c);
    }
  }

  lemma RightGot(has: bool, d: Decoder, c: Cols)
    requires GetRight(has, d).Ok? && Holds(GetRight(has, d).value.1, c)
    ensures var (id, d1) := GetRight(has, d).value;
            id.Some? == has && Holds(d, PutRight(id).Plus(c)) && d1.keys == d.keys
  {
    hide Holds, GetRightId, RightId;
    if has {
      RightIdGot(d, c);
    } else {
      NothingPlus(c);
    }
  }

  lemma ParentGot(d: Decoder, c: Cols)
    requires GetParent(d).Ok? && Holds(GetParent(d).value.1, c)
    ensures var (p, d1) := GetParent(d).value;
            PlaceOk(Named(p, None)) && Holds(d, PutParent(p).Plus(c)) && d1.keys == d.keys
  {
    hide Holds, GetParentKind, GetString, GetLeftId, ParentKind, Text1, LeftId, Cols.Plus;
    var (kind, d1) := GetParentKind(d).value;
    if kind == 1 {
      StringGot(d1, c);
      var name := GetString(d1).value.0;
      ParentKindGot(d, Text1(name).Plus(c));
      PlusAssoc(ParentKind(1), Text1(name), c);
    } else {
      LeftIdGot(d1, c);
      var id := GetLeftId(d1).value.0;
      ParentKindGot(d, LeftId(id).Plus(c));
      PlusAssoc(ParentKind(0), LeftId(id), c);
    }
  }

  lemma PlaceGot(derived: bool, bit: bool, d: Decoder, c: Cols) returns (p: Place)
    requires GetPlace(derived, bit, d).Ok? && Holds(GetPlace(derived, bit, d).value.1, c)
    ensures PlaceOk(p) && p.Derived? == derived && (p.Named? ==> bit == HasKey(p))
    ensures GetPlace(derived, bit, d).value.0 == MeanPlace(p) && Holds(d, PutWhere(p).Plus(c))
    ensures GetPlace(derived, bit, d).value.1.keys == d.keys
  {
    hide Holds, GetParent, GetString, PutParent, Text1, Cols.Plus;
    if derived {
      p := Derived;
      NothingPlus(c);
    } else {
      var (parent, d1) := GetParent(d).value;
      if bit {
        StringGot(d1, c);
        var sub := GetString(d1).value.0;
        ParentGot(d, Text1(sub).Plus(c));
        PlusAssoc(PutParent(parent), Text1(sub), c);
        p := Named(parent, Some(sub));
      } else {
        ParentGot(d, c);
        NothingPlus(PutParent(parent));
        p := Named(parent, None);
      }
    }
  }

  lemma InfoSplits(info: byte, w: Word, keys: seq<string>)
    requires WordOk(w, keys) && w.ItemWord? && Ref(w.content) == info % 0x20
    requires HasOrigin(info) == w.origin.Some? && HasRight(info) == w.rightOrigin.Some?
    requires HasSub(info) == (w.spare || HasKey(w.place))
    ensures HeaderByte(w, keys) == info
  {
    hide ContentOk, PlaceOk, NumberOk, Ref;
    assert info == info % 0x20 + (if info >= 0x80 then 0x80 else 0) + (if info % 0x80 >= 0x40 then 0x40 else 0) +
                   (if info % 0x40 >= 0x20 then 0x20 else 0);
  }

  lemma ItemGot(info: byte, d: Decoder, id: ID, c: Cols) returns (w: Word)
    requires GetItem(info, d, id).Ok? && Holds(GetItem(info, d, id).value.1, c)
    ensures WordOk(w, d.keys) && w.ItemWord? && HeaderByte(w, d.keys) == info
    ensures var (s, d1) := GetItem(info, d, id).value;
            s == Mean(w, id) && Holds(d, PutTail(w, d.keys).Plus(c)) && d1.keys == WordKeys(w, d.keys)
  {
    hide HasOrigin, HasRight, HasSub, GetLeft, PutLeft, GetRight, PutRight, GetPlace, PutWhere, GetContent, PutBody,
         ContentOk, PlaceOk, NumberOk, MeanPlace, KeysAfter, Content.Length, HeaderByte, PutTail, Holds, Cols.Plus, Ref;
    var (origin, d1) := GetLeft(HasOrigin(info), d).value;
    var (rightOrigin, d2) := GetRight(HasRight(info), d1).value;
    var derived := HasOrigin(info) || HasRight(info);
    var (_, d3) := GetPlace(derived, HasSub(info), d2).value;
    var number := BodyGot(info % 0x20, d3, c);
    var content := GetContent(info % 0x20, d3).value.0;
    var c3 := PutBody(content, number, d3.keys).Plus(c);
    var place := PlaceGot(derived, HasSub(info), d2, c3);
    RightGot(HasRight(info), d1, PutWhere(place).Plus(c3));
    LeftGot(HasOrigin(info), d, PutRight(rightOrigin).Plus(PutWhere(place).Plus(c3)));
    w := ItemWord(derived && HasSub(info), origin, rightOrigin, place, content, number);
    InfoSplits(info, w, d.keys);
    TailParts(w, d.keys, c);
  }

  /** The word that was read. */
  ghost predicate IsWord(d: Decoder, id: ID, w: Word, c: Cols)
    requires GetStruct(d, id).Ok?
  {
    var (s, d1) := GetStruct(d, id).value;
    && WordOk(w, d.keys) && Mean(w, id) == s && s.Valid()
    && Holds(d, PutWord(w, d.keys).Plus(c)) && d1.keys == WordKeys(w, d.keys)
  }

  /** A struct that is read was put there as some word. */
  lemma WordGot(d: Decoder, id: ID, c: Cols) returns (w: Word)
    requires GetStruct(d, id).Ok? && Holds(GetStruct(d, id).value.1, c)
    ensures IsWord(d, id, w, c)
  {
    hide GetItem, GetInfo, GetLen, GetRestUint, Holds, Cols.Plus, Info1, Len, Rest, PutTail, HeaderByte, ContentOk,
         PlaceOk, NumberOk, MeanPlace, KeysAfter, Content.Length;
    var (info, d1) := GetInfo(d).value;
    if info == 10 {
      RestUintGot(d1, c);
      var n := GetRestUint(d1).value.0;
      InfoGot(d, Rest(VarUint(n)).Plus(c));
      w := SkipWord(n);
      HeaderIs(w, d.keys);
      PlusAssoc(Info1(info), Rest(VarUint(n)), c);
    } else if info % 0x20 != 0 {
      w := ItemGot(info, d1, id, c);
      InfoGot(d, PutTail(w, d1.keys).Plus(c));
      PlusAssoc(Info1(info), PutTail(w, d1.keys), c);
      ItemValid(info, d1, id);
    } else {
      LenGot(d1, c);
      var n := GetLen(d1).value.0;
      InfoGot(d, Len(n).Plus(c));
      w := GCWord(info / 0x20, n);
      HeaderIs(w, d.keys);
      PlusAssoc(Info1(info), Len(n), c);
    }
  }

  lemma ItemValid(info: byte, d: Decoder, id: ID)
    requires GetItem(info, d, id).Ok?
    ensures GetItem(info, d, id).value.0.Valid()
  {
    hide GetLeft, GetRight, GetPlace, GetContent, Content.Length;
  }

  /** Next to an origin or a right origin the bit of the key changes nothing. */
  lemma SpareBit(info: byte, d: Decoder, id: ID)
    requires (HasOrigin(info) || HasRight(info)) && !HasSub(info)
    ensures GetItem(info + 0x20, d, id) == GetItem(info, d, id)
  {
    hide GetLeft, GetRight, GetContent;
    assert HasOrigin(info + 0x20) == HasOrigin(info) && HasRight(info + 0x20) == HasRight(info);
    assert (info + 0x20) % 0x20 == info % 0x20;
  }

  // ----- Column by column -----

  function NewKey(key: Option<string>, number: u32, keys: seq<string>): seq<string> {
    match key
    case Some(text) => if number < |keys| then [] else [text]
    case None => []
  }

  /** What a content puts in each column. */
  lemma BodyColumns(c: Content, number: u32, keys: seq<string>)
    requires ContentOk(c)
    ensures var put := PutBody(c, number, keys);
      && put.keyClock == (if KeyText(c).Some? then [number] else [])
      && put.typeRef == (if c.Type? then [c.typeRef] else [])
      && put.lengths == (match c
                         case Deleted(n) => [n]
                         case Json(values) => [|values|]
                         case Any(items) => [|items|]
                         case _ => [])
      && put.strings == (match c
                         case Json(values) => values
                         case Str(text) => [text]
                         case Doc(guid, _) => [guid]
                         case _ => NewKey(KeyText(c), number, keys))
      && put.rest == (match c
                      case Binary(buf) => VarUint(|buf|) + buf
                      case Embed(raw) => raw
                      case Format(_, raw) => raw
                      case Any(items) => Concat(items)
                      case Doc(_, raw) => raw
                      case _ => [])
      && put.client == [] && put.left == [] && put.right == [] && put.info == [] && put.parentInfo == []
  {
    hide OneJson, OneAny;
    NothingPlus(TypeRef(if c.Type? then c.typeRef else 0));
  }

  function ParentIn(p: Place): Option<ID> {
    if p.Named? && p.parent.ParentId? then Some(p.parent.id) else None
  }

  function ClientIn(id: Option<ID>): seq<u32> {
    if id.Some? then [id.value.client] else []
  }

  function ClockIn(id: Option<ID>): seq<u32> {
    if id.Some? then [id.value.clock] else []
  }

  /** What a place puts in each column. */
  lemma PlaceColumns(p: Place)
    requires PlaceOk(p)
    ensures var put := PutWhere(p);
      && put.client == ClientIn(ParentIn(p)) && put.left == ClockIn(ParentIn(p))
      && put.parentInfo == (if p.Derived? then [] else if p.parent.Root? then [1] else [0])
      && put.strings == (if p.Named? && p.parent.Root? then [p.parent.name] else []) +
                        (if HasKey(p) then [p.sub.value] else [])
      && put == NOTHING.(client := put.client, left := put.left, parentInfo := put.parentInfo, strings := put.strings)
  {
  }

  /** What the origins and the place of an item put in each column: the clients of
      all ids share one, the clocks of right origins have their own. */
  lemma HeadColumns(w: Word)
    requires w.ItemWord? && PlaceOk(w.place)
    ensures var place := PutWhere(w.place);
      PutLeft(w.origin).Plus(PutRight(w.rightOrigin).Plus(place)) ==
      NOTHING.(client := ClientIn(w.origin) + (ClientIn(w.rightOrigin) + ClientIn(ParentIn(w.place))),
               left := ClockIn(w.origin) + ClockIn(ParentIn(w.place)), right := ClockIn(w.rightOrigin),
               parentInfo := place.parentInfo, strings := place.strings)
  {
    PlaceColumns(w.place);
    hide PutWhere, PlaceOk, ParentIn;
  }

  /** A Skip's length is in the rest stream, a GC's in the column of lengths. */
  lemma GapColumns(w: Word, keys: seq<string>)
    requires WordOk(w, keys) && !w.ItemWord?
    ensures w.SkipWord? ==> PutWord(w, keys) == NOTHING.(info := [10], rest := VarUint(w.len))
    ensures w.GCWord? ==> PutWord(w, keys) == NOTHING.(info := [0x20 * w.high], lengths := [w.len])
  {
  }
}
