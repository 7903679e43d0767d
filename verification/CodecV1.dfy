/** The V1 wire form of structs: one interleaved stream, clocks reconstructed. */
module CodecV1 {
  import opened Prelude
  import opened Wire
  import opened Text
  import opened RawValues
  import opened Structs

  // ----- What the wire can carry -----

  predicate ShortText(s: string) {
    |Utf8(s)| <= MAX_U32
  }

  predicate NamedType(typeRef: int) {
    typeRef == 3 || typeRef == 5
  }

  /** Contents that both wire forms carry without loss. */
  predicate WireContent(c: Content) {
    match c
    case Deleted(_) => true
    case Json(values) => |values| <= COLLECTION_LIMIT && forall k :: 0 <= k < |values| ==> ShortText(values[k])
    case Binary(buf) => |buf| <= MAX_U32
    case Str(text) => ShortText(text)
    case Embed(raw) => JsonValue(raw)
    case Format(key, raw) => ShortText(key) && JsonValue(raw)
    case Type(typeRef, name) => typeRef <= 6 && ShortText(name) && (!NamedType(typeRef) ==> name == "")
    case Any(items) => |items| <= COLLECTION_LIMIT && forall k :: 0 <= k < |items| ==> AnyValue(items[k])
    case Doc(guid, raw) => ShortText(guid) && AnyValue(raw)
  }

  predicate WireParent(p: Parent) {
    p.ParentId? || (p.Root? && p.name != "" && ShortText(p.name))
  }

  /** Structs in wire-normal form: parent and parentSub exactly when there is
      neither origin nor right origin, no retention flag. */
  predicate WireStruct(s: Struct) {
    s.Valid() &&
    (s.Item? ==>
       && !s.keep && WireContent(s.content)
       && (if s.origin.None? && s.rightOrigin.None? then WireParent(s.parent) && ShortText(s.parentSub)
           else s.parent == NoParent && s.parentSub == ""))
  }

  // ----- Writing -----

  function VarStr(s: string): bytes {
    VarBytes(Utf8(s))
  }

  function EncId(id: ID): bytes {
    VarUint(id.client) + VarUint(id.clock)
  }

  function EncStrs(values: seq<string>): bytes {
    if values == [] then [] else VarStr(values[0]) + EncStrs(values[1..])
  }

  function Concat(items: seq<bytes>): bytes {
    if items == [] then [] else items[0] + Concat(items[1..])
  }

  function Ref(c: Content): byte {
    match c
    case Deleted(_) => 1
    case Json(_) => 2
    case Binary(_) => 3
    case Str(_) => 4
    case Embed(_) => 5
    case Format(_, _) => 6
    case Type(_, _) => 7
    case Any(_) => 8
    case Doc(_, _) => 9
  }

  function EncContent(c: Content): bytes {
    match c
    case Deleted(n) => VarUint(n)
    case Json(values) => VarUint(AsU32(|values|)) + EncStrs(values)
    case Binary(buf) => VarBytes(buf)
    case Str(text) => VarStr(text)
    case Embed(raw) => raw
    case Format(key, raw) => VarStr(key) + raw
    case Type(typeRef, name) => VarUint(typeRef) + (if NamedType(typeRef) then VarStr(name) else [])
    case Any(items) => VarUint(AsU32(|items|)) + Concat(items)
    case Doc(guid, raw) => VarStr(guid) + raw
  }

  predicate Placed(s: Struct)
    requires s.Item?
  {
    s.origin.Some? || s.rightOrigin.Some?
  }

  /** The item header byte: content reference and three presence bits. */
  function Info(s: Struct): byte
    requires s.Item?
  {
    Ref(s.content) + (if s.origin.Some? then 0x80 else 0) + (if s.rightOrigin.Some? then 0x40 else 0) +
    (if !Placed(s) && s.parentSub != "" then 0x20 else 0)
  }

  function EncOptId(id: Option<ID>): bytes {
    if id.Some? then EncId(id.value) else []
  }

  function EncParent(p: Parent): Result<bytes> {
    match p
    case Root(name) => Ok([1] + VarStr(name))
    case ParentId(id) => Ok([0] + EncId(id))
    case NoParent => Err(MissingParent)
  }

  /** Parent and parentSub, where there is no origin to derive them from. */
  function EncPlace(s: Struct): Result<bytes>
    requires s.Item?
  {
    if Placed(s) then Ok([])
    else
      var p :- EncParent(s.parent);
      Ok(p + (if s.parentSub != "" then VarStr(s.parentSub) else []))
  }

  /** appendStructV1: the bytes of one struct, its identifier left out. */
  function EncStruct(s: Struct): Result<bytes> {
    match s
    case GC(_, len) => Ok([0] + VarUint(len))
    case Skip(_, len) => Ok([10] + VarUint(len))
    case Item(_, origin, rightOrigin, _, _, _, content) =>
      var place :- EncPlace(s);
      Ok([Info(s)] + (EncOptId(origin) + (EncOptId(rightOrigin) + (place + EncContent(content)))))
  }

  // ----- Reading -----

  function ReadStr(b: bytes): (r: Result<(string, bytes)>)
    ensures r.Ok? ==> |r.value.1| < |b|
  {
    var (data, rest) :- ReadVarBytes(b);
    Ok((FromUtf8(data), rest))
  }

  function ReadId(b: bytes): (r: Result<(ID, bytes)>)
    ensures r.Ok? ==> |r.value.1| < |b|
  {
    var (client, b1) :- ReadVarUint(b);
    var (clock, rest) :- ReadVarUint(b1);
    Ok((ID(client, clock), rest))
  }

  function ReadStrs(b: bytes, n: nat): Result<(seq<string>, bytes)>
    decreases n
  {
    if n == 0 then Ok(([], b))
    else
      var (s, b1) :- ReadStr(b);
      var (more, rest) :- ReadStrs(b1, n - 1);
      Ok(([s] + more, rest))
  }

  function ReadAnys(b: bytes, n: nat): Result<(seq<bytes>, bytes)>
    decreases n
  {
    if n == 0 then Ok(([], b))
    else
      var (v, b1) :- ReadAny(b, V1);
      var (more, rest) :- ReadAnys(b1, n - 1);
      Ok(([v] + more, rest))
  }

  function ReadType(b: bytes): Result<(Content, bytes)> {
    var (typeRef, b1) :- ReadVarUint(b);
    if typeRef > 6 then Err(UnknownTypeRef)
    else if NamedType(typeRef) then
      var (name, rest) :- ReadStr(b1);
      Ok((Type(typeRef, name), rest))
    else Ok((Type(typeRef, ""), b1))
  }

  function ReadTexts(b: bytes): Result<(Content, bytes)> {
    var (n, b1) :- ReadVarUint(b);
    if n > COLLECTION_LIMIT then Err(CollectionTooLarge)
    else
      var (values, rest) :- ReadStrs(b1, n);
      Ok((Json(values), rest))
  }

  function ReadValues(b: bytes): Result<(Content, bytes)> {
    var (n, b1) :- ReadVarUint(b);
    if n > COLLECTION_LIMIT then Err(CollectionTooLarge)
    else
      var (items, rest) :- ReadAnys(b1, n);
      Ok((Any(items), rest))
  }

  /** readItemContentV1, by content reference. */
  function ReadContent(ref: nat, b: bytes): Result<(Content, bytes)> {
    match ref
    case 1 =>
      var (n, rest) :- ReadVarUint(b);
      Ok((Deleted(n), rest))
    case 2 => ReadTexts(b)
    case 3 =>
      var (buf, rest) :- ReadVarBytes(b);
      Ok((Binary(buf), rest))
    case 4 =>
      var (text, rest) :- ReadStr(b);
      Ok((Str(text), rest))
    case 5 =>
      var (raw, rest) :- ReadJson(b, V1);
      Ok((Embed(raw), rest))
    case 6 =>
      var (key, b1) :- ReadStr(b);
      var (raw, rest) :- ReadJson(b1, V1);
      Ok((Format(key, raw), rest))
    case 7 => ReadType(b)
    case 8 => ReadValues(b)
    case 9 =>
      var (guid, b1) :- ReadStr(b);
      var (raw, rest) :- ReadAny(b1, V1);
      Ok((Doc(guid, raw), rest))
    case _ => Err(UnknownContentRef)
  }

  function ReadOptId(has: bool, b: bytes): Result<(Option<ID>, bytes)> {
    if !has then Ok((None, b))
    else
      var (id, rest) :- ReadId(b);
      Ok((Some(id), rest))
  }

  function ReadParent(b: bytes): Result<(Parent, bytes)> {
    var (kind, b1) :- ReadVarUint(b);
    if kind == 1 then
      var (name, rest) :- ReadStr(b1);
      if name == "" then Err(InvalidParentRoot) else Ok((Root(name), rest))
    else if kind == 0 then
      var (id, rest) :- ReadId(b1);
      Ok((ParentId(id), rest))
    else Err(InvalidParentInfo)
  }

  function ReadPlace(placed: bool, hasSub: bool, b: bytes): Result<((Parent, string), bytes)> {
    if placed then Ok(((NoParent, ""), b))
    else
      var (parent, b1) :- ReadParent(b);
      if hasSub then
        var (sub, rest) :- ReadStr(b1);
        Ok(((parent, sub), rest))
      else Ok(((parent, ""), b1))
  }

  predicate HasOrigin(info: byte) {
    info >= 0x80
  }

  predicate HasRight(info: byte) {
    info % 0x80 >= 0x40
  }

  predicate HasSub(info: byte) {
    info % 0x40 >= 0x20
  }

  /** An item after its header byte. */
  function ReadItem(info: byte, b: bytes, id: ID): Result<(Struct, bytes)> {
    var (origin, b1) :- ReadOptId(HasOrigin(info), b);
    var (rightOrigin, b2) :- ReadOptId(HasRight(info), b1);
    var ((parent, sub), b3) :- ReadPlace(HasOrigin(info) || HasRight(info), HasSub(info), b2);
    var (content, rest) :- ReadContent(info % 0x20, b3);
    var item :- Checked(Item(id, origin, rightOrigin, parent, sub, false, content));
    Ok((item, rest))
  }

  /** One struct of the stream, at the reconstructed identifier. */
  function ReadStruct(b: bytes, id: ID): Result<(Struct, bytes)> {
    if b == [] then Err(UnexpectedEOF)
    else if b[0] == 10 then
      var (n, rest) :- ReadVarUint(b[1..]);
      var s :- Checked(Skip(id, n));
      Ok((s, rest))
    else if b[0] % 0x20 != 0 then ReadItem(b[0], b[1..], id)
    else
      var (n, rest) :- ReadVarUint(b[1..]);
      var s :- Checked(GC(id, n));
      Ok((s, rest))
  }

  // ----- Round trip -----

  lemma StrRoundTrip(s: string, rest: bytes)
    requires ShortText(s)
    ensures ReadStr(VarStr(s) + rest) == Ok((s, rest))
  {
    VarBytesRoundTrip(Utf8(s), rest);
    Utf8RoundTrip(s);
  }

  lemma IdRoundTrip(id: ID, rest: bytes)
    ensures ReadId(EncId(id) + rest) == Ok((id, rest))
  {
    Assoc(VarUint(id.client), VarUint(id.clock), rest);
    VarUintRoundTrip(id.client, VarUint(id.clock) + rest);
    VarUintRoundTrip(id.clock, rest);
  }

  lemma {:induction false} StrsRoundTrip(values: seq<string>, rest: bytes)
    requires forall k :: 0 <= k < |values| ==> ShortText(values[k])
    ensures ReadStrs(EncStrs(values) + rest, |values|) == Ok((values, rest))
  {
    if values == [] {
      assert EncStrs(values) + rest == rest;
    } else {
      Assoc(VarStr(values[0]), EncStrs(values[1..]), rest);
      StrRoundTrip(values[0], EncStrs(values[1..]) + rest);
      StrsRoundTrip(values[1..], rest);
      assert values == [values[0]] + values[1..];
    }
  }

  lemma {:induction false} AnysRoundTrip(items: seq<bytes>, rest: bytes)
    requires forall k :: 0 <= k < |items| ==> AnyValue(items[k])
    ensures ReadAnys(Concat(items) + rest, |items|) == Ok((items, rest))
  {
    if items == [] {
      assert Concat(items) + rest == rest;
    } else {
      Assoc(items[0], Concat(items[1..]), rest);
      AnyRoundTrip(items[0], V1, Concat(items[1..]) + rest);
      AnysRoundTrip(items[1..], rest);
      assert items == [items[0]] + items[1..];
    }
  }

  lemma TypeRoundTrip(c: Content, rest: bytes)
    requires c.Type? && WireContent(c)
    ensures ReadContent(7, EncContent(c) + rest) == Ok((c, rest))
  {
    var tail := if NamedType(c.typeRef) then VarStr(c.name) else [];
    Assoc(VarUint(c.typeRef), tail, rest);
    VarUintRoundTrip(c.typeRef, tail + rest);
    if NamedType(c.typeRef) {
      StrRoundTrip(c.name, rest);
    } else {
      assert tail + rest == rest;
    }
  }

  lemma TextsRoundTrip(values: seq<string>, rest: bytes)
    requires WireContent(Json(values))
    ensures ReadTexts(VarUint(AsU32(|values|)) + EncStrs(values) + rest) == Ok((Json(values), rest))
  {
    Assoc(VarUint(AsU32(|values|)), EncStrs(values), rest);
    VarUintRoundTrip(|values|, EncStrs(values) + rest);
    StrsRoundTrip(values, rest);
  }

  lemma ValuesRoundTrip(items: seq<bytes>, rest: bytes)
    requires WireContent(Any(items))
    ensures ReadValues(VarUint(AsU32(|items|)) + Concat(items) + rest) == Ok((Any(items), rest))
  {
    Assoc(VarUint(AsU32(|items|)), Concat(items), rest);
    VarUintRoundTrip(|items|, Concat(items) + rest);
    AnysRoundTrip(items, rest);
  }

  lemma FormatRoundTrip(key: string, raw: bytes, rest: bytes)
    requires ShortText(key) && JsonValue(raw)
    ensures ReadContent(6, VarStr(key) + raw + rest) == Ok((Format(key, raw), rest))
  {
    Assoc(VarStr(key), raw, rest);
    StrRoundTrip(key, raw + rest);
    JsonRoundTrip(raw, V1, rest);
  }

  lemma DocRoundTrip(guid: string, raw: bytes, rest: bytes)
    requires ShortText(guid) && AnyValue(raw)
    ensures ReadContent(9, VarStr(guid) + raw + rest) == Ok((Doc(guid, raw), rest))
  {
    Assoc(VarStr(guid), raw, rest);
    StrRoundTrip(guid, raw + rest);
    AnyRoundTrip(raw, V1, rest);
  }

  lemma ContentRoundTrip(c: Content, rest: bytes)
    requires WireContent(c)
    ensures ReadContent(Ref(c), EncContent(c) + rest) == Ok((c, rest))
  {
    match c
    case Deleted(n) => VarUintRoundTrip(n, rest);
    case Json(values) => TextsRoundTrip(values, rest);
    case Binary(buf) => VarBytesRoundTrip(buf, rest);
    case Str(text) => StrRoundTrip(text, rest);
    case Embed(raw) => JsonRoundTrip(raw, V1, rest);
    case Format(key, raw) => FormatRoundTrip(key, raw, rest);
    case Type(_, _) => TypeRoundTrip(c, rest);
    case Any(items) => ValuesRoundTrip(items, rest);
    case Doc(guid, raw) => DocRoundTrip(guid, raw, rest);
  }

  lemma OptIdRoundTrip(id: Option<ID>, rest: bytes)
    ensures ReadOptId(id.Some?, EncOptId(id) + rest) == Ok((id, rest))
  {
    if id.Some? {
      IdRoundTrip(id.value, rest);
    } else {
      assert EncOptId(id) + rest == rest;
    }
  }

  lemma ParentRoundTrip(p: Parent, rest: bytes)
    requires WireParent(p)
    ensures EncParent(p).Ok? && ReadParent(EncParent(p).value + rest) == Ok((p, rest))
  {
    match p
    case Root(name) =>
      Assoc([1], VarStr(name), rest);
      VarUintRoundTrip(1, VarStr(name) + rest);
      StrRoundTrip(name, rest);
    case ParentId(id) =>
      Assoc([0], EncId(id), rest);
      VarUintRoundTrip(0, EncId(id) + rest);
      IdRoundTrip(id, rest);
  }

  lemma PlaceRoundTrip(s: Struct, rest: bytes)
    requires s.Item? && WireStruct(s)
    ensures EncPlace(s).Ok?
    ensures ReadPlace(Placed(s), !Placed(s) && s.parentSub != "", EncPlace(s).value + rest) ==
            Ok(((s.parent, s.parentSub), rest))
  {
    if Placed(s) {
      assert EncPlace(s).value + rest == rest;
    } else {
      var sub := if s.parentSub != "" then VarStr(s.parentSub) else [];
      ParentRoundTrip(s.parent, sub + rest);
      Assoc(EncParent(s.parent).value, sub, rest);
      if s.parentSub != "" {
        StrRoundTrip(s.parentSub, rest);
      } else {
        assert sub + rest == rest;
      }
    }
  }

  lemma InfoBits(s: Struct)
    requires s.Item?
    ensures var info := Info(s);
            && HasOrigin(info) == s.origin.Some? && HasRight(info) == s.rightOrigin.Some?
            && HasSub(info) == (!Placed(s) && s.parentSub != "")
            && info % 0x20 == Ref(s.content) && info != 10
  {
  }

  lemma ItemRoundTrip(s: Struct, rest: bytes)
    requires s.Item? && WireStruct(s)
    ensures EncStruct(s).Ok?
    ensures EncStruct(s).value != [] && EncStruct(s).value[0] == Info(s)
    ensures ReadItem(Info(s), EncStruct(s).value[1..] + rest, s.id) == Ok((s, rest))
  {
    InfoBits(s);
    PlaceRoundTrip(s, EncContent(s.content) + rest);
    var place, content := EncPlace(s).value, EncContent(s.content);
    var right := place + content;
    var body := EncOptId(s.origin) + (EncOptId(s.rightOrigin) + right);
    assert EncStruct(s).value[1..] == body;
    Assoc(EncOptId(s.origin), EncOptId(s.rightOrigin) + right, rest);
    Assoc(EncOptId(s.rightOrigin), right, rest);
    Assoc(place, content, rest);
    OptIdRoundTrip(s.origin, EncOptId(s.rightOrigin) + right + rest);
    OptIdRoundTrip(s.rightOrigin, right + rest);
    ContentRoundTrip(s.content, rest);
  }

  /** Every wire-normal struct is read back as it was, and nothing else is read. */
  lemma StructRoundTrip(s: Struct, rest: bytes)
    requires WireStruct(s)
    ensures EncStruct(s).Ok? && EncStruct(s).value != []
    ensures ReadStruct(EncStruct(s).value + rest, s.id) == Ok((s, rest))
  {
    if s.Item? {
      ItemRoundTrip(s, rest);
      InfoBits(s);
      var e := EncStruct(s).value;
      assert (e + rest)[1..] == e[1..] + rest;
    } else {
      VarUintRoundTrip(s.len, rest);
      assert (EncStruct(s).value + rest)[1..] == VarUint(s.len) + rest;
    }
  }

  // ----- What is read can be written -----

  predicate Encodable(s: Struct) {
    s.Valid() && EncStruct(s).Ok?
  }

  lemma ReadItemEncodable(info: byte, b: bytes, id: ID)
    requires ReadItem(info, b, id).Ok?
    ensures var s := ReadItem(info, b, id).value.0; s.id == id && Encodable(s)
  {
    hide ReadContent, EncContent, ReadId, ReadStr, ReadVarUint, Info, EncId, VarStr;
  }

  /** Every struct a reader yields is valid, sits where it was expected and can
      be written again. */
  lemma ReadStructEncodable(b: bytes, id: ID)
    requires ReadStruct(b, id).Ok?
    ensures var s := ReadStruct(b, id).value.0; s.id == id && Encodable(s)
  {
    hide ReadItem, ReadVarUint;
    if b[0] != 10 && b[0] % 0x20 != 0 {
      ReadItemEncodable(b[0], b[1..], id);
    }
  }

  lemma SliceContentWire(c: Content, start: nat, trim: nat)
    requires WireContent(c) && start + trim < c.Length()
    ensures SliceContent(c, start, trim).Ok? && WireContent(SliceContent(c, start, trim).value)
  {
    SliceContentKeepsAtoms(c, start, trim);
    if c.Str? {
      WindowShorter(c.text, start, c.Length() - start - trim);
    }
  }

  // ----- What the wire drops -----

  /** An item with an origin or right origin carries no parent on the wire. */
  function Normalized(s: Struct): Struct {
    if s.Item? && Placed(s) then s.(parent := NoParent, parentSub := "") else s
  }

  /** Structs that are written without loss of meaning: slices of wire-normal
      items may still name a parent next to their new origin. */
  predicate Writable(s: Struct) {
    WireStruct(Normalized(s))
  }

  /** What is dropped is neither written nor part of any unit. */
  lemma NormalizedSame(s: Struct)
    ensures EncStruct(Normalized(s)) == EncStruct(s)
    ensures Normalized(s).id == s.id && Normalized(s).End() == s.End() && Normalized(s).Valid() == s.Valid()
    ensures Normalized(s).Skip? == s.Skip?
    ensures forall c :: StructAt(Normalized(s), c) == StructAt(s, c)
    ensures forall c :: FullStructAt(Normalized(s), c) == FullStructAt(s, c)
    ensures WireStruct(s) ==> Normalized(s) == s
  {
    hide EncContent, WireContent, EncId, VarStr;
  }

  lemma ContentDetermined(a: Content, b: Content)
    requires a.Length() == b.Length() > 0 && forall k :: 0 <= k < a.Length() ==> FullAtom(a, k) == FullAtom(b, k)
    ensures a == b
  {
    hide Units;
    assert FullAtom(a, 0) == FullAtom(b, 0);
    match a
    case Json(values) =>
      forall k | 0 <= k < |values|
        ensures values[k] == b.values[k]
      {
        assert FullAtom(a, k) == FullAtom(b, k);
      }
    case Any(items) =>
      forall k | 0 <= k < |items|
        ensures items[k] == b.items[k]
      {
        assert FullAtom(a, k) == FullAtom(b, k);
      }
    case Str(text) =>
      forall k | 0 <= k < |Units(text)|
        ensures Units(text)[k] == Units(b.text)[k]
      {
        assert FullAtom(a, k) == FullAtom(b, k);
      }
      SameText(text, b.text);
    case _ =>
  }

  lemma SameText(a: string, b: string)
    requires Units(a) == Units(b)
    ensures a == b
  {
    UnitsRoundTrip(a, []);
    UnitsRoundTrip(b, []);
    assert Units(a) + [] == Units(a) && Units(b) + [] == Units(b) && a + "" == a && b + "" == b;
  }

  /** The units tell all there is to a struct: two that cover the same clocks with
      the same units are the same, but for parents that the wire drops. */
  lemma UnitsDetermine(s: Struct, t: Struct)
    requires s.Valid() && t.Valid() && s.id == t.id && s.End() == t.End()
    requires forall c: nat :: FullStructAt(s, c) == FullStructAt(t, c)
    ensures Normalized(s) == Normalized(t)
  {
    var c := s.id.clock;
    assert FullStructAt(s, c) == FullStructAt(t, c);
    hide FullAtom, AtomAt, Content.Length;
    if s.Item? && t.Item? {
      forall k | 0 <= k < s.content.Length()
        ensures FullAtom(s.content, k) == FullAtom(t.content, k)
      {
        assert FullStructAt(s, c + k) == FullStructAt(t, c + k);
      }
      ContentDetermined(s.content, t.content);
    }
  }

  /** Slices can be written when the whole can. */
  lemma SliceWritable(s: Struct, start: nat, trim: nat)
    requires Writable(s) && start + trim < s.Length()
    ensures SliceStruct(s, start, trim).Ok? && Writable(SliceStruct(s, start, trim).value)
  {
    hide WireContent;
    SliceKeepsUnits(s, start, trim);
    if s.Item? {
      SliceContentWire(s.content, start, trim);
    }
  }

  lemma SliceEncodable(s: Struct, start: nat, trim: nat)
    requires Encodable(s) && start + trim < s.Length()
    ensures SliceStruct(s, start, trim).Ok? && Encodable(SliceStruct(s, start, trim).value)
  {
    hide EncContent, Info, EncId, VarStr, AtomAt;
    SliceKeepsUnits(s, start, trim);
  }
}
