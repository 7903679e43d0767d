/** The V1 wire form as a grammar: what each byte of a struct, a block and an
    update stands for. The readers accept exactly the words of the grammar. */
module GrammarV1 {
  import opened Prelude
  import opened Wire
  import opened Text
  import opened RawValues
  import opened Structs
  import opened CodecV1
  import opened UpdateV1

  // ----- Words -----

  /** A content as it is spelled: texts are the bytes behind their length. */
  datatype Body =
    | DeletedBody(len: u32)
    | JsonBody(texts: seq<bytes>)
    | BinaryBody(data: bytes)
    | StrBody(text: bytes)
    | EmbedBody(raw: bytes)
    | FormatBody(key: bytes, raw: bytes)
    | TypeBody(typeRef: u32, name: bytes)
    | AnyBody(items: seq<bytes>)
    | DocBody(guid: bytes, raw: bytes)

  datatype Where = AtRoot(name: bytes) | Inside(id: ID)

  /** Where an item sits: derived from its origins, or named, with or without a
      key. */
  datatype Place = Derived | Named(parent: Where, sub: Option<bytes>)

  /** A struct as it is spelled. The three high bits of a GC's header byte are
      free, and bit 0x20 is free where an item has an origin. */
  datatype Word =
    | SkipWord(len: u32)
    | GCWord(high: nat, len: u32)
    | ItemWord(spare: bool, origin: Option<ID>, rightOrigin: Option<ID>, place: Place, body: Body)

  predicate Fits(data: bytes) {
    |data| <= MAX_U32
  }

  predicate BodyOk(t: Body) {
    match t
    case DeletedBody(_) => true
    case JsonBody(texts) => |texts| <= COLLECTION_LIMIT && forall k :: 0 <= k < |texts| ==> Fits(texts[k])
    case BinaryBody(data) => Fits(data)
    case StrBody(text) => Fits(text)
    case EmbedBody(raw) => OneJson(raw, V1)
    case FormatBody(key, raw) => Fits(key) && OneJson(raw, V1)
    case TypeBody(typeRef, name) => typeRef <= 6 && Fits(name) && (!NamedType(typeRef) ==> name == [])
    case AnyBody(items) => |items| <= COLLECTION_LIMIT && forall k :: 0 <= k < |items| ==> OneAny(items[k], V1)
    case DocBody(guid, raw) => Fits(guid) && OneAny(raw, V1)
  }

  predicate PlaceOk(p: Place) {
    p.Named? ==>
      && (p.parent.AtRoot? ==> Fits(p.parent.name) && FromUtf8(p.parent.name) != "")
      && (p.sub.Some? ==> Fits(p.sub.value))
  }

  predicate WordOk(w: Word) {
    match w
    case SkipWord(_) => true
    case GCWord(high, _) => high < 8
    case ItemWord(spare, origin, rightOrigin, place, body) =>
      && PlaceOk(place) && BodyOk(body)
      && (place.Derived? <==> origin.Some? || rightOrigin.Some?) && (spare ==> place.Derived?)
  }

  // ----- Spelling -----

  function SpellTexts(texts: seq<bytes>): bytes {
    if texts == [] then [] else VarBytes(texts[0]) + SpellTexts(texts[1..])
  }

  function BodyRef(t: Body): byte {
    match t
    case DeletedBody(_) => 1
    case JsonBody(_) => 2
    case BinaryBody(_) => 3
    case StrBody(_) => 4
    case EmbedBody(_) => 5
    case FormatBody(_, _) => 6
    case TypeBody(_, _) => 7
    case AnyBody(_) => 8
    case DocBody(_, _) => 9
  }

  function SpellBody(t: Body): bytes {
    match t
    case DeletedBody(len) => VarUint(len)
    case JsonBody(texts) => VarUint(AsU32(|texts|)) + SpellTexts(texts)
    case BinaryBody(data) => VarBytes(data)
    case StrBody(text) => VarBytes(text)
    case EmbedBody(raw) => raw
    case FormatBody(key, raw) => VarBytes(key) + raw
    case TypeBody(typeRef, name) => VarUint(typeRef) + (if NamedType(typeRef) then VarBytes(name) else [])
    case AnyBody(items) => VarUint(AsU32(|items|)) + Concat(items)
    case DocBody(guid, raw) => VarBytes(guid) + raw
  }

  function SpellWhere(p: Where): bytes {
    match p
    case AtRoot(name) => [1] + VarBytes(name)
    case Inside(id) => [0] + EncId(id)
  }

  function SpellPlace(p: Place): bytes {
    match p
    case Derived => []
    case Named(parent, sub) => SpellWhere(parent) + (if sub.Some? then VarBytes(sub.value) else [])
  }

  function HeaderByte(w: Word): byte
    requires WordOk(w)
  {
    match w
    case SkipWord(_) => 10
    case GCWord(high, _) => 0x20 * high
    case ItemWord(spare, origin, rightOrigin, place, body) =>
      BodyRef(body) + (if origin.Some? then 0x80 else 0) + (if rightOrigin.Some? then 0x40 else 0) +
      (if spare || (place.Named? && place.sub.Some?) then 0x20 else 0)
  }

  function Spell(w: Word): bytes
    requires WordOk(w)
  {
    [HeaderByte(w)] +
    match w
    case SkipWord(len) => VarUint(len)
    case GCWord(_, len) => VarUint(len)
    case ItemWord(_, origin, rightOrigin, place, body) =>
      EncOptId(origin) + (EncOptId(rightOrigin) + (SpellPlace(place) + SpellBody(body)))
  }

  // ----- Meaning -----

  function MeanTexts(texts: seq<bytes>): seq<string> {
    if texts == [] then [] else [FromUtf8(texts[0])] + MeanTexts(texts[1..])
  }

  function MeanBody(t: Body): Content {
    match t
    case DeletedBody(len) => Deleted(len)
    case JsonBody(texts) => Json(MeanTexts(texts))
    case BinaryBody(data) => Binary(data)
    case StrBody(text) => Str(FromUtf8(text))
    case EmbedBody(raw) => Embed(raw)
    case FormatBody(key, raw) => Format(FromUtf8(key), raw)
    case TypeBody(typeRef, name) => Type(typeRef, FromUtf8(name))
    case AnyBody(items) => Any(items)
    case DocBody(guid, raw) => Doc(FromUtf8(guid), raw)
  }

  function MeanPlace(p: Place): (Parent, string) {
    match p
    case Derived => (NoParent, "")
    case Named(parent, sub) =>
      (match parent case AtRoot(name) => Root(FromUtf8(name)) case Inside(id) => ParentId(id),
       if sub.Some? then FromUtf8(sub.value) else "")
  }

  function Mean(w: Word, id: ID): Struct {
    match w
    case SkipWord(len) => Skip(id, len)
    case GCWord(_, len) => GC(id, len)
    case ItemWord(_, origin, rightOrigin, place, body) =>
      Item(id, origin, rightOrigin, MeanPlace(place).0, MeanPlace(place).1, false, MeanBody(body))
  }

  // ----- Texts and values -----

  lemma TextSpelled(data: bytes, rest: bytes)
    requires Fits(data)
    ensures ReadStr(VarBytes(data) + rest) == Ok((FromUtf8(data), rest))
  {
    VarBytesRoundTrip(data, rest);
  }

  lemma TextRead(b: bytes) returns (data: bytes)
    requires ReadStr(b).Ok?
    ensures Fits(data) && b == VarBytes(data) + ReadStr(b).value.1 && ReadStr(b).value.0 == FromUtf8(data)
  {
    VarBytesCanonical(b);
    data := ReadVarBytes(b).value.0;
  }

  lemma IdRead(b: bytes)
    requires ReadId(b).Ok?
    ensures b == EncId(ReadId(b).value.0) + ReadId(b).value.1
  {
    VarUintCanonical(b);
    var (client, b1) := ReadVarUint(b).value;
    VarUintCanonical(b1);
    var (clock, rest) := ReadVarUint(b1).value;
    Assoc(VarUint(client), VarUint(clock), rest);
  }

  lemma {:induction false} TextsSpelled(texts: seq<bytes>, rest: bytes)
    requires forall k :: 0 <= k < |texts| ==> Fits(texts[k])
    ensures ReadStrs(SpellTexts(texts) + rest, |texts|) == Ok((MeanTexts(texts), rest))
  {
    hide ReadStr, VarBytes;
    if texts == [] {
      assert SpellTexts(texts) + rest == rest;
    } else {
      Assoc(VarBytes(texts[0]), SpellTexts(texts[1..]), rest);
      TextSpelled(texts[0], SpellTexts(texts[1..]) + rest);
      TextsSpelled(texts[1..], rest);
    }
  }

  lemma {:induction false} TextsRead(b: bytes, n: nat) returns (texts: seq<bytes>)
    requires ReadStrs(b, n).Ok?
    ensures |texts| == n && (forall k :: 0 <= k < |texts| ==> Fits(texts[k]))
    ensures var (values, rest) := ReadStrs(b, n).value; b == SpellTexts(texts) + rest && values == MeanTexts(texts)
    decreases n
  {
    hide ReadStr, VarBytes, Fits;
    if n == 0 {
      texts := [];
      assert [] + b == b;
    } else {
      var first := TextRead(b);
      var b1 := ReadStr(b).value.1;
      var more := TextsRead(b1, n - 1);
      texts := [first] + more;
      assert texts[1..] == more;
      Assoc(VarBytes(first), SpellTexts(more), ReadStrs(b, n).value.1);
    }
  }

  lemma {:induction false} AnysSpelled(items: seq<bytes>, rest: bytes)
    requires forall k :: 0 <= k < |items| ==> OneAny(items[k], V1)
    ensures ReadAnys(Concat(items) + rest, |items|) == Ok((items, rest))
  {
    hide ReadAny, OneAny;
    if items == [] {
      assert Concat(items) + rest == rest;
    } else {
      Assoc(items[0], Concat(items[1..]), rest);
      OneAnyRead(items[0], V1, Concat(items[1..]) + rest);
      AnysSpelled(items[1..], rest);
      assert items == [items[0]] + items[1..];
    }
  }

  lemma {:induction false} AnysRead(b: bytes, n: nat)
    requires ReadAnys(b, n).Ok?
    ensures var (items, rest) := ReadAnys(b, n).value;
            |items| == n && (forall k :: 0 <= k < |items| ==> OneAny(items[k], V1)) && b == Concat(items) + rest
    decreases n
  {
    hide ReadAny, OneAny;
    if n == 0 {
      assert [] + b == b;
    } else {
      ReadsOneAny(b, V1);
      var (v, b1) := ReadAny(b, V1).value;
      AnysRead(b1, n - 1);
      var (more, rest) := ReadAnys(b1, n - 1).value;
      assert ([v] + more)[1..] == more;
      Assoc(v, Concat(more), rest);
    }
  }

  // ----- Contents -----

  lemma CountSpelled(n: nat, body: bytes, rest: bytes)
    requires n <= COLLECTION_LIMIT
    ensures ReadVarUint(VarUint(AsU32(n)) + body + rest) == Ok((n, body + rest))
  {
    Assoc(VarUint(AsU32(n)), body, rest);
    VarUintRoundTrip(n, body + rest);
  }

  lemma TypeSpelled(t: Body, rest: bytes)
    requires t.TypeBody? && BodyOk(t)
    ensures ReadType(SpellBody(t) + rest) == Ok((MeanBody(t), rest))
  {
    hide VarUint, ReadVarUint, ReadStr, VarBytes;
    var tail := if NamedType(t.typeRef) then VarBytes(t.name) else [];
    Assoc(VarUint(t.typeRef), tail, rest);
    VarUintRoundTrip(t.typeRef, tail + rest);
    if NamedType(t.typeRef) {
      TextSpelled(t.name, rest);
    } else {
      assert tail + rest == rest && FromUtf8([]) == "";
    }
  }

  lemma ListSpelled(t: Body, rest: bytes)
    requires (t.JsonBody? || t.AnyBody?) && BodyOk(t)
    ensures t.JsonBody? ==> ReadTexts(SpellBody(t) + rest) == Ok((MeanBody(t), rest))
    ensures t.AnyBody? ==> ReadValues(SpellBody(t) + rest) == Ok((MeanBody(t), rest))
  {
    hide VarUint, ReadVarUint, Fits, OneAny;
    if t.JsonBody? {
      CountSpelled(|t.texts|, SpellTexts(t.texts), rest);
      TextsSpelled(t.texts, rest);
    } else {
      CountSpelled(|t.items|, Concat(t.items), rest);
      AnysSpelled(t.items, rest);
    }
  }

  lemma KeyedSpelled(key: bytes, raw: bytes, rest: bytes)
    requires Fits(key)
    ensures ReadStr(VarBytes(key) + raw + rest) == Ok((FromUtf8(key), raw + rest))
  {
    Assoc(VarBytes(key), raw, rest);
    TextSpelled(key, raw + rest);
  }

  lemma BodySpelled(t: Body, rest: bytes)
    requires BodyOk(t)
    ensures ReadContent(BodyRef(t), SpellBody(t) + rest) == Ok((MeanBody(t), rest))
  {
    hide ReadVarUint, ReadStr, ReadVarBytes, ReadJson, ReadAny, ReadTexts, ReadValues, ReadType, VarBytes, VarUint,
         OneJson, OneAny;
    match t
    case DeletedBody(len) => VarUintRoundTrip(len, rest);
    case JsonBody(_) => ListSpelled(t, rest);
    case BinaryBody(data) => VarBytesRoundTrip(data, rest);
    case StrBody(text) => TextSpelled(text, rest);
    case EmbedBody(raw) => OneJsonRead(raw, V1, rest);
    case FormatBody(key, raw) =>
      KeyedSpelled(key, raw, rest);
      OneJsonRead(raw, V1, rest);
    case TypeBody(_, _) => TypeSpelled(t, rest);
    case AnyBody(_) => ListSpelled(t, rest);
    case DocBody(guid, raw) =>
      KeyedSpelled(guid, raw, rest);
      OneAnyRead(raw, V1, rest);
  }

  /** What a read content was spelled like. */
  ghost predicate IsBody(ref: nat, b: bytes, t: Body) {
    && ReadContent(ref, b).Ok? && BodyOk(t) && BodyRef(t) == ref
    && b == SpellBody(t) + ReadContent(ref, b).value.1 && ReadContent(ref, b).value.0 == MeanBody(t)
  }

  lemma TypeRead(b: bytes) returns (t: Body)
    requires ReadType(b).Ok?
    ensures IsBody(7, b, t)
  {
    hide ReadVarUint, VarUint, ReadStr, VarBytes;
    VarUintCanonical(b);
    var (typeRef, b1) := ReadVarUint(b).value;
    if NamedType(typeRef) {
      var name := TextRead(b1);
      t := TypeBody(typeRef, name);
      Assoc(VarUint(typeRef), VarBytes(name), ReadStr(b1).value.1);
    } else {
      t := TypeBody(typeRef, []);
      assert VarUint(typeRef) + [] == VarUint(typeRef) && FromUtf8([]) == "";
    }
  }

  lemma ListRead(ref: nat, b: bytes) returns (t: Body)
    requires (ref == 2 || ref == 8) && ReadContent(ref, b).Ok?
    ensures IsBody(ref, b, t)
  {
    hide ReadVarUint, VarUint, ReadStrs, ReadAnys, Fits, OneAny;
    VarUintCanonical(b);
    var (n, b1) := ReadVarUint(b).value;
    if ref == 2 {
      var texts := TextsRead(b1, n);
      t := JsonBody(texts);
      Assoc(VarUint(n), SpellTexts(texts), ReadStrs(b1, n).value.1);
    } else {
      AnysRead(b1, n);
      var (items, rest) := ReadAnys(b1, n).value;
      t := AnyBody(items);
      Assoc(VarUint(n), Concat(items), rest);
    }
  }

  lemma KeyedRead(ref: nat, b: bytes) returns (t: Body)
    requires (ref == 6 || ref == 9) && ReadContent(ref, b).Ok?
    ensures IsBody(ref, b, t)
  {
    hide ReadStr, ReadJson, ReadAny, VarBytes, OneJson, OneAny, Fits;
    var key := TextRead(b);
    var b1 := ReadStr(b).value.1;
    if ref == 6 {
      ReadsOneJson(b1, V1);
      var (raw, rest) := ReadJson(b1, V1).value;
      t := FormatBody(key, raw);
      Assoc(VarBytes(key), raw, rest);
    } else {
      ReadsOneAny(b1, V1);
      var (raw, rest) := ReadAny(b1, V1).value;
      t := DocBody(key, raw);
      Assoc(VarBytes(key), raw, rest);
    }
  }

  lemma BodyRead(ref: nat, b: bytes) returns (t: Body)
    requires ReadContent(ref, b).Ok?
    ensures IsBody(ref, b, t)
  {
    hide ReadVarUint, ReadStr, ReadVarBytes, ReadJson, ReadTexts, ReadValues, VarBytes, VarUint, OneJson;
    if ref == 1 {
      VarUintCanonical(b);
      t := DeletedBody(ReadVarUint(b).value.0);
    } else if ref == 3 {
      VarBytesCanonical(b);
      t := BinaryBody(ReadVarBytes(b).value.0);
    } else if ref == 4 {
      var text := TextRead(b);
      t := StrBody(text);
    } else if ref == 5 {
      ReadsOneJson(b, V1);
      t := EmbedBody(ReadJson(b, V1).value.0);
    } else if ref == 7 {
      t := TypeRead(b);
    } else if ref == 6 || ref == 9 {
      t := KeyedRead(ref, b);
    } else {
      t := ListRead(ref, b);
    }
  }

  // ----- Places -----

  lemma WhereSpelled(p: Where, rest: bytes)
    requires PlaceOk(Named(p, None))
    ensures ReadParent(SpellWhere(p) + rest) == Ok((MeanPlace(Named(p, None)).0, rest))
  {
    hide ReadStr, VarBytes, ReadId, EncId, ReadVarUint;
    match p
    case AtRoot(name) =>
      Assoc([1], VarBytes(name), rest);
      VarUintRoundTrip(1, VarBytes(name) + rest);
      TextSpelled(name, rest);
    case Inside(id) =>
      Assoc([0], EncId(id), rest);
      VarUintRoundTrip(0, EncId(id) + rest);
      IdRoundTrip(id, rest);
  }

  lemma WhereRead(b: bytes) returns (p: Where)
    requires ReadParent(b).Ok?
    ensures PlaceOk(Named(p, None)) && b == SpellWhere(p) + ReadParent(b).value.1
    ensures ReadParent(b).value.0 == MeanPlace(Named(p, None)).0
  {
    VarUintCanonical(b);
    var (kind, b1) := ReadVarUint(b).value;
    assert VarUint(0) == [0] && VarUint(1) == [1];
    hide ReadStr, VarBytes, ReadId, EncId, ReadVarUint, VarUint;
    if kind == 1 {
      var name := TextRead(b1);
      p := AtRoot(name);
      Assoc([1], VarBytes(name), ReadStr(b1).value.1);
    } else {
      IdRead(b1);
      var (id, rest) := ReadId(b1).value;
      p := Inside(id);
      Assoc([0], EncId(id), rest);
    }
  }

  predicate HasKey(p: Place) {
    p.Named? && p.sub.Some?
  }

  /** Where there is an origin, the bit of the key says nothing. */
  lemma PlaceSpelled(p: Place, bit: bool, rest: bytes)
    requires PlaceOk(p) && (p.Named? ==> bit == HasKey(p))
    ensures ReadPlace(p.Derived?, bit, SpellPlace(p) + rest) == Ok((MeanPlace(p), rest))
  {
    hide ReadParent, SpellWhere, ReadStr, VarBytes;
    if p.Derived? {
      assert SpellPlace(p) + rest == rest;
    } else {
      var sub := if p.sub.Some? then VarBytes(p.sub.value) else [];
      Assoc(SpellWhere(p.parent), sub, rest);
      WhereSpelled(p.parent, sub + rest);
      if p.sub.Some? {
        TextSpelled(p.sub.value, rest);
      } else {
        assert sub + rest == rest;
      }
    }
  }

  lemma PlaceRead(derived: bool, bit: bool, b: bytes) returns (p: Place)
    requires ReadPlace(derived, bit, b).Ok?
    ensures PlaceOk(p) && p.Derived? == derived && (p.Named? ==> bit == HasKey(p))
    ensures b == SpellPlace(p) + ReadPlace(derived, bit, b).value.1
    ensures ReadPlace(derived, bit, b).value.0 == MeanPlace(p)
  {
    hide ReadParent, SpellWhere, ReadStr, VarBytes;
    if derived {
      p := Derived;
      assert [] + b == b;
    } else {
      var where := WhereRead(b);
      var b1 := ReadParent(b).value.1;
      if bit {
        var sub := TextRead(b1);
        p := Named(where, Some(sub));
        Assoc(SpellWhere(where), VarBytes(sub), ReadStr(b1).value.1);
      } else {
        p := Named(where, None);
        assert SpellWhere(where) + [] == SpellWhere(where);
      }
    }
  }

  // ----- Structs -----

  lemma HeaderBits(w: Word)
    requires WordOk(w) && w.ItemWord?
    ensures var h := HeaderByte(w);
            && HasOrigin(h) == w.origin.Some? && HasRight(h) == w.rightOrigin.Some?
            && HasSub(h) == (w.spare || HasKey(w.place)) && h % 0x20 == BodyRef(w.body) && h % 0x20 != 0 && h != 10
  {
    hide BodyOk, PlaceOk;
  }

  lemma OptIdRead(has: bool, b: bytes)
    requires ReadOptId(has, b).Ok?
    ensures var (id, rest) := ReadOptId(has, b).value; id.Some? == has && b == EncOptId(id) + rest
  {
    if has {
      IdRead(b);
    } else {
      assert [] + b == b;
    }
  }

  function SpellTail(w: Word): bytes
    requires w.ItemWord?
  {
    EncOptId(w.origin) + (EncOptId(w.rightOrigin) + (SpellPlace(w.place) + SpellBody(w.body)))
  }

  lemma TailParts(w: Word, rest: bytes)
    requires w.ItemWord?
    ensures SpellTail(w) + rest ==
            EncOptId(w.origin) + (EncOptId(w.rightOrigin) + (SpellPlace(w.place) + (SpellBody(w.body) + rest)))
  {
    hide EncOptId, SpellPlace, SpellBody;
    var o, r, p, body := EncOptId(w.origin), EncOptId(w.rightOrigin), SpellPlace(w.place), SpellBody(w.body);
    Assoc(o, r + (p + body), rest);
    Assoc(r, p + body, rest);
    Assoc(p, body, rest);
  }

  lemma ItemSpelled(w: Word, id: ID, rest: bytes)
    requires WordOk(w) && w.ItemWord?
    ensures ReadItem(HeaderByte(w), SpellTail(w) + rest, id) ==
            if Mean(w, id).Valid() then Ok((Mean(w, id), rest))
            else Err(if Mean(w, id).Length() == 0 then InvalidLength else StructOverflow)
  {
    HeaderBits(w);
    TailParts(w, rest);
    hide HeaderByte, HasOrigin, HasRight, HasSub, ReadOptId, EncOptId, ReadPlace, SpellPlace, ReadContent, SpellBody,
         BodyOk, PlaceOk, MeanBody, MeanPlace, BodyRef, Content.Length, SpellTail;
    var body := SpellBody(w.body) + rest;
    OptIdRoundTrip(w.origin, EncOptId(w.rightOrigin) + (SpellPlace(w.place) + body));
    OptIdRoundTrip(w.rightOrigin, SpellPlace(w.place) + body);
    PlaceSpelled(w.place, w.spare || HasKey(w.place), body);
    BodySpelled(w.body, rest);
  }

  /** A struct in front of whatever follows is read as what it means, and nothing
      of what follows is read. */
  lemma WordSpelled(w: Word, id: ID, rest: bytes)
    requires WordOk(w)
    ensures ReadStruct(Spell(w) + rest, id) ==
            if Mean(w, id).Valid() then Ok((Mean(w, id), rest))
            else Err(if Mean(w, id).Length() == 0 then InvalidLength else StructOverflow)
  {
    hide ReadItem, ReadVarUint, VarUint, SpellBody, SpellPlace, BodyOk, PlaceOk, MeanBody, MeanPlace, EncOptId,
         Content.Length;
    var b := Spell(w) + rest;
    match w
    case SkipWord(len) =>
      assert b[1..] == VarUint(len) + rest;
      VarUintRoundTrip(len, rest);
    case GCWord(_, len) =>
      assert b[1..] == VarUint(len) + rest;
      VarUintRoundTrip(len, rest);
    case ItemWord(_, _, _, _, _) =>
      HeaderBits(w);
      ItemSpelled(w, id, rest);
      assert b[0] == HeaderByte(w) && b[1..] == SpellTail(w) + rest;
  }

  /** The word that was read. */
  ghost predicate IsWord(b: bytes, id: ID, w: Word) {
    && ReadStruct(b, id).Ok? && WordOk(w)
    && b == Spell(w) + ReadStruct(b, id).value.1 && ReadStruct(b, id).value.0 == Mean(w, id)
  }

  lemma InfoSplits(info: byte, w: Word)
    requires WordOk(w) && w.ItemWord? && BodyRef(w.body) == info % 0x20
    requires HasOrigin(info) == w.origin.Some? && HasRight(info) == w.rightOrigin.Some?
    requires HasSub(info) == (w.spare || HasKey(w.place))
    ensures HeaderByte(w) == info
  {
    hide BodyOk, PlaceOk, BodyRef;
    assert info == info % 0x20 + (if info >= 0x80 then 0x80 else 0) + (if info % 0x80 >= 0x40 then 0x40 else 0) +
                   (if info % 0x40 >= 0x20 then 0x20 else 0);
  }

  lemma ItemRead(info: byte, b: bytes, id: ID) returns (w: Word)
    requires ReadItem(info, b, id).Ok?
    ensures WordOk(w) && w.ItemWord? && HeaderByte(w) == info
    ensures b == SpellTail(w) + ReadItem(info, b, id).value.1 && ReadItem(info, b, id).value.0 == Mean(w, id)
  {
    hide HasOrigin, HasRight, HasSub, ReadOptId, EncOptId, ReadPlace, SpellPlace, ReadContent, SpellBody, BodyOk,
         PlaceOk, MeanBody, MeanPlace, BodyRef, Content.Length, HeaderByte, SpellTail;
    OptIdRead(HasOrigin(info), b);
    var (origin, b1) := ReadOptId(HasOrigin(info), b).value;
    OptIdRead(HasRight(info), b1);
    var (rightOrigin, b2) := ReadOptId(HasRight(info), b1).value;
    var derived := HasOrigin(info) || HasRight(info);
    var place := PlaceRead(derived, HasSub(info), b2);
    var b3 := ReadPlace(derived, HasSub(info), b2).value.1;
    var body := BodyRead(info % 0x20, b3);
    w := ItemWord(derived && HasSub(info), origin, rightOrigin, place, body);
    InfoSplits(info, w);
    TailParts(w, ReadItem(info, b, id).value.1);
  }

  lemma WordRead(b: bytes, id: ID) returns (w: Word)
    requires ReadStruct(b, id).Ok?
    ensures IsWord(b, id, w)
  {
    hide ReadItem, ReadVarUint, VarUint, SpellBody, SpellPlace, BodyOk, PlaceOk, MeanBody, MeanPlace, EncOptId,
         Content.Length, HeaderByte;
    var rest := ReadStruct(b, id).value.1;
    if b[0] == 10 {
      VarUintCanonical(b[1..]);
      w := SkipWord(ReadVarUint(b[1..]).value.0);
    } else if b[0] % 0x20 != 0 {
      w := ItemRead(b[0], b[1..], id);
    } else {
      VarUintCanonical(b[1..]);
      w := GCWord(b[0] / 0x20, ReadVarUint(b[1..]).value.0);
    }
    HeaderIs(w);
    assert b == [b[0]] + b[1..];
  }

  lemma HeaderIs(w: Word)
    requires WordOk(w)
    ensures w.SkipWord? ==> HeaderByte(w) == 10
    ensures w.GCWord? ==> HeaderByte(w) == 0x20 * w.high
    ensures w.ItemWord? ==> Spell(w) == [HeaderByte(w)] + SpellTail(w)
  {
  }

  /** The struct reader accepts exactly the words of the grammar that mean a
      valid struct, and reads each as what it means. */
  lemma StructExact(b: bytes, id: ID, s: Struct, rest: bytes)
    ensures ReadStruct(b, id) == Ok((s, rest)) <==>
            exists w: Word :: WordOk(w) && b == Spell(w) + rest && Mean(w, id) == s && s.Valid()
  {
    hide ReadStruct, Spell, Mean, WordOk, Struct.Valid;
    if ReadStruct(b, id) == Ok((s, rest)) {
      var w := WordRead(b, id);
      WordSpelled(w, id, rest);
      assert WordOk(w) && b == Spell(w) + rest && Mean(w, id) == s && s.Valid();
    }
    if w: Word :| WordOk(w) && b == Spell(w) + rest && Mean(w, id) == s && s.Valid() {
      WordSpelled(w, id, rest);
    }
  }

  /** Next to an origin or a right origin the bit of the key changes nothing. */
  lemma SpareBit(info: byte, b: bytes, id: ID)
    requires (HasOrigin(info) || HasRight(info)) && !HasSub(info)
    ensures ReadStruct([info + 0x20] + b, id) == ReadStruct([info] + b, id)
  {
    hide ReadOptId, ReadContent, ReadVarUint;
    assert ([info] + b)[1..] == b && ([info + 0x20] + b)[1..] == b;
    assert HasOrigin(info + 0x20) == HasOrigin(info) && HasRight(info + 0x20) == HasRight(info);
    assert (info + 0x20) % 0x20 == info % 0x20;
  }
}
