/** The lib0 "any" values as a grammar. Both readers take exactly these words,
    up to the lengths of integers and collections, where they differ. */
module ValueWords {
  import opened Prelude
  import opened Wire
  import opened RawValues

  datatype Value =
    | Undefined
    | Null
    | Integer(groups: bytes)
    | Float32(data: bytes)
    | Float64(data: bytes)
    | BigInt(data: bytes)
    | Boolean(value: bool)
    | Text(data: bytes)
    | Object(members: Members)
    | Array(members: Members)
    | Buffer(data: bytes)

  /** The members of an object have keys, those of an array have none. */
  datatype Members = NoMore | More(key: Option<bytes>, value: Value, others: Members)

  function Count(ms: Members): nat {
    match ms
    case NoMore => 0
    case More(_, _, others) => 1 + Count(others)
  }

  /** Groups of an integer: the high bit says that another one follows. */
  predicate Groups(b: bytes) {
    b != [] && b[|b| - 1] < 128 && forall i :: 0 <= i < |b| - 1 ==> b[i] >= 128
  }

  function MostGroups(w: Format): nat {
    if w == V1 then 6 else 10
  }

  predicate ValueOk(v: Value, w: Format) {
    match v
    case Integer(groups) => Groups(groups) && |groups| <= MostGroups(w)
    case Float32(data) => |data| == 4
    case Float64(data) => |data| == 8
    case BigInt(data) => |data| == 8
    case Text(data) => |data| <= MAX_U32
    case Buffer(data) => |data| <= MAX_U32
    case Object(members) => CountOk(members, w) && MembersOk(members, true, w)
    case Array(members) => CountOk(members, w) && MembersOk(members, false, w)
    case _ => true
  }

  predicate CountOk(ms: Members, w: Format) {
    Count(ms) <= if w == V1 then MAX_U32 else COLLECTION_LIMIT
  }

  predicate MembersOk(ms: Members, keyed: bool, w: Format) {
    match ms
    case NoMore => true
    case More(key, value, others) =>
      && key.Some? == keyed && (key.Some? ==> |key.value| <= MAX_U32)
      && ValueOk(value, w) && MembersOk(others, keyed, w)
  }

  function SpellValue(v: Value): bytes {
    match v
    case Undefined => [127]
    case Null => [126]
    case Integer(groups) => [125] + groups
    case Float32(data) => [124] + data
    case Float64(data) => [123] + data
    case BigInt(data) => [122] + data
    case Boolean(value) => [if value then 120 else 121]
    case Text(data) => [119] + VarBytes(data)
    case Object(members) => [118] + (VarUint(AsU32(Count(members))) + SpellMembers(members))
    case Array(members) => [117] + (VarUint(AsU32(Count(members))) + SpellMembers(members))
    case Buffer(data) => [116] + VarBytes(data)
  }

  function SpellMembers(ms: Members): bytes {
    match ms
    case NoMore => []
    case More(key, value, others) =>
      (if key.Some? then VarBytes(key.value) else []) + (SpellValue(value) + SpellMembers(others))
  }

  // ----- The reader takes the words -----

  lemma {:induction false} GroupsSize(groups: bytes, limit: nat, rest: bytes)
    requires Groups(groups)
    ensures VarIntSize(groups + rest, limit) == if |groups| <= limit then Ok(|groups|) else Err(Overflow)
  {
    if limit > 0 {
      assert (groups + rest)[1..] == groups[1..] + rest;
      if |groups| > 1 {
        GroupsSize(groups[1..], limit - 1, rest);
      }
    }
  }

  lemma DataSize(data: bytes, rest: bytes)
    requires |data| <= MAX_U32
    ensures VarBytesSize(VarBytes(data) + rest) == Ok(|VarBytes(data)|)
  {
    VarBytesRoundTrip(data, rest);
  }

  /** How the size of a collection comes from its entries'. */
  lemma TableSize(tag: byte, count: u32, entries: bytes, w: Format)
    requires tag == 118 || tag == 117
    ensures AnySize([tag] + (VarUint(count) + entries), w) ==
            if w == V2 && count > COLLECTION_LIMIT then Err(CollectionTooLarge)
            else match EntriesSize(entries, count, tag == 118, w)
                 case Ok(n) => Ok(1 + |VarUint(count)| + n)
                 case Err(e) => Err(e)
  {
    hide EntriesSize, ReadVarUint, VarUint;
    var b := [tag] + (VarUint(count) + entries);
    assert b[1..] == VarUint(count) + entries;
    VarUintRoundTrip(count, entries);
  }

  lemma LeafSpelled(v: Value, w: Format, rest: bytes)
    requires ValueOk(v, w) && !v.Object? && !v.Array?
    ensures AnySize(SpellValue(v) + rest, w) == Ok(|SpellValue(v)|)
  {
    hide EntriesSize, VarUint, VarBytes, VarBytesSize, VarIntSize, Groups;
    var b := SpellValue(v) + rest;
    match v
    case Integer(groups) =>
      assert b[1..] == groups + rest;
      GroupsSize(groups, MostGroups(w), rest);
    case Text(data) =>
      assert b[1..] == VarBytes(data) + rest;
      DataSize(data, rest);
    case Buffer(data) =>
      assert b[1..] == VarBytes(data) + rest;
      DataSize(data, rest);
    case _ =>
  }

  lemma TableSpelled(tag: byte, ms: Members, w: Format, rest: bytes)
    requires (tag == 118 || tag == 117) && CountOk(ms, w)
    requires EntriesSize(SpellMembers(ms) + rest, Count(ms), tag == 118, w) == Ok(|SpellMembers(ms)|)
    ensures var word := [tag] + (VarUint(AsU32(Count(ms))) + SpellMembers(ms));
            AnySize(word + rest, w) == Ok(|word|)
  {
    hide AnySize, EntriesSize, VarUint, SpellMembers, Count;
    Assoc([tag], VarUint(AsU32(Count(ms))) + SpellMembers(ms), rest);
    Assoc(VarUint(AsU32(Count(ms))), SpellMembers(ms), rest);
    TableSize(tag, Count(ms), SpellMembers(ms) + rest, w);
  }

  lemma {:induction false} ValueSpelled(v: Value, w: Format, rest: bytes)
    requires ValueOk(v, w)
    ensures AnySize(SpellValue(v) + rest, w) == Ok(|SpellValue(v)|)
    decreases v
  {
    hide AnySize, EntriesSize, VarUint, SpellMembers, MembersOk, Groups;
    match v
    case Object(members) =>
      MembersSpelled(members, true, w, rest);
      TableSpelled(118, members, w, rest);
    case Array(members) =>
      MembersSpelled(members, false, w, rest);
      TableSpelled(117, members, w, rest);
    case _ =>
      LeafSpelled(v, w, rest);
  }

  lemma MemberSize(key: Option<bytes>, value: bytes, w: Format)
    requires (key.Some? ==> |key.value| <= MAX_U32) && AnySize(value, w).Ok?
    ensures var k := if key.Some? then VarBytes(key.value) else [];
            EntrySize(k + value, key.Some?, w) == Ok(|k| + AnySize(value, w).value)
  {
    hide AnySize, VarBytesSize, VarBytes;
    var k := if key.Some? then VarBytes(key.value) else [];
    assert (k + value)[|k|..] == value;
    if key.Some? {
      DataSize(key.value, value);
    }
  }

  /** One member, then the others. */
  lemma MemberSpelled(k: bytes, value: bytes, others: bytes, count: nat, keyed: bool, w: Format, rest: bytes)
    requires EntrySize(k + (value + (others + rest)), keyed, w) == Ok(|k| + |value|)
    requires EntriesSize(others + rest, count, keyed, w) == Ok(|others|)
    ensures EntriesSize(k + (value + others) + rest, count + 1, keyed, w) == Ok(|k| + (|value| + |others|))
  {
    hide EntriesSize, EntrySize;
    Assoc(k, value + others, rest);
    Assoc(value, others, rest);
    var b := k + (value + (others + rest));
    assert b[|k| + |value|..] == others + rest;
    EntriesStep(b, count + 1, keyed, w, |k| + |value|);
  }

  lemma {:induction false} MembersSpelled(ms: Members, keyed: bool, w: Format, rest: bytes)
    requires MembersOk(ms, keyed, w)
    ensures EntriesSize(SpellMembers(ms) + rest, Count(ms), keyed, w) == Ok(|SpellMembers(ms)|)
    decreases ms
  {
    hide AnySize, EntrySize, VarBytes, ValueOk, SpellValue;
    if ms.More? {
      hide EntriesSize;
      var k := if ms.key.Some? then VarBytes(ms.key.value) else [];
      var tail := SpellMembers(ms.others) + rest;
      ValueSpelled(ms.value, w, tail);
      MemberSize(ms.key, SpellValue(ms.value) + tail, w);
      MembersSpelled(ms.others, keyed, w, rest);
      MemberSpelled(k, SpellValue(ms.value), SpellMembers(ms.others), Count(ms.others), keyed, w, rest);
    }
  }

  // ----- The reader takes nothing else -----

  lemma {:induction false} GroupsRead(b: bytes, limit: nat)
    requires VarIntSize(b, limit).Ok?
    ensures var n := VarIntSize(b, limit).value; n <= limit && Groups(b[..n])
  {
    if b[0] >= 128 {
      GroupsRead(b[1..], limit - 1);
      var n := VarIntSize(b, limit).value;
      assert b[..n][1..] == b[1..][..n - 1];
      assert forall i :: 0 < i < n ==> b[..n][i] == b[1..][..n - 1][i - 1];
    }
  }

  lemma DataRead(b: bytes)
    requires VarBytesSize(b).Ok?
    ensures var n := VarBytesSize(b).value;
            ReadVarBytes(b).Ok? && b[..n] == VarBytes(ReadVarBytes(b).value.0) && |ReadVarBytes(b).value.0| <= MAX_U32
  {
    VarUintCanonical(b);
    var (n, b1) := ReadVarUint(b).value;
    assert b1 == b1[..n] + b1[n..];
    Assoc(VarUint(n), b1[..n], b1[n..]);
  }

  /** The word that was sized. */
  ghost predicate IsValue(b: bytes, w: Format, v: Value) {
    AnySize(b, w).Ok? && ValueOk(v, w) && b[..AnySize(b, w).value] == SpellValue(v)
  }

  lemma LeafRead(b: bytes, w: Format) returns (v: Value)
    requires AnySize(b, w).Ok? && b[0] != 118 && b[0] != 117
    ensures IsValue(b, w, v)
  {
    hide VarIntSize, VarBytesSize, VarBytes, Groups;
    var tag, rest, n := b[0], b[1..], AnySize(b, w).value;
    assert b[..n] == [tag] + rest[..n - 1];
    if tag == 125 {
      GroupsRead(rest, MostGroups(w));
      v := Integer(rest[..n - 1]);
    } else if tag == 119 || tag == 116 {
      DataRead(rest);
      var data := ReadVarBytes(rest).value.0;
      v := if tag == 119 then Text(data) else Buffer(data);
    } else {
      v := match tag
           case 127 => Undefined
           case 126 => Null
           case 124 => Float32(rest[..4])
           case 123 => Float64(rest[..8])
           case 122 => BigInt(rest[..8])
           case 121 => Boolean(false)
           case _ => Boolean(true);
    }
  }

  lemma TableParts(b: bytes, w: Format)
    requires AnySize(b, w).Ok? && (b[0] == 118 || b[0] == 117)
    ensures ReadVarUint(b[1..]).Ok?
    ensures var (count, entries) := ReadVarUint(b[1..]).value;
            && |entries| < |b| && b == [b[0]] + (VarUint(count) + entries)
            && (w == V2 ==> count <= COLLECTION_LIMIT) && EntriesSize(entries, count, b[0] == 118, w).Ok?
            && AnySize(b, w).value == 1 + |VarUint(count)| + EntriesSize(entries, count, b[0] == 118, w).value
  {
    hide EntriesSize, VarUint;
    VarUintCanonical(b[1..]);
    assert b == [b[0]] + b[1..];
  }

  lemma {:induction false} ValueRead(b: bytes, w: Format) returns (v: Value)
    requires AnySize(b, w).Ok?
    ensures IsValue(b, w, v)
    decreases |b|, 0
  {
    hide AnySize, EntriesSize, ReadVarUint, VarUint, SpellMembers, MembersOk;
    if b[0] == 118 || b[0] == 117 {
      TableParts(b, w);
      var (count, entries) := ReadVarUint(b[1..]).value;
      var ms := MembersRead(entries, count, b[0] == 118, w);
      v := if b[0] == 118 then Object(ms) else Array(ms);
      var n := EntriesSize(entries, count, b[0] == 118, w).value;
      assert b[..1 + |VarUint(count)| + n] == [b[0]] + (VarUint(count) + entries[..n]);
    } else {
      v := LeafRead(b, w);
    }
  }

  lemma {:induction false} MembersRead(b: bytes, count: nat, keyed: bool, w: Format) returns (ms: Members)
    requires EntriesSize(b, count, keyed, w).Ok?
    ensures Count(ms) == count && MembersOk(ms, keyed, w)
    ensures b[..EntriesSize(b, count, keyed, w).value] == SpellMembers(ms)
    decreases |b|, 2
  {
    hide EntrySize, AnySize, SpellValue, ValueOk, VarBytes, VarBytesSize;
    if count == 0 {
      ms := NoMore;
    } else {
      var n := EntrySize(b, keyed, w).value;
      var key, value := MemberRead(b, keyed, w);
      var others := MembersRead(b[n..], count - 1, keyed, w);
      ms := Members.More(key, value, others);
      var m := EntriesSize(b[n..], count - 1, keyed, w).value;
      assert b[..n + m] == b[..n] + b[n..][..m];
      Assoc(if key.Some? then VarBytes(key.value) else [], SpellValue(value), SpellMembers(others));
    }
  }

  lemma {:induction false} MemberRead(b: bytes, keyed: bool, w: Format) returns (key: Option<bytes>, value: Value)
    requires EntrySize(b, keyed, w).Ok?
    ensures key.Some? == keyed && (key.Some? ==> |key.value| <= MAX_U32) && ValueOk(value, w)
    ensures b[..EntrySize(b, keyed, w).value] ==
            (if key.Some? then VarBytes(key.value) else []) + SpellValue(value)
    decreases |b|, 1
  {
    hide AnySize, SpellValue, ValueOk, VarBytes, VarBytesSize;
    var k := if keyed then VarBytesSize(b).value else 0;
    if keyed {
      DataRead(b);
      key := Some(ReadVarBytes(b).value.0);
    } else {
      key := None;
    }
    value := ValueRead(b[k..], w);
    var n := AnySize(b[k..], w).value;
    assert b[..k + n] == b[..k] + b[k..][..n];
  }

  /** A value of the grammar at the front is what the reader takes, and it takes
      nothing else. */
  lemma ValueExact(b: bytes, w: Format, n: nat)
    requires n <= |b|
    ensures AnySize(b, w) == Ok(n) <==> exists v :: ValueOk(v, w) && SpellValue(v) == b[..n]
  {
    hide AnySize, ValueOk, SpellValue;
    if AnySize(b, w) == Ok(n) {
      var v := ValueRead(b, w);
    }
    if v :| ValueOk(v, w) && SpellValue(v) == b[..n] {
      ValueSpelled(v, w, b[n..]);
      assert b == b[..n] + b[n..];
    }
  }
}
