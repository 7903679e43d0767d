/** Values kept as raw bytes: lib0 "any" values and the JSON values that accept
    either an any value or a length-prefixed string. */
module RawValues {
  import opened Prelude
  import opened Wire

  datatype Format = V1 | V2

  const COLLECTION_LIMIT := 0x10_0000

  /** Bytes of a variable-length integer: V1 takes six at most, V2 ten. */
  function VarIntSize(b: bytes, limit: nat): (r: Result<nat>)
    ensures r.Ok? ==> 0 < r.value <= |b|
  {
    if limit == 0 then Err(Overflow)
    else if b == [] then Err(UnexpectedEOF)
    else if b[0] < 128 then Ok(1)
    else
      var n :- VarIntSize(b[1..], limit - 1);
      Ok(n + 1)
  }

  function VarBytesSize(b: bytes): (r: Result<nat>)
    ensures r.Ok? ==> 0 < r.value <= |b|
  {
    var (data, rest) :- ReadVarBytes(b);
    Ok(|b| - |rest|)
  }

  function FixedSize(b: bytes, n: nat): (r: Result<nat>)
    ensures r.Ok? ==> r.value == n + 1 <= |b| + 1
  {
    if |b| < n then Err(UnexpectedEOF) else Ok(n + 1)
  }

  /** How many bytes the any value at the front of `b` takes. */
  function AnySize(b: bytes, w: Format): (r: Result<nat>)
    ensures r.Ok? ==> 0 < r.value <= |b|
    decreases |b|, 0
  {
    if b == [] then Err(UnexpectedEOF)
    else
      var tag, rest := b[0], b[1..];
      if tag == 127 || tag == 126 || tag == 121 || tag == 120 then Ok(1)
      else if tag == 125 then
        var n :- VarIntSize(rest, if w == V1 then 6 else 10);
        Ok(n + 1)
      else if tag == 124 then FixedSize(rest, 4)
      else if tag == 123 || tag == 122 then FixedSize(rest, 8)
      else if tag == 119 || tag == 116 then
        var n :- VarBytesSize(rest);
        Ok(n + 1)
      else if tag == 118 || tag == 117 then
        var (count, entries) :- ReadVarUint(rest);
        if w == V2 && count > COLLECTION_LIMIT then Err(CollectionTooLarge)
        else
          var n :- EntriesSize(entries, count, tag == 118, w);
          Ok(|b| - |entries| + n)
      else Err(UnknownAnyTag)
  }

  /** One entry: an object's key, then the value. */
  function EntrySize(b: bytes, keyed: bool, w: Format): (r: Result<nat>)
    ensures r.Ok? ==> 0 < r.value <= |b|
    decreases |b|, 1
  {
    var key :- if keyed then VarBytesSize(b) else Ok(0);
    var value :- AnySize(b[key..], w);
    Ok(key + value)
  }

  /** The entries of an object (with keys) or an array (without). */
  function EntriesSize(b: bytes, count: nat, keyed: bool, w: Format): (r: Result<nat>)
    ensures r.Ok? ==> r.value <= |b|
    decreases |b|, 2
  {
    if count == 0 then Ok(0)
    else
      var n :- EntrySize(b, keyed, w);
      var more :- EntriesSize(b[n..], count - 1, keyed, w);
      Ok(n + more)
  }

  /** Embed and format values: an any value if the first byte is an any tag,
      a length-prefixed JSON text otherwise. */
  function JsonSize(b: bytes, w: Format): (r: Result<nat>)
    ensures r.Ok? ==> 0 < r.value <= |b|
  {
    if b == [] then Err(UnexpectedEOF)
    else if 116 <= b[0] <= 127 then AnySize(b, w)
    else VarBytesSize(b)
  }

  function ReadAny(b: bytes, w: Format): Result<(bytes, bytes)> {
    var n :- AnySize(b, w);
    Ok((b[..n], b[n..]))
  }

  function ReadJson(b: bytes, w: Format): Result<(bytes, bytes)> {
    var n :- JsonSize(b, w);
    Ok((b[..n], b[n..]))
  }

  /** Bytes that are exactly one value for both readers. */
  predicate AnyValue(raw: bytes) {
    AnySize(raw, V1) == Ok(|raw|) && AnySize(raw, V2) == Ok(|raw|)
  }

  predicate JsonValue(raw: bytes) {
    JsonSize(raw, V1) == Ok(|raw|) && JsonSize(raw, V2) == Ok(|raw|)
  }

  lemma {:induction false} VarIntSizeStable(b: bytes, limit: nat, more: bytes)
    requires VarIntSize(b, limit).Ok?
    ensures VarIntSize(b + more, limit) == VarIntSize(b, limit)
  {
    assert (b + more)[1..] == b[1..] + more;
    if b[0] >= 128 {
      VarIntSizeStable(b[1..], limit - 1, more);
    }
  }

  lemma VarBytesSizeStable(b: bytes, more: bytes)
    requires VarBytesSize(b).Ok?
    ensures VarBytesSize(b + more) == VarBytesSize(b)
  {
    VarBytesStable(b, more);
  }

  /** A complete value is read the same whatever follows it. */
  lemma {:induction false} AnySizeStable(b: bytes, w: Format, more: bytes)
    requires AnySize(b, w).Ok?
    ensures AnySize(b + more, w) == AnySize(b, w)
    decreases |b|, 0
  {
    hide EntriesSize, ReadVarUint, VarBytesSize, VarIntSize;
    var tag, rest := b[0], b[1..];
    assert (b + more)[1..] == rest + more;
    if tag == 125 {
      VarIntSizeStable(rest, if w == V1 then 6 else 10, more);
    } else if tag == 119 || tag == 116 {
      VarBytesSizeStable(rest, more);
    } else if tag == 118 || tag == 117 {
      VarUintStable(rest, more);
      var (count, entries) := ReadVarUint(rest).value;
      EntriesSizeStable(entries, count, tag == 118, w, more);
    }
  }

  lemma {:induction false} EntrySizeStable(b: bytes, keyed: bool, w: Format, more: bytes)
    requires EntrySize(b, keyed, w).Ok?
    ensures EntrySize(b + more, keyed, w) == EntrySize(b, keyed, w)
    decreases |b|, 1
  {
    if keyed {
      VarBytesSizeStable(b, more);
    }
    var key := if keyed then VarBytesSize(b).value else 0;
    assert (b + more)[key..] == b[key..] + more;
    AnySizeStable(b[key..], w, more);
  }

  /** One step of the entry loop, from its two parts. */
  lemma EntriesStep(b: bytes, count: nat, keyed: bool, w: Format, n: nat)
    requires count > 0 && EntrySize(b, keyed, w) == Ok(n) && n <= |b|
    ensures EntriesSize(b, count, keyed, w) ==
            match EntriesSize(b[n..], count - 1, keyed, w) { case Ok(m) => Ok(n + m) case Err(e) => Err(e) }
  {
  }

  lemma {:induction false} EntriesSizeStable(b: bytes, count: nat, keyed: bool, w: Format, more: bytes)
    requires EntriesSize(b, count, keyed, w).Ok?
    ensures EntriesSize(b + more, count, keyed, w) == EntriesSize(b, count, keyed, w)
    decreases |b|, 2
  {
    hide EntrySize;
    if count > 0 {
      hide EntriesSize;
      var n := EntrySize(b, keyed, w).value;
      EntriesStep(b, count, keyed, w, n);
      EntrySizeStable(b, keyed, w, more);
      EntriesStep(b + more, count, keyed, w, n);
      assert (b + more)[n..] == b[n..] + more;
      EntriesSizeStable(b[n..], count - 1, keyed, w, more);
    }
  }

  // ----- What is read is a value again -----

  lemma {:induction false} EntriesAtLeast(b: bytes, count: nat, keyed: bool, w: Format)
    requires EntriesSize(b, count, keyed, w).Ok?
    ensures count <= EntriesSize(b, count, keyed, w).value
  {
    if count > 0 {
      EntriesAtLeast(b[EntrySize(b, keyed, w).value..], count - 1, keyed, w);
    }
  }

  lemma {:induction false} VarIntSizePrefix(b: bytes, limit: nat, n: nat)
    requires VarIntSize(b, limit) == Ok(n) && n <= |b|
    ensures VarIntSize(b[..n], limit) == Ok(n)
  {
    if b[0] >= 128 {
      VarIntSizePrefix(b[1..], limit - 1, n - 1);
      assert b[..n][1..] == b[1..][..n - 1];
    }
  }

  lemma VarBytesSizePrefix(b: bytes, n: nat)
    requires VarBytesSize(b) == Ok(n) && n <= |b|
    ensures VarBytesSize(b[..n]) == Ok(n)
  {
    var (len, rest) := ReadVarUint(b).value;
    VarUintCanonical(b);
    assert b[..n] == VarUint(len) + rest[..len];
    VarUintRoundTrip(len, rest[..len]);
  }

  /** The bytes a value takes are that value. */
  lemma {:induction false} AnySizePrefix(b: bytes, w: Format, n: nat)
    requires AnySize(b, w) == Ok(n) && n <= |b|
    ensures AnySize(b[..n], w) == Ok(n)
    decreases |b|, 0
  {
    hide EntriesSize, ReadVarUint, VarBytesSize, VarIntSize;
    var tag, rest := b[0], b[1..];
    assert b[..n][0] == tag && b[..n][1..] == rest[..n - 1];
    if tag == 125 {
      VarIntSizePrefix(rest, if w == V1 then 6 else 10, n - 1);
    } else if tag == 119 || tag == 116 {
      VarBytesSizePrefix(rest, n - 1);
    } else if tag == 118 || tag == 117 {
      var (count, entries) := ReadVarUint(rest).value;
      var m := EntriesSize(entries, count, tag == 118, w).value;
      EntriesSizePrefix(entries, count, tag == 118, w, m);
      CountPrefix(rest, count, entries, m);
    }
  }

  lemma CountPrefix(b: bytes, count: u32, entries: bytes, m: nat)
    requires ReadVarUint(b) == Ok((count, entries)) && m <= |entries|
    ensures var k := |b| - |entries| + m;
            0 <= k <= |b| && ReadVarUint(b[..k]) == Ok((count, entries[..m]))
  {
    VarUintCanonical(b);
    var k := |b| - |entries| + m;
    assert b[..k] == VarUint(count) + entries[..m];
    VarUintRoundTrip(count, entries[..m]);
  }

  lemma {:induction false} EntrySizePrefix(b: bytes, keyed: bool, w: Format, n: nat)
    requires EntrySize(b, keyed, w) == Ok(n) && n <= |b|
    ensures EntrySize(b[..n], keyed, w) == Ok(n)
    decreases |b|, 1
  {
    hide AnySize;
    var key := if keyed then VarBytesSize(b).value else 0;
    if keyed {
      VarBytesSizePrefix(b, key);
      VarBytesSizeStable(b[..key], b[key..n]);
      assert b[..key] + b[key..n] == b[..n];
    }
    AnySizePrefix(b[key..], w, n - key);
    assert b[..n][key..] == b[key..][..n - key];
  }

  lemma {:induction false} EntriesSizePrefix(b: bytes, count: nat, keyed: bool, w: Format, n: nat)
    requires EntriesSize(b, count, keyed, w) == Ok(n) && n <= |b|
    ensures EntriesSize(b[..n], count, keyed, w) == Ok(n)
    decreases |b|, 2
  {
    hide EntrySize;
    if count > 0 {
      hide EntriesSize;
      var first := EntrySize(b, keyed, w).value;
      EntriesStep(b, count, keyed, w, first);
      EntrySizePrefix(b, keyed, w, first);
      EntrySizeStable(b[..first], keyed, w, b[first..n]);
      assert b[..first] + b[first..n] == b[..n];
      EntriesSizePrefix(b[first..], count - 1, keyed, w, n - first);
      assert b[..n][first..] == b[first..][..n - first];
      EntriesStep(b[..n], count, keyed, w, first);
    }
  }

  /** The two readers differ in what they refuse, not in what they take. */
  lemma {:induction false} AnySameSize(b: bytes)
    requires AnySize(b, V1).Ok? && AnySize(b, V2).Ok?
    ensures AnySize(b, V1) == AnySize(b, V2)
    decreases |b|, 0
  {
    hide EntriesSize, VarBytesSize, VarIntSize;
    var tag, rest := b[0], b[1..];
    if tag == 125 {
      VarIntSameSize(rest, 6, 10);
    } else if tag == 118 || tag == 117 {
      var (count, entries) := ReadVarUint(rest).value;
      EntriesSameSize(entries, count, tag == 118);
    }
  }

  lemma {:induction false} VarIntSameSize(b: bytes, low: nat, high: nat)
    requires low <= high && VarIntSize(b, low).Ok?
    ensures VarIntSize(b, high) == VarIntSize(b, low)
  {
    if b[0] >= 128 {
      VarIntSameSize(b[1..], low - 1, high - 1);
    }
  }

  lemma {:induction false} EntrySameSize(b: bytes, keyed: bool)
    requires EntrySize(b, keyed, V1).Ok? && EntrySize(b, keyed, V2).Ok?
    ensures EntrySize(b, keyed, V1) == EntrySize(b, keyed, V2)
    decreases |b|, 1
  {
    hide AnySize;
    AnySameSize(b[if keyed then VarBytesSize(b).value else 0..]);
  }

  lemma {:induction false} EntriesSameSize(b: bytes, count: nat, keyed: bool)
    requires EntriesSize(b, count, keyed, V1).Ok? && EntriesSize(b, count, keyed, V2).Ok?
    ensures EntriesSize(b, count, keyed, V1) == EntriesSize(b, count, keyed, V2)
    decreases |b|, 2
  {
    hide EntrySize;
    if count > 0 {
      EntrySameSize(b, keyed);
      EntriesSameSize(b[EntrySize(b, keyed, V1).value..], count - 1, keyed);
    }
  }

  /** In fewer bytes than the limit there is no collection above it, so what V1
      reads V2 reads. */
  lemma {:induction false} ShortAnyReads(b: bytes)
    requires |b| <= COLLECTION_LIMIT && AnySize(b, V1).Ok?
    ensures AnySize(b, V2) == AnySize(b, V1)
    decreases |b|, 0
  {
    hide EntriesSize, VarBytesSize, VarIntSize;
    var tag, rest := b[0], b[1..];
    if tag == 125 {
      VarIntSameSize(rest, 6, 10);
    } else if tag == 118 || tag == 117 {
      var (count, entries) := ReadVarUint(rest).value;
      EntriesAtLeast(entries, count, tag == 118, V1);
      ShortEntriesRead(entries, count, tag == 118);
    }
  }

  lemma {:induction false} ShortEntryReads(b: bytes, keyed: bool)
    requires |b| <= COLLECTION_LIMIT && EntrySize(b, keyed, V1).Ok?
    ensures EntrySize(b, keyed, V2) == EntrySize(b, keyed, V1)
    decreases |b|, 1
  {
    hide AnySize;
    ShortAnyReads(b[if keyed then VarBytesSize(b).value else 0..]);
  }

  lemma {:induction false} ShortEntriesRead(b: bytes, count: nat, keyed: bool)
    requires |b| <= COLLECTION_LIMIT && EntriesSize(b, count, keyed, V1).Ok?
    ensures EntriesSize(b, count, keyed, V2) == EntriesSize(b, count, keyed, V1)
    decreases |b|, 2
  {
    hide EntrySize;
    if count > 0 {
      ShortEntryReads(b, keyed);
      ShortEntriesRead(b[EntrySize(b, keyed, V1).value..], count - 1, keyed);
    }
  }

  /** Bytes that are exactly one value for one of the readers. */
  predicate OneAny(raw: bytes, w: Format) {
    AnySize(raw, w) == Ok(|raw|)
  }

  predicate OneJson(raw: bytes, w: Format) {
    JsonSize(raw, w) == Ok(|raw|)
  }

  lemma OneAnyRead(raw: bytes, w: Format, rest: bytes)
    requires OneAny(raw, w)
    ensures ReadAny(raw + rest, w) == Ok((raw, rest))
  {
    AnySizeStable(raw, w, rest);
    assert (raw + rest)[..|raw|] == raw && (raw + rest)[|raw|..] == rest;
  }

  lemma OneJsonRead(raw: bytes, w: Format, rest: bytes)
    requires OneJson(raw, w)
    ensures ReadJson(raw + rest, w) == Ok((raw, rest))
  {
    if 116 <= raw[0] <= 127 {
      AnySizeStable(raw, w, rest);
    } else {
      VarBytesSizeStable(raw, rest);
    }
    assert (raw + rest)[..|raw|] == raw && (raw + rest)[|raw|..] == rest;
  }

  lemma ReadsOneAny(b: bytes, w: Format)
    requires ReadAny(b, w).Ok?
    ensures var (raw, rest) := ReadAny(b, w).value; OneAny(raw, w) && b == raw + rest
  {
    AnySizePrefix(b, w, AnySize(b, w).value);
  }

  lemma ReadsOneJson(b: bytes, w: Format)
    requires ReadJson(b, w).Ok?
    ensures var (raw, rest) := ReadJson(b, w).value; OneJson(raw, w) && b == raw + rest
  {
    var n := JsonSize(b, w).value;
    if 116 <= b[0] <= 127 {
      AnySizePrefix(b, w, n);
    } else {
      VarBytesSizePrefix(b, n);
    }
    assert b[..n][0] == b[0];
  }

  lemma AnyRoundTrip(raw: bytes, w: Format, rest: bytes)
    requires AnyValue(raw)
    ensures ReadAny(raw + rest, w) == Ok((raw, rest))
  {
    OneAnyRead(raw, w, rest);
  }

  lemma JsonRoundTrip(raw: bytes, w: Format, rest: bytes)
    requires JsonValue(raw)
    ensures ReadJson(raw + rest, w) == Ok((raw, rest))
  {
    OneJsonRead(raw, w, rest);
  }

  // ----- JSON texts whose length byte is an any tag -----

  /** The entries an array or object of tag `tag` finds in the text are exactly
      the text, for one reader. */
  predicate EntriesFill(text: bytes, tag: nat, w: Format) {
    && ReadVarUint(text).Ok?
    && var (count, entries) := ReadVarUint(text).value;
       EntriesSize(entries, count, tag == 118, w) == Ok(|entries|)
  }

  /** When a JSON text is read as what it is: its length byte is no any tag, or
      the value that byte announces happens to end where the text does. */
  predicate ReadWhole(text: bytes) {
    || |text| < 116 || |text| > 127
    || (|text| in {116, 119} && text[0] == |text| - 1)
    || (|text| in {117, 118} && EntriesFill(text, |text|, V1) && EntriesFill(text, |text|, V2))
  }

  lemma {:induction false} VarIntShort(b: bytes, limit: nat)
    requires VarIntSize(b, limit).Ok?
    ensures VarIntSize(b, limit).value <= limit
  {
    if b[0] >= 128 {
      VarIntShort(b[1..], limit - 1);
    }
  }

  lemma OneByteLength(text: bytes)
    requires |text| < 128
    ensures VarBytes(text) == [|text|] + text && VarBytes(text)[0] == |text| && VarBytes(text)[1..] == text
  {
  }

  /** A string's extent, as far as its length takes one byte. */
  lemma StringExtent(b: bytes)
    requires b != []
    ensures b[0] < 128 ==> VarBytesSize(b) == if b[0] < |b| then Ok(b[0] + 1) else Err(UnexpectedEOF)
    ensures b[0] >= 128 && |b| < 128 ==> VarBytesSize(b).Err?
  {
    if b[0] >= 128 && |b| < 128 && ReadVarUint(b).Ok? {
      var (v, rest) := ReadVarUint(b).value;
      VarUintCanonical(b);
      assert v >= 128;
    }
  }

  lemma ArrayExtent(text: bytes, w: Format)
    requires |text| in {117, 118}
    ensures JsonSize(VarBytes(text), w) == Ok(|VarBytes(text)|) <==> EntriesFill(text, |text|, w)
  {
    OneByteLength(text);
    hide EntriesSize, ReadVarUint, VarUint, VarBytes;
    if ReadVarUint(text).Ok? {
      var (count, entries) := ReadVarUint(text).value;
      if EntriesSize(entries, count, |text| == 118, w) == Ok(|entries|) {
        EntriesAtLeast(entries, count, |text| == 118, w);
      }
    }
  }

  lemma FixedExtent(text: bytes, w: Format)
    requires 120 <= |text| <= 127
    ensures JsonSize(VarBytes(text), w) != Ok(|VarBytes(text)|)
  {
    OneByteLength(text);
    if |text| == 125 && VarIntSize(text, if w == V1 then 6 else 10).Ok? {
      VarIntShort(text, if w == V1 then 6 else 10);
    }
  }

  /** A JSON text is one value for both readers if and only if it is read whole
      in the sense above. */
  lemma JsonTextExact(text: bytes)
    requires |text| <= MAX_U32
    ensures JsonValue(VarBytes(text)) <==> ReadWhole(text)
  {
    if |text| < 116 || |text| > 127 {
      VarBytesRoundTrip(text, []);
      assert VarBytes(text) + [] == VarBytes(text);
      if |text| >= 128 {
        assert VarUint(|text|)[0] >= 128;
      }
    } else if |text| in {116, 119} {
      OneByteLength(text);
      StringExtent(text);
    } else if |text| in {117, 118} {
      hide EntriesFill, JsonSize;
      ArrayExtent(text, V1);
      ArrayExtent(text, V2);
    } else {
      hide JsonSize;
      FixedExtent(text, V1);
    }
  }

  /** From 120 bytes of text on, but for 125, the reader takes one, five or nine
      bytes and goes on in the middle of the text. */
  lemma JsonTextCut(text: bytes, more: bytes, w: Format)
    requires 120 <= |text| <= 127 && |text| != 125
    ensures var b := VarBytes(text) + more;
            var n := if |text| == 124 then 5 else if |text| in {122, 123} then 9 else 1;
            ReadJson(b, w) == Ok((b[..n], b[n..]))
  {
    OneByteLength(text);
    var b := VarBytes(text) + more;
    assert b[0] == |text| && b[1..] == text + more;
  }

  /** With 116 or 119 bytes it takes the first byte of the text for a length: a
      smaller one cuts the text short, a larger one swallows what follows it. */
  lemma JsonTextPast(text: bytes, more: bytes, w: Format)
    requires |text| in {116, 119} && text[0] < 128
    ensures var b := VarBytes(text) + more;
            ReadJson(b, w) == if text[0] + 2 <= |b| then Ok((b[..text[0] + 2], b[text[0] + 2..]))
                else Err(UnexpectedEOF)
  {
    OneByteLength(text);
    var b := VarBytes(text) + more;
    assert b[0] == |text| && b[1..] == text + more && (text + more)[0] == text[0];
    StringExtent(text + more);
  }

  /** So an object of 119 bytes takes five bytes with it that are not its own. */
  lemma ObjectSwallows(text: bytes, more: bytes, w: Format)
    requires |text| == 119 && text[0] == 123 && |more| == 5
    ensures ReadJson(VarBytes(text) + more, w) == Ok((VarBytes(text) + more, []))
  {
    JsonTextPast(text, more, w);
    var b := VarBytes(text) + more;
    assert b[..|b|] == b && b[|b|..] == [];
  }
}
