/** The column encoders and decoders as the objects they are, each proved
    against the functions of the codec. */
module Columns {
  import opened Prelude
  import opened Wire
  import opened Text
  import opened CodecV1
  import opened Lib0

  // ----- Encoders -----

  /** Whatever is still written, the column will be the code of everything. */
  ghost predicate UintHolds(written: seq<u32>, value: u32, count: nat, data: bytes) {
    forall more :: EncUints(written + more) == data + UintRuns(value, count, more)
  }

  lemma UintStart(value: u32)
    ensures UintHolds([], 0, 0, [])
  {
    forall more
      ensures EncUints([] + more) == [] + UintRuns(0, 0, more)
    {
      assert [] + more == more;
    }
  }

  lemma UintWrite(written: seq<u32>, value: u32, count: nat, data: bytes, x: u32)
    requires UintHolds(written, value, count, data)
    ensures if count > 0 && value == x then UintHolds(written + [x], value, count + 1, data)
            else UintHolds(written + [x], x, 1, data + UintRun(value, count))
  {
    hide EncUints, UintRun;
    forall more
      ensures var out := EncUints(written + [x] + more);
              if count > 0 && value == x then out == data + UintRuns(value, count + 1, more)
              else out == data + UintRun(value, count) + UintRuns(x, 1, more)
    {
      Assoc(written, [x], more);
      assert ([x] + more)[1..] == more;
      Assoc(data, UintRun(value, count), UintRuns(x, 1, more));
    }
  }

  class UintOptRleEncoder {
    var value: u32
    var count: nat
    var data: bytes
    ghost var written: seq<u32>

    ghost predicate Valid()
      reads this
    {
      UintHolds(written, value, count, data)
    }

    constructor ()
      ensures Valid() && written == []
    {
      value, count, data, written := 0, 0, [], [];
      new;
      UintStart(0);
    }

    method Write(x: u32)
      requires Valid()
      modifies this
      ensures Valid() && written == old(written) + [x]
    {
      hide UintHolds, UintRun;
      UintWrite(written, value, count, data, x);
      written := written + [x];
      if count > 0 && value == x {
        count := count + 1;
        return;
      }
      Flush();
      value := x;
      count := 1;
    }

    method Flush()
      modifies this
      ensures data == old(data + UintRun(value, count)) && count == 0 && value == old(value) && written == old(written)
    {
      if count == 0 {
        return;
      }
      Assoc(data, VarInt(value, count > 1), if count > 1 then VarUint(AsU32(count - 2)) else []);
      data := data + VarInt(value, count > 1);
      if count > 1 {
        data := data + VarUint(AsU32(count - 2));
      }
      count := 0;
    }

    method Bytes() returns (out: bytes)
      requires Valid()
      modifies this
      ensures out == EncUints(old(written))
    {
      assert written + [] == written;
      assert EncUints(written + []) == data + UintRuns(value, count, []);
      Flush();
      out := data;
    }
  }

  ghost predicate DiffHolds(written: seq<u32>, value: int, diff: int, count: nat, data: bytes) {
    forall more :: EncDiffs(written + more) == data + DiffRuns(value, diff, count, more)
  }

  lemma DiffWrite(written: seq<u32>, value: int, diff: int, count: nat, data: bytes, x: u32)
    requires DiffHolds(written, value, diff, count, data)
    ensures if count > 0 && diff == x - value then DiffHolds(written + [x], x, diff, count + 1, data)
            else DiffHolds(written + [x], x, x - value, 1, data + DiffRun(diff, count))
  {
    hide EncDiffs, DiffRun;
    forall more
      ensures var out := EncDiffs(written + [x] + more);
              if count > 0 && diff == x - value then out == data + DiffRuns(x, diff, count + 1, more)
              else out == data + DiffRun(diff, count) + DiffRuns(x, x - value, 1, more)
    {
      Assoc(written, [x], more);
      assert ([x] + more)[1..] == more;
      Assoc(data, DiffRun(diff, count), DiffRuns(x, x - value, 1, more));
    }
  }

  lemma DiffStart()
    ensures DiffHolds([], 0, 0, 0, [])
  {
    forall more
      ensures EncDiffs([] + more) == [] + DiffRuns(0, 0, 0, more)
    {
      assert [] + more == more;
    }
  }

  class IntDiffOptRleEncoder {
    var value: int
    var diff: int
    var count: nat
    var data: bytes
    ghost var written: seq<u32>

    ghost predicate Valid()
      reads this
    {
      DiffHolds(written, value, diff, count, data)
    }

    constructor ()
      ensures Valid() && written == []
    {
      value, diff, count, data, written := 0, 0, 0, [], [];
      new;
      DiffStart();
    }

    method Write(x: u32)
      requires Valid()
      modifies this
      ensures Valid() && written == old(written) + [x]
    {
      hide DiffHolds, DiffRun;
      DiffWrite(written, value, diff, count, data, x);
      written := written + [x];
      var step := x - value;
      if count > 0 && diff == step {
        value := x;
        count := count + 1;
        return;
      }
      Flush();
      value := x;
      diff := step;
      count := 1;
    }

    method Flush()
      modifies this
      ensures data == old(data + DiffRun(diff, count)) && count == 0
      ensures value == old(value) && diff == old(diff) && written == old(written)
    {
      hide SignedVarInt, VarUint;
      if count == 0 {
        assert data + [] == data;
        return;
      }
      var encoded := diff * 2;
      if count > 1 {
        encoded := encoded + 1;
      }
      Assoc(data, SignedVarInt(encoded), if count > 1 then VarUint(AsU32(count - 2)) else []);
      data := data + SignedVarInt(encoded);
      if count > 1 {
        data := data + VarUint(AsU32(count - 2));
      }
      count := 0;
    }

    method Bytes() returns (out: bytes)
      requires Valid()
      modifies this
      ensures out == EncDiffs(old(written))
    {
      assert written + [] == written;
      assert EncDiffs(written + []) == data + DiffRuns(value, diff, count, []);
      Flush();
      out := data;
    }
  }

  ghost predicate ByteHolds(written: seq<byte>, value: byte, count: nat, data: bytes) {
    if count == 0 then written == [] && data == []
    else forall more :: EncBytes(written + more) == data + ByteRuns(value, count, more)
  }

  lemma ByteWrite(written: seq<byte>, value: byte, count: nat, data: bytes, x: byte)
    requires ByteHolds(written, value, count, data)
    ensures if count > 0 && value == x then ByteHolds(written + [x], value, count + 1, data)
            else ByteHolds(written + [x], x, 1, data + (if count > 0 then VarUint(AsU32(count - 1)) else []) + [x])
  {
    hide VarUint;
    forall more
      ensures var out := EncBytes(written + [x] + more);
              if count > 0 && value == x then out == data + ByteRuns(value, count + 1, more)
              else out == data + (if count > 0 then VarUint(AsU32(count - 1)) else []) + [x] + ByteRuns(x, 1, more)
    {
      Assoc(written, [x], more);
      assert ([x] + more)[1..] == more;
      if count > 0 {
        hide EncBytes;
        assert EncBytes(written + ([x] + more)) == data + ByteRuns(value, count, [x] + more);
        var c := VarUint(AsU32(count - 1));
        assert data + (c + ([x] + ByteRuns(x, 1, more))) == data + c + [x] + ByteRuns(x, 1, more);
      } else {
        assert [] + ([x] + more) == [x] + more;
        assert [] + [] + [x] + ByteRuns(x, 1, more) == [x] + ByteRuns(x, 1, more);
      }
    }
  }

  class RleByteEncoder {
    var value: byte
    var count: nat
    var data: bytes
    ghost var written: seq<byte>

    ghost predicate Valid()
      reads this
    {
      ByteHolds(written, value, count, data)
    }

    constructor ()
      ensures Valid() && written == []
    {
      value, count, data, written := 0, 0, [], [];
    }

    method Write(x: byte)
      requires Valid()
      modifies this
      ensures Valid() && written == old(written) + [x]
    {
      hide ByteHolds, VarUint;
      ByteWrite(written, value, count, data, x);
      written := written + [x];
      if count > 0 && value == x {
        count := count + 1;
        return;
      }
      if count > 0 {
        data := data + VarUint(AsU32(count - 1));
      } else {
        assert data + [] == data;
      }
      value := x;
      count := 1;
      data := data + [x];
    }

    method Bytes() returns (out: bytes)
      requires Valid()
      ensures out == EncBytes(written)
    {
      assert written + [] == written;
      if count > 0 {
        assert EncBytes(written + []) == data + ByteRuns(value, count, []);
      }
      out := data;
    }
  }

  lemma {:induction false} JoinedMore(strs: seq<string>, s: string)
    ensures JoinedText(strs + [s]) == JoinedText(strs) + s
    ensures Lengths(strs + [s]) == Lengths(strs) + [AsU32(Utf16Length(s))]
  {
    if strs != [] {
      JoinedMore(strs[1..], s);
      assert (strs + [s])[1..] == strs[1..] + [s];
      Assoc(strs[0], JoinedText(strs[1..]), s);
      Assoc([AsU32(Utf16Length(strs[0]))], Lengths(strs[1..]), [AsU32(Utf16Length(s))]);
    } else {
      assert ([] + [s])[1..] == [] && s + "" == s && "" + s == s;
    }
  }

  class StringEncoder {
    var table: string
    const lengths: UintOptRleEncoder
    ghost var written: seq<string>

    ghost predicate Valid()
      reads this, lengths
    {
      lengths.Valid() && table == JoinedText(written) && lengths.written == Lengths(written)
    }

    constructor ()
      ensures Valid() && written == [] && fresh(lengths)
    {
      table, written := "", [];
      lengths := new UintOptRleEncoder();
    }

    method Write(s: string)
      requires Valid()
      modifies this, lengths
      ensures Valid() && written == old(written) + [s]
    {
      hide UintOptRleEncoder.Valid;
      JoinedMore(written, s);
      table := table + s;
      lengths.Write(AsU32(Utf16Length(s)));
      written := written + [s];
    }

    method Bytes() returns (out: bytes)
      requires Valid()
      modifies this, lengths
      ensures out == EncStrings(old(written))
    {
      out := VarStr(table);
      var column := lengths.Bytes();
      out := out + column;
    }
  }

  // ----- Decoders -----

  /** readLib0VarInt over a cursor: magnitude and sign. */
  method ReadSigned(r: Reader) returns (out: Result<(nat, bool)>)
    requires r.Valid()
    modifies r`offset
    ensures r.Valid()
    ensures match ReadVarInt(old(r.Rest()))
            case Ok((v, rest)) => out == Ok(v) && r.Rest() == rest
            case Err(e) => out == Err(e)
  {
    ghost var all := r.Rest();
    var first := r.ReadByte();
    if first.Err? {
      return Err(UnexpectedEOF);
    }
    var negative := first.value % 128 >= 64;
    var value: nat := first.value % 64;
    if first.value < 128 {
      return Ok((value, negative));
    }
    var mult: nat := 64;
    ghost var want := ReadTail(all[1..], 0, value);
    assert mult == Mult(0);
    hide ReadVarInt, ReadTail, Mult;
    assert ReadVarInt(all) == match want { case Ok((v, rest)) => Ok(((v, negative), rest)) case Err(e) => Err(e) } by {
      SignedParts(all);
    }
    for i := 0 to 9
      invariant r.Valid() && mult == Mult(i) && value <= MAX_I64
      invariant want == ReadTail(r.Rest(), i, value)
    {
      TailStep(r.Rest(), i, value);
      ghost var before := r.Rest();
      var b := r.ReadByte();
      if b.Err? {
        return Err(UnexpectedEOF);
      }
      if mult > MAX_I64 / 128 {
        return Err(Overflow);
      }
      var next: nat := b.value % 128;
      if next > (MAX_I64 - value) / mult {
        return Err(Overflow);
      }
      WithinI64(next, value, mult);
      value := value + next * mult;
      if b.value < 128 {
        return Ok((value, negative));
      }
      mult := mult * 128;
    }
    TailEnds(r.Rest(), value);
    out := Err(Overflow);
  }

  lemma SignedParts(b: bytes)
    requires b != [] && b[0] >= 128
    ensures var want := ReadTail(b[1..], 0, b[0] % 64);
            if want.Ok? then ReadVarInt(b) == Ok(((want.value.0, b[0] % 128 >= 64), want.value.1))
            else ReadVarInt(b) == Err(want.error)
  {
    hide ReadTail;
  }

  /** One group of the tail, and the factor of the next. */
  lemma TailStep(b: bytes, i: nat, value: nat)
    requires i < 9 && value <= MAX_I64
    ensures Mult(i + 1) == 128 * Mult(i)
    ensures ReadTail(b, i, value) ==
            if b == [] then Err(UnexpectedEOF)
            else if Mult(i) > MAX_I64 / 128 || b[0] % 128 > (MAX_I64 - value) / Mult(i) then Err(Overflow)
            else
              var next := value + b[0] % 128 * Mult(i);
              if b[0] < 128 then Ok((next, b[1..])) else ReadTail(b[1..], i + 1, next)
  {
  }

  lemma TailEnds(b: bytes, value: nat)
    ensures ReadTail(b, 9, value) == Err(Overflow)
  {
  }

  lemma WithinI64(next: nat, value: nat, mult: nat)
    requires mult > 0 && value <= MAX_I64 && next <= (MAX_I64 - value) / mult
    ensures value + next * mult <= MAX_I64
  {
    var q := (MAX_I64 - value) / mult;
    assert q * mult <= MAX_I64 - value;
    assert next * mult <= q * mult;
  }

  class UintOptRleDecoder {
    const reader: Reader
    var value: u32
    var count: nat

    ghost predicate Valid()
      reads this, reader
    {
      reader.Valid()
    }

    ghost function State(): UintState
      requires Valid()
      reads this, reader
    {
      UintState(reader.Rest(), value, count)
    }

    constructor (reader: Reader)
      requires reader.Valid()
      ensures this.reader == reader && Valid() && State() == UintState(reader.Rest(), 0, 0)
    {
      this.reader := reader;
      value, count := 0, 0;
    }

    method Read() returns (r: Result<u32>)
      requires Valid()
      modifies this, reader
      ensures Valid()
      ensures match ReadUint(old(State()))
              case Ok((v, st)) => r == Ok(v) && State() == st
              case Err(e) => r == Err(e)
    {
      hide ReadVarInt, ReadVarUint;
      if count == 0 {
        var signed := ReadSigned(reader);
        if signed.Err? {
          return Err(signed.error);
        }
        var (magnitude, negative) := signed.value;
        if magnitude > MAX_U32 {
          return Err(Overflow);
        }
        value := magnitude;
        count := 1;
        if negative {
          var n := Wire.Read(reader);
          if n.Err? {
            return Err(n.error);
          }
          count := 2 + n.value as nat;
        }
      }
      count := count - 1;
      r := Ok(value);
    }

    method EnsureDrained() returns (r: Result<()>)
      requires Valid()
      ensures r == if UintDrained(State()) then Ok(()) else Err(TrailingBytes)
    {
      if count > 0 || reader.offset != |reader.data| {
        return Err(TrailingBytes);
      }
      r := Ok(());
    }
  }

  class IntDiffOptRleDecoder {
    const reader: Reader
    var value: int
    var diff: int
    var count: nat

    ghost predicate Valid()
      reads this, reader
    {
      reader.Valid()
    }

    ghost function State(): DiffState
      requires Valid()
      reads this, reader
    {
      DiffState(reader.Rest(), value, diff, count)
    }

    constructor (reader: Reader)
      requires reader.Valid()
      ensures this.reader == reader && Valid() && State() == DiffState(reader.Rest(), 0, 0, 0)
    {
      this.reader := reader;
      value, diff, count := 0, 0, 0;
    }

    method Read() returns (r: Result<u32>)
      requires Valid()
      modifies this, reader
      ensures Valid()
      ensures match ReadDiff(old(State()))
              case Ok((v, st)) => r == Ok(v) && State() == st
              case Err(e) => r == Err(e)
    {
      hide ReadVarInt, ReadVarUint;
      if count == 0 {
        var signed := ReadSigned(reader);
        if signed.Err? {
          return Err(signed.error);
        }
        var encoded: int := if signed.value.1 then -(signed.value.0 as int) else signed.value.0;
        diff := FloorDiv2(encoded);
        count := 1;
        if encoded % 2 != 0 {
          var n := Wire.Read(reader);
          if n.Err? {
            return Err(n.error);
          }
          count := 2 + n.value as nat;
        }
      }
      value := value + diff;
      count := count - 1;
      if value < 0 || value > MAX_U32 {
        return Err(Overflow);
      }
      r := Ok(value);
    }
  }

  class RleByteDecoder {
    const reader: Reader
    var value: byte
    var count: int

    ghost predicate Valid()
      reads this, reader
    {
      reader.Valid()
    }

    ghost function State(): ByteState
      requires Valid()
      reads this, reader
    {
      ByteState(reader.Rest(), value, count)
    }

    constructor (reader: Reader)
      requires reader.Valid()
      ensures this.reader == reader && Valid() && State() == ByteState(reader.Rest(), 0, 0)
    {
      this.reader := reader;
      value, count := 0, 0;
    }

    method Read() returns (r: Result<byte>)
      requires Valid()
      modifies this, reader
      ensures Valid()
      ensures match ReadByteRun(old(State()))
              case Ok((v, st)) => r == Ok(v) && State() == st
              case Err(e) => r == Err(e)
    {
      hide ReadVarUint;
      if count == 0 {
        var next := reader.ReadByte();
        if next.Err? {
          return Err(next.error);
        }
        value := next.value;
        if |reader.data| - reader.offset > 0 {
          var n := Wire.Read(reader);
          if n.Err? {
            return Err(n.error);
          }
          count := 1 + n.value as nat;
        } else {
          count := -1;
        }
      }
      count := count - 1;
      r := Ok(value);
    }
  }

  class StringDecoder {
    const lengths: UintOptRleDecoder
    const table: string
    var pos: nat

    ghost predicate Valid()
      reads this, lengths, lengths.reader
    {
      lengths.Valid()
    }

    ghost function State(): StringState
      requires Valid()
      reads this, lengths, lengths.reader
    {
      StringState(lengths.State(), table, pos)
    }

    constructor (table: string, lengths: UintOptRleDecoder)
      requires lengths.Valid()
      ensures this.lengths == lengths && Valid() && State() == StringState(lengths.State(), table, 0)
    {
      this.lengths, this.table, pos := lengths, table, 0;
    }

    method Read() returns (r: Result<string>)
      requires Valid()
      modifies this, lengths, lengths.reader
      ensures Valid()
      ensures match ReadText(old(State()))
              case Ok((s, st)) => r == Ok(s) && State() == st
              case Err(e) => r == Err(e)
    {
      hide ReadUint, TableLength, TableSlice;
      var length := lengths.Read();
      if length.Err? {
        return Err(length.error);
      }
      var end := pos + length.value;
      if end > TableLength(table) {
        return Err(UnexpectedEOF);
      }
      r := Ok(TableSlice(table, pos, end));
      pos := end;
    }
  }
}
