/** The bounds-checked byte cursor and the canonical 32-bit varuint. */
module Wire {
  import opened Prelude

  /** Unsigned LEB128 (section 7.6 of DWARF 5), least significant group first. */
  function VarUint(v: nat): bytes {
    if v < 128 then [v] else [v % 128 + 128] + VarUint(v / 128)
  }

  /** One past the largest value that groups i, i+1, ..., 4 can still carry. */
  function GroupBound(i: nat): nat {
    match i
    case 0 => 0x1_0000_0000
    case 1 => 0x200_0000
    case 2 => 0x4_0000
    case 3 => 0x800
    case _ => 0x10
  }

  /** Reads the groups from index `i` on: at most five groups, the fifth below
      16, no redundant zero group at the end. */
  function ReadGroups(b: bytes, i: nat): (r: Result<(nat, bytes)>)
    requires i <= 4
    ensures r.Ok? ==> r.value.0 < GroupBound(i) && |r.value.1| < |b|
    decreases |b|
  {
    if b == [] then Err(UnexpectedEOF)
    else if i == 4 && b[0] > 15 then Err(Overflow)
    else if b[0] < 128 then
      if i > 0 && b[0] == 0 then Err(NonCanonical) else Ok((b[0], b[1..]))
    else
      var (v, rest) :- ReadGroups(b[1..], i + 1);
      Ok((b[0] - 128 + 128 * v, rest))
  }

  function ReadVarUint(b: bytes): (r: Result<(u32, bytes)>)
    ensures r.Ok? ==> |r.value.1| < |b|
  {
    var (v, rest) :- ReadGroups(b, 0);
    Ok((v, rest))
  }

  lemma {:induction false} GroupsRoundTrip(v: nat, i: nat, rest: bytes)
    requires i <= 4 && v < GroupBound(i) && (i > 0 ==> v > 0)
    ensures ReadGroups(VarUint(v) + rest, i) == Ok((v, rest))
  {
    var b := VarUint(v) + rest;
    if v < 128 {
      assert b[1..] == rest;
    } else {
      GroupsRoundTrip(v / 128, i + 1, rest);
      assert b[1..] == VarUint(v / 128) + rest;
    }
  }

  /** What is written is read back, and nothing after it is touched. */
  lemma VarUintRoundTrip(v: u32, rest: bytes)
    ensures ReadVarUint(VarUint(v) + rest) == Ok((v, rest))
  {
    GroupsRoundTrip(v, 0, rest);
  }

  lemma {:induction false} GroupsCanonical(b: bytes, i: nat)
    requires i <= 4 && ReadGroups(b, i).Ok?
    ensures var (v, rest) := ReadGroups(b, i).value;
            b == VarUint(v) + rest && (i > 0 ==> v > 0)
    decreases |b|
  {
    var (v, rest) := ReadGroups(b, i).value;
    if b[0] < 128 {
      assert b == [b[0]] + b[1..];
    } else {
      GroupsCanonical(b[1..], i + 1);
      var w := ReadGroups(b[1..], i + 1).value.0;
      assert v / 128 == w && v % 128 == b[0] - 128;
      assert b == [b[0]] + b[1..];
      assert VarUint(v) + rest == [b[0]] + (VarUint(w) + rest);
    }
  }

  /** The only byte string read as `v` is the one written for `v`. */
  lemma VarUintCanonical(b: bytes)
    requires ReadVarUint(b).Ok?
    ensures var (v, rest) := ReadVarUint(b).value; b == VarUint(v) + rest
  {
    GroupsCanonical(b, 0);
  }

  lemma {:induction false} GroupsStable(b: bytes, i: nat, more: bytes)
    requires i <= 4 && ReadGroups(b, i) != Err(UnexpectedEOF)
    ensures ReadGroups(b + more, i) ==
            match ReadGroups(b, i) { case Ok((v, rest)) => Ok((v, rest + more)) case Err(e) => Err(e) }
    decreases |b|
  {
    if !(i == 4 && b[0] > 15) && b[0] >= 128 {
      GroupsStable(b[1..], i + 1, more);
    }
    assert (b + more)[1..] == b[1..] + more;
  }

  /** Later bytes change neither a complete read nor a definite failure. */
  lemma VarUintStable(b: bytes, more: bytes)
    requires ReadVarUint(b) != Err(UnexpectedEOF)
    ensures ReadVarUint(b + more) ==
            match ReadVarUint(b) { case Ok((v, rest)) => Ok((v, rest + more)) case Err(e) => Err(e) }
  {
    GroupsStable(b, 0, more);
  }

  /** Length-prefixed bytes: what Go code calls a var byte array. */
  function VarBytes(data: bytes): bytes {
    VarUint(AsU32(|data|)) + data
  }

  function ReadN(b: bytes, n: nat): (r: Result<(bytes, bytes)>)
    ensures r.Ok? ==> r.value.0 + r.value.1 == b
  {
    if |b| < n then Err(UnexpectedEOF) else Ok((b[..n], b[n..]))
  }

  function ReadVarBytes(b: bytes): (r: Result<(bytes, bytes)>)
    ensures r.Ok? ==> |r.value.0| + |r.value.1| < |b|
  {
    var (n, rest) :- ReadVarUint(b);
    ReadN(rest, n)
  }

  lemma VarBytesRoundTrip(data: bytes, rest: bytes)
    requires |data| <= MAX_U32
    ensures ReadVarBytes(VarBytes(data) + rest) == Ok((data, rest))
  {
    VarUintRoundTrip(|data|, data + rest);
    assert VarBytes(data) + rest == VarUint(|data|) + (data + rest);
    assert (data + rest)[..|data|] == data && (data + rest)[|data|..] == rest;
  }

  /** The only bytes read as `data` are those written for it. */
  lemma VarBytesCanonical(b: bytes)
    requires ReadVarBytes(b).Ok?
    ensures var (data, rest) := ReadVarBytes(b).value; |data| <= MAX_U32 && b == VarBytes(data) + rest
  {
    VarUintCanonical(b);
    var (n, rest) := ReadVarUint(b).value;
    assert rest == rest[..n] + rest[n..];
    Assoc(VarUint(n), rest[..n], rest[n..]);
  }

  lemma VarBytesStable(b: bytes, more: bytes)
    requires ReadVarBytes(b) != Err(UnexpectedEOF)
    ensures ReadVarBytes(b + more) ==
            match ReadVarBytes(b) { case Ok((v, rest)) => Ok((v, rest + more)) case Err(e) => Err(e) }
  {
    VarUintStable(b, more);
    if ReadVarUint(b).Ok? {
      var (n, rest) := ReadVarUint(b).value;
      assert (rest + more)[..n] == rest[..n] && (rest + more)[n..] == rest[n..] + more;
    }
  }

  /** Sequential reads over an immutable buffer; the offset moves only after
      the bounds check has passed. */
  class Reader {
    const data: bytes
    var offset: nat

    ghost predicate Valid()
      reads this
    {
      offset <= |data|
    }

    ghost function Rest(): bytes
      requires Valid()
      reads this
    {
      data[offset..]
    }

    constructor (data: bytes)
      ensures Valid() && Rest() == data && this.data == data
    {
      this.data := data;
      offset := 0;
    }

    method ReadByte() returns (r: Result<byte>)
      requires Valid()
      modifies this`offset
      ensures Valid()
      ensures old(Rest()) == [] ==> r == Err(UnexpectedEOF) && Rest() == []
      ensures old(Rest()) != [] ==> r == Ok(old(Rest())[0]) && Rest() == old(Rest())[1..]
    {
      if |data| - offset < 1 {
        return Err(UnexpectedEOF);
      }
      r := Ok(data[offset]);
      offset := offset + 1;
    }

    method Take(n: int) returns (r: Result<bytes>)
      requires Valid()
      modifies this`offset
      ensures Valid()
      ensures n < 0 ==> r == Err(InvalidReadSize) && Rest() == old(Rest())
      ensures n >= 0 ==>
                match ReadN(old(Rest()), n)
                case Ok((taken, rest)) => r == Ok(taken) && Rest() == rest
                case Err(e) => r == Err(e) && Rest() == old(Rest())
    {
      if n < 0 {
        return Err(InvalidReadSize);
      }
      if |data| - offset < n {
        return Err(UnexpectedEOF);
      }
      assert data[offset..][..n] == data[offset..offset + n];
      assert data[offset..][n..] == data[offset + n..];
      r := Ok(data[offset..offset + n]);
      offset := offset + n;
    }
  }

  /** Appends the varuint of `value` to `dst`, one group per iteration. */
  method Append(dst: bytes, value: u32) returns (out: bytes)
    ensures out == dst + VarUint(value)
  {
    out := dst;
    var v: nat := value;
    while v >= 128
      invariant out + VarUint(v) == dst + VarUint(value)
    {
      assert out + VarUint(v) == out + [v % 128 + 128] + VarUint(v / 128);
      out := out + [v % 128 + 128];
      v := v / 128;
    }
    out := out + [v];
  }

  function EncodedLen(v: nat): nat {
    if v < 128 then 1 else 1 + EncodedLen(v / 128)
  }

  /** The weight 2^(7i) of group i. */
  function Weight(i: nat): nat {
    if i == 0 then 1 else 128 * Weight(i - 1)
  }

  lemma {:induction false} EncodedLenBound(v: nat, n: nat)
    requires n > 0
    ensures EncodedLen(v) <= n <==> v < Weight(n)
  {
    if n == 1 {
      assert Weight(1) == 128 * Weight(0);
    } else if v >= 128 {
      EncodedLenBound(v / 128, n - 1);
    } else {
      WeightGrows(n);
    }
  }

  lemma {:induction false} WeightGrows(n: nat)
    ensures n > 0 ==> Weight(n) >= 128
    ensures Weight(n) >= 1
  {
    if n > 0 {
      WeightGrows(n - 1);
    }
  }

  /** The length test of the loop below is exactly the no-zero-last-group rule. */
  lemma CanonicalTest(low: nat, i: nat, last: nat)
    requires low < Weight(i) && last < 128
    ensures EncodedLen(low + last * Weight(i)) == i + 1 <==> (i == 0 || last > 0)
    ensures low + last * Weight(i) < Weight(i + 1)
  {
    var w := Weight(i);
    var v := low + last * w;
    TimesWithin(last, w);
    assert Weight(i + 1) == 128 * w;
    EncodedLenBound(v, i + 1);
    if i > 0 {
      EncodedLenBound(v, i);
    }
  }

  lemma TimesWithin(n: nat, w: nat)
    requires n < 128
    ensures n * w <= 127 * w
    ensures n > 0 ==> n * w >= w
    ensures n == 0 ==> n * w == 0
  {
  }

  ghost function Shifted(low: nat, i: nat, r: Result<(nat, bytes)>): Result<(nat, bytes)> {
    match r
    case Ok((v, rest)) => Ok((low + v * Weight(i), rest))
    case Err(e) => Err(e)
  }

  lemma ShiftedStep(low: nat, i: nat, b: bytes)
    requires i < 4 && b != [] && b[0] >= 128
    ensures Shifted(low, i, ReadGroups(b, i)) ==
            Shifted(low + (b[0] - 128) * Weight(i), i + 1, ReadGroups(b[1..], i + 1))
  {
    var r := ReadGroups(b[1..], i + 1);
    if r.Ok? {
      var v := r.value.0;
      assert v * Weight(i + 1) == (128 * v) * Weight(i) by {
        assert Weight(i + 1) == 128 * Weight(i);
      }
      assert (b[0] - 128 + 128 * v) * Weight(i) == (b[0] - 128) * Weight(i) + (128 * v) * Weight(i);
    }
  }

  datatype Step = Done(out: Result<u32>) | More(value: nat)

  /** `out` and the bytes left are what `want` says. */
  ghost predicate Agrees(want: Result<(nat, bytes)>, out: Result<u32>, rest: bytes) {
    match want
    case Ok((v, left)) => v <= MAX_U32 && out == Ok(v) && rest == left
    case Err(e) => out == Err(e)
  }

  /** The body of the loop below, for group `i` above the value so far. */
  /** The last group, and no group at all. */
  lemma LastGroup(low: nat, i: nat, b: bytes)
    requires i <= 4
    ensures b == [] ==> ReadGroups(b, i) == Err(UnexpectedEOF)
    ensures b != [] && i == 4 && b[0] > 15 ==> ReadGroups(b, i) == Err(Overflow)
    ensures b != [] && b[0] < 128 && (i == 4 ==> b[0] <= 15) ==>
              Shifted(low, i, ReadGroups(b, i)) ==
              if i > 0 && b[0] == 0 then Err(NonCanonical) else Ok((low + b[0] * Weight(i), b[1..]))
  {
    hide Weight;
  }

  method ReadGroup(r: Reader, value: nat, i: nat) returns (step: Step)
    requires r.Valid() && i <= 4 && value < Weight(i)
    modifies r`offset
    ensures r.Valid()
    ensures var want := Shifted(value, i, ReadGroups(old(r.Rest()), i));
            match step
            case Done(out) => Agrees(want, out, r.Rest())
            case More(next) => i < 4 && next < Weight(i + 1) &&
                               want == Shifted(next, i + 1, ReadGroups(r.Rest(), i + 1))
  {
    ghost var before := r.Rest();
    var got := r.ReadByte();
    if got.Err? {
      return Done(Err(UnexpectedEOF));
    }
    var b := got.value;
    if i == 4 && b > 15 {
      return Done(Err(Overflow));
    }
    CanonicalTest(value, i, b % 128);
    LastGroup(value, i, before);
    hide Weight, EncodedLen, ReadGroups;
    var next := value + b % 128 * Weight(i);
    if b < 128 {
      if EncodedLen(next) != i + 1 {
        return Done(Err(NonCanonical));
      }
      WeightBound(value, i, b);
      return Done(Ok(next));
    }
    ShiftedStep(value, i, before);
    step := More(next);
  }

  lemma WeightBound(low: nat, i: nat, last: nat)
    requires i <= 4 && low < Weight(i) && last < 128 && (i == 4 ==> last <= 15)
    ensures low + last * Weight(i) <= MAX_U32
  {
    assert Weight(1) == 0x80 && Weight(2) == 0x4000 && Weight(3) == 0x20_0000;
    assert Weight(4) == 128 * Weight(3);
  }

  /** Reads one canonical varuint; the bytes of a rejected one stay consumed. */
  method Read(r: Reader) returns (out: Result<u32>)
    requires r.Valid()
    modifies r`offset
    ensures r.Valid()
    ensures match ReadVarUint(old(r.Rest()))
            case Ok((v, rest)) => out == Ok(v) && r.Rest() == rest
            case Err(e) => out == Err(e)
  {
    ghost var want := ReadGroups(r.Rest(), 0);
    var value: nat := 0;
    var i := 0;
    while i < 5
      invariant 0 <= i <= 4 && r.Valid() && value < Weight(i)
      invariant want == Shifted(value, i, ReadGroups(r.Rest(), i))
      decreases 5 - i
    {
      var step := ReadGroup(r, value, i);
      if step.Done? {
        return step.out;
      }
      value := step.value;
      i := i + 1;
    }
    out := Err(Overflow);
  }
}
