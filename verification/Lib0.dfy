/** The run-length column codecs of the V2 wire form, as functions: what each
    encoder produces for a sequence, and how each decoder consumes it. */
module Lib0 {
  import opened Prelude
  import opened Wire
  import opened Text
  import opened CodecV1

  // ----- Signed variable-length integers -----

  const MAX_I64 := 0x7FFF_FFFF_FFFF_FFFF

  /** Six bits and the sign in the first byte, seven bits in each later one. The
      sign is written even for zero, where it carries the run flag alone. */
  function VarInt(magnitude: nat, negative: bool): bytes {
    [magnitude % 64 + (if negative then 0x40 else 0) + (if magnitude / 64 > 0 then 0x80 else 0)] +
    (if magnitude / 64 > 0 then VarUint(magnitude / 64) else [])
  }

  function SignedVarInt(v: int): bytes {
    if v < 0 then VarInt(-v, true) else VarInt(v, false)
  }

  /** The weight of the group read in round `i`: 64 * 128^i. */
  function Mult(i: nat): (m: nat)
    ensures m > 0
  {
    if i == 0 then 64 else 128 * Mult(i - 1)
  }

  /** Rounds `i` to 8 of the reader's loop. */
  function ReadTail(b: bytes, i: nat, value: nat): Result<(nat, bytes)>
    decreases |b|
  {
    if i >= 9 then Err(Overflow)
    else if b == [] then Err(UnexpectedEOF)
    else if Mult(i) > MAX_I64 / 128 || value > MAX_I64 then Err(Overflow)
    else if b[0] % 128 > (MAX_I64 - value) / Mult(i) then Err(Overflow)
    else
      var next := value + b[0] % 128 * Mult(i);
      if b[0] < 128 then Ok((next, b[1..])) else ReadTail(b[1..], i + 1, next)
  }

  /** readLib0VarInt: the magnitude and the sign, which may stand on a zero. */
  function ReadVarInt(b: bytes): Result<((nat, bool), bytes)> {
    if b == [] then Err(UnexpectedEOF)
    else
      var negative := b[0] % 128 >= 64;
      if b[0] < 128 then Ok(((b[0] % 64, negative), b[1..]))
      else
        var (value, rest) :- ReadTail(b[1..], 0, b[0] % 64);
        Ok(((value, negative), rest))
  }

  /** What groups i, i+1, ..., 4 can carry. */
  function TailBound(i: nat): nat {
    match i
    case 0 => 0x8_0000_0000
    case 1 => 0x1000_0000
    case 2 => 0x20_0000
    case 3 => 0x4000
    case _ => 0x80
  }

  lemma MultValues()
    ensures Mult(0) == 0x40 && Mult(1) == 0x2000 && Mult(2) == 0x10_0000 && Mult(3) == 0x800_0000
    ensures Mult(4) == 0x4_0000_0000
  {
    assert Mult(1) == 128 * Mult(0);
    assert Mult(2) == 128 * Mult(1);
    assert Mult(3) == 128 * Mult(2);
    assert Mult(4) == 128 * Mult(3);
  }

  lemma MultBounds(i: nat, w: nat, value: nat)
    requires i <= 4 && w < TailBound(i) && value < Mult(i)
    ensures Mult(i) <= MAX_I64 / 128 && value <= MAX_I64
    ensures w % 128 <= (MAX_I64 - value) / Mult(i)
    ensures value + w % 128 * Mult(i) < Mult(i + 1)
  {
    MultValues();
    assert Mult(5) == 128 * Mult(4);
    match i
    case 0 =>
    case 1 =>
    case 2 =>
    case 3 =>
    case _ =>
  }

  lemma GroupSplit(w: nat, m: nat, value: nat)
    ensures value + w % 128 * m + w / 128 * (128 * m) == value + w * m
  {
    assert w == w % 128 + 128 * (w / 128);
    assert w * m == (w % 128 + 128 * (w / 128)) * m;
    assert (w % 128 + 128 * (w / 128)) * m == w % 128 * m + (128 * (w / 128)) * m;
    assert (128 * (w / 128)) * m == w / 128 * (128 * m);
  }

  lemma {:induction false} TailRoundTrip(w: nat, i: nat, value: nat, rest: bytes)
    requires i <= 4 && 0 < w < TailBound(i) && value < Mult(i)
    ensures ReadTail(VarUint(w) + rest, i, value) == Ok((value + w * Mult(i), rest))
    decreases w
  {
    var b := VarUint(w) + rest;
    MultBounds(i, w, value);
    GroupSplit(w, Mult(i), value);
    if w < 128 {
      assert b[1..] == rest && b[0] == w;
    } else {
      assert b[0] == w % 128 + 128 && b[1..] == VarUint(w / 128) + rest;
      TailRoundTrip(w / 128, i + 1, value + w % 128 * Mult(i), rest);
      assert Mult(i + 1) == 128 * Mult(i);
    }
  }

  /** Magnitude and sign come back, for every magnitude below 2^40. */
  lemma VarIntRoundTrip(magnitude: nat, negative: bool, rest: bytes)
    requires magnitude < 0x200_0000_0000
    ensures ReadVarInt(VarInt(magnitude, negative) + rest) == Ok(((magnitude, negative), rest))
  {
    hide VarUint, ReadTail;
    var b := VarInt(magnitude, negative) + rest;
    if magnitude / 64 > 0 {
      assert b[1..] == VarUint(magnitude / 64) + rest;
      TailRoundTrip(magnitude / 64, 0, magnitude % 64, rest);
    } else {
      assert b[1..] == rest;
    }
  }

  /** Go's division truncates toward zero. */
  function GoHalf(v: int): int {
    if v < 0 then -((-v) / 2) else v / 2
  }

  function FloorDiv2(v: int): (q: int)
    ensures 2 * q <= v < 2 * q + 2
  {
    if v < 0 && (-v) % 2 != 0 then GoHalf(v) - 1 else GoHalf(v)
  }

  function Repeat<T>(x: T, n: nat): (s: seq<T>)
    ensures |s| == n && forall i :: 0 <= i < n ==> s[i] == x
  {
    if n == 0 then [] else [x] + Repeat(x, n - 1)
  }

  lemma RepeatMore<T>(x: T, n: nat, s: seq<T>)
    ensures Repeat(x, n) + ([x] + s) == Repeat(x, n + 1) + s
  {
  }

  // ----- Unsigned run-length column -----

  /** A run: the value with the sign as run flag, then the count less two. */
  function UintRun(v: u32, n: nat): bytes {
    if n == 0 then [] else VarInt(v, n > 1) + (if n > 1 then VarUint(AsU32(n - 2)) else [])
  }

  /** What an open run (v, n) and the values still to come are written as. */
  function UintRuns(v: u32, n: nat, more: seq<u32>): bytes
    decreases |more|
  {
    if more == [] then UintRun(v, n)
    else if n > 0 && more[0] == v then UintRuns(v, n + 1, more[1..])
    else UintRun(v, n) + UintRuns(more[0], 1, more[1..])
  }

  function EncUints(vals: seq<u32>): bytes {
    UintRuns(0, 0, vals)
  }

  datatype UintState = UintState(rest: bytes, value: u32, count: nat)

  /** The start of a run, then one value of it. */
  function ReadUint(st: UintState): Result<(u32, UintState)> {
    if st.count > 0 then Ok((st.value, st.(count := st.count - 1)))
    else
      var ((value, negative), b1) :- ReadVarInt(st.rest);
      if value > MAX_U32 then Err(Overflow)
      else if !negative then Ok((value, UintState(b1, value, 0)))
      else
        var (n, b2) :- ReadVarUint(b1);
        Ok((value, UintState(b2, value, n + 1)))
  }

  predicate UintDrained(st: UintState) {
    st.count == 0 && st.rest == []
  }

  /** Reading yields exactly `vals`, and then nothing is left. */
  predicate UintYields(st: UintState, vals: seq<u32>)
    decreases |vals|
  {
    if vals == [] then UintDrained(st)
    else ReadUint(st).Ok? && ReadUint(st).value.0 == vals[0] && UintYields(ReadUint(st).value.1, vals[1..])
  }

  lemma {:induction false} UintCopies(st: UintState, vals: seq<u32>)
    requires UintYields(st.(count := 0), vals)
    ensures UintYields(st, Repeat(st.value, st.count) + vals)
    decreases st.count
  {
    hide ReadVarInt;
    var all := Repeat(st.value, st.count) + vals;
    if st.count > 0 {
      UintCopies(st.(count := st.count - 1), vals);
      assert all[1..] == Repeat(st.value, st.count - 1) + vals;
    } else {
      assert all == vals;
    }
  }

  /** Reading the start of a run of `n` leaves the other n - 1 copies. */
  lemma UintRunRead(v: u32, n: nat, prior: u32, rest: bytes)
    requires 0 < n <= MAX_U32 + 2
    ensures ReadUint(UintState(UintRun(v, n) + rest, prior, 0)) == Ok((v, UintState(rest, v, n - 1)))
  {
    var tail := if n > 1 then VarUint(AsU32(n - 2)) else [];
    Assoc(VarInt(v, n > 1), tail, rest);
    VarIntRoundTrip(v, n > 1, tail + rest);
    if n > 1 {
      VarUintRoundTrip(n - 2, rest);
    } else {
      assert tail + rest == rest;
    }
  }

  lemma UintOneRun(v: u32, n: nat, prior: u32, rest: bytes, vals: seq<u32>)
    requires 0 < n <= MAX_U32 + 2 && UintYields(UintState(rest, v, 0), vals)
    ensures UintYields(UintState(UintRun(v, n) + rest, prior, 0), Repeat(v, n) + vals)
  {
    hide UintRun, ReadVarInt, ReadVarUint;
    UintRunRead(v, n, prior, rest);
    hide ReadUint;
    UintCopies(UintState(rest, v, n - 1), vals);
    assert (Repeat(v, n) + vals)[1..] == Repeat(v, n - 1) + vals;
  }

  lemma {:induction false} UintRunsYield(v: u32, n: nat, more: seq<u32>, prior: u32)
    requires n + |more| <= MAX_U32 + 2
    ensures UintYields(UintState(UintRuns(v, n, more), prior, 0), Repeat(v, n) + more)
    decreases |more|
  {
    hide UintRun, ReadUint;
    if more == [] {
      if n > 0 {
        UintOneRun(v, n, prior, [], []);
        assert UintRun(v, n) + [] == UintRun(v, n);
      } else {
        UintNoRun(v);
      }
    } else {
      var x, tail := more[0], more[1..];
      assert more == [x] + tail;
      if n > 0 && x == v {
        UintRunsYield(v, n + 1, tail, prior);
        RepeatMore(v, n, tail);
      } else if n > 0 {
        UintRunsYield(x, 1, tail, v);
        assert Repeat(x, 1) + tail == more;
        UintOneRun(v, n, prior, UintRuns(x, 1, tail), more);
      } else {
        UintRunsYield(x, 1, tail, prior);
        UintNoRun(v);
        assert Repeat(x, 1) + tail == more && Repeat(v, 0) + more == more;
        assert [] + UintRuns(x, 1, tail) == UintRuns(x, 1, tail);
      }
    }
  }

  lemma UintNoRun(v: u32)
    ensures UintRun(v, 0) == [] && Repeat(v, 0) == []
  {
  }

  /** Every sequence comes back, and the column is then drained. */
  lemma UintsRoundTrip(vals: seq<u32>)
    requires |vals| <= MAX_U32
    ensures UintYields(UintState(EncUints(vals), 0, 0), vals)
  {
    UintRunsYield(0, 0, vals, 0);
    assert Repeat(0 as u32, 0) + vals == vals;
  }

  // ----- Difference run-length column -----

  /** A run of equal differences: twice the difference, plus one when a count
      follows. */
  function DiffRun(diff: int, n: nat): bytes {
    if n == 0 then []
    else SignedVarInt(diff * 2 + (if n > 1 then 1 else 0)) + (if n > 1 then VarUint(AsU32(n - 2)) else [])
  }

  function DiffRuns(value: int, diff: int, n: nat, more: seq<u32>): bytes
    decreases |more|
  {
    if more == [] then DiffRun(diff, n)
    else if n > 0 && more[0] - value == diff then DiffRuns(more[0], diff, n + 1, more[1..])
    else DiffRun(diff, n) + DiffRuns(more[0], more[0] - value, 1, more[1..])
  }

  /** Differences start from 0. */
  function EncDiffs(vals: seq<u32>): bytes {
    DiffRuns(0, 0, 0, vals)
  }

  datatype DiffState = DiffState(rest: bytes, value: int, diff: int, count: nat)

  /** The next value of the run at hand. */
  function DiffNext(st: DiffState): Result<(u32, DiffState)>
    requires st.count > 0
  {
    var value := st.value + st.diff;
    if value < 0 || value > MAX_U32 then Err(Overflow)
    else Ok((value, st.(value := value, count := st.count - 1)))
  }

  function ReadDiff(st: DiffState): Result<(u32, DiffState)> {
    if st.count > 0 then DiffNext(st)
    else
      var ((magnitude, negative), b1) :- ReadVarInt(st.rest);
      var encoded: int := if negative then -(magnitude as int) else magnitude;
      var diff := FloorDiv2(encoded);
      if encoded % 2 == 0 then DiffNext(DiffState(b1, st.value, diff, 1))
      else
        var (n, b2) :- ReadVarUint(b1);
        DiffNext(DiffState(b2, st.value, diff, n + 2))
  }

  predicate DiffDrained(st: DiffState) {
    st.count == 0 && st.rest == []
  }

  predicate DiffYields(st: DiffState, vals: seq<u32>)
    decreases |vals|
  {
    if vals == [] then DiffDrained(st)
    else ReadDiff(st).Ok? && ReadDiff(st).value.0 == vals[0] && DiffYields(ReadDiff(st).value.1, vals[1..])
  }

  /** value + diff, value + 2 diff, ..., all within 32 bits. */
  predicate Steps(value: int, diff: int, s: seq<u32>)
    decreases |s|
  {
    s == [] || (s[0] == value + diff && Steps(value + diff, diff, s[1..]))
  }

  function LastStep(value: int, s: seq<u32>): int {
    if s == [] then value else s[|s| - 1]
  }

  lemma {:induction false} StepsMore(value: int, diff: int, s: seq<u32>, x: u32)
    requires Steps(value, diff, s) && x == LastStep(value, s) + diff
    ensures Steps(value, diff, s + [x])
    decreases |s|
  {
    if s != [] {
      StepsMore(value + diff, diff, s[1..], x);
      assert (s + [x])[1..] == s[1..] + [x];
    } else {
      assert ([] + [x])[1..] == [];
    }
  }

  lemma {:induction false} DiffCopies(st: DiffState, s: seq<u32>, vals: seq<u32>)
    requires Steps(st.value, st.diff, s) && st.count == |s|
    requires DiffYields(DiffState(st.rest, LastStep(st.value, s), st.diff, 0), vals)
    ensures DiffYields(st, s + vals)
    decreases |s|
  {
    hide ReadVarInt, ReadVarUint, FloorDiv2;
    if s != [] {
      assert ReadDiff(st) == DiffNext(st);
      var next := DiffNext(st).value.1;
      hide ReadDiff, DiffNext;
      assert s[|s| - 1] == LastStep(next.value, s[1..]);
      DiffCopies(next, s[1..], vals);
      assert (s + vals)[1..] == s[1..] + vals;
    } else {
      assert s + vals == vals;
    }
  }

  lemma DiffRunRead(diff: int, value: int, n: nat, prior: int, rest: bytes)
    requires 0 < n <= MAX_U32 + 2 && -0x1_0000_0000 < diff < 0x1_0000_0000
    ensures ReadDiff(DiffState(DiffRun(diff, n) + rest, value, prior, 0)) == DiffNext(DiffState(rest, value, diff, n))
  {
    hide VarInt, VarUint, ReadVarInt, ReadVarUint;
    var encoded := diff * 2 + (if n > 1 then 1 else 0);
    var tail := if n > 1 then VarUint(AsU32(n - 2)) else [];
    Assoc(SignedVarInt(encoded), tail, rest);
    VarIntRoundTrip(if encoded < 0 then -encoded else encoded, encoded < 0, tail + rest);
    if n > 1 {
      VarUintRoundTrip(n - 2, rest);
    } else {
      assert tail + rest == rest;
    }
  }

  lemma DiffOneRun(diff: int, value: int, s: seq<u32>, prior: int, rest: bytes, vals: seq<u32>)
    requires 0 < |s| <= MAX_U32 + 2 && Steps(value, diff, s) && 0 <= value <= MAX_U32
    requires DiffYields(DiffState(rest, LastStep(value, s), diff, 0), vals)
    ensures DiffYields(DiffState(DiffRun(diff, |s|) + rest, value, prior, 0), s + vals)
  {
    hide DiffRun, ReadVarInt;
    DiffRunRead(diff, value, |s|, prior, rest);
    DiffCopies(DiffState(rest, value, diff, |s|), s, vals);
  }

  /** The open run is `s`, of difference `diff` from `value` on. */
  lemma {:induction false} DiffRunsYield(value: int, diff: int, s: seq<u32>, more: seq<u32>, prior: int)
    requires |s| + |more| <= MAX_U32 + 2 && Steps(value, diff, s) && 0 <= value <= MAX_U32
    ensures DiffYields(DiffState(DiffRuns(LastStep(value, s), diff, |s|, more), value, prior, 0), s + more)
    decreases |more|
  {
    hide DiffRun, ReadDiff;
    var last := LastStep(value, s);
    if more == [] {
      assert s + more == s;
      if s != [] {
        DiffOneRun(diff, value, s, prior, [], []);
        assert DiffRun(diff, |s|) + [] == DiffRun(diff, |s|) && s + [] == s;
      } else {
        DiffNoRun(diff);
      }
    } else {
      var x, tail := more[0], more[1..];
      assert more == [x] + tail;
      if s != [] && x - last == diff {
        StepsMore(value, diff, s, x);
        DiffRunsYield(value, diff, s + [x], tail, prior);
        Assoc(s, [x], tail);
      } else {
        DiffRunsYield(last, x - last, [x], tail, if s != [] then diff else prior);
        if s != [] {
          DiffOneRun(diff, value, s, prior, DiffRuns(x, x - last, 1, tail), more);
        } else {
          DiffNoRun(diff);
          assert [] + DiffRuns(x, x - last, 1, tail) == DiffRuns(x, x - last, 1, tail) && s + more == more;
        }
      }
    }
  }

  lemma DiffNoRun(diff: int)
    ensures DiffRun(diff, 0) == []
  {
  }

  lemma DiffsRoundTrip(vals: seq<u32>)
    requires |vals| <= MAX_U32
    ensures DiffYields(DiffState(EncDiffs(vals), 0, 0, 0), vals)
  {
    DiffRunsYield(0, 0, [], vals, 0);
    assert [] + vals == vals;
  }

  // ----- Byte run-length column -----

  /** After the byte `v` of an open run of `n`: the count is written only when
      another byte follows. */
  function ByteRuns(v: byte, n: nat, more: seq<byte>): bytes
    decreases |more|
  {
    if more == [] then []
    else if more[0] == v then ByteRuns(v, n + 1, more[1..])
    else VarUint(AsU32(n - 1)) + ([more[0]] + ByteRuns(more[0], 1, more[1..]))
  }

  function EncBytes(vals: seq<byte>): bytes {
    if vals == [] then [] else [vals[0]] + ByteRuns(vals[0], 1, vals[1..])
  }

  datatype ByteState = ByteState(rest: bytes, value: byte, count: int)

  /** The last run has no count: it goes on for ever. */
  function ReadByteRun(st: ByteState): Result<(byte, ByteState)> {
    if st.count != 0 then Ok((st.value, st.(count := st.count - 1)))
    else if st.rest == [] then Err(UnexpectedEOF)
    else if |st.rest| == 1 then Ok((st.rest[0], ByteState([], st.rest[0], -2)))
    else
      var (n, b1) :- ReadVarUint(st.rest[1..]);
      Ok((st.rest[0], ByteState(b1, st.rest[0], n)))
  }

  predicate ByteDrained(st: ByteState) {
    st.count <= 0 && st.rest == []
  }

  predicate ByteYields(st: ByteState, vals: seq<byte>)
    decreases |vals|
  {
    if vals == [] then ByteDrained(st)
    else ReadByteRun(st).Ok? && ReadByteRun(st).value.0 == vals[0] && ByteYields(ReadByteRun(st).value.1, vals[1..])
  }

  lemma {:induction false} ByteCopies(st: ByteState, n: nat, vals: seq<byte>)
    requires st.count == n && ByteYields(st.(count := 0), vals)
    ensures ByteYields(st, Repeat(st.value, n) + vals)
    decreases n
  {
    var all := Repeat(st.value, n) + vals;
    if n > 0 {
      ByteCopies(st.(count := n - 1), n - 1, vals);
      assert all[1..] == Repeat(st.value, n - 1) + vals;
    } else {
      assert all == vals;
    }
  }

  lemma {:induction false} ByteForever(v: byte, count: int, n: nat)
    requires count < 0
    ensures ByteYields(ByteState([], v, count), Repeat(v, n))
    decreases n
  {
    if n > 0 {
      ByteForever(v, count - 1, n - 1);
      assert Repeat(v, n)[1..] == Repeat(v, n - 1);
    }
  }

  /** The open run of `n` bytes `v`, then `more`; the run's byte is in front. */
  lemma {:induction false} ByteRunsYield(v: byte, n: nat, more: seq<byte>, prior: byte)
    requires n > 0 && n + |more| <= MAX_U32
    ensures ByteYields(ByteState([v] + ByteRuns(v, n, more), prior, 0), Repeat(v, n) + more)
    decreases |more|
  {
    hide VarUint, ReadVarUint;
    var st := ByteState([v] + ByteRuns(v, n, more), prior, 0);
    var all := Repeat(v, n) + more;
    if more == [] {
      ByteForever(v, -2, n - 1);
      assert all == Repeat(v, n) && all[1..] == Repeat(v, n - 1);
    } else {
      var x, tail := more[0], more[1..];
      assert more == [x] + tail;
      if x == v {
        ByteRunsYield(v, n + 1, tail, prior);
        RepeatMore(v, n, tail);
      } else {
        var rest := [x] + ByteRuns(x, 1, tail);
        ByteRunsYield(x, 1, tail, v);
        assert Repeat(x, 1) + tail == more;
        VarUintRoundTrip(n - 1, rest);
        assert st.rest[1..] == VarUint(n - 1) + rest;
        ByteCopies(ByteState(rest, v, n - 1), n - 1, more);
        assert all[1..] == Repeat(v, n - 1) + more;
      }
    }
  }

  lemma BytesRoundTrip(vals: seq<byte>)
    requires |vals| <= MAX_U32
    ensures ByteYields(ByteState(EncBytes(vals), 0, 0), vals)
  {
    if vals != [] {
      ByteRunsYield(vals[0], 1, vals[1..], 0);
      assert Repeat(vals[0], 1) + vals[1..] == vals;
    }
  }

  // ----- String column -----

  function JoinedText(strs: seq<string>): string {
    if strs == [] then "" else strs[0] + JoinedText(strs[1..])
  }

  function Lengths(strs: seq<string>): seq<u32> {
    if strs == [] then [] else [AsU32(Utf16Length(strs[0]))] + Lengths(strs[1..])
  }

  /** All texts in one table, then the column of their lengths in code units. */
  function EncStrings(strs: seq<string>): bytes {
    VarStr(JoinedText(strs)) + EncUints(Lengths(strs))
  }

  datatype StringState = StringState(lengths: UintState, table: string, pos: nat)

  predicate Ascii(s: string) {
    forall i :: 0 <= i < |s| ==> s[i] as int < 0x80
  }

  /** Positions are counted in bytes of an ASCII table, in units otherwise. */
  function TableLength(table: string): nat {
    if Ascii(table) then |table| else |Units(table)|
  }

  function TableSlice(table: string, from: nat, to: nat): string
    requires from <= to <= TableLength(table)
  {
    if Ascii(table) then table[from..to] else FromUnits(Units(table)[from..to])
  }

  function OpenStrings(data: bytes): Result<StringState> {
    var (table, rest) :- ReadStr(data);
    Ok(StringState(UintState(rest, 0, 0), table, 0))
  }

  function ReadText(st: StringState): Result<(string, StringState)> {
    var (n, lengths) :- ReadUint(st.lengths);
    if st.pos + n > TableLength(st.table) then Err(UnexpectedEOF)
    else Ok((TableSlice(st.table, st.pos, st.pos + n), StringState(lengths, st.table, st.pos + n)))
  }

  predicate StringDrained(st: StringState) {
    st.pos == TableLength(st.table) && UintDrained(st.lengths)
  }

  predicate StringYields(st: StringState, strs: seq<string>)
    decreases |strs|
  {
    if strs == [] then StringDrained(st)
    else ReadText(st).Ok? && ReadText(st).value.0 == strs[0] && StringYields(ReadText(st).value.1, strs[1..])
  }

  lemma {:induction false} AsciiUnits(s: string)
    requires Ascii(s)
    ensures |Units(s)| == |s| && forall i :: 0 <= i < |s| ==> Units(s)[i] == s[i] as int
  {
    if s != "" {
      AsciiUnits(s[1..]);
    }
  }

  /** The ASCII shortcut reads what the general path would. */
  lemma SliceByUnits(table: string, from: nat, to: nat)
    requires from <= to <= |Units(table)|
    ensures TableLength(table) == |Units(table)|
    ensures TableSlice(table, from, to) == FromUnits(Units(table)[from..to])
  {
    if Ascii(table) {
      AsciiUnits(table);
      var part := table[from..to];
      AsciiUnits(part);
      assert Units(part) == Units(table)[from..to];
      UnitsRoundTrip(part, []);
      assert Units(part) + [] == Units(part) && part + "" == part;
    }
  }

  /** Texts whose table and lengths fit in 32 bits. */
  predicate FitStrings(strs: seq<string>) {
    |strs| <= MAX_U32 && |Utf8(JoinedText(strs))| <= MAX_U32 && |Units(JoinedText(strs))| <= MAX_U32
  }

  lemma {:induction false} StringsYield(before: string, strs: seq<string>, lengths: UintState)
    requires UintYields(lengths, Lengths(strs)) && |Units(before + JoinedText(strs))| <= MAX_U32
    ensures StringYields(StringState(lengths, before + JoinedText(strs), |Units(before)|), strs)
    decreases |strs|
  {
    hide ReadUint, TableSlice, TableLength;
    var table := before + JoinedText(strs);
    if strs == [] {
      assert table == before;
      SliceByUnits(table, 0, 0);
    } else {
      var s, tail := strs[0], strs[1..];
      Assoc(before, s, JoinedText(tail));
      UnitsConcat(before, s);
      UnitsConcat(before + s, JoinedText(tail));
      var from, to := |Units(before)|, |Units(before + s)|;
      SliceByUnits(table, from, to);
      assert Units(table)[from..to] == Units(s);
      UnitsRoundTrip(s, []);
      assert Units(s) + [] == Units(s) && s + "" == s;
      assert Lengths(strs)[0] == |Units(s)| && Lengths(strs)[1..] == Lengths(tail);
      StringsYield(before + s, tail, ReadUint(lengths).value.1);
    }
  }

  lemma {:induction false} LengthsCount(strs: seq<string>)
    ensures |Lengths(strs)| == |strs|
  {
    if strs != [] {
      LengthsCount(strs[1..]);
    }
  }

  lemma StringsRoundTrip(strs: seq<string>)
    requires FitStrings(strs)
    ensures OpenStrings(EncStrings(strs)).Ok? && StringYields(OpenStrings(EncStrings(strs)).value, strs)
  {
    hide ReadUint, EncUints, TableSlice, TableLength, VarStr;
    LengthsCount(strs);
    UintsRoundTrip(Lengths(strs));
    StrRoundTrip(JoinedText(strs), EncUints(Lengths(strs)));
    assert "" + JoinedText(strs) == JoinedText(strs);
    StringsYield("", strs, UintState(EncUints(Lengths(strs)), 0, 0));
  }
}
