/** The columns of the V2 wire form as grammars: which bytes a column decoder
    takes, whatever encoder chose the runs, and what they hold. */
module ColumnWords {
  import opened Prelude
  import opened Wire
  import opened Text
  import opened Lib0
  import Values = ValueWords

  // ----- Signed integers -----

  /** What the groups after the first byte add, seven bits each. */
  function TailValue(g: bytes): nat {
    if g == [] then 0 else g[0] % 128 + 128 * TailValue(g[1..])
  }

  function Magnitude(g: bytes): nat
    requires g != []
  {
    g[0] % 64 + 64 * TailValue(g[1..])
  }

  predicate Sign(g: bytes)
    requires g != []
  {
    g[0] % 128 >= 64
  }

  /** An unsigned number is its groups of seven bits, least significant first. */
  lemma {:induction false} VarUintGroups(v: nat)
    ensures Values.Groups(VarUint(v)) && TailValue(VarUint(v)) == v
  {
    if v < 128 {
      assert [v][1..] == [];
    } else {
      VarUintGroups(v / 128);
      var b := VarUint(v);
      assert b[1..] == VarUint(v / 128);
      assert forall i :: 0 < i < |b| ==> b[i] == b[1..][i - 1];
    }
  }

  /** The groups of one integer: nine at most, and 63 bits. */
  predicate IntOk(g: bytes) {
    Values.Groups(g) && |g| <= 9 && Magnitude(g) <= MAX_I64
  }

  lemma {:induction false} MultFits(i: nat)
    ensures Mult(i) <= MAX_I64 / 128 <==> i < 8
  {
    MultValues();
    assert Mult(5) == 128 * Mult(4) && Mult(6) == 128 * Mult(5) && Mult(7) == 128 * Mult(6);
    assert Mult(8) == 128 * Mult(7);
    MultRises(i, 8);
    MultRises(7, i);
    if i < 5 {
      MultRises(i, 5);
    }
    if i < 7 {
      MultRises(i, 7);
    }
    if i > 8 {
      MultRises(8, i);
    }
  }

  lemma {:induction false} MultRises(i: nat, j: nat)
    ensures i <= j ==> Mult(i) <= Mult(j)
    decreases j
  {
    if i < j {
      MultRises(i, j - 1);
    }
  }

  lemma WithinRoom(x: nat, room: nat, m: nat)
    requires m > 0
    ensures x > room / m <==> x * m > room
  {
    var q := room / m;
    assert room == q * m + room % m;
    if x > q {
      assert x * m >= (q + 1) * m;
    } else {
      assert x * m <= q * m;
    }
  }

  /** One group more. */
  lemma TailSum(value: nat, x: nat, more: nat, m: nat)
    ensures value + (x + 128 * more) * m == value + x * m + more * (128 * m)
  {
    assert (x + 128 * more) * m == x * m + (128 * more) * m;
    assert (128 * more) * m == more * (128 * m);
  }

  lemma TimesNat(x: nat, m: nat)
    ensures x * m >= 0
  {
  }

  lemma {:induction false} TailTaken(g: bytes, i: nat, value: nat, rest: bytes)
    requires Values.Groups(g) && value <= MAX_I64
    ensures ReadTail(g + rest, i, value) ==
            if i + |g| <= 8 && value + TailValue(g) * Mult(i) <= MAX_I64 then Ok((value + TailValue(g) * Mult(i), rest))
            else Err(Overflow)
    decreases |g|
  {
    MultFits(i);
    var b, x, more := g + rest, g[0] % 128, TailValue(g[1..]);
    if i < 8 {
      assert b[0] == g[0] && b[1..] == g[1..] + rest;
      WithinRoom(x, MAX_I64 - value, Mult(i));
      TailSum(value, x, more, Mult(i));
      assert Mult(i + 1) == 128 * Mult(i);
      TimesNat(more, Mult(i + 1));
      TimesNat(x, Mult(i));
      if x * Mult(i) <= MAX_I64 - value {
        if |g| > 1 {
          TailTaken(g[1..], i + 1, value + x * Mult(i), rest);
        } else {
          assert g[1..] == [];
        }
      }
    }
  }

  lemma IntTaken(g: bytes, rest: bytes)
    requires Values.Groups(g)
    ensures ReadVarInt(g + rest) == if IntOk(g) then Ok(((Magnitude(g), Sign(g)), rest)) else Err(Overflow)
  {
    var b := g + rest;
    assert b[0] == g[0] && b[1..] == g[1..] + rest;
    if |g| > 1 {
      TailTaken(g[1..], 0, g[0] % 64, rest);
      assert Mult(0) == 64;
    } else {
      assert g[1..] == [];
    }
  }

  lemma {:induction false} TailGot(b: bytes, i: nat, value: nat) returns (g: bytes)
    requires ReadTail(b, i, value).Ok?
    ensures Values.Groups(g) && b == g + ReadTail(b, i, value).value.1
    decreases |b|
  {
    if b[0] < 128 {
      g := [b[0]];
      assert b == [b[0]] + b[1..];
    } else {
      var more := TailGot(b[1..], i + 1, value + b[0] % 128 * Mult(i));
      g := [b[0]] + more;
      assert b == [b[0]] + b[1..];
    }
  }

  /** The reader of signed integers takes exactly the groups of an integer that
      fits. */
  lemma IntExact(b: bytes, magnitude: nat, negative: bool, rest: bytes)
    ensures ReadVarInt(b) == Ok(((magnitude, negative), rest)) <==>
            exists g :: IntOk(g) && b == g + rest && magnitude == Magnitude(g) && negative == Sign(g)
  {
    hide ReadTail;
    if ReadVarInt(b) == Ok(((magnitude, negative), rest)) {
      var g := IntGot(b);
      IntTaken(g, rest);
      assert IntOk(g);
    }
    if g :| IntOk(g) && b == g + rest && magnitude == Magnitude(g) && negative == Sign(g) {
      IntTaken(g, rest);
    }
  }

  lemma IntGot(b: bytes) returns (g: bytes)
    requires ReadVarInt(b).Ok?
    ensures Values.Groups(g) && b == g + ReadVarInt(b).value.1
  {
    if b[0] < 128 {
      g := [b[0]];
      assert b == [b[0]] + b[1..];
    } else {
      var more := TailGot(b[1..], 0, b[0] % 64);
      g := [b[0]] + more;
      assert b == [b[0]] + b[1..];
    }
  }

  // ----- Runs -----

  /** An integer, whose sign says whether a count follows, and the count. */
  datatype Run = Run(head: bytes, count: Option<u32>)

  /** A count is two less than the number of values. */
  function RunLength(r: Run): nat {
    if r.count.Some? then r.count.value + 2 else 1
  }

  function SpellRun(r: Run): bytes {
    r.head + (if r.count.Some? then VarUint(r.count.value) else [])
  }

  function SpellRuns(rs: seq<Run>): bytes {
    if rs == [] then [] else SpellRun(rs[0]) + SpellRuns(rs[1..])
  }

  /** In a column of unsigned values the head is the value; a sign announces the
      count. */
  predicate UintRunIs(r: Run, v: u32) {
    IntOk(r.head) && Magnitude(r.head) == v && Sign(r.head) == r.count.Some?
  }

  /** The values of the runs, in order. */
  predicate UintsAre(rs: seq<Run>, vals: seq<u32>)
    decreases |rs|
  {
    if rs == [] then vals == []
    else
      && |vals| >= RunLength(rs[0]) && UintRunIs(rs[0], vals[0])
      && (forall i :: 0 <= i < RunLength(rs[0]) ==> vals[i] == vals[0]) && UintsAre(rs[1..], vals[RunLength(rs[0])..])
  }

  lemma UintRunTaken(r: Run, v: u32, prior: u32, rest: bytes)
    requires UintRunIs(r, v)
    ensures ReadUint(UintState(SpellRun(r) + rest, prior, 0)) == Ok((v, UintState(rest, v, RunLength(r) - 1)))
  {
    hide ReadVarInt, ReadVarUint, IntOk, Sign, Magnitude, VarUint;
    var tail := if r.count.Some? then VarUint(r.count.value) else [];
    Assoc(r.head, tail, rest);
    IntGroups(r.head);
    IntTaken(r.head, tail + rest);
    if r.count.Some? {
      VarUintRoundTrip(r.count.value, rest);
    } else {
      assert tail + rest == rest;
    }
  }

  lemma IntGroups(g: bytes)
    requires IntOk(g)
    ensures Values.Groups(g) && g != []
  {
  }

  lemma {:induction false} RepeatIs<T>(x: T, s: seq<T>, n: nat)
    requires n <= |s| && forall i :: 0 <= i < n ==> s[i] == x
    ensures s == Repeat(x, n) + s[n..]
  {
    assert s[..n] == Repeat(x, n);
  }

  lemma OneUintRun(r: Run, vals: seq<u32>, prior: u32, rest: bytes)
    requires RunLength(r) <= |vals| && vals != [] && UintRunIs(r, vals[0])
    requires forall i :: 0 <= i < RunLength(r) ==> vals[i] == vals[0]
    requires UintYields(UintState(rest, vals[0], 0), vals[RunLength(r)..])
    ensures UintYields(UintState(SpellRun(r) + rest, prior, 0), vals)
  {
    hide ReadUint, SpellRun, UintRunIs, RunLength, UintYields;
    LengthPositive(r);
    var v, n := vals[0], RunLength(r);
    UintRunTaken(r, v, prior, rest);
    UintCopies(UintState(rest, v, n - 1), vals[n..]);
    RepeatIs(v, vals[1..], n - 1);
    assert vals[1..][n - 1..] == vals[n..];
    UintFirst(UintState(SpellRun(r) + rest, prior, 0), vals);
  }

  /** Whatever runs an encoder chose, they are read as their values, and the
      column is then used up. */
  lemma {:induction false} UintsTaken(rs: seq<Run>, vals: seq<u32>, prior: u32)
    requires UintsAre(rs, vals)
    ensures UintYields(UintState(SpellRuns(rs), prior, 0), vals)
    decreases |rs|
  {
    hide SpellRun, UintRunIs, ReadUint;
    if rs != [] {
      hide UintYields;
      LengthPositive(rs[0]);
      UintsTaken(rs[1..], vals[RunLength(rs[0])..], vals[0]);
      OneUintRun(rs[0], vals, prior, SpellRuns(rs[1..]));
    }
  }

  lemma LengthPositive(r: Run)
    ensures RunLength(r) > 0
  {
  }

  lemma UintFirst(st: UintState, vals: seq<u32>)
    requires vals != [] && ReadUint(st).Ok? && ReadUint(st).value.0 == vals[0]
    requires UintYields(ReadUint(st).value.1, vals[1..])
    ensures UintYields(st, vals)
  {
    hide ReadUint;
  }

  /** And every column that is read to its end is spelled so. */
  lemma {:induction false} UintsGot(st: UintState, vals: seq<u32>) returns (rs: seq<Run>)
    requires UintYields(st, vals)
    ensures st.count <= |vals| && (forall i :: 0 <= i < st.count ==> vals[i] == st.value)
    ensures UintsAre(rs, vals[st.count..]) && st.rest == SpellRuns(rs)
    decreases |vals|
  {
    if vals == [] {
      rs := [];
    } else {
      var next := ReadUint(st).value.1;
      rs := UintsGot(next, vals[1..]);
      if st.count > 0 {
        assert vals[1..][next.count..] == vals[st.count..];
        assert forall i :: 0 < i < st.count ==> vals[i] == vals[1..][i - 1];
      } else {
        rs := UintRunGot(st, vals, rs);
      }
    }
  }

  lemma UintRunGot(st: UintState, vals: seq<u32>, more: seq<Run>) returns (rs: seq<Run>)
    requires st.count == 0 && vals != [] && ReadUint(st).Ok? && ReadUint(st).value.0 == vals[0]
    requires var next := ReadUint(st).value.1;
             && next.count <= |vals| - 1 && (forall i :: 0 <= i < next.count ==> vals[1..][i] == next.value)
             && UintsAre(more, vals[1..][next.count..]) && next.rest == SpellRuns(more)
    ensures UintsAre(rs, vals) && st.rest == SpellRuns(rs)
  {
    hide ReadVarInt, ReadVarUint, VarUint, UintsAre;
    var g := IntGot(st.rest);
    var next, b1 := ReadUint(st).value.1, ReadVarInt(st.rest).value.1;
    IntTaken(g, b1);
    IntGroups(g);
    var r := Run(g, if Sign(g) then Some(ReadVarUint(b1).value.0) else None);
    if Sign(g) {
      VarUintCanonical(b1);
      Assoc(g, VarUint(r.count.value), SpellRuns(more));
    } else {
      assert g + [] == g;
    }
    rs := [r] + more;
    assert rs[1..] == more && vals[1..][next.count..] == vals[RunLength(r)..];
    assert forall i :: 0 < i < RunLength(r) ==> vals[i] == vals[1..][i - 1];
    UintsMore(r, more, vals);
  }

  lemma UintsMore(r: Run, more: seq<Run>, vals: seq<u32>)
    requires |vals| >= RunLength(r) && UintRunIs(r, vals[0])
    requires (forall i :: 0 <= i < RunLength(r) ==> vals[i] == vals[0]) && UintsAre(more, vals[RunLength(r)..])
    ensures UintsAre([r] + more, vals)
  {
    assert ([r] + more)[1..] == more;
  }

  /** A column of unsigned values holds exactly what its runs say. */
  lemma UintsExact(b: bytes, vals: seq<u32>)
    ensures UintYields(UintState(b, 0, 0), vals) <==> exists rs :: UintsAre(rs, vals) && b == SpellRuns(rs)
  {
    hide UintYields, UintsAre, SpellRuns;
    if UintYields(UintState(b, 0, 0), vals) {
      var rs := UintsGot(UintState(b, 0, 0), vals);
      assert vals[0..] == vals;
    }
    if rs :| UintsAre(rs, vals) && b == SpellRuns(rs) {
      UintsTaken(rs, vals, 0);
    }
  }

  // ----- Differences -----

  /** The signed number that a head spells. */
  function Signed(g: bytes): int
    requires g != []
  {
    if Sign(g) then 0 - Magnitude(g) else Magnitude(g)
  }

  /** Half of it is the difference; a count follows when it is odd. */
  predicate DiffRunIs(r: Run, diff: int) {
    IntOk(r.head) && Signed(r.head) / 2 == diff && (Signed(r.head) % 2 == 1) == r.count.Some?
  }

  /** From `value` on each run adds its difference, once for each value. */
  predicate DiffsAre(rs: seq<Run>, value: int, vals: seq<u32>)
    decreases |rs|
  {
    if rs == [] then vals == []
    else
      var n := RunLength(rs[0]);
      && |vals| >= n && DiffRunIs(rs[0], vals[0] - value)
      && Steps(value, vals[0] - value, vals[..n]) && DiffsAre(rs[1..], vals[n - 1], vals[n..])
  }

  lemma DiffRunTaken(r: Run, diff: int, value: int, prior: int, rest: bytes)
    requires DiffRunIs(r, diff)
    ensures ReadDiff(DiffState(SpellRun(r) + rest, value, prior, 0)) ==
            DiffNext(DiffState(rest, value, diff, RunLength(r)))
  {
    hide ReadVarInt, ReadVarUint, IntOk, Sign, Magnitude, VarUint;
    var tail := if r.count.Some? then VarUint(r.count.value) else [];
    Assoc(r.head, tail, rest);
    IntGroups(r.head);
    IntTaken(r.head, tail + rest);
    if r.count.Some? {
      VarUintRoundTrip(r.count.value, rest);
    } else {
      assert tail + rest == rest;
    }
  }

  lemma OneDiffRun(r: Run, value: int, vals: seq<u32>, prior: int, rest: bytes)
    requires 0 < RunLength(r) <= |vals| && DiffRunIs(r, vals[0] - value)
    requires Steps(value, vals[0] - value, vals[..RunLength(r)])
    requires DiffYields(DiffState(rest, vals[RunLength(r) - 1], vals[0] - value, 0), vals[RunLength(r)..])
    ensures DiffYields(DiffState(SpellRun(r) + rest, value, prior, 0), vals)
  {
    hide ReadDiff, SpellRun, DiffRunIs, RunLength, DiffYields, DiffNext, Steps;
    var n, diff := RunLength(r), vals[0] - value;
    DiffRunTaken(r, diff, value, prior, rest);
    var run := vals[..n];
    assert LastStep(value, run) == vals[n - 1];
    DiffCopies(DiffState(rest, value, diff, n), run, vals[n..]);
    assert run + vals[n..] == vals;
    DiffFirst(DiffState(SpellRun(r) + rest, value, prior, 0), DiffState(rest, value, diff, n), vals);
  }

  lemma {:induction false} DiffsTaken(rs: seq<Run>, value: int, vals: seq<u32>, prior: int)
    requires DiffsAre(rs, value, vals)
    ensures DiffYields(DiffState(SpellRuns(rs), value, prior, 0), vals)
    decreases |rs|
  {
    hide SpellRun, DiffRunIs, ReadDiff, Steps;
    if rs != [] {
      hide DiffYields;
      var n := RunLength(rs[0]);
      LengthPositive(rs[0]);
      DiffsTaken(rs[1..], vals[n - 1], vals[n..], vals[0] - value);
      OneDiffRun(rs[0], value, vals, prior, SpellRuns(rs[1..]));
    }
  }

  lemma DiffFirst(st: DiffState, same: DiffState, vals: seq<u32>)
    requires vals != [] && same.count > 0 && ReadDiff(st) == DiffNext(same) && DiffYields(same, vals)
    ensures DiffYields(st, vals)
  {
    hide DiffNext, ReadVarInt;
  }

  lemma {:induction false} DiffsGot(st: DiffState, vals: seq<u32>) returns (rs: seq<Run>)
    requires DiffYields(st, vals)
    ensures st.count <= |vals| && Steps(st.value, st.diff, vals[..st.count])
    ensures DiffsAre(rs, LastStep(st.value, vals[..st.count]), vals[st.count..]) && st.rest == SpellRuns(rs)
    decreases |vals|
  {
    if vals == [] {
      rs := [];
    } else {
      var next := ReadDiff(st).value.1;
      rs := DiffsGot(next, vals[1..]);
      if st.count > 0 {
        StepsFirst(st.value, st.diff, vals, st.count);
        assert vals[1..][next.count..] == vals[st.count..];
      } else {
        rs := DiffRunGot(st, vals, rs);
        assert vals[..0] == [] && vals[0..] == vals;
      }
    }
  }

  lemma StepsFirst(value: int, diff: int, vals: seq<u32>, n: nat)
    requires 0 < n <= |vals| && vals[0] == value + diff && Steps(vals[0], diff, vals[1..][..n - 1])
    ensures Steps(value, diff, vals[..n]) && LastStep(value, vals[..n]) == LastStep(vals[0], vals[1..][..n - 1])
  {
    assert vals[..n][1..] == vals[1..][..n - 1];
  }

  lemma DiffRunGot(st: DiffState, vals: seq<u32>, more: seq<Run>) returns (rs: seq<Run>)
    requires st.count == 0 && vals != [] && ReadDiff(st).Ok? && ReadDiff(st).value.0 == vals[0]
    requires var next := ReadDiff(st).value.1;
             && next.count <= |vals| - 1 && Steps(next.value, next.diff, vals[1..][..next.count])
             && DiffsAre(more, LastStep(next.value, vals[1..][..next.count]), vals[1..][next.count..])
             && next.rest == SpellRuns(more)
    ensures DiffsAre(rs, st.value, vals) && st.rest == SpellRuns(rs)
  {
    hide ReadVarInt, ReadVarUint, VarUint, DiffsAre, Steps;
    var g := IntGot(st.rest);
    var next, b1 := ReadDiff(st).value.1, ReadVarInt(st.rest).value.1;
    IntTaken(g, b1);
    IntGroups(g);
    var odd := Signed(g) % 2 == 1;
    var r := Run(g, if odd then Some(ReadVarUint(b1).value.0) else None);
    if odd {
      VarUintCanonical(b1);
      Assoc(g, VarUint(r.count.value), SpellRuns(more));
    } else {
      assert g + [] == g;
    }
    rs := [r] + more;
    assert rs[1..] == more;
    var n := RunLength(r);
    assert next.count == n - 1 && next.value == vals[0] && next.diff == vals[0] - st.value;
    StepsFirst(st.value, next.diff, vals, n);
    assert vals[1..][n - 1..] == vals[n..];
    assert LastStep(st.value, vals[..n]) == vals[n - 1];
    DiffsMore(r, more, st.value, vals);
  }

  lemma DiffsMore(r: Run, more: seq<Run>, value: int, vals: seq<u32>)
    requires |vals| >= RunLength(r) && DiffRunIs(r, vals[0] - value)
    requires Steps(value, vals[0] - value, vals[..RunLength(r)])
    requires DiffsAre(more, vals[RunLength(r) - 1], vals[RunLength(r)..])
    ensures DiffsAre([r] + more, value, vals)
  {
    assert ([r] + more)[1..] == more;
  }

  /** A column of differences holds exactly what its runs say. */
  lemma DiffsExact(b: bytes, vals: seq<u32>)
    ensures DiffYields(DiffState(b, 0, 0, 0), vals) <==> exists rs :: DiffsAre(rs, 0, vals) && b == SpellRuns(rs)
  {
    hide DiffYields, DiffsAre, SpellRuns;
    if DiffYields(DiffState(b, 0, 0, 0), vals) {
      var rs := DiffsGot(DiffState(b, 0, 0, 0), vals);
      assert vals[0..] == vals && vals[..0] == [];
    }
    if rs :| DiffsAre(rs, 0, vals) && b == SpellRuns(rs) {
      DiffsTaken(rs, 0, vals, 0);
    }
  }

  // ----- Bytes -----

  /** A byte and how many copies of it follow. */
  datatype ByteRun = ByteRun(value: byte, more: u32)

  /** Runs with their counts, and perhaps a last byte without one. */
  function SpellByteRuns(rs: seq<ByteRun>, last: Option<byte>): bytes {
    if rs == [] then (if last.Some? then [last.value] else [])
    else [rs[0].value] + (VarUint(rs[0].more) + SpellByteRuns(rs[1..], last))
  }

  /** The last byte stands for any positive number of values. */
  predicate BytesAre(rs: seq<ByteRun>, last: Option<byte>, vals: seq<byte>)
    decreases |rs|
  {
    if rs == [] then
      if last.None? then vals == [] else vals != [] && forall i :: 0 <= i < |vals| ==> vals[i] == last.value
    else
      && |vals| > rs[0].more && (forall i :: 0 <= i <= rs[0].more ==> vals[i] == rs[0].value)
      && BytesAre(rs[1..], last, vals[rs[0].more + 1..])
  }

  lemma OneByteRun(r: ByteRun, vals: seq<byte>, prior: byte, rest: bytes)
    requires |vals| > r.more && (forall i :: 0 <= i <= r.more ==> vals[i] == r.value)
    requires ByteYields(ByteState(rest, r.value, 0), vals[r.more + 1..])
    ensures ByteYields(ByteState([r.value] + (VarUint(r.more) + rest), prior, 0), vals)
  {
    hide ByteYields, VarUint, ReadVarUint;
    var st := ByteState([r.value] + (VarUint(r.more) + rest), prior, 0);
    VarUintRoundTrip(r.more, rest);
    VarUintLonger(r.more);
    assert st.rest[1..] == VarUint(r.more) + rest;
    ByteCopies(ByteState(rest, r.value, r.more), r.more, vals[r.more + 1..]);
    RepeatIs(r.value, vals[1..], r.more);
    assert vals[1..][r.more..] == vals[r.more + 1..];
    ByteFirst(st, vals);
  }

  lemma VarUintLonger(v: u32)
    ensures |VarUint(v)| > 0
  {
  }

  lemma ByteFirst(st: ByteState, vals: seq<byte>)
    requires vals != [] && ReadByteRun(st).Ok? && ReadByteRun(st).value.0 == vals[0]
    requires ByteYields(ReadByteRun(st).value.1, vals[1..])
    ensures ByteYields(st, vals)
  {
    hide ReadByteRun;
  }

  lemma {:induction false} BytesTaken(rs: seq<ByteRun>, last: Option<byte>, vals: seq<byte>, prior: byte)
    requires BytesAre(rs, last, vals)
    ensures ByteYields(ByteState(SpellByteRuns(rs, last), prior, 0), vals)
    decreases |rs|
  {
    hide VarUint, ReadByteRun;
    if rs != [] {
      BytesTaken(rs[1..], last, vals[rs[0].more + 1..], rs[0].value);
      OneByteRun(rs[0], vals, prior, SpellByteRuns(rs[1..], last));
    } else if last.Some? {
      LastByte(last.value, vals, prior);
    }
  }

  lemma LastByte(v: byte, vals: seq<byte>, prior: byte)
    requires vals != [] && forall i :: 0 <= i < |vals| ==> vals[i] == v
    ensures ByteYields(ByteState([v], prior, 0), vals)
  {
    ByteForever(v, -2, |vals| - 1);
    RepeatIs(v, vals[1..], |vals| - 1);
    assert vals[1..][|vals| - 1..] == [] && vals[1..] == Repeat(v, |vals| - 1);
  }

  lemma {:induction false} BytesGot(st: ByteState, vals: seq<byte>) returns (rs: seq<ByteRun>, last: Option<byte>)
    requires ByteYields(st, vals) && (st.count < 0 ==> st.rest == [])
    ensures st.count < 0 ==> forall i :: 0 <= i < |vals| ==> vals[i] == st.value
    ensures st.count >= 0 ==>
              && st.count <= |vals| && (forall i :: 0 <= i < st.count ==> vals[i] == st.value)
              && BytesAre(rs, last, vals[st.count..]) && st.rest == SpellByteRuns(rs, last)
    decreases |vals|
  {
    rs, last := [], None;
    if vals != [] {
      var next := ReadByteRun(st).value.1;
      rs, last := BytesGot(next, vals[1..]);
      assert forall i :: 0 < i < |vals| ==> vals[i] == vals[1..][i - 1];
      if st.count > 0 {
        assert vals[1..][next.count..] == vals[st.count..];
      } else if st.count == 0 {
        rs, last := ByteRunGot(st, vals, rs, last);
        assert vals[0..] == vals;
      }
    }
  }

  lemma ByteRunGot(st: ByteState, vals: seq<byte>, more: seq<ByteRun>, end: Option<byte>)
      returns (rs: seq<ByteRun>, last: Option<byte>)
    requires st.count == 0 && vals != [] && ReadByteRun(st).Ok? && ReadByteRun(st).value.0 == vals[0]
    requires forall i :: 0 < i < |vals| ==> vals[i] == vals[1..][i - 1]
    requires var next := ReadByteRun(st).value.1;
             && (next.count < 0 ==> forall i :: 0 <= i < |vals| - 1 ==> vals[1..][i] == next.value)
             && (next.count >= 0 ==>
                   && next.count <= |vals| - 1 && (forall i :: 0 <= i < next.count ==> vals[1..][i] == next.value)
                   && BytesAre(more, end, vals[1..][next.count..]) && next.rest == SpellByteRuns(more, end))
    ensures BytesAre(rs, last, vals) && st.rest == SpellByteRuns(rs, last)
  {
    hide VarUint, ReadVarUint;
    var next := ReadByteRun(st).value.1;
    if |st.rest| == 1 {
      rs, last := [], Some(st.rest[0]);
    } else {
      hide BytesAre;
      VarUintCanonical(st.rest[1..]);
      rs, last := [ByteRun(st.rest[0], next.count)] + more, end;
      assert rs[1..] == more && vals[1..][next.count..] == vals[next.count + 1..];
      assert st.rest == [st.rest[0]] + st.rest[1..];
      BytesMore(rs[0], more, end, vals);
    }
  }

  lemma BytesMore(r: ByteRun, more: seq<ByteRun>, last: Option<byte>, vals: seq<byte>)
    requires |vals| > r.more && (forall i :: 0 <= i <= r.more ==> vals[i] == r.value)
    requires BytesAre(more, last, vals[r.more + 1..])
    ensures BytesAre([r] + more, last, vals)
  {
    assert ([r] + more)[1..] == more;
  }

  /** A column of bytes holds exactly what its runs say. */
  lemma BytesExact(b: bytes, vals: seq<byte>)
    ensures ByteYields(ByteState(b, 0, 0), vals) <==>
            exists rs, last :: BytesAre(rs, last, vals) && b == SpellByteRuns(rs, last)
  {
    hide ByteYields, BytesAre, SpellByteRuns;
    if ByteYields(ByteState(b, 0, 0), vals) {
      var rs, last := BytesGot(ByteState(b, 0, 0), vals);
      assert vals[0..] == vals;
    }
    if rs, last :| BytesAre(rs, last, vals) && b == SpellByteRuns(rs, last) {
      BytesTaken(rs, last, vals, 0);
    }
  }

  // ----- Texts -----

  /** The table cut into windows of these lengths, in code units, from `pos` to
      its end. */
  predicate WindowsAre(table: string, pos: nat, lengths: seq<u32>, strs: seq<string>)
    decreases |lengths|
  {
    if lengths == [] then strs == [] && pos == |Units(table)|
    else
      && strs != [] && pos + lengths[0] <= |Units(table)|
      && strs[0] == FromUnits(Units(table)[pos..pos + lengths[0]])
      && WindowsAre(table, pos + lengths[0], lengths[1..], strs[1..])
  }

  lemma {:induction false} StringsTaken(st: StringState, lengths: seq<u32>, strs: seq<string>)
    requires UintYields(st.lengths, lengths) && WindowsAre(st.table, st.pos, lengths, strs)
    ensures StringYields(st, strs)
    decreases |lengths|
  {
    hide ReadUint, TableSlice, TableLength;
    SliceByUnits(st.table, 0, 0);
    if lengths != [] {
      SliceByUnits(st.table, st.pos, st.pos + lengths[0]);
      StringsTaken(ReadText(st).value.1, lengths[1..], strs[1..]);
    }
  }

  lemma {:induction false} StringsGot(st: StringState, strs: seq<string>) returns (lengths: seq<u32>)
    requires StringYields(st, strs)
    ensures UintYields(st.lengths, lengths) && WindowsAre(st.table, st.pos, lengths, strs)
    decreases |strs|
  {
    hide ReadUint, TableSlice, TableLength;
    SliceByUnits(st.table, 0, 0);
    if strs == [] {
      lengths := [];
    } else {
      var (n, next) := ReadUint(st.lengths).value;
      SliceByUnits(st.table, st.pos, st.pos + n);
      var more := StringsGot(ReadText(st).value.1, strs[1..]);
      lengths := [n] + more;
      assert lengths[1..] == more;
    }
  }

  /** A column of texts holds exactly the windows that its lengths cut from its
      table. */
  lemma StringsExact(st: StringState, strs: seq<string>)
    ensures StringYields(st, strs) <==>
            exists lengths :: UintYields(st.lengths, lengths) && WindowsAre(st.table, st.pos, lengths, strs)
  {
    hide StringYields, UintYields, WindowsAre;
    if StringYields(st, strs) {
      var lengths := StringsGot(st, strs);
    }
    if lengths :| UintYields(st.lengths, lengths) && WindowsAre(st.table, st.pos, lengths, strs) {
      StringsTaken(st, lengths, strs);
    }
  }

  /** A column of texts opens on its table and the column of lengths behind it. */
  lemma OpenExact(data: bytes, st: StringState)
    ensures OpenStrings(data) == Ok(st) <==>
            exists text :: && |text| <= MAX_U32 && data == VarBytes(text) + st.lengths.rest
                           && st == StringState(UintState(st.lengths.rest, 0, 0), FromUtf8(text), 0)
  {
    hide VarBytes, ReadVarBytes, FromUtf8;
    if OpenStrings(data) == Ok(st) {
      VarBytesCanonical(data);
      var text := ReadVarBytes(data).value.0;
      assert data == VarBytes(text) + st.lengths.rest;
    }
    if text :| && |text| <= MAX_U32 && data == VarBytes(text) + st.lengths.rest
               && st == StringState(UintState(st.lengths.rest, 0, 0), FromUtf8(text), 0)
    {
      VarBytesRoundTrip(text, st.lengths.rest);
    }
  }
}
