/** The delete-set block of both wire forms: V1 writes absolute clocks, V2 the
    distance from the end of the range before. */
module DeleteSets {
  import opened Prelude
  import opened Wire
  import opened Orders
  import opened IdSets
  import opened IdSetObject

  datatype Form = Absolute | Delta

  /** One range; `cur` is the end of the one before (used by Delta only). */
  function EncRange(r: Range, cur: nat, f: Form): bytes {
    match f
    case Absolute => VarUint(r.clock) + VarUint(r.len)
    case Delta => VarUint(AsU32(r.clock - cur)) + VarUint(AsU32(r.len - 1))
  }

  /** Where the range before index `i` ended. */
  function EndBefore(rs: seq<Range>, i: nat): nat
    requires i <= |rs|
  {
    if i == 0 then 0 else rs[i - 1].End()
  }

  /** The ranges from index `i` on. */
  function EncRanges(rs: seq<Range>, i: nat, f: Form): bytes
    requires i <= |rs|
    decreases |rs| - i
  {
    if i == |rs| then [] else EncRange(rs[i], EndBefore(rs, i), f) + EncRanges(rs, i + 1, f)
  }

  function EncClient(client: u32, rs: seq<Range>, f: Form): bytes {
    VarUint(client) + (VarUint(AsU32(|rs|)) + EncRanges(rs, 0, f))
  }

  /** The clients from index `i` on. */
  function EncClients(order: seq<u32>, i: nat, m: RangeMap, f: Form): bytes
    requires i <= |order|
    decreases |order| - i
  {
    if i == |order| then []
    else EncClient(order[i], RangesOf(m, order[i]), f) + EncClients(order, i + 1, m, f)
  }

  /** Client count, then the clients in descending order. */
  ghost function EncDeletes(m: RangeMap, f: Form): bytes {
    VarUint(AsU32(|m|)) + EncClients(Desc(m.Keys), 0, m, f)
  }

  function ReadRange(b: bytes, cur: nat, f: Form): (r: Result<(Range, bytes)>)
    ensures r.Ok? && f == Delta ==> r.value.0.End() <= MAX_U32
  {
    var (first, b1) :- ReadVarUint(b);
    match f
    case Absolute =>
      var (len, rest) :- ReadVarUint(b1);
      Ok((Range(first, len), rest))
    case Delta =>
      if cur + first > MAX_U32 then Err(Overflow)
      else
        var (less, rest) :- ReadVarUint(b1);
        if less + 1 > MAX_U32 || cur + first + less + 1 > MAX_U32 then Err(Overflow)
        else Ok((Range(cur + first, less + 1), rest))
  }

  /** `n` ranges of one client, each added to the list as it is read. */
  function ReadRanges(b: bytes, n: nat, cur: nat, acc: seq<Range>, f: Form): Result<(seq<Range>, bytes)>
    decreases n
  {
    if n == 0 then Ok((acc, b))
    else
      var (r, rest) :- ReadRange(b, cur, f);
      var checked :- NewRange(r.clock, r.len);
      ReadRanges(rest, n - 1, r.End(), Insert(acc, checked), f)
  }

  /** A client without ranges leaves no trace. */
  function ReadClients(b: bytes, n: nat, acc: RangeMap, f: Form): Result<(RangeMap, bytes)>
    decreases n
  {
    if n == 0 then Ok((acc, b))
    else
      var (client, b1) :- ReadVarUint(b);
      var (count, b2) :- ReadVarUint(b1);
      var (ranges, rest) :- ReadRanges(b2, count, 0, RangesOf(acc, client), f);
      ReadClients(rest, n - 1, if count == 0 then acc else acc[client := ranges], f)
  }

  function ReadDeletes(b: bytes, f: Form): Result<(RangeMap, bytes)> {
    var (n, rest) :- ReadVarUint(b);
    ReadClients(rest, n, map[], f)
  }

  /** One client's ranges as the wire can carry them: normalized, counted
      within 32 bits, and for the delta form all ends below 2^32. */
  predicate WireRanges(rs: seq<Range>, f: Form) {
    && Normal(rs) && rs != [] && |rs| <= MAX_U32
    && (f == Delta ==> forall i :: 0 <= i < |rs| ==> rs[i].End() <= MAX_U32)
  }

  predicate WireDeletes(m: RangeMap, f: Form) {
    |m| <= MAX_U32 && forall k :: k in m ==> WireRanges(m[k], f)
  }

  /** There is room for fewer than 2^32 separated ranges. */
  lemma {:induction false} FewRanges(rs: seq<Range>, n: nat)
    requires Normal(rs) && 0 < n <= |rs|
    ensures 2 * n <= rs[n - 1].End() + 1
  {
    if n > 1 {
      FewRanges(rs, n - 1);
      assert rs[n - 2].End() < rs[n - 1].clock;
    }
  }

  /** Any normalized map with fewer than 2^32 clients can be written in V1. */
  lemma NormalIsWire(m: RangeMap)
    requires NormalMap(m) && |m| <= MAX_U32
    ensures WireDeletes(m, Absolute)
  {
    forall k | k in m
      ensures WireRanges(m[k], Absolute)
    {
      FewRanges(m[k], |m[k]|);
    }
  }

  lemma RangeRoundTrip(r: Range, cur: nat, f: Form, rest: bytes)
    requires r.Valid() && (f == Delta ==> cur <= r.clock && r.End() <= MAX_U32)
    ensures ReadRange(EncRange(r, cur, f) + rest, cur, f) == Ok((r, rest))
  {
    match f
    case Absolute =>
      Assoc(VarUint(r.clock), VarUint(r.len), rest);
      VarUintRoundTrip(r.clock, VarUint(r.len) + rest);
      VarUintRoundTrip(r.len, rest);
    case Delta =>
      Assoc(VarUint(AsU32(r.clock - cur)), VarUint(AsU32(r.len - 1)), rest);
      VarUintRoundTrip(r.clock - cur, VarUint(AsU32(r.len - 1)) + rest);
      VarUintRoundTrip(r.len - 1, rest);
  }

  lemma PrefixInsert(rs: seq<Range>, i: nat)
    requires Normal(rs) && i < |rs|
    ensures Insert(rs[..i], rs[i]) == rs[..i + 1]
    ensures EndBefore(rs, i) <= rs[i].clock
    ensures rs[i].Valid()
  {
    InsertAtEnd(rs[..i], rs[i]);
    assert rs[..i + 1] == rs[..i] + [rs[i]];
  }

  lemma ReadRangesStep(b: bytes, n: nat, cur: nat, acc: seq<Range>, f: Form, r: Range, rest: bytes)
    requires n > 0 && ReadRange(b, cur, f) == Ok((r, rest)) && r.Valid()
    ensures ReadRanges(b, n, cur, acc, f) == ReadRanges(rest, n - 1, r.End(), Insert(acc, r), f)
  {
  }

  lemma ReadClientsStep(b: bytes, n: nat, acc: RangeMap, f: Form,
                        client: u32, b1: bytes, count: u32, b2: bytes, ranges: seq<Range>, rest: bytes)
    requires n > 0 && ReadVarUint(b) == Ok((client, b1)) && ReadVarUint(b1) == Ok((count, b2)) && count > 0
    requires ReadRanges(b2, count, 0, RangesOf(acc, client), f) == Ok((ranges, rest))
    ensures ReadClients(b, n, acc, f) == ReadClients(rest, n - 1, acc[client := ranges], f)
  {
  }

  /** Ranges read one by one end up appended in order. */
  lemma {:induction false} RangesRoundTrip(rs: seq<Range>, i: nat, f: Form, rest: bytes)
    requires WireRanges(rs, f) && i <= |rs|
    ensures ReadRanges(EncRanges(rs, i, f) + rest, |rs| - i, EndBefore(rs, i), rs[..i], f) == Ok((rs, rest))
    decreases |rs| - i
  {
    hide VarUint, EncRange, ReadRange, Insert;
    if i == |rs| {
      assert EncRanges(rs, i, f) + rest == rest && rs[..i] == rs;
    } else {
      var tail := EncRanges(rs, i + 1, f);
      PrefixInsert(rs, i);
      Assoc(EncRange(rs[i], EndBefore(rs, i), f), tail, rest);
      RangeRoundTrip(rs[i], EndBefore(rs, i), f, tail + rest);
      ReadRangesStep(EncRanges(rs, i, f) + rest, |rs| - i, EndBefore(rs, i), rs[..i], f, rs[i], tail + rest);
      RangesRoundTrip(rs, i + 1, f, rest);
    }
  }

  lemma ClientRoundTrip(client: u32, rs: seq<Range>, n: nat, acc: RangeMap, f: Form, rest: bytes)
    requires WireRanges(rs, f) && client !in acc && n > 0
    ensures ReadClients(EncClient(client, rs, f) + rest, n, acc, f) ==
            ReadClients(rest, n - 1, acc[client := rs], f)
  {
    hide VarUint, EncRanges, ReadRanges, ReadClients, ReadVarUint;
    var ranges := EncRanges(rs, 0, f);
    var count := VarUint(AsU32(|rs|));
    Assoc(VarUint(client), count + ranges, rest);
    Assoc(count, ranges, rest);
    VarUintRoundTrip(client, count + (ranges + rest));
    VarUintRoundTrip(|rs|, ranges + rest);
    RangesRoundTrip(rs, 0, f, rest);
    assert rs[..0] == RangesOf(acc, client);
    ReadClientsStep(EncClient(client, rs, f) + rest, n, acc, f,
                    client, count + (ranges + rest), |rs|, ranges + rest, rs, rest);
  }

  /** The part of the map whose clients, order[..i], have been read. */
  ghost predicate ReadSoFar(acc: RangeMap, m: RangeMap, order: seq<u32>, i: nat)
    requires i <= |order|
  {
    && (forall k :: k in acc <==> k in order[..i])
    && (forall k :: k in acc ==> k in m && acc[k] == m[k])
  }

  lemma ReadOne(acc: RangeMap, m: RangeMap, order: seq<u32>, i: nat)
    requires Descending(order) && (forall k :: k in order ==> k in m) && i < |order|
    requires ReadSoFar(acc, m, order, i)
    ensures order[i] in m && order[i] !in acc
    ensures ReadSoFar(acc[order[i] := m[order[i]]], m, order, i + 1)
  {
    assert order[i] in order;
    assert order[..i + 1] == order[..i] + [order[i]];
  }

  lemma {:induction false} ClientsRoundTrip(order: seq<u32>, i: nat, m: RangeMap, acc: RangeMap, f: Form, rest: bytes)
    requires WireDeletes(m, f) && Descending(order) && (forall k :: k in order <==> k in m) && i <= |order|
    requires ReadSoFar(acc, m, order, i)
    ensures ReadClients(EncClients(order, i, m, f) + rest, |order| - i, acc, f) == Ok((m, rest))
    decreases |order| - i
  {
    hide VarUint, EncClient, ReadVarUint, ReadRanges, WireRanges;
    if i == |order| {
      assert EncClients(order, i, m, f) + rest == rest;
      assert order[..i] == order;
      assert acc.Keys == m.Keys;
      assert acc == m;
    } else {
      var client := order[i];
      var tail := EncClients(order, i + 1, m, f);
      hide ReadClients;
      ReadOne(acc, m, order, i);
      Assoc(EncClient(client, m[client], f), tail, rest);
      ClientRoundTrip(client, m[client], |order| - i, acc, f, tail + rest);
      ClientsRoundTrip(order, i + 1, m, acc[client := m[client]], f, rest);
    }
  }

  /** A delete set is read back exactly, in either form. */
  lemma DeletesRoundTrip(m: RangeMap, f: Form, rest: bytes)
    requires WireDeletes(m, f)
    ensures ReadDeletes(EncDeletes(m, f) + rest, f) == Ok((m, rest))
  {
    hide VarUint, ReadClients, EncClients, WireRanges;
    var order := Desc(m.Keys);
    DescSize(m.Keys);
    Assoc(VarUint(AsU32(|m|)), EncClients(order, 0, m, f), rest);
    VarUintRoundTrip(|m|, EncClients(order, 0, m, f) + rest);
    ClientsRoundTrip(order, 0, m, map[], f, rest);
  }

  /** One client's ranges, in order. */
  method AppendClient(client: u32, rs: seq<Range>, f: Form) returns (out: bytes)
    ensures out == EncClient(client, rs, f)
  {
    ghost var want := EncClient(client, rs, f);
    out := VarUint(client) + VarUint(AsU32(|rs|));
    Assoc(VarUint(client), VarUint(AsU32(|rs|)), EncRanges(rs, 0, f));
    var cur: nat := 0;
    for j := 0 to |rs|
      invariant cur == EndBefore(rs, j) && out + EncRanges(rs, j, f) == want
    {
      Assoc(out, EncRange(rs[j], cur, f), EncRanges(rs, j + 1, f));
      out := out + EncRange(rs[j], cur, f);
      cur := rs[j].End();
    }
  }

  /** Writes the block; the clients come out of the map in any order. */
  method AppendDeletes(dst: bytes, m: RangeMap, f: Form) returns (out: bytes)
    ensures out == dst + EncDeletes(m, f)
  {
    hide VarUint, EncClient;
    var order := SortDesc(m.Keys);
    ghost var want := dst + EncDeletes(m, f);
    out := dst + VarUint(AsU32(|m|));
    Assoc(dst, VarUint(AsU32(|m|)), EncClients(order, 0, m, f));
    for i := 0 to |order|
      invariant out + EncClients(order, i, m, f) == want
    {
      var client := AppendClient(order[i], RangesOf(m, order[i]), f);
      Assoc(out, client, EncClients(order, i + 1, m, f));
      out := out + client;
    }
  }
}
