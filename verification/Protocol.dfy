/** The combined sync/awareness protocol: one message and its bytes. */
module Protocol {
  import opened Prelude
  import opened Wire

  /** Compacts a non-empty JSON text; None when the text is not JSON. */
  type Compactor = bytes -> Option<bytes>

  /** The four bytes of `null`. */
  const NULL: bytes := [110, 117, 108, 108]

  /** One awareness entry; a `null` state is a tombstone. */
  datatype ClientState = ClientState(client: u32, clock: u32, state: bytes)

  datatype Message =
    | Sync(kind: u32, payload: bytes)
    | Awareness(clients: seq<ClientState>)
    | Auth(reason: bytes)
    | QueryAwareness

  function Normalize(state: bytes, json: Compactor): Result<bytes> {
    if state == [] then Ok(NULL)
    else if json(state).None? then Err(InvalidJson)
    else Ok(json(state).value)
  }

  // ----- Reading -----

  function ReadClient(b: bytes, json: Compactor): (r: Result<(ClientState, bytes)>)
    ensures r.Ok? ==> |r.value.1| < |b|
  {
    var (client, b1) :- ReadVarUint(b);
    var (clock, b2) :- ReadVarUint(b1);
    var (raw, b3) :- ReadVarBytes(b2);
    var state :- Normalize(raw, json);
    Ok((ClientState(client, clock, state), b3))
  }

  function ReadClients(b: bytes, count: nat, json: Compactor): Result<(seq<ClientState>, bytes)>
    decreases count
  {
    if count == 0 then Ok(([], b)) else
      var (first, b1) :- ReadClient(b, json);
      var (others, b2) :- ReadClients(b1, count - 1, json);
      Ok(([first] + others, b2))
  }

  /** A whole awareness payload: a count, that many entries and nothing after them. */
  function ReadAwareness(b: bytes, json: Compactor): Result<seq<ClientState>> {
    var (count, b1) :- ReadVarUint(b);
    var (clients, b2) :- ReadClients(b1, count, json);
    if b2 != [] then Err(TrailingBytes) else Ok(clients)
  }

  /** A message type below `kinds` and its length-prefixed payload. */
  function ReadKinded(b: bytes, kinds: nat): (r: Result<((u32, bytes), bytes)>)
    ensures r.Ok? ==> |r.value.1| < |b|
  {
    var (kind, b1) :- ReadVarUint(b);
    if kind >= kinds then Err(UnknownMessageType) else
      var (payload, b2) :- ReadVarBytes(b1);
      Ok(((kind, payload), b2))
  }

  /** One message from the front of a byte string, and what follows it. */
  function ReadMessage(b: bytes, json: Compactor): (r: Result<(Message, bytes)>)
    ensures r.Ok? ==> |r.value.1| < |b|
  {
    var (protocol, b1) :- ReadVarUint(b);
    match protocol
    case 0 =>
      var (sync, b2) :- ReadKinded(b1, 3);
      Ok((Sync(sync.0, sync.1), b2))
    case 1 =>
      var (payload, b2) :- ReadVarBytes(b1);
      var clients :- ReadAwareness(payload, json);
      Ok((Awareness(clients), b2))
    case 2 =>
      var (auth, b2) :- ReadKinded(b1, 1);
      Ok((Auth(auth.1), b2))
    case 3 => Ok((QueryAwareness, b1))
    case _ => Err(UnknownProtocol)
  }

  // ----- Writing -----

  function ClientBytes(c: ClientState, json: Compactor): Result<bytes> {
    var state :- Normalize(c.state, json);
    Ok(VarUint(c.client) + VarUint(c.clock) + VarBytes(state))
  }

  function ClientsBytes(cs: seq<ClientState>, json: Compactor): Result<bytes> {
    if cs == [] then Ok([]) else
      var first :- ClientBytes(cs[0], json);
      var others :- ClientsBytes(cs[1..], json);
      Ok(first + others)
  }

  function MessageBytes(m: Message, json: Compactor): Result<bytes> {
    match m
    case Sync(kind, payload) =>
      if kind >= 3 then Err(UnknownMessageType) else Ok(VarUint(0) + (VarUint(kind) + VarBytes(payload)))
    case Awareness(clients) =>
      var entries :- ClientsBytes(clients, json);
      Ok(VarUint(1) + VarBytes(VarUint(AsU32(|clients|)) + entries))
    case Auth(reason) => Ok(VarUint(2) + (VarUint(0) + VarBytes(reason)))
    case QueryAwareness => Ok(VarUint(3))
  }

  /** What compaction of JSON promises: a compact text stays as it is, and is not empty. */
  ghost predicate Compacting(json: Compactor) {
    && json(NULL) == Some(NULL)
    && forall s: bytes :: json(s).Some? ==> json(s).value != [] && json(json(s).value) == json(s)
  }

  /** A message with every awareness state in its compact form. */
  function Compacted(m: Message, json: Compactor): Message
    requires MessageBytes(m, json).Ok?
  {
    match m
    case Awareness(clients) => Awareness(CompactedClients(clients, json))
    case _ => m
  }

  function CompactedClients(cs: seq<ClientState>, json: Compactor): (r: seq<ClientState>)
    requires ClientsBytes(cs, json).Ok?
  {
    if cs == [] then [] else [cs[0].(state := Normalize(cs[0].state, json).value)] + CompactedClients(cs[1..], json)
  }

  predicate SmallStates(cs: seq<ClientState>, json: Compactor) {
    forall i :: 0 <= i < |cs| && Normalize(cs[i].state, json).Ok? ==> |Normalize(cs[i].state, json).value| <= MAX_U32
  }

  /** Every length fits the 32 bits of its prefix. */
  predicate Small(m: Message, json: Compactor) {
    match m
    case Sync(_, payload) => |payload| <= MAX_U32
    case Awareness(clients) =>
      && |clients| <= MAX_U32 && SmallStates(clients, json)
      && (ClientsBytes(clients, json).Ok? ==> |VarUint(|clients|) + ClientsBytes(clients, json).value| <= MAX_U32)
    case Auth(reason) => |reason| <= MAX_U32
    case QueryAwareness => true
  }

  lemma ClientRoundTrip(c: ClientState, json: Compactor, rest: bytes)
    requires Compacting(json) && ClientBytes(c, json).Ok? && |Normalize(c.state, json).value| <= MAX_U32
    ensures ReadClient(ClientBytes(c, json).value + rest, json)
         == Ok((c.(state := Normalize(c.state, json).value), rest))
  {
    hide ReadVarUint, VarUint, ReadVarBytes, VarBytes;
    var state := Normalize(c.state, json).value;
    VarUintRoundTrip(c.client, VarUint(c.clock) + (VarBytes(state) + rest));
    VarUintRoundTrip(c.clock, VarBytes(state) + rest);
    VarBytesRoundTrip(state, rest);
    assert ClientBytes(c, json).value + rest == VarUint(c.client) + (VarUint(c.clock) + (VarBytes(state) + rest));
    assert Normalize(state, json) == Ok(state);
  }

  lemma ReadsOneMore(b: bytes, c: ClientState, left: bytes, n: nat, json: Compactor)
    requires ReadClient(b, json) == Ok((c, left)) && ReadClients(left, n, json).Ok?
    ensures var (others, rest) := ReadClients(left, n, json).value;
            ReadClients(b, n + 1, json) == Ok(([c] + others, rest))
  {
    hide ReadClient;
  }

  lemma {:induction false} ClientsRoundTrip(cs: seq<ClientState>, json: Compactor, rest: bytes)
    requires Compacting(json) && ClientsBytes(cs, json).Ok? && SmallStates(cs, json)
    ensures ReadClients(ClientsBytes(cs, json).value + rest, |cs|, json) == Ok((CompactedClients(cs, json), rest))
  {
    if cs == [] {
      assert [] + rest == rest;
    } else {
      NormalizedStates(cs, json);
      hide Compacting, ClientBytes, Normalize, ReadClient, SmallStates, ReadClients;
      var first, others := ClientBytes(cs[0], json).value, ClientsBytes(cs[1..], json).value;
      assert ClientsBytes(cs, json).value == first + others;
      ClientRoundTrip(cs[0], json, others + rest);
      ClientsRoundTrip(cs[1..], json, rest);
      Assoc(first, others, rest);
      ReadsOneMore(first + (others + rest), cs[0].(state := Normalize(cs[0].state, json).value), others + rest,
                   |cs| - 1, json);
    }
  }

  lemma NormalizedStates(cs: seq<ClientState>, json: Compactor)
    requires cs != [] && ClientsBytes(cs, json).Ok? && SmallStates(cs, json)
    ensures ClientBytes(cs[0], json).Ok? && Normalize(cs[0].state, json).Ok? && ClientsBytes(cs[1..], json).Ok?
    ensures |Normalize(cs[0].state, json).value| <= MAX_U32 && SmallStates(cs[1..], json)
  {
    hide Normalize;
  }

  lemma KindedRoundTrip(kind: u32, payload: bytes, kinds: nat, rest: bytes)
    requires kind < kinds && |payload| <= MAX_U32
    ensures ReadKinded(VarUint(kind) + VarBytes(payload) + rest, kinds) == Ok(((kind, payload), rest))
  {
    hide ReadVarUint, VarUint, ReadVarBytes, VarBytes;
    VarUintRoundTrip(kind, VarBytes(payload) + rest);
    VarBytesRoundTrip(payload, rest);
    assert VarUint(kind) + VarBytes(payload) + rest == VarUint(kind) + (VarBytes(payload) + rest);
  }

  /** A written message is read back, its states compacted, and nothing after
      it is touched. */
  lemma MessageRoundTrip(m: Message, json: Compactor, rest: bytes)
    requires Compacting(json) && MessageBytes(m, json).Ok? && Small(m, json)
    ensures ReadMessage(MessageBytes(m, json).value + rest, json) == Ok((Compacted(m, json), rest))
  {
    hide ReadVarUint, VarUint, ReadVarBytes, VarBytes, ReadKinded, ReadClients, ClientsBytes, Compacting, SmallStates;
    match m
    case Sync(kind, payload) =>
      var body := VarUint(kind) + VarBytes(payload);
      VarUintRoundTrip(0, body + rest);
      KindedRoundTrip(kind, payload, 3, rest);
      assert VarUint(0) + body + rest == VarUint(0) + (body + rest);
    case Awareness(clients) =>
      var entries := ClientsBytes(clients, json).value;
      var body := VarUint(|clients|) + entries;
      VarUintRoundTrip(1, VarBytes(body) + rest);
      VarBytesRoundTrip(body, rest);
      assert VarUint(1) + VarBytes(body) + rest == VarUint(1) + (VarBytes(body) + rest);
      VarUintRoundTrip(|clients|, entries);
      ClientsRoundTrip(clients, json, []);
      assert entries + [] == entries;
    case Auth(reason) =>
      var body := VarUint(0) + VarBytes(reason);
      VarUintRoundTrip(2, body + rest);
      KindedRoundTrip(0, reason, 1, rest);
      assert VarUint(2) + body + rest == VarUint(2) + (body + rest);
    case QueryAwareness =>
      VarUintRoundTrip(3, rest);
  }

  // ----- A message depends on its own bytes only -----

  function Front(b: bytes, rest: bytes): bytes
    requires |rest| <= |b|
  {
    b[..|b| - |rest|]
  }

  lemma VarUintLocal(b: bytes, more: bytes)
    requires ReadVarUint(b).Ok?
    ensures var (v, rest) := ReadVarUint(b).value;
            b == Front(b, rest) + rest && ReadVarUint(Front(b, rest) + more) == Ok((v, more))
  {
    VarUintCanonical(b);
    var (v, rest) := ReadVarUint(b).value;
    assert Front(b, rest) == VarUint(v);
    VarUintRoundTrip(v, more);
  }

  lemma VarBytesLocal(b: bytes, more: bytes)
    requires ReadVarBytes(b).Ok?
    ensures var (v, rest) := ReadVarBytes(b).value;
            b == Front(b, rest) + rest && ReadVarBytes(Front(b, rest) + more) == Ok((v, more))
  {
    VarUintCanonical(b);
    var (n, tail) := ReadVarUint(b).value;
    var (v, rest) := ReadVarBytes(b).value;
    assert |v| == n && tail == v + rest;
    assert b == VarBytes(v) + rest by { Assoc(VarUint(n), v, rest); }
    assert Front(b, rest) == VarBytes(v);
    VarBytesRoundTrip(v, more);
  }

  /** Two reads one after the other: the fronts join. */
  lemma FrontsJoin(b: bytes, b1: bytes, b2: bytes, more: bytes)
    requires |b2| <= |b1| <= |b| && b == Front(b, b1) + b1 && b1 == Front(b1, b2) + b2
    ensures b == Front(b, b2) + b2 && Front(b, b2) + more == Front(b, b1) + (Front(b1, b2) + more)
  {
    assert b == Front(b, b1) + (Front(b1, b2) + b2);
    Assoc(Front(b, b1), Front(b1, b2), b2);
    assert Front(b, b2) == Front(b, b1) + Front(b1, b2);
  }

  lemma KindedLocal(b: bytes, kinds: nat, more: bytes)
    requires ReadKinded(b, kinds).Ok?
    ensures var (v, rest) := ReadKinded(b, kinds).value;
            b == Front(b, rest) + rest && ReadKinded(Front(b, rest) + more, kinds) == Ok((v, more))
  {
    hide ReadVarUint, ReadVarBytes;
    var b1 := ReadVarUint(b).value.1;
    var b2 := ReadVarBytes(b1).value.1;
    VarBytesLocal(b1, more);
    VarUintLocal(b, Front(b1, b2) + more);
    FrontsJoin(b, b1, b2, more);
  }

  /** The bytes a message took are read as the same message whatever follows. */
  lemma MessageLocal(b: bytes, json: Compactor, more: bytes)
    requires ReadMessage(b, json).Ok?
    ensures var (m, rest) := ReadMessage(b, json).value;
            b == Front(b, rest) + rest && ReadMessage(Front(b, rest) + more, json) == Ok((m, more))
  {
    hide ReadVarUint, ReadVarBytes, ReadKinded, ReadAwareness;
    var (protocol, b1) := ReadVarUint(b).value;
    var b2 := ReadMessage(b, json).value.1;
    if protocol == 3 {
      VarUintLocal(b, more);
    } else {
      if protocol == 0 { KindedLocal(b1, 3, more); }
      if protocol == 1 { VarBytesLocal(b1, more); }
      if protocol == 2 { KindedLocal(b1, 1, more); }
      VarUintLocal(b, Front(b1, b2) + more);
      FrontsJoin(b, b1, b2, more);
    }
  }

  lemma KindedStable(b: bytes, kinds: nat, more: bytes)
    requires ReadKinded(b, kinds).Err? && ReadKinded(b, kinds) != Err(UnexpectedEOF)
    ensures ReadKinded(b + more, kinds) == ReadKinded(b, kinds)
  {
    hide ReadVarUint, ReadVarBytes;
    VarUintStable(b, more);
    if ReadVarUint(b).Ok? && ReadVarUint(b).value.0 < kinds {
      VarBytesStable(ReadVarUint(b).value.1, more);
    }
  }

  /** A definite failure stays one whatever follows. */
  lemma FailureStable(b: bytes, json: Compactor, more: bytes)
    requires ReadMessage(b, json).Err? && ReadMessage(b, json) != Err(UnexpectedEOF)
    ensures ReadMessage(b + more, json) == ReadMessage(b, json)
  {
    hide ReadVarUint, ReadVarBytes, ReadKinded, ReadAwareness;
    VarUintStable(b, more);
    if ReadVarUint(b).Ok? {
      var (protocol, b1) := ReadVarUint(b).value;
      if protocol == 0 { KindedStable(b1, 3, more); }
      if protocol == 1 { VarBytesStable(b1, more); }
      if protocol == 2 { KindedStable(b1, 1, more); }
    }
  }

  /** Every proper prefix of a message fails with the one recoverable error. */
  lemma ProperPrefix(b: bytes, json: Compactor, k: nat)
    requires ReadMessage(b, json).Ok? && k < |b| - |ReadMessage(b, json).value.1|
    ensures ReadMessage(b[..k], json) == Err(UnexpectedEOF)
  {
    hide ReadMessage;
    var p := b[..k];
    assert p + b[k..] == b;
    if ReadMessage(p, json).Ok? {
      var rest := ReadMessage(p, json).value.1;
      Assoc(Front(p, rest), rest, b[k..]);
      MessageLocal(p, json, rest + b[k..]);
    } else if ReadMessage(p, json) != Err(UnexpectedEOF) {
      FailureStable(p, json, b[k..]);
    }
  }

  // ----- The readers of the source -----

  method ReadVarPayload(r: Reader) returns (out: Result<bytes>)
    requires r.Valid()
    modifies r`offset
    ensures r.Valid()
    ensures match ReadVarBytes(old(r.Rest()))
            case Ok((v, rest)) => out == Ok(v) && r.Rest() == rest
            case Err(e) => out == Err(e)
  {
    hide ReadVarUint;
    var n := Read(r);
    if n.Err? {
      return Err(n.error);
    }
    out := r.Take(n.value);
  }

  method ReadAwarenessClient(r: Reader, json: Compactor) returns (out: Result<ClientState>)
    requires r.Valid()
    modifies r`offset
    ensures r.Valid()
    ensures match ReadClient(old(r.Rest()), json)
            case Ok((v, rest)) => out == Ok(v) && r.Rest() == rest
            case Err(e) => out == Err(e)
  {
    hide ReadVarUint, ReadVarBytes;
    var client := Read(r);
    if client.Err? {
      return Err(client.error);
    }
    var clock := Read(r);
    if clock.Err? {
      return Err(clock.error);
    }
    var raw := ReadVarPayload(r);
    if raw.Err? {
      return Err(raw.error);
    }
    var state := Normalize(raw.value, json);
    if state.Err? {
      return Err(state.error);
    }
    return Ok(ClientState(client.value, clock.value, state.value));
  }

  /** What is left to read, seen from what has been read. */
  ghost function WithDone(done: seq<ClientState>, r: Result<(seq<ClientState>, bytes)>): Result<(seq<ClientState>,
        bytes)> {
    match r
    case Ok((others, rest)) => Ok((done + others, rest))
    case Err(e) => Err(e)
  }

  lemma JoinedStep(done: seq<ClientState>, b: bytes, count: nat, json: Compactor)
    requires count > 0
    ensures match ReadClient(b, json)
            case Ok((first, rest)) =>
              WithDone(done, ReadClients(b, count, json)) ==
                  WithDone(done + [first], ReadClients(rest, count - 1, json))
            case Err(e) => WithDone(done, ReadClients(b, count, json)) == Err(e)
  {
    hide ReadClient;
    if ReadClient(b, json).Ok? {
      var (first, rest) := ReadClient(b, json).value;
      if ReadClients(rest, count - 1, json).Ok? {
        Assoc(done, [first], ReadClients(rest, count - 1, json).value.0);
      }
    }
  }

  method ReadAwarenessPayload(r: Reader, json: Compactor) returns (out: Result<seq<ClientState>>)
    requires r.Valid()
    modifies r`offset
    ensures r.Valid()
    ensures match ReadAwareness(old(r.Rest()), json)
            case Ok(clients) => out == Ok(clients) && r.Rest() == []
            case Err(e) => e != TrailingBytes ==> out == Err(e)
    ensures out.Ok? && r.Rest() != [] ==> ReadAwareness(old(r.Rest()), json) == Err(TrailingBytes)
    ensures out.Ok? && r.Rest() == [] ==> ReadAwareness(old(r.Rest()), json) == out
    ensures out.Err? ==> ReadAwareness(old(r.Rest()), json) == out
  {
    hide ReadVarUint, ReadClient, ReadClients;
    var count := Read(r);
    if count.Err? {
      return Err(count.error);
    }
    ghost var want := ReadClients(r.Rest(), count.value, json);
    var clients: seq<ClientState> := [];
    NoneRead(want);
    for i := 0 to count.value
      invariant r.Valid() && want == WithDone(clients, ReadClients(r.Rest(), count.value - i, json))
    {
      JoinedStep(clients, r.Rest(), count.value - i, json);
      var client := ReadAwarenessClient(r, json);
      if client.Err? {
        return Err(client.error);
      }
      clients := clients + [client.value];
    }
    NoneLeft(clients, r.Rest(), json);
    return Ok(clients);
  }

  lemma NoneLeft(clients: seq<ClientState>, b: bytes, json: Compactor)
    ensures WithDone(clients, ReadClients(b, 0, json)) == Ok((clients, b))
  {
    assert clients + [] == clients;
  }

  lemma NoneRead(r: Result<(seq<ClientState>, bytes)>)
    ensures WithDone([], r) == r
  {
    assert r.Ok? ==> [] + r.value.0 == r.value.0;
  }

  method ReadAwarenessMessage(r: Reader, json: Compactor) returns (out: Result<seq<ClientState>>)
    requires r.Valid()
    modifies r`offset
    ensures r.Valid()
    ensures match ReadVarBytes(old(r.Rest()))
            case Ok((payload, rest)) => out == ReadAwareness(payload, json) && r.Rest() == rest
            case Err(e) => out == Err(e)
  {
    hide ReadVarBytes, ReadAwareness;
    var payload := ReadVarPayload(r);
    if payload.Err? {
      return Err(payload.error);
    }
    var inner := new Reader(payload.value);
    out := ReadAwarenessPayload(inner, json);
    if out.Ok? && |inner.data| - inner.offset != 0 {
      return Err(TrailingBytes);
    }
  }

  method ReadKindedMessage(r: Reader, kinds: nat) returns (out: Result<(u32, bytes)>)
    requires r.Valid()
    modifies r`offset
    ensures r.Valid()
    ensures match ReadKinded(old(r.Rest()), kinds)
            case Ok((v, rest)) => out == Ok(v) && r.Rest() == rest
            case Err(e) => out == Err(e)
  {
    hide ReadVarUint, ReadVarBytes;
    var kind := Read(r);
    if kind.Err? {
      return Err(kind.error);
    }
    if kind.value >= kinds {
      return Err(UnknownMessageType);
    }
    var payload := ReadVarPayload(r);
    if payload.Err? {
      return Err(payload.error);
    }
    return Ok((kind.value, payload.value));
  }

  method ReadProtocolMessage(r: Reader, json: Compactor) returns (out: Result<Message>)
    requires r.Valid()
    modifies r`offset
    ensures r.Valid()
    ensures match ReadMessage(old(r.Rest()), json)
            case Ok((m, rest)) => out == Ok(m) && r.Rest() == rest
            case Err(e) => out == Err(e)
  {
    hide ReadVarUint, ReadVarBytes, ReadKinded, ReadAwareness;
    var protocol := Read(r);
    if protocol.Err? {
      return Err(protocol.error);
    }
    if protocol.value == 0 {
      var sync := ReadKindedMessage(r, 3);
      return if sync.Ok? then Ok(Sync(sync.value.0, sync.value.1)) else Err(sync.error);
    }
    if protocol.value == 1 {
      var clients := ReadAwarenessMessage(r, json);
      return if clients.Ok? then Ok(Awareness(clients.value)) else Err(clients.error);
    }
    if protocol.value == 2 {
      var auth := ReadKindedMessage(r, 1);
      return if auth.Ok? then Ok(Auth(auth.value.1)) else Err(auth.error);
    }
    if protocol.value == 3 {
      return Ok(QueryAwareness);
    }
    return Err(UnknownProtocol);
  }
}
