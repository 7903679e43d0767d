/** The messages of the combined protocol as a grammar. The reader takes exactly
    these, from any writer: states need not be compact, and may be empty. */
module ProtocolWords {
  import opened Prelude
  import opened Wire
  import opened Protocol

  datatype Word =
    | SyncWord(kind: u32, payload: bytes)
    | AwarenessWord(entries: seq<ClientState>)
    | AuthWord(reason: bytes)
    | QueryWord

  predicate EntriesOk(es: seq<ClientState>) {
    |es| <= MAX_U32 && forall i :: 0 <= i < |es| ==> |es[i].state| <= MAX_U32
  }

  predicate WordOk(w: Word) {
    match w
    case SyncWord(kind, payload) => kind < 3 && |payload| <= MAX_U32
    case AwarenessWord(entries) => EntriesOk(entries) && |SpellPayload(entries)| <= MAX_U32
    case AuthWord(reason) => |reason| <= MAX_U32
    case QueryWord => true
  }

  function SpellEntry(c: ClientState): bytes {
    VarUint(c.client) + (VarUint(c.clock) + VarBytes(c.state))
  }

  function SpellEntries(es: seq<ClientState>): bytes {
    if es == [] then [] else SpellEntry(es[0]) + SpellEntries(es[1..])
  }

  function SpellPayload(es: seq<ClientState>): bytes {
    VarUint(AsU32(|es|)) + SpellEntries(es)
  }

  function Spell(w: Word): bytes {
    match w
    case SyncWord(kind, payload) => [0] + (VarUint(kind) + VarBytes(payload))
    case AwarenessWord(entries) => [1] + VarBytes(SpellPayload(entries))
    case AuthWord(reason) => [2] + ([0] + VarBytes(reason))
    case QueryWord => [3]
  }

  /** The compact form of a state; an empty one stands for `null`. */
  function Compact(state: bytes, json: Compactor): Option<bytes> {
    if |state| > 0 then json(state) else Some(NULL)
  }

  /** Every state in its compact form, if all are JSON. */
  function MeanEntries(es: seq<ClientState>, json: Compactor): Result<seq<ClientState>> {
    if es == [] then Ok([])
    else if Compact(es[0].state, json).None? then Err(InvalidJson)
    else
      var more :- MeanEntries(es[1..], json);
      Ok([es[0].(state := Compact(es[0].state, json).value)] + more)
  }

  function Mean(w: Word, json: Compactor): Result<Message> {
    match w
    case SyncWord(kind, payload) => Ok(Sync(kind, payload))
    case AwarenessWord(entries) =>
      var clients :- MeanEntries(entries, json);
      Ok(Awareness(clients))
    case AuthWord(reason) => Ok(Auth(reason))
    case QueryWord => Ok(QueryAwareness)
  }

  // ----- The reader takes the words -----

  lemma EntrySpelled(c: ClientState, json: Compactor, rest: bytes)
    requires |c.state| <= MAX_U32
    ensures ReadClient(SpellEntry(c) + rest, json) ==
            match Compact(c.state, json)
            case Some(state) => Ok((c.(state := state), rest))
            case None => Err(InvalidJson)
  {
    hide ReadVarUint, VarUint, ReadVarBytes, VarBytes;
    Assoc(VarUint(c.client), VarUint(c.clock) + VarBytes(c.state), rest);
    Assoc(VarUint(c.clock), VarBytes(c.state), rest);
    VarUintRoundTrip(c.client, VarUint(c.clock) + (VarBytes(c.state) + rest));
    VarUintRoundTrip(c.clock, VarBytes(c.state) + rest);
    VarBytesRoundTrip(c.state, rest);
  }

  lemma {:induction false} EntriesSpelled(es: seq<ClientState>, json: Compactor, rest: bytes)
    requires forall i :: 0 <= i < |es| ==> |es[i].state| <= MAX_U32
    ensures ReadClients(SpellEntries(es) + rest, |es|, json) ==
            match MeanEntries(es, json)
            case Ok(clients) => Ok((clients, rest))
            case Err(e) => Err(e)
  {
    hide ReadClient, SpellEntry, Compact;
    if es == [] {
      assert SpellEntries(es) + rest == rest;
    } else {
      Assoc(SpellEntry(es[0]), SpellEntries(es[1..]), rest);
      EntrySpelled(es[0], json, SpellEntries(es[1..]) + rest);
      EntriesSpelled(es[1..], json, rest);
    }
  }

  lemma PayloadSpelled(es: seq<ClientState>, json: Compactor)
    requires EntriesOk(es)
    ensures ReadAwareness(SpellPayload(es), json) == MeanEntries(es, json)
  {
    hide ReadVarUint, VarUint, ReadClients, SpellEntries, MeanEntries;
    VarUintRoundTrip(|es|, SpellEntries(es));
    EntriesSpelled(es, json, []);
    assert SpellEntries(es) + [] == SpellEntries(es);
  }

  lemma SmallNumbers(rest: bytes)
    ensures forall n: u32 :: n < 4 ==> ReadVarUint([n] + rest) == Ok((n, rest))
  {
    forall n: u32 | n < 4
      ensures ReadVarUint([n] + rest) == Ok((n, rest))
    {
      VarUintRoundTrip(n, rest);
    }
  }

  lemma KindedSpelled(kind: u32, payload: bytes, kinds: nat, rest: bytes)
    requires kind < kinds && |payload| <= MAX_U32
    ensures ReadKinded(VarUint(kind) + VarBytes(payload) + rest, kinds) == Ok(((kind, payload), rest))
  {
    hide ReadVarUint, VarUint, ReadVarBytes, VarBytes;
    Assoc(VarUint(kind), VarBytes(payload), rest);
    VarUintRoundTrip(kind, VarBytes(payload) + rest);
    VarBytesRoundTrip(payload, rest);
  }

  lemma WordSpelled(w: Word, json: Compactor, rest: bytes)
    requires WordOk(w)
    ensures ReadMessage(Spell(w) + rest, json) ==
            match Mean(w, json)
            case Ok(m) => Ok((m, rest))
            case Err(e) => Err(e)
  {
    assert VarUint(0) == [0];
    hide ReadVarUint, VarUint, ReadVarBytes, VarBytes, ReadKinded, ReadAwareness, SpellPayload, MeanEntries, EntriesOk;
    match w
    case SyncWord(kind, payload) =>
      Assoc([0], VarUint(kind) + VarBytes(payload), rest);
      SmallNumbers(VarUint(kind) + VarBytes(payload) + rest);
      KindedSpelled(kind, payload, 3, rest);
    case AwarenessWord(entries) =>
      Assoc([1], VarBytes(SpellPayload(entries)), rest);
      SmallNumbers(VarBytes(SpellPayload(entries)) + rest);
      VarBytesRoundTrip(SpellPayload(entries), rest);
      PayloadSpelled(entries, json);
    case AuthWord(reason) =>
      Assoc([2], [0] + VarBytes(reason), rest);
      SmallNumbers([0] + VarBytes(reason) + rest);
      KindedSpelled(0, reason, 1, rest);
    case QueryWord =>
      SmallNumbers(rest);
  }

  // ----- The reader takes nothing else -----

  lemma EntryRead(b: bytes, json: Compactor) returns (c: ClientState)
    requires ReadClient(b, json).Ok?
    ensures |c.state| <= MAX_U32 && b == SpellEntry(c) + ReadClient(b, json).value.1
  {
    hide ReadVarUint, VarUint, ReadVarBytes, VarBytes, Normalize;
    VarUintCanonical(b);
    var (client, b1) := ReadVarUint(b).value;
    VarUintCanonical(b1);
    var (clock, b2) := ReadVarUint(b1).value;
    VarBytesCanonical(b2);
    var (state, rest) := ReadVarBytes(b2).value;
    c := ClientState(client, clock, state);
    Assoc(VarUint(clock), VarBytes(state), rest);
    Assoc(VarUint(client), VarUint(clock) + VarBytes(state), rest);
  }

  lemma {:induction false} EntriesRead(b: bytes, n: nat, json: Compactor) returns (es: seq<ClientState>)
    requires ReadClients(b, n, json).Ok?
    ensures |es| == n && (forall i :: 0 <= i < |es| ==> |es[i].state| <= MAX_U32)
    ensures b == SpellEntries(es) + ReadClients(b, n, json).value.1
    decreases n
  {
    hide ReadClient, SpellEntry;
    if n == 0 {
      es := [];
      assert [] + b == b;
    } else {
      var c := EntryRead(b, json);
      var b1 := ReadClient(b, json).value.1;
      var more := EntriesRead(b1, n - 1, json);
      es := [c] + more;
      assert es[1..] == more;
      Assoc(SpellEntry(c), SpellEntries(more), ReadClients(b, n, json).value.1);
    }
  }

  lemma PayloadRead(b: bytes, json: Compactor) returns (es: seq<ClientState>)
    requires ReadAwareness(b, json).Ok?
    ensures EntriesOk(es) && b == SpellPayload(es)
  {
    hide ReadVarUint, VarUint, ReadClients, SpellEntries;
    VarUintCanonical(b);
    var (n, b1) := ReadVarUint(b).value;
    es := EntriesRead(b1, n, json);
    assert SpellEntries(es) + [] == SpellEntries(es);
  }

  lemma KindedRead(b: bytes, kinds: nat)
    requires ReadKinded(b, kinds).Ok?
    ensures var ((kind, payload), rest) := ReadKinded(b, kinds).value;
            kind < kinds && |payload| <= MAX_U32 && b == VarUint(kind) + VarBytes(payload) + rest
  {
    hide ReadVarUint, VarUint, ReadVarBytes, VarBytes;
    VarUintCanonical(b);
    var (kind, b1) := ReadVarUint(b).value;
    VarBytesCanonical(b1);
    var (payload, rest) := ReadVarBytes(b1).value;
    Assoc(VarUint(kind), VarBytes(payload), rest);
  }

  lemma FirstByte(b: bytes)
    requires ReadVarUint(b).Ok? && ReadVarUint(b).value.0 < 4
    ensures b == [ReadVarUint(b).value.0] + ReadVarUint(b).value.1
  {
    VarUintCanonical(b);
  }

  lemma SyncRead(b: bytes, kind: u32, payload: bytes, rest: bytes)
    requires ReadKinded(b, 3) == Ok(((kind, payload), rest))
    ensures var w := SyncWord(kind, payload); WordOk(w) && [0] + b == Spell(w) + rest
  {
    hide ReadKinded, VarUint, VarBytes;
    KindedRead(b, 3);
    Assoc([0], VarUint(kind) + VarBytes(payload), rest);
  }

  lemma AuthRead(b: bytes, kind: u32, reason: bytes, rest: bytes)
    requires ReadKinded(b, 1) == Ok(((kind, reason), rest))
    ensures var w := AuthWord(reason); WordOk(w) && [2] + b == Spell(w) + rest
  {
    KindedRead(b, 1);
    assert VarUint(0) == [0];
    hide ReadKinded, VarUint, VarBytes;
    Assoc([2], [0] + VarBytes(reason), rest);
  }

  lemma AwarenessRead(b: bytes, payload: bytes, rest: bytes, json: Compactor) returns (w: Word)
    requires ReadVarBytes(b) == Ok((payload, rest)) && ReadAwareness(payload, json).Ok?
    ensures WordOk(w) && [1] + b == Spell(w) + rest
  {
    hide ReadVarBytes, VarBytes, ReadAwareness, SpellPayload, EntriesOk;
    VarBytesCanonical(b);
    var es := PayloadRead(payload, json);
    w := AwarenessWord(es);
    Assoc([1], VarBytes(payload), rest);
  }

  lemma WordRead(b: bytes, json: Compactor) returns (w: Word)
    requires ReadMessage(b, json).Ok?
    ensures WordOk(w) && b == Spell(w) + ReadMessage(b, json).value.1
  {
    hide ReadVarUint, ReadVarBytes, ReadKinded, ReadAwareness, Spell;
    FirstByte(b);
    var (protocol, b1) := ReadVarUint(b).value;
    if protocol == 0 {
      var ((kind, payload), rest) := ReadKinded(b1, 3).value;
      SyncRead(b1, kind, payload, rest);
      w := SyncWord(kind, payload);
    } else if protocol == 1 {
      var (payload, rest) := ReadVarBytes(b1).value;
      w := AwarenessRead(b1, payload, rest, json);
    } else if protocol == 2 {
      var ((kind, reason), rest) := ReadKinded(b1, 1).value;
      AuthRead(b1, kind, reason, rest);
      w := AuthWord(reason);
    } else {
      w := QueryWord;
      QueryIs();
    }
  }

  lemma QueryIs()
    ensures Spell(QueryWord) == [3]
  {
  }

  /** The message reader accepts exactly the words of the grammar whose states are
      JSON, and reads each as what it means. */
  lemma MessageExact(b: bytes, json: Compactor, m: Message, rest: bytes)
    ensures ReadMessage(b, json) == Ok((m, rest)) <==>
            exists w :: WordOk(w) && b == Spell(w) + rest && Mean(w, json) == Ok(m)
  {
    hide ReadMessage, WordOk, Spell, Mean;
    if ReadMessage(b, json) == Ok((m, rest)) {
      var w := WordRead(b, json);
      WordSpelled(w, json, rest);
    }
    if w :| WordOk(w) && b == Spell(w) + rest && Mean(w, json) == Ok(m) {
      WordSpelled(w, json, rest);
    }
  }

  // ----- The writer -----

  /** What a message is written as, its states compacted. */
  function WordOf(m: Message, json: Compactor): Option<Word> {
    match m
    case Sync(kind, payload) => if kind < 3 then Some(SyncWord(kind, payload)) else None
    case Awareness(clients) =>
      if MeanEntries(clients, json).Ok? then Some(AwarenessWord(MeanEntries(clients, json).value)) else None
    case Auth(reason) => Some(AuthWord(reason))
    case QueryAwareness => Some(QueryWord)
  }

  lemma {:induction false} EntriesWritten(cs: seq<ClientState>, json: Compactor)
    ensures ClientsBytes(cs, json) ==
            match MeanEntries(cs, json) { case Ok(es) => Ok(SpellEntries(es)) case Err(e) => Err(e) }
    ensures MeanEntries(cs, json).Ok? ==> |MeanEntries(cs, json).value| == |cs|
  {
    hide VarUint, VarBytes;
    if cs != [] {
      EntriesWritten(cs[1..], json);
      if MeanEntries(cs, json).Ok? {
        var es := MeanEntries(cs, json).value;
        assert es[1..] == MeanEntries(cs[1..], json).value;
        Assoc(VarUint(cs[0].client), VarUint(cs[0].clock), VarBytes(es[0].state));
      }
    }
  }

  /** A message is written if and only if its type is known and its states are
      JSON, and then as its word. */
  lemma MessageWritten(m: Message, json: Compactor)
    ensures MessageBytes(m, json).Ok? <==> WordOf(m, json).Some?
    ensures WordOf(m, json).Some? ==> MessageBytes(m, json) == Ok(Spell(WordOf(m, json).value))
  {
    assert VarUint(0) == [0] && VarUint(1) == [1] && VarUint(2) == [2] && VarUint(3) == [3];
    if m.Awareness? {
      EntriesWritten(m.clients, json);
    }
    hide VarUint, VarBytes, MeanEntries, ClientsBytes, SpellEntries;
  }
}
