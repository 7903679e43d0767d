/** The awareness state of many clients: who is present, at which clock. */
module Awareness {
  import opened Prelude
  import opened Protocol

  datatype Meta = Meta(clock: u32, lastUpdated: int)

  datatype Presence = Presence(local: Option<u32>, states: map<u32, ClientState>, meta: map<u32, Meta>)

  datatype Kind = NoChange | Added | Updated | Removed

  datatype Change = Change(added: set<u32>, updated: set<u32>, removed: set<u32>)

  const UNCHANGED := Change({}, {}, {})

  /** The addition of one to a uint32. */
  function Next(clock: u32): u32 {
    if clock == MAX_U32 then 0 else clock + 1
  }

  function Transition(had: bool, has: bool): Kind {
    if has then (if had then Updated else Added) else if had then Removed else NoChange
  }

  // ----- One entry -----

  /** Known at a clock that is not behind the entry, except for a tombstone
      that meets a present client at its own clock. */
  predicate Outdated(p: Presence, client: u32, clock: u32, gone: bool) {
    client in p.meta && p.meta[client].clock >= clock &&
    (p.meta[client].clock != clock || !gone || client !in p.states)
  }

  function ApplyClient(p: Presence, c: ClientState, now: int, json: Compactor): (Presence, Kind) {
    var state := Normalize(c.state, json);
    if state.Err? then (p, NoChange)
    else
      var had, gone := c.client in p.states, state.value == NULL;
      if Outdated(p, c.client, c.clock, gone) then (p, NoChange)
      else if gone && p.local == Some(c.client) && had then
        var clock := Next(c.clock);
        (Presence(p.local, p.states[c.client := p.states[c.client].(clock := clock)],
                  p.meta[c.client := Meta(clock, now)]), Updated)
      else if gone then
        (Presence(p.local, p.states - {c.client}, p.meta[c.client := Meta(c.clock, now)]), Transition(had, false))
      else
        (Presence(p.local, p.states[c.client := c.(state := state.value)], p.meta[c.client := Meta(c.clock, now)]),
         Transition(had, true))
  }

  function Report(change: Change, client: u32, kind: Kind): Change {
    match kind
    case NoChange => change
    case Added => Change(change.added + {client}, change.updated - {client}, change.removed - {client})
    case Updated =>
      if client in change.added then change
      else Change(change.added, change.updated + {client}, change.removed - {client})
    case Removed => Change(change.added - {client}, change.updated - {client}, change.removed + {client})
  }

  /** The first n entries, in order. */
  function ApplyAll(p: Presence, cs: seq<ClientState>, n: nat, now: int, json: Compactor): (Presence, Change)
    requires n <= |cs|
  {
    if n == 0 then (p, UNCHANGED) else
      var (q, change) := ApplyAll(p, cs, n - 1, now, json);
      var (r, kind) := ApplyClient(q, cs[n - 1], now, json);
      (r, Report(change, cs[n - 1].client, kind))
  }

  function SetLocal(p: Presence, state: bytes, now: int, json: Compactor): (Presence, Result<Kind>) {
    var normal := Normalize(state, json);
    if normal.Err? then (p, Err(normal.error))
    else if p.local.None? then (p, Err(NoLocalClient))
    else
      var me := p.local.value;
      var clock := if me in p.meta then Next(p.meta[me].clock) else 0;
      var states := if normal.value == NULL then p.states - {me}
          else p.states[me := ClientState(me, clock, normal.value)];
      (Presence(p.local, states, p.meta[me := Meta(clock, now)]), Ok(Transition(me in p.states, normal.value != NULL)))
  }

  predicate Stale(p: Presence, client: u32, now: int, timeout: int) {
    && client in p.meta && p.local != Some(client) && client in p.states
    && now - p.meta[client].lastUpdated >= timeout
  }

  function Expire(p: Presence, now: int, timeout: int): (Presence, set<u32>) {
    var removed := set client | client in p.meta && Stale(p, client, now, timeout);
    (p.(states := p.states - removed), removed)
  }

  /** The entries that tell others what is known of these clients. */
  function UpdateFor(p: Presence, clients: seq<u32>): seq<ClientState> {
    if clients == [] then []
    else if clients[0] !in p.meta then UpdateFor(p, clients[1..])
    else
      [ClientState(clients[0], p.meta[clients[0]].clock,
                   if clients[0] in p.states then p.states[clients[0]].state else NULL)] + UpdateFor(p, clients[1..])
  }

  // ----- The manager -----

  // ----- Sorted lists of clients -----

  predicate Upward(q: seq<u32>) {
    forall i, j :: 0 <= i < j < |q| ==> q[i] < q[j]
  }

  predicate NoRepeats(q: seq<u32>) {
    forall i, j :: 0 <= i < j < |q| ==> q[i] != q[j]
  }

  function InsertUp(k: u32, q: seq<u32>): seq<u32> {
    if q == [] || k < q[0] then [k] + q else [q[0]] + InsertUp(k, q[1..])
  }

  /** The library's sort. */
  function SortUp(q: seq<u32>): seq<u32> {
    if q == [] then [] else InsertUp(q[0], SortUp(q[1..]))
  }

  lemma {:induction false} InsertedUpward(k: u32, q: seq<u32>)
    requires Upward(q) && k !in q
    ensures Upward(InsertUp(k, q)) && forall x :: x in InsertUp(k, q) <==> x == k || x in q
  {
    assert q != [] ==> q[0] in q && forall i :: 0 < i < |q| ==> q[i] > q[0];
    if q != [] && k > q[0] {
      InsertedUpward(k, q[1..]);
      assert forall i :: 0 <= i < |q[1..]| ==> q[1..][i] == q[i + 1];
      PrependUpward(q[0], InsertUp(k, q[1..]));
      assert forall x :: x in q <==> x == q[0] || x in q[1..];
    } else {
      PrependUpward(k, q);
    }
  }

  lemma PrependUpward(k: u32, q: seq<u32>)
    requires Upward(q) && forall x :: x in q ==> x > k
    ensures Upward([k] + q)
  {
    assert forall i :: 0 <= i < |q| ==> q[i] in q;
  }

  lemma {:induction false} SortedUpward(q: seq<u32>)
    requires NoRepeats(q)
    ensures Upward(SortUp(q)) && forall x :: x in SortUp(q) <==> x in q
  {
    if q != [] {
      assert NoRepeats(q[1..]);
      SortedUpward(q[1..]);
      assert q[0] !in q[1..];
      InsertedUpward(q[0], SortUp(q[1..]));
      assert forall x :: x in q <==> x == q[0] || x in q[1..];
    }
  }

  class StateManager {
    var local: Option<u32>
    var states: map<u32, ClientState>
    var meta: map<u32, Meta>

    ghost function View(): Presence
      reads this
    {
      Presence(local, states, meta)
    }

    constructor (local: Option<u32>)
      ensures View() == Presence(local, map[], map[])
    {
      this.local := local;
      states := map[];
      meta := map[];
    }

    method ApplyOne(c: ClientState, now: int, json: Compactor) returns (kind: Kind)
      modifies this`states, this`meta
      ensures (View(), kind) == ApplyClient(old(View()), c, now, json)
    {
      var state := Normalize(c.state, json);
      if state.Err? {
        return NoChange;
      }
      var gone := state.value == NULL;
      var hasMeta := c.client in meta;
      var currentClock := if hasMeta then meta[c.client].clock else 0;
      var hasState := c.client in states;
      if hasMeta && currentClock >= c.clock && (currentClock != c.clock || !gone || !hasState) {
        return NoChange;
      }
      var clock := c.clock;
      var nextHasState := !gone;
      if gone {
        if local == Some(c.client) && hasState {
          clock := Next(c.clock);
          states := states[c.client := states[c.client].(clock := clock)];
          nextHasState := true;
        } else {
          states := states - {c.client};
        }
      } else {
        states := states[c.client := c.(state := state.value)];
      }
      meta := meta[c.client := Meta(clock, now)];
      return Transition(hasState, nextHasState);
    }

    method Apply(cs: seq<ClientState>, now: int, json: Compactor) returns (change: Change)
      modifies this`states, this`meta
      ensures (View(), change) == ApplyAll(old(View()), cs, |cs|, now, json)
    {
      hide ApplyClient;
      change := UNCHANGED;
      for i := 0 to |cs|
        invariant (View(), change) == ApplyAll(old(View()), cs, i, now, json)
      {
        var kind := ApplyOne(cs[i], now, json);
        change := Report(change, cs[i].client, kind);
      }
    }

    method SetLocalState(state: bytes, now: int, json: Compactor) returns (r: Result<Kind>)
      modifies this`states, this`meta
      ensures (View(), r) == SetLocal(old(View()), state, now, json)
    {
      var normal := Normalize(state, json);
      if normal.Err? {
        return Err(normal.error);
      }
      if local.None? {
        return Err(NoLocalClient);
      }
      var me := local.value;
      var hadState := me in states;
      var clock := 0;
      if me in meta {
        clock := Next(meta[me].clock);
      }
      if normal.value == NULL {
        states := states - {me};
      } else {
        states := states[me := ClientState(me, clock, normal.value)];
      }
      meta := meta[me := Meta(clock, now)];
      return Ok(Transition(hadState, normal.value != NULL));
    }

    /** The stale remote clients, in ascending order. */
    method ExpireStale(now: int, timeout: int) returns (removed: seq<u32>)
      modifies this`states
      ensures View() == Expire(old(View()), now, timeout).0
      ensures Upward(removed) && forall c :: c in removed <==> c in Expire(old(View()), now, timeout).1
    {
      ghost var before := View();
      removed := [];
      if |states| == 0 {
        assert states.Keys == {};
        assert Expire(before, now, timeout).1 == {} && states - {} == states;
        return;
      }
      var todo := meta.Keys;
      ghost var gone: set<u32> := {};
      while todo != {}
        invariant todo <= meta.Keys
        invariant gone == set client | client in meta && client !in todo && Stale(before, client, now, timeout)
        invariant NoRepeats(removed) && forall c :: c in removed <==> c in gone
        invariant states == before.states - gone
        decreases todo
      {
        var client :| client in todo;
        todo := todo - {client};
        if local != Some(client) && client in states && now - meta[client].lastUpdated >= timeout {
          states := states - {client};
          removed := removed + [client];
          gone := gone + {client};
        }
      }
      assert gone == Expire(before, now, timeout).1;
      SortedUpward(removed);
      removed := SortUp(removed);
    }

    method UpdateForClients(clients: seq<u32>) returns (out: seq<ClientState>)
      ensures out == UpdateFor(View(), clients)
    {
      out := [];
      assert clients[0..] == clients;
      for i := 0 to |clients|
        invariant out + UpdateFor(View(), clients[i..]) == UpdateFor(View(), clients)
      {
        var client := clients[i];
        assert clients[i..][1..] == clients[i + 1..];
        if client in meta {
          var state := if client in states then states[client].state else NULL;
          Assoc(out, [ClientState(client, meta[client].clock, state)], UpdateFor(View(), clients[i + 1..]));
          out := out + [ClientState(client, meta[client].clock, state)];
        }
      }
    }
  }

  // ----- The lattice: (clock, tombstone) -----

  /** States and clocks belong together. */
  ghost predicate Consistent(p: Presence, json: Compactor) {
    forall k :: k in p.states ==>
      && k in p.meta && p.states[k].client == k && p.states[k].clock == p.meta[k].clock
      && p.states[k].state != NULL && Normalize(p.states[k].state, json) == Ok(p.states[k].state)
  }

  /** The position of a client: unknown, then present and gone at each clock. */
  function Rank(p: Presence, k: u32): nat {
    if k !in p.meta then 0 else 2 * p.meta[k].clock + if k in p.states then 1 else 2
  }

  /** The position an entry claims; 0 when its text is not JSON. */
  function EntryRank(c: ClientState, json: Compactor): nat {
    var state := Normalize(c.state, json);
    if state.Err? then 0 else 2 * c.clock + if state.value == NULL then 2 else 1
  }

  /** What is known of a client, apart from the time of its last update. */
  function Seen(p: Presence, k: u32): Option<(u32, Option<bytes>)> {
    if k !in p.meta then None
    else Some((p.meta[k].clock, if k in p.states then Some(p.states[k].state) else None))
  }

  lemma ApplyConsistent(p: Presence, c: ClientState, now: int, json: Compactor)
    requires Compacting(json) && Consistent(p, json)
    ensures Consistent(ApplyClient(p, c, now, json).0, json)
  {
  }

  /** A remote entry moves its client to the higher of the two positions, takes
      the entry's state exactly when that is a rise, and touches nobody else. */
  lemma RemoteJoin(p: Presence, c: ClientState, now: int, json: Compactor)
    requires p.local != Some(c.client)
    ensures var r := ApplyClient(p, c, now, json).0;
      && r.local == p.local
      && Rank(r, c.client) == Max(Rank(p, c.client), EntryRank(c, json))
      && (EntryRank(c, json) <= Rank(p, c.client) ==> r == p)
      && (EntryRank(c, json) > Rank(p, c.client) ==>
            Seen(r, c.client) == Some((c.clock, if Normalize(c.state, json).value == NULL then None
                                                else Some(Normalize(c.state, json).value))))
      && forall k :: k != c.client ==> Seen(r, k) == Seen(p, k)
  {
  }

  /** An entry, the receiver's own client included, is accepted exactly when it
      claims a higher position, and then it is the client's last update. A
      tombstone of the receiver's own present client leaves its state as it is,
      one clock further on; any other accepted entry is taken as it stands. */
  lemma EntryExact(p: Presence, c: ClientState, now: int, json: Compactor)
    ensures var (r, kind) := ApplyClient(p, c, now, json);
      && r.local == p.local
      && (forall k :: k != c.client ==> Seen(r, k) == Seen(p, k) && (k in r.meta ==> r.meta[k] == p.meta[k]))
      && if EntryRank(c, json) <= Rank(p, c.client) then r == p && kind == NoChange
         else
           && c.client in r.meta && r.meta[c.client].lastUpdated == now
           && if Normalize(c.state, json) != Ok(NULL) then
                Seen(r, c.client) == Some((c.clock, Some(Normalize(c.state, json).value)))
              else if p.local == Some(c.client) && c.client in p.states then
                Seen(r, c.client) == Some((Next(c.clock), Some(p.states[c.client].state)))
              else
                Seen(r, c.client) == Some((c.clock, None))
  {
  }

  /** A remote client that an entry made present expires exactly from the timeout
      after that entry on. */
  lemma ExpiresAfterTimeout(p: Presence, c: ClientState, at: int, later: int, timeout: int, json: Compactor)
    requires p.local != Some(c.client) && EntryRank(c, json) > Rank(p, c.client)
    requires Normalize(c.state, json) != Ok(NULL)
    ensures var r := ApplyClient(p, c, at, json).0;
            && c.client in r.states
            && (c.client in Expire(r, later, timeout).1 <==> later - at >= timeout)
            && (c.client in Expire(r, later, timeout).0.states <==> later - at < timeout)
  {
  }

  lemma RanksApart(p: Presence, q: Presence, k: u32)
    requires Rank(p, k) == Rank(q, k)
    ensures k in p.meta <==> k in q.meta
    ensures k in p.meta ==> p.meta[k].clock == q.meta[k].clock && (k in p.states <==> k in q.states)
  {
  }

  // ----- One non-null state per clock -----

  /** Everybody attributes the same state to a client at a clock. */
  ghost predicate Agrees(p: Presence, says: u32 -> bytes, k: u32) {
    k in p.states && k in p.meta ==> p.states[k].state == says(p.meta[k].clock)
  }

  predicate Says(c: ClientState, says: u32 -> bytes, json: Compactor) {
    var state := Normalize(c.state, json);
    state.Ok? && state.value != NULL ==> state.value == says(c.clock)
  }

  /** The entries about a client attribute the same states to it. */
  ghost predicate AllSay(cs: seq<ClientState>, says: u32 -> bytes, json: Compactor, k: u32) {
    forall c :: c in cs && c.client == k ==> Says(c, says, json)
  }

  /** The highest position that the start or one of the n first entries gives. */
  function Best(p: Presence, cs: seq<ClientState>, n: nat, k: u32, json: Compactor): nat
    requires n <= |cs|
  {
    if n == 0 then Rank(p, k)
    else
      var b := Best(p, cs, n - 1, k, json);
      if cs[n - 1].client == k then Max(b, EntryRank(cs[n - 1], json)) else b
  }

  /** Whatever else the entries are about, the receiver's own client included, a
      client that is not its own ends at its highest position. */
  lemma {:induction false} ApplyAllJoins(p: Presence, cs: seq<ClientState>, n: nat, says: u32 -> bytes, now: int,
                                         json: Compactor, k: u32)
    requires n <= |cs| && p.local != Some(k) && Agrees(p, says, k) && AllSay(cs, says, json, k)
    ensures var r := ApplyAll(p, cs, n, now, json).0;
            r.local == p.local && Agrees(r, says, k) && Rank(r, k) == Best(p, cs, n, k, json)
  {
    if n > 0 {
      hide ApplyClient, Says, Agrees, EntryRank, Rank;
      ApplyAllJoins(p, cs, n - 1, says, now, json, k);
      assert cs[n - 1] in cs;
      ApplyOneJoins(ApplyAll(p, cs, n - 1, now, json).0, cs[n - 1], says, now, json, k);
    }
  }

  lemma ApplyOneJoins(p: Presence, c: ClientState, says: u32 -> bytes, now: int, json: Compactor, k: u32)
    requires p.local != Some(k) && Agrees(p, says, k) && (c.client == k ==> Says(c, says, json))
    ensures var r := ApplyClient(p, c, now, json).0;
            && r.local == p.local && Agrees(r, says, k)
            && Rank(r, k) == if k == c.client then Max(Rank(p, k), EntryRank(c, json)) else Rank(p, k)
  {
  }

  lemma {:induction false} BestIsBest(p: Presence, cs: seq<ClientState>, n: nat, k: u32, json: Compactor)
    requires n <= |cs|
    ensures Best(p, cs, n, k, json) >= Rank(p, k)
    ensures forall i :: 0 <= i < n && cs[i].client == k ==> Best(p, cs, n, k, json) >= EntryRank(cs[i], json)
    ensures Best(p, cs, n, k, json) == Rank(p, k) ||
            exists i :: 0 <= i < n && cs[i].client == k && Best(p, cs, n, k, json) == EntryRank(cs[i], json)
  {
    if n > 0 {
      hide EntryRank, Rank;
      BestIsBest(p, cs, n - 1, k, json);
    }
  }

  lemma BestBelow(p: Presence, cs: seq<ClientState>, ds: seq<ClientState>, k: u32, json: Compactor)
    requires forall c :: c in cs ==> c in ds
    ensures Best(p, cs, |cs|, k, json) <= Best(p, ds, |ds|, k, json)
  {
    hide EntryRank, Rank, Best;
    BestIsBest(p, cs, |cs|, k, json);
    BestIsBest(p, ds, |ds|, k, json);
    if Best(p, cs, |cs|, k, json) != Rank(p, k) {
      var i :| 0 <= i < |cs| && cs[i].client == k && Best(p, cs, |cs|, k, json) == EntryRank(cs[i], json);
      assert cs[i] in ds;
    }
  }

  lemma SameRankSameSeen(p: Presence, q: Presence, says: u32 -> bytes, k: u32)
    requires Agrees(p, says, k) && Agrees(q, says, k) && Rank(p, k) == Rank(q, k)
    ensures Seen(p, k) == Seen(q, k)
  {
    RanksApart(p, q, k);
  }

  /** Neither the order nor the repetition of entries matters to a client that
      is not the receiver's own. */
  lemma OrderAndRepetition(p: Presence, cs: seq<ClientState>, ds: seq<ClientState>, says: u32 -> bytes,
                           now: int, later: int, json: Compactor, k: u32)
    requires p.local != Some(k) && Agrees(p, says, k) && AllSay(cs, says, json, k)
    requires forall c :: c in cs <==> c in ds
    ensures Seen(ApplyAll(p, cs, |cs|, now, json).0, k) == Seen(ApplyAll(p, ds, |ds|, later, json).0, k)
  {
    hide Says, Agrees, Best, ApplyAll, Rank, Seen;
    ApplyAllJoins(p, cs, |cs|, says, now, json, k);
    ApplyAllJoins(p, ds, |ds|, says, later, json, k);
    BestBelow(p, cs, ds, k, json);
    BestBelow(p, ds, cs, k, json);
    SameRankSameSeen(ApplyAll(p, cs, |cs|, now, json).0, ApplyAll(p, ds, |ds|, later, json).0, says, k);
  }

  // ----- Exchange -----

  /** An entry that claims exactly what a manager knows of a client. */
  predicate Faithful(c: ClientState, p: Presence, says: u32 -> bytes, json: Compactor) {
    c.client in p.meta && EntryRank(c, json) == Rank(p, c.client) && Says(c, says, json)
  }

  lemma EmittedOne(p: Presence, k: u32, says: u32 -> bytes, json: Compactor)
    requires Compacting(json) && Consistent(p, json) && Agrees(p, says, k) && k in p.meta
    ensures Faithful(ClientState(k, p.meta[k].clock, if k in p.states then p.states[k].state else NULL), p, says, json)
  {
  }

  /** What a manager emits about a client is faithful, and it is emitted when it
      is asked for. */
  lemma {:induction false} Emitted(p: Presence, clients: seq<u32>, says: u32 -> bytes, json: Compactor, k: u32)
    requires Compacting(json) && Consistent(p, json) && Agrees(p, says, k)
    ensures forall c :: c in UpdateFor(p, clients) && c.client == k ==> Faithful(c, p, says, json)
    ensures k in clients && k in p.meta ==> exists c :: c in UpdateFor(p, clients) && c.client == k
  {
    if clients != [] {
      hide Faithful, Consistent, Agrees, Compacting;
      Emitted(p, clients[1..], says, json, k);
      if clients[0] in p.meta {
        var c := ClientState(clients[0], p.meta[clients[0]].clock,
                             if clients[0] in p.states then p.states[clients[0]].state else NULL);
        assert UpdateFor(p, clients) == [c] + UpdateFor(p, clients[1..]);
        assert c in UpdateFor(p, clients);
        if clients[0] == k {
          EmittedOne(p, k, says, json);
        }
      }
    }
  }

  /** Applying what another manager knows gives the higher position of the two,
      for every client asked for that is not the receiver's own. */
  lemma Absorb(p: Presence, q: Presence, clients: seq<u32>, says: u32 -> bytes, now: int, json: Compactor, k: u32)
    requires Compacting(json) && Consistent(q, json) && Agrees(p, says, k) && Agrees(q, says, k)
    requires p.local != Some(k) && (k in q.meta ==> k in clients)
    ensures var r := ApplyAll(p, UpdateFor(q, clients), |UpdateFor(q, clients)|, now, json).0;
            Agrees(r, says, k) && Rank(r, k) == Max(Rank(p, k), Rank(q, k))
  {
    hide EntryRank, Says, Consistent, Agrees, Compacting, ApplyAll, UpdateFor, Best;
    var cs := UpdateFor(q, clients);
    Emitted(q, clients, says, json, k);
    forall i | 0 <= i < |cs| && cs[i].client == k
      ensures EntryRank(cs[i], json) == Rank(q, k)
    {
      assert cs[i] in cs;
    }
    ApplyAllJoins(p, cs, |cs|, says, now, json, k);
    BestIsBest(p, cs, |cs|, k, json);
  }

  /** Two managers that exchange what they know agree about every client but
      their own two. */
  lemma Exchange(p: Presence, q: Presence, fromP: seq<u32>, fromQ: seq<u32>, says: u32 -> bytes, now: int,
                 later: int, json: Compactor, k: u32)
    requires Compacting(json) && Consistent(p, json) && Consistent(q, json)
    requires p.local != Some(k) && q.local != Some(k) && Agrees(p, says, k) && Agrees(q, says, k)
    requires (k in q.meta ==> k in fromQ) && (k in p.meta ==> k in fromP)
    ensures Seen(ApplyAll(p, UpdateFor(q, fromQ), |UpdateFor(q, fromQ)|, now, json).0, k)
         == Seen(ApplyAll(q, UpdateFor(p, fromP), |UpdateFor(p, fromP)|, later, json).0, k)
  {
    hide Consistent, Agrees, Compacting, ApplyAll, UpdateFor, Rank, Seen;
    Absorb(p, q, fromQ, says, now, json, k);
    Absorb(q, p, fromP, says, later, json, k);
    SameRankSameSeen(ApplyAll(p, UpdateFor(q, fromQ), |UpdateFor(q, fromQ)|, now, json).0,
                     ApplyAll(q, UpdateFor(p, fromP), |UpdateFor(p, fromP)|, later, json).0, says, k);
  }

  // ----- The local state reaches the others -----

  /** What a manager says of one client, to somebody who knows less of it, is
      known there exactly, and nothing else changes there. */
  lemma TellsExactly(p: Presence, q: Presence, k: u32, now: int, json: Compactor)
    requires Compacting(json) && Consistent(p, json) && q.local != Some(k) && Rank(q, k) < Rank(p, k)
    ensures var r := ApplyAll(q, UpdateFor(p, [k]), |UpdateFor(p, [k])|, now, json).0;
            Seen(r, k) == Seen(p, k) && forall other :: other != k ==> Seen(r, other) == Seen(q, other)
  {
    var c := ClientState(k, p.meta[k].clock, if k in p.states then p.states[k].state else NULL);
    assert UpdateFor(p, [k]) == [c] by {
      assert [k][1..] == [];
    }
    assert ApplyAll(q, [c], 1, now, json).0 == ApplyClient(ApplyAll(q, [c], 0, now, json).0, c, now, json).0;
    assert EntryRank(c, json) == Rank(p, k);
    EntryExact(q, c, now, json);
    hide ApplyClient, ApplyAll, UpdateFor;
  }

  /** Setting the local state succeeds exactly with a local client and a JSON
      text. The compacted text, or the absence, is then what is seen of it, under
      the next clock; nobody else changes. */
  lemma SetLocalSeen(p: Presence, state: bytes, now: int, json: Compactor)
    ensures var (r, kind) := SetLocal(p, state, now, json);
      var normal := Normalize(state, json);
      && (kind.Ok? <==> p.local.Some? && normal.Ok?) && (kind.Err? ==> r == p)
      && (kind.Err? ==> kind.error == if normal.Err? then normal.error else NoLocalClient)
      && r.local == p.local
      && (kind.Ok? ==>
            var me := p.local.value;
            && me in r.meta && r.meta[me].lastUpdated == now
            && Seen(r, me) == Some((r.meta[me].clock, if normal.value == NULL then None else Some(normal.value)))
            && r.meta[me].clock == (if me in p.meta then Next(p.meta[me].clock) else 0)
            && (me in p.meta && p.meta[me].clock < MAX_U32 ==> Rank(r, me) > Rank(p, me))
            && (forall k :: k != me ==> Seen(r, k) == Seen(p, k) && (k in r.meta ==> r.meta[k] == p.meta[k]))
            && kind.value == (if me in r.states then if me in p.states then Updated else Added
                              else if me in p.states then Removed else NoChange))
  {
  }

  lemma SetLocalConsistent(p: Presence, state: bytes, now: int, json: Compactor)
    requires Compacting(json) && Consistent(p, json)
    ensures Consistent(SetLocal(p, state, now, json).0, json)
  {
  }

  /** So whoever knows the client at a lower position and applies what is said of
      it sees exactly the state that was set. */
  lemma BroadcastLands(p: Presence, state: bytes, at: int, q: Presence, now: int, json: Compactor)
    requires Compacting(json) && Consistent(p, json) && SetLocal(p, state, at, json).1.Ok?
    requires q.local != p.local && Rank(q, p.local.value) < Rank(SetLocal(p, state, at, json).0, p.local.value)
    ensures var me, r := p.local.value, SetLocal(p, state, at, json).0;
            var told := ApplyAll(q, UpdateFor(r, [me]), |UpdateFor(r, [me])|, now, json).0;
            var normal := Normalize(state, json).value;
            && Seen(told, me) == Some((r.meta[me].clock, if normal == NULL then None else Some(normal)))
            && forall k :: k != me ==> Seen(told, k) == Seen(q, k)
  {
    SetLocalConsistent(p, state, at, json);
    SetLocalSeen(p, state, at, json);
    hide SetLocal, ApplyAll, UpdateFor, Rank, Seen, Consistent, Compacting;
    TellsExactly(SetLocal(p, state, at, json).0, q, p.local.value, now, json);
  }

  lemma OwnStep(p: Presence, c: ClientState, now: int, json: Compactor, k: u32)
    requires Compacting(json) && Consistent(p, json) && p.local == Some(k) && k in p.states && c.clock < MAX_U32
    ensures var r := ApplyClient(p, c, now, json).0;
            && r.local == p.local && Consistent(r, json) && k in r.states && Rank(r, k) >= Rank(p, k)
            && (c.client == k ==> Rank(r, k) >= EntryRank(c, json))
  {
  }

  /** A present owner stays present, and ends at or above all that others say of
      it, so that its next broadcast wins. */
  lemma {:induction false} OwnerAhead(p: Presence, cs: seq<ClientState>, n: nat, now: int, json: Compactor, k: u32)
    requires Compacting(json) && Consistent(p, json) && p.local == Some(k) && k in p.states && n <= |cs|
    requires forall i :: 0 <= i < |cs| ==> cs[i].clock < MAX_U32
    ensures var r := ApplyAll(p, cs, n, now, json).0;
            && r.local == p.local && Consistent(r, json) && k in r.states && Rank(r, k) >= Best(p, cs, n, k, json)
  {
    if n > 0 {
      hide Compacting, Consistent, ApplyClient, Rank, EntryRank;
      OwnerAhead(p, cs, n - 1, now, json, k);
      OwnStep(ApplyAll(p, cs, n - 1, now, json).0, cs[n - 1], now, json, k);
    }
  }

  // ----- Nobody moves down -----

  /** An entry moves a client down exactly when it is a tombstone of the present
      local client whose clock has no successor. */
  lemma ApplyMovesDown(p: Presence, c: ClientState, now: int, json: Compactor, k: u32)
    requires Consistent(p, json)
    ensures Rank(ApplyClient(p, c, now, json).0, k) < Rank(p, k) <==>
      && k == c.client && p.local == Some(k) && k in p.states && Normalize(c.state, json) == Ok(NULL)
      && c.clock == MAX_U32 && p.meta[k].clock > 0
  {
  }

  /** Setting the local state moves it down exactly when its clock wraps. */
  lemma SetLocalMovesDown(p: Presence, state: bytes, now: int, json: Compactor, k: u32)
    ensures Rank(SetLocal(p, state, now, json).0, k) < Rank(p, k) <==>
      && SetLocal(p, state, now, json).1.Ok? && p.local == Some(k) && k in p.meta && p.meta[k].clock == MAX_U32
  {
  }

  /** Expiry only turns present remote clients into tombstones of their clock. */
  lemma ExpireMovesUp(p: Presence, now: int, timeout: int, k: u32)
    ensures var (r, removed) := Expire(p, now, timeout);
      && Rank(r, k) >= Rank(p, k) && r.meta == p.meta
      && (k in removed <==> Stale(p, k, now, timeout))
      && (k in r.states <==> k in p.states && !Stale(p, k, now, timeout))
      && (k in r.states ==> r.states[k] == p.states[k])
  {
  }

  /** No entry of others and no expiry takes the local client's presence away. */
  lemma LocalStays(p: Presence, c: ClientState, now: int, timeout: int, json: Compactor)
    requires p.local.Some? && p.local.value in p.states
    ensures p.local.value in ApplyClient(p, c, now, json).0.states && p.local.value in Expire(p, now, timeout).0.states
  {
  }

  datatype Event =
    | Entries(cs: seq<ClientState>, at: int)
    | Local(state: bytes, at: int)
    | Expiry(at: int, timeout: int)

  function Step(p: Presence, e: Event, json: Compactor): Presence {
    match e
    case Entries(cs, at) => ApplyAll(p, cs, |cs|, at, json).0
    case Local(state, at) => SetLocal(p, state, at, json).0
    case Expiry(at, timeout) => Expire(p, at, timeout).0
  }

  function Run(p: Presence, es: seq<Event>, n: nat, json: Compactor): Presence
    requires n <= |es|
  {
    if n == 0 then p else Step(Run(p, es, n - 1, json), es[n - 1], json)
  }

  /** No clock involved in the step is the last one. */
  predicate Below(p: Presence, e: Event) {
    match e
    case Entries(cs, _) => forall i :: 0 <= i < |cs| ==> cs[i].clock < MAX_U32
    case Local(_, _) => p.local.None? || p.local.value !in p.meta || p.meta[p.local.value].clock < MAX_U32
    case Expiry(_, _) => true
  }

  lemma {:induction false} EntriesMoveUp(p: Presence, cs: seq<ClientState>, n: nat, now: int, json: Compactor, k: u32)
    requires Compacting(json) && Consistent(p, json) && n <= |cs|
    requires forall i :: 0 <= i < |cs| ==> cs[i].clock < MAX_U32
    ensures var r := ApplyAll(p, cs, n, now, json).0; Consistent(r, json) && Rank(r, k) >= Rank(p, k)
  {
    if n > 0 {
      hide Compacting, Consistent, ApplyClient, Rank;
      EntriesMoveUp(p, cs, n - 1, now, json, k);
      var q := ApplyAll(p, cs, n - 1, now, json).0;
      ApplyConsistent(q, cs[n - 1], now, json);
      ApplyMovesDown(q, cs[n - 1], now, json, k);
    }
  }

  lemma StepMovesUp(p: Presence, e: Event, json: Compactor, k: u32)
    requires Compacting(json) && Consistent(p, json) && Below(p, e)
    ensures Consistent(Step(p, e, json), json) && Rank(Step(p, e, json), k) >= Rank(p, k)
  {
    match e
    case Entries(cs, at) =>
      EntriesMoveUp(p, cs, |cs|, at, json, k);
    case Local(state, at) =>
      SetLocalMovesDown(p, state, at, json, k);
    case Expiry(at, timeout) =>
      ExpireMovesUp(p, at, timeout, k);
  }

  ghost predicate CalmRun(p: Presence, es: seq<Event>, n: nat, json: Compactor)
    requires n <= |es|
  {
    forall i :: 0 <= i < n ==> Below(Run(p, es, i, json), es[i])
  }

  lemma CalmLast(p: Presence, es: seq<Event>, n: nat, json: Compactor)
    requires 0 < n <= |es| && CalmRun(p, es, n, json)
    ensures CalmRun(p, es, n - 1, json) && Below(Run(p, es, n - 1, json), es[n - 1])
  {
    hide Run, Below;
  }

  /** Over a whole run in which no step meets the last clock, a client's
      position never falls. */
  lemma {:induction false} RunMovesUp(p: Presence, es: seq<Event>, m: nat, n: nat, json: Compactor, k: u32)
    requires Compacting(json) && Consistent(p, json) && m <= n <= |es| && CalmRun(p, es, n, json)
    ensures Consistent(Run(p, es, n, json), json)
    ensures Rank(Run(p, es, m, json), k) <= Rank(Run(p, es, n, json), k)
  {
    hide Compacting, Consistent, Step, Rank, Below, CalmRun;
    if n > 0 {
      CalmLast(p, es, n, json);
      RunMovesUp(p, es, Min(m, n - 1), n - 1, json, k);
      StepMovesUp(Run(p, es, n - 1, json), es[n - 1], json, k);
    }
  }

  // ----- The reported change -----

  /** A report names a client once, rightly, and leaves out only clients whose
      state is what it was. */
  ghost predicate Truthful(p: Presence, r: Presence, change: Change) {
    && change.added !! change.updated && change.added !! change.removed && change.updated !! change.removed
    && (forall k :: k in change.added || k in change.updated ==> k in r.states)
    && (forall k :: k in change.updated ==> k in p.states)
    && (forall k :: k in change.removed ==> k !in r.states)
    && (forall k :: k !in change.added && k !in change.updated && k !in change.removed ==>
          (k in r.states <==> k in p.states) && (k in p.states ==> r.states[k] == p.states[k]))
  }

  lemma {:induction false} ReportsTruth(p: Presence, cs: seq<ClientState>, n: nat, now: int, json: Compactor)
    requires n <= |cs|
    ensures Truthful(p, ApplyAll(p, cs, n, now, json).0, ApplyAll(p, cs, n, now, json).1)
  {
    if n > 0 {
      ReportsTruth(p, cs, n - 1, now, json);
      var (q, change) := ApplyAll(p, cs, n - 1, now, json);
      ReportStep(p, q, change, cs[n - 1], now, json);
    }
  }

  ghost predicate AbsentOnce(p: Presence, cs: seq<ClientState>, n: nat, now: int, json: Compactor, k: u32)
    requires n <= |cs|
  {
    k !in ApplyAll(p, cs, n, now, json).0.states || (n > 0 && AbsentOnce(p, cs, n - 1, now, json, k))
  }

  ghost predicate PresentOnce(p: Presence, cs: seq<ClientState>, n: nat, now: int, json: Compactor, k: u32)
    requires n <= |cs|
  {
    k in ApplyAll(p, cs, n, now, json).0.states || (n > 0 && PresentOnce(p, cs, n - 1, now, json, k))
  }

  /** Added are the clients present at the end that were absent at some moment,
      removed those absent at the end that were present at some moment; an
      updated client has been present all the time. */
  lemma {:induction false} ReportsExactly(p: Presence, cs: seq<ClientState>, n: nat, now: int, json: Compactor, k: u32)
    requires n <= |cs|
    ensures var (r, change) := ApplyAll(p, cs, n, now, json);
      && (k in change.added <==> k in r.states && AbsentOnce(p, cs, n, now, json, k))
      && (k in change.removed <==> k !in r.states && PresentOnce(p, cs, n, now, json, k))
      && (k in change.updated ==> !AbsentOnce(p, cs, n, now, json, k))
  {
    if n > 0 {
      ReportsExactly(p, cs, n - 1, now, json, k);
      var (q, change) := ApplyAll(p, cs, n - 1, now, json);
      KindTrue(q, cs[n - 1], now, json, k);
      hide ApplyClient;
    }
  }

  lemma KindTrue(p: Presence, c: ClientState, now: int, json: Compactor, k: u32)
    ensures var (r, kind) := ApplyClient(p, c, now, json);
      if k != c.client || kind == NoChange then k in r.states <==> k in p.states
      else (k in p.states <==> kind != Added) && (k in r.states <==> kind != Removed)
  {
  }

  lemma ReportStep(p: Presence, q: Presence, change: Change, c: ClientState, now: int, json: Compactor)
    requires Truthful(p, q, change)
    ensures var (r, kind) := ApplyClient(q, c, now, json); Truthful(p, r, Report(change, c.client, kind))
  {
  }
}
