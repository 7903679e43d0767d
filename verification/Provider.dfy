/** Rooms over a shared store: loading in four steps, applying updates, and
    persisting in three steps, between which anything else may happen. */
module Provider {
  import opened Prelude
  import opened Storage
  import opened Fencing
  import opened Replay

  /** What Persist copied before it let go of the room. */
  datatype Capture = Capture(doc: Doc, through: nat, trim: bool, saved: bool)

  /** A room, and the persists on their way: any number of them, told apart by
      a ticket. A closed room takes part no more, except for these. It is gapless
      if its load reported as many records as offsets. */
  datatype Room = Room(doc: Doc, lastOffset: nat, compactedAt: nat, authority: Option<Fence>, lost: bool, open: bool,
                       gapless: bool, persists: map<nat, Capture>)

  /** A load on its way: the fence, then the checkpoint (`from` is what it
      covers), then the log behind it page by page until one is empty. */
  datatype Load = Load(authority: Option<Fence>, from: Option<nat>, got: Replayed, done: bool)

  // ----- The steps of a load -----

  function Begun(authority: Option<Fence>): Load {
    Load(authority, None, Replayed({}, 0, 0, 0), false)
  }

  /** loadReplayBaseSnapshot. */
  function Fetched(st: State, k: Key, load: Load): Result<Load> {
    var base := BaseOf(st, k);
    if !ValidKey(k) then Err(InvalidDocumentKey)
    else Ok(Load(load.authority, Some(base.through), Replayed(base.doc, base.through, 0, base.epoch), false))
  }

  /** One round of replayUpdateLogContext. */
  function Listed(st: State, k: Key, load: Load, limit: int): Result<Load> {
    var page := Page(LogOf(st, k), load.got.through, BoundedLimit(limit));
    if page == [] then Ok(load.(done := true))
    else
      var got :- ReplayAll(page, load.got);
      Ok(load.(got := got))
  }

  predicate ToFetch(load: Load) {
    load.from.None?
  }

  predicate ToList(load: Load) {
    load.from.Some? && !load.done
  }

  predicate ToInstall(load: Load) {
    load.from.Some? && load.done
  }

  /** Every offset behind the checkpoint was found. */
  predicate Gapless(load: Load) {
    load.from.Some? && load.got.through == load.from.value + load.got.applied
  }

  /** loadRoom, at its end. */
  function Opened(load: Load): Room
    requires ToInstall(load)
  {
    Room(load.got.doc, load.got.through, load.from.value, load.authority, false, true, Gapless(load), map[])
  }

  // ----- The steps of one room -----

  /** A refused write costs the room its authority. */
  function Refused(room: Room, e: Error): Room {
    if e == AuthorityLost then room.(lost := true) else room
  }

  /** applyDocumentPayloadLocked: append to the log, then merge. */
  function ApplyPayload(st: State, k: Key, room: Room, update: Doc, now: nat): (State, Room) {
    if room.lost || !room.open then (st, room)
    else
      var may := MayWrite(st, k, room.authority, now);
      if may.Err? then (st, Refused(room, may.error))
      else
        (Append(st, k, update, room.authority, now),
         room.(doc := room.doc + update, lastOffset := NextOf(st, k) + 1))
  }

  /** Persist, first part: copy under the lock. */
  function CaptureRoom(room: Room, ticket: nat): Room {
    if room.lost || !room.open || ticket in room.persists then room
    else room.(persists := room.persists[ticket := Capture(room.doc, room.lastOffset,
        room.lastOffset > room.compactedAt, false)])
  }

  /** CompactUpdateLogAuthoritative, first part: replay the stored log, if it
      has anything behind the checkpoint. */
  function CaptureLog(st: State, k: Key, room: Room, ticket: nat): Room {
    var r := Recovered(st, k, 0);
    if ticket in room.persists || room.authority.None? || r.Err?
        || r.value.lastOffset == r.value.checkpointThrough then room
    else room.(persists := room.persists[ticket := Capture(r.value.doc, r.value.lastOffset, true, false)])
  }

  /** The persist is over. */
  function Ended(room: Room, ticket: nat): Room {
    room.(persists := room.persists - {ticket})
  }

  predicate ToSave(room: Room, ticket: nat) {
    ticket in room.persists && !room.persists[ticket].saved
  }

  predicate ToTrim(room: Room, ticket: nat) {
    ticket in room.persists && room.persists[ticket].saved
  }

  /** The room after a save: what is to be trimmed stays on its way. */
  function Saved(room: Room, ticket: nat): Room
    requires ticket in room.persists
  {
    var c := room.persists[ticket];
    if c.trim then room.(persists := room.persists[ticket := c.(saved := true)]) else Ended(room, ticket)
  }

  /** Second part: save the checkpoint. */
  function SaveCapture(st: State, k: Key, room: Room, ticket: nat, now: nat): (State, Room) {
    if !ToSave(room, ticket) then (st, room)
    else
      var c := room.persists[ticket];
      var may := MayWrite(st, k, room.authority, now);
      if may.Err? then (st, Ended(Refused(room, may.error), ticket))
      else (Save(st, k, c.doc, c.through, 0, room.authority, now), Saved(room, ticket))
  }

  /** Third part: trim the log up to the checkpoint. */
  function TrimCapture(st: State, k: Key, room: Room, ticket: nat, now: nat): (State, Room) {
    if !ToTrim(room, ticket) then (st, room)
    else
      var c := room.persists[ticket];
      var may := MayWrite(st, k, room.authority, now);
      if may.Err? then (st, Ended(Refused(room, may.error), ticket))
      else (Trim(st, k, c.through, room.authority, now), Compacted(Ended(room, ticket), c.through))
  }

  /** The offset up to which the room knows the log to be compacted. */
  function Compacted(room: Room, through: nat): (r: Room)
    ensures r == room.(compactedAt := r.compactedAt) && r.compactedAt >= room.compactedAt
  {
    room.(compactedAt := if room.compactedAt < through then through else room.compactedAt)
  }

  // ----- The system -----

  /** One document: the store, the rooms and loads of all nodes, and every update
      ever appended. */
  datatype System = System(st: State, rooms: map<nat, Room>, loads: map<nat, Load>, history: seq<Doc>)

  const NOBODY := System(EMPTY, map[], map[], [])

  datatype Event =
    | Resolves(id: nat)
    | Fetches(id: nat)
    | Lists(id: nat, limit: int)
    | Installs(id: nat)
    | Applies(id: nat, update: Doc, now: nat)
    | Captures(id: nat, ticket: nat)
    | Compacts(id: nat, ticket: nat)
    | SavesIt(id: nat, ticket: nat, now: nat)
    | TrimsIt(id: nat, ticket: nat, now: nat)
    | Closes(id: nat)
    | Crashes(id: nat)
    | Other(op: Op)

  /** Operations of others: leases, this document's placement on the same shard,
      and anything about other documents. */
  predicate Foreign(op: Op, k: Key, s: string) {
    match op
    case Appends(key, _, _, _) => key != k
    case Trims(key, _, _, _) => key != k
    case Saves(key, _, _, _, _, _) => key != k
    case Places(key, shard) => key == k ==> shard == s
    case _ => true
  }

  /** The fence a new room gets: that of the shard's lease, or none at all where
      the runtime is not distributed. */
  function Resolved(st: State, s: string, fenced: bool): Result<Option<Fence>> {
    if !fenced then Ok(None)
    else if s !in st.leases then Err(AuthorityLost)
    else Ok(Some(FenceOf(st.leases[s])))
  }

  /** No open room has this authority. */
  predicate NoRoom(sys: System, authority: Option<Fence>) {
    forall j :: j in sys.rooms && sys.rooms[j].open ==> sys.rooms[j].authority != authority
  }

  /** A room is loaded when there is none, and no other load, with the same
      authority. */
  predicate MayLoad(sys: System, s: string, fenced: bool, id: nat) {
    && id !in sys.rooms && id !in sys.loads && Resolved(sys.st, s, fenced).Ok?
    && NoRoom(sys, Resolved(sys.st, s, fenced).value)
    && (forall j :: j in sys.loads ==> sys.loads[j].authority != Resolved(sys.st, s, fenced).value)
  }

  /** A load goes on, or ends in an error. */
  function LoadGoes(sys: System, id: nat, next: Result<Load>): System {
    sys.(loads := if next.Ok? then sys.loads[id := next.value] else sys.loads - {id})
  }

  function Loads(sys: System, k: Key, s: string, fenced: bool, e: Event): System
    requires e.Resolves? || e.Fetches? || e.Lists? || e.Installs?
  {
    match e
    case Resolves(id) =>
      if MayLoad(sys, s, fenced, id)
      then sys.(loads := sys.loads[id := Begun(Resolved(sys.st, s, fenced).value)])
      else sys
    case Fetches(id) =>
      if id in sys.loads && ToFetch(sys.loads[id]) then LoadGoes(sys, id, Fetched(sys.st, k, sys.loads[id])) else sys
    case Lists(id, limit) =>
      if id in sys.loads && ToList(sys.loads[id]) then LoadGoes(sys, id, Listed(sys.st, k, sys.loads[id], limit))
      else sys
    case Installs(id) =>
      if id in sys.loads && ToInstall(sys.loads[id]) && id !in sys.rooms then
        sys.(rooms := if NoRoom(sys, sys.loads[id].authority) then sys.rooms[id := Opened(sys.loads[id])]
                      else sys.rooms,
             loads := sys.loads - {id})
      else sys
  }

  function Happens(sys: System, k: Key, s: string, fenced: bool, e: Event): System {
    match e
    case Applies(id, update, now) =>
      if id !in sys.rooms then sys
      else
        var (st, room) := ApplyPayload(sys.st, k, sys.rooms[id], update, now);
        System(st, sys.rooms[id := room], sys.loads,
               if NextOf(st, k) > NextOf(sys.st, k) then sys.history + [update] else sys.history)
    case Captures(id, ticket) =>
      if id !in sys.rooms then sys else sys.(rooms := sys.rooms[id := CaptureRoom(sys.rooms[id], ticket)])
    case Compacts(id, ticket) =>
      if id !in sys.rooms then sys else sys.(rooms := sys.rooms[id := CaptureLog(sys.st, k, sys.rooms[id], ticket)])
    case SavesIt(id, ticket, now) =>
      if id !in sys.rooms then sys
      else
        var (st, room) := SaveCapture(sys.st, k, sys.rooms[id], ticket, now);
        sys.(st := st, rooms := sys.rooms[id := room])
    case TrimsIt(id, ticket, now) =>
      if id !in sys.rooms then sys
      else
        var (st, room) := TrimCapture(sys.st, k, sys.rooms[id], ticket, now);
        sys.(st := st, rooms := sys.rooms[id := room])
    case Closes(id) =>
      if id !in sys.rooms then sys else sys.(rooms := sys.rooms[id := sys.rooms[id].(open := false)])
    case Crashes(id) => sys.(rooms := sys.rooms - {id}, loads := sys.loads - {id})
    case Other(op) => if Foreign(op, k, s) then sys.(st := Step(sys.st, op)) else sys
    case _ => Loads(sys, k, s, fenced, e)
  }

  function RunAll(k: Key, s: string, fenced: bool, events: seq<Event>): System {
    if events == [] then NOBODY
    else Happens(RunAll(k, s, fenced, events[..|events| - 1]), k, s, fenced, events[|events| - 1])
  }

  // ----- What must not happen between the steps of a persist or a load -----

  /** Nothing the capture lacks has gone from the log. */
  predicate SaveInTurn(st: State, k: Key, c: Capture) {
    NextOf(st, k) <= c.through + |LogOf(st, k)|
  }

  /** The checkpoint still covers what is to go. */
  predicate TrimInTurn(st: State, k: Key, c: Capture) {
    c.through <= BaseOf(st, k).through
  }

  /** Nothing the load lacks has gone from the log. */
  predicate ListInTurn(st: State, k: Key, load: Load) {
    NextOf(st, k) <= load.got.through + |LogOf(st, k)|
  }

  /** A save or a trim that is let through comes in its turn, and so does a page
      listed under a fence that holds. */
  predicate InTurn(sys: System, k: Key, e: Event) {
    match e
    case SavesIt(id, ticket, now) =>
      id in sys.rooms && ToSave(sys.rooms[id], ticket) && MayWrite(sys.st, k, sys.rooms[id].authority, now).Ok? ==>
        SaveInTurn(sys.st, k, sys.rooms[id].persists[ticket])
    case TrimsIt(id, ticket, now) =>
      id in sys.rooms && ToTrim(sys.rooms[id], ticket) && MayWrite(sys.st, k, sys.rooms[id].authority, now).Ok? ==>
        TrimInTurn(sys.st, k, sys.rooms[id].persists[ticket])
    case Lists(id, _) =>
      id in sys.loads && ToList(sys.loads[id]) && Current(sys.st, sys.loads[id].authority) ==>
        ListInTurn(sys.st, k, sys.loads[id])
    case _ => true
  }

  /** Every step of the run comes in its turn. */
  predicate AllInTurn(k: Key, s: string, fenced: bool, events: seq<Event>) {
    events == [] ||
    (&& AllInTurn(k, s, fenced, events[..|events| - 1])
     && InTurn(RunAll(k, s, fenced, events[..|events| - 1]), k, events[|events| - 1]))
  }

  // ----- The invariant -----

  /** The join of the first `n` updates. */
  function JoinTo(history: seq<Doc>, n: nat): Doc
    requires n <= |history|
  {
    if n == 0 then {} else JoinTo(history, n - 1) + history[n - 1]
  }

  lemma {:induction false} JoinToSame(history: seq<Doc>, more: seq<Doc>, n: nat)
    requires n <= |history|
    ensures JoinTo(history + more, n) == JoinTo(history, n)
  {
    if n > 0 {
      JoinToSame(history, more, n - 1);
    }
  }

  /** The log is the history without its first |history| - |log| entries. */
  predicate LogIs(log: seq<Record>, history: seq<Doc>) {
    && |log| <= |history|
    && forall i :: 0 <= i < |log| ==>
         log[i].offset == |history| - |log| + 1 + i && log[i].update == history[|history| - |log| + i]
  }

  /** The checkpoint covers all that was trimmed, and is the join of what it covers. */
  predicate BaseIs(base: Checkpoint, log: seq<Record>, history: seq<Doc>) {
    && |log| <= |history| && |history| - |log| <= base.through <= |history|
    && base.doc == JoinTo(history, base.through)
  }

  /** Epochs in the log never fall, nor below the checkpoint's behind it. */
  predicate EpochsOk(base: Checkpoint, log: seq<Record>, last: nat) {
    && (forall i, j :: 0 <= i < j < |log| ==> log[i].epoch <= log[j].epoch)
    && (forall i :: 0 <= i < |log| ==> log[i].epoch <= last)
    && (forall i :: 0 <= i < |log| && log[i].offset > base.through ==> base.epoch <= log[i].epoch)
    && base.epoch <= last
  }

  /** Writes may still be made: the fence, if there is one, holds. */
  predicate Current(st: State, authority: Option<Fence>) {
    authority.None? || Holds(st, authority.value)
  }

  /** A capture that may still be saved is a prefix, and everything logged since
      was logged under the same fence. */
  predicate CaptureIs(c: Capture, current: bool, epoch: nat, log: seq<Record>, history: seq<Doc>) {
    current ==>
      && c.through <= |history| && c.doc == JoinTo(history, c.through)
      && (forall i :: 0 <= i < |log| && log[i].offset > c.through ==> log[i].epoch == epoch)
  }

  /** A gapless room shows the join of its prefix; one that is open and current
      is gapless and has all of it. */
  predicate RoomIs(room: Room, current: bool, log: seq<Record>, history: seq<Doc>) {
    && (room.gapless ==> room.lastOffset <= |history| && room.doc == JoinTo(history, room.lastOffset))
    && (current && room.open ==> room.gapless && room.lastOffset == |history|)
    && (forall n :: n in room.persists ==> CaptureIs(room.persists[n], current, EpochOf(room.authority), log, history))
  }

  /** What a load has got, as if it were a checkpoint. */
  function GotBase(load: Load): Checkpoint {
    Checkpoint(load.got.doc, load.got.through, load.got.epoch)
  }

  /** A gapless load has the join of a prefix; a current one is gapless, and when
      it is done it has everything. */
  predicate LoadIs(load: Load, current: bool, log: seq<Record>, last: nat, history: seq<Doc>) {
    load.from.Some? ==>
      && load.from.value + load.got.applied <= load.got.through <= |history| && EpochsOk(GotBase(load), log, last)
      && (Gapless(load) ==> load.got.doc == JoinTo(history, load.got.through))
      && (current ==> Gapless(load) && (load.done ==> load.got.through == |history|))
  }

  predicate AuthorityIs(st: State, authority: Option<Fence>, s: string, fenced: bool) {
    && authority.Some? == fenced
    && (fenced ==> authority.value.shard == s && authority.value.owner.epoch <= LastEpoch(st, s))
  }

  /** Open rooms and loads have authorities of their own. */
  predicate Apart(rooms: map<nat, Room>, loads: map<nat, Load>) {
    && (forall i, j :: i in rooms && j in rooms && i != j && rooms[i].open && rooms[j].open ==>
          rooms[i].authority != rooms[j].authority)
    && (forall i, j :: i in loads && j in rooms && rooms[j].open ==> loads[i].authority != rooms[j].authority)
    && (forall i, j :: i in loads && j in loads && i != j ==> loads[i].authority != loads[j].authority)
  }

  /** The epoch that writes carry: that of the shard, or none. */
  function LastOf(st: State, s: string, fenced: bool): nat {
    if fenced then LastEpoch(st, s) else 0
  }

  predicate StoreIs(st: State, k: Key, s: string, fenced: bool, history: seq<Doc>) {
    && LeaseOk(st) && NextOf(st, k) == |history|
    && LogIs(LogOf(st, k), history) && BaseIs(BaseOf(st, k), LogOf(st, k), history)
    && EpochsOk(BaseOf(st, k), LogOf(st, k), LastOf(st, s, fenced))
    && (k in st.placements ==> st.placements[k] == s)
  }

  predicate RoomsOk(sys: System, k: Key, s: string, fenced: bool) {
    forall i :: i in sys.rooms ==>
      && AuthorityIs(sys.st, sys.rooms[i].authority, s, fenced)
      && RoomIs(sys.rooms[i], Current(sys.st, sys.rooms[i].authority), LogOf(sys.st, k), sys.history)
  }

  predicate LoadsOk(sys: System, k: Key, s: string, fenced: bool) {
    forall i :: i in sys.loads ==>
      && AuthorityIs(sys.st, sys.loads[i].authority, s, fenced)
      && LoadIs(sys.loads[i], Current(sys.st, sys.loads[i].authority), LogOf(sys.st, k), LastOf(sys.st, s, fenced),
                sys.history)
  }

  predicate Safe(sys: System, k: Key, s: string, fenced: bool) {
    && StoreIs(sys.st, k, s, fenced, sys.history) && Apart(sys.rooms, sys.loads)
    && RoomsOk(sys, k, s, fenced) && LoadsOk(sys, k, s, fenced)
  }

  // ----- Recovery finds everything -----

  lemma LogRises(log: seq<Record>, history: seq<Doc>)
    requires LogIs(log, history)
    ensures Rising(log)
  {
  }

  lemma {:induction false} JoinedTail(log: seq<Record>, history: seq<Doc>, i: nat, n: nat)
    requires LogIs(log, history) && i <= |log| && n == |history| - |log| + i
    ensures JoinTo(history, n) + Joined(log[i..]) == JoinTo(history, |history|)
    decreases |log| - i
  {
    if i < |log| {
      assert log[i..][0] == log[i] && log[i..][1..] == log[i + 1..];
      JoinedTail(log, history, i + 1, n + 1);
      assert JoinTo(history, n + 1) == JoinTo(history, n) + log[i].update;
    }
  }

  lemma TailStart(log: seq<Record>, history: seq<Doc>, through: nat)
    requires LogIs(log, history) && |history| - |log| <= through <= |history|
    ensures UpTo(log, through) == through - (|history| - |log|)
  {
    LogRises(log, history);
    UpToSplits(log, through);
    var n, m := UpTo(log, through), through - (|history| - |log|);
    hide UpTo;
    assert m < |log| ==> log[m].offset > through;
    assert n < |log| ==> log[n].offset > through;
  }

  lemma TailForm(base: Checkpoint, log: seq<Record>, history: seq<Doc>, last: nat)
    requires LogIs(log, history) && BaseIs(base, log, history) && EpochsOk(base, log, last)
    ensures var tail := After(log, base.through);
            && tail == log[base.through - (|history| - |log|)..] && Rising(tail)
            && (forall i :: 0 <= i < |tail| ==> tail[i].offset > base.through && tail[i].epoch >= base.epoch)
            && (forall i, j :: 0 <= i < j < |tail| ==> tail[i].epoch <= tail[j].epoch)
            && LastOffset(tail, base.through) == |history|
  {
    TailStart(log, history, base.through);
    var n := base.through - (|history| - |log|);
    TailOffsets(log, history, n);
    TailEpochs(base, log, history, last, n);
    hide LogIs, UpTo, JoinTo, EpochsOk;
  }

  lemma TailOffsets(log: seq<Record>, history: seq<Doc>, n: nat)
    requires LogIs(log, history) && n <= |log|
    ensures forall i :: 0 <= i < |log[n..]| ==> log[n..][i].offset == |history| - |log| + n + 1 + i
  {
  }

  lemma TailEpochs(base: Checkpoint, log: seq<Record>, history: seq<Doc>, last: nat, n: nat)
    requires LogIs(log, history) && EpochsOk(base, log, last) && n <= |log| && base.through == |history| - |log| + n
    ensures forall i :: 0 <= i < |log[n..]| ==> log[n..][i].epoch >= base.epoch
    ensures forall i, j :: 0 <= i < j < |log[n..]| ==> log[n..][i].epoch <= log[n..][j].epoch
  {
    assert forall i :: 0 <= i < |log[n..]| ==> log[n..][i] == log[i + n];
  }

  lemma TailReplays(base: Checkpoint, log: seq<Record>, history: seq<Doc>, last: nat)
    requires LogIs(log, history) && BaseIs(base, log, history) && EpochsOk(base, log, last)
    ensures var r := ReplayAll(After(log, base.through), Replayed(base.doc, base.through, 0, base.epoch));
            r.Ok? && r.value.doc == JoinTo(history, |history|) && r.value.through == |history|
  {
    TailForm(base, log, history, last);
    hide After, ReplayAll, LogIs, EpochsOk, Rising, Joined, LastOffset;
    var start := Replayed(base.doc, base.through, 0, base.epoch);
    ReplaySucceeds(After(log, base.through), start);
    ReplayJoins(After(log, base.through), start);
    JoinedTail(log, history, base.through - (|history| - |log|), base.through);
  }

  lemma RecoveredParts(st: State, k: Key)
    requires ValidKey(k)
    ensures var base := BaseOf(st, k);
            var out := ReplayAll(After(LogOf(st, k), base.through), Replayed(base.doc, base.through, 0, base.epoch));
            if out.Ok?
            then Recovered(st, k, 0) ==
                 Ok(Recovery(out.value.doc, base.through, base.epoch, out.value.through, out.value.epoch,
                             out.value.applied))
            else Recovered(st, k, 0) == Err(out.error)
  {
    hide ValidKey, ReplayAll, After, LogOf, BaseOf;
  }

  /** Whatever state the store is in, recovery succeeds and yields the join of
      all updates ever appended. */
  lemma RecoversAll(st: State, k: Key, s: string, fenced: bool, history: seq<Doc>)
    requires StoreIs(st, k, s, fenced, history) && ValidKey(k)
    ensures Recovered(st, k, 0).Ok?
    ensures var r := Recovered(st, k, 0).value;
            r.doc == JoinTo(history, |history|) && r.lastOffset == |history|
                && r.checkpointThrough == BaseOf(st, k).through
  {
    hide ValidKey, ReplayAll, After, LogOf, BaseOf, LogIs, BaseIs, EpochsOk, JoinTo, Recovered, LeaseOk;
    TailReplays(BaseOf(st, k), LogOf(st, k), history, LastOf(st, s, fenced));
    RecoveredParts(st, k);
  }

  // ----- Every event keeps the invariant -----

  /** Two authorities of the document's shard that both hold are the same. */
  lemma CurrentSame(st: State, a: Option<Fence>, b: Option<Fence>, s: string, fenced: bool)
    requires AuthorityIs(st, a, s, fenced) && AuthorityIs(st, b, s, fenced) && Current(st, a) && Current(st, b)
    ensures a == b
  {
  }

  /** Beside an open room that is current nothing else is, except closed rooms of
      the same authority. */
  lemma OneOpen(sys: System, k: Key, s: string, fenced: bool, id: nat)
    requires Safe(sys, k, s, fenced) && id in sys.rooms && sys.rooms[id].open
    requires Current(sys.st, sys.rooms[id].authority)
    ensures forall j :: j in sys.rooms && j != id && Current(sys.st, sys.rooms[j].authority) ==>
              !sys.rooms[j].open && sys.rooms[j].authority == sys.rooms[id].authority
    ensures forall j :: j in sys.loads ==> !Current(sys.st, sys.loads[j].authority)
  {
    hide StoreIs, RoomIs, LoadIs, Current, AuthorityIs;
    var mine := sys.rooms[id].authority;
    forall j | j in sys.rooms && j != id && Current(sys.st, sys.rooms[j].authority)
      ensures !sys.rooms[j].open && sys.rooms[j].authority == mine
    {
      CurrentSame(sys.st, sys.rooms[j].authority, mine, s, fenced);
    }
    forall j | j in sys.loads
      ensures !Current(sys.st, sys.loads[j].authority)
    {
      if Current(sys.st, sys.loads[j].authority) {
        CurrentSame(sys.st, sys.loads[j].authority, mine, s, fenced);
        assert false;
      }
    }
  }

  /** A permitted write means that the fence holds. */
  lemma WritesWhenCurrent(st: State, k: Key, authority: Option<Fence>, s: string, fenced: bool, now: nat)
    requires LeaseOk(st) && AuthorityIs(st, authority, s, fenced) && MayWrite(st, k, authority, now).Ok?
    ensures Current(st, authority) && ValidKey(k)
    ensures EpochOf(authority) == LastOf(st, s, fenced)
  {
    if fenced {
      MayWriteMeans(st, k, authority.value, now);
    }
  }

  /** Same leases: the same authorities hold, and are as they should be. */
  lemma SameCurrent(st: State, next: State, authority: Option<Fence>, s: string, fenced: bool)
    requires next.leases == st.leases && next.last == st.last
    ensures Current(next, authority) == Current(st, authority)
    ensures AuthorityIs(next, authority, s, fenced) == AuthorityIs(st, authority, s, fenced)
  {
  }

  lemma SameLast(st: State, next: State, s: string, fenced: bool)
    requires next.last == st.last
    ensures LastOf(next, s, fenced) == LastOf(st, s, fenced)
  {
  }

  lemma StoreOf(sys: System, k: Key, s: string, fenced: bool)
    requires Safe(sys, k, s, fenced)
    ensures StoreIs(sys.st, k, s, fenced, sys.history) && LeaseOk(sys.st) && NextOf(sys.st, k) == |sys.history|
  {
    hide LogIs, BaseIs, EpochsOk, RoomsOk, LoadsOk, Apart;
  }

  lemma RoomOf(sys: System, k: Key, s: string, fenced: bool, i: nat)
    requires Safe(sys, k, s, fenced) && i in sys.rooms
    ensures AuthorityIs(sys.st, sys.rooms[i].authority, s, fenced)
    ensures RoomIs(sys.rooms[i], Current(sys.st, sys.rooms[i].authority), LogOf(sys.st, k), sys.history)
  {
    hide StoreIs, LoadsOk, Apart, AuthorityIs, RoomIs;
  }

  lemma LoadOf(sys: System, k: Key, s: string, fenced: bool, i: nat)
    requires Safe(sys, k, s, fenced) && i in sys.loads
    ensures AuthorityIs(sys.st, sys.loads[i].authority, s, fenced)
    ensures LoadIs(sys.loads[i], Current(sys.st, sys.loads[i].authority), LogOf(sys.st, k), LastOf(sys.st, s, fenced),
                   sys.history)
  {
    hide StoreIs, RoomsOk, Apart, AuthorityIs, LoadIs;
  }

  // --- rooms and loads while the store moves on ---

  lemma CapturesLose(room: Room, current: bool, log: seq<Record>, history: seq<Doc>)
    requires RoomIs(room, current, log, history)
    ensures RoomIs(room, false, log, history)
  {
  }

  /** A room whose fence is gone stays as it is, however the log changes. */
  lemma RoomStale(room: Room, log: seq<Record>, history: seq<Doc>, nextLog: seq<Record>, more: seq<Doc>)
    requires RoomIs(room, false, log, history)
    ensures RoomIs(room, false, nextLog, history + more)
  {
    if room.gapless {
      JoinToSame(history, more, room.lastOffset);
    }
  }

  lemma CaptureFollows(c: Capture, epoch: nat, log: seq<Record>, history: seq<Doc>, rec: Record)
    requires CaptureIs(c, true, epoch, log, history) && rec.epoch == epoch
    ensures CaptureIs(c, true, epoch, log + [rec], history + [rec.update])
  {
    JoinToSame(history, [rec.update], c.through);
  }

  lemma CapturesFollow(room: Room, log: seq<Record>, history: seq<Doc>, rec: Record)
    requires RoomIs(room, true, log, history) && rec.epoch == EpochOf(room.authority)
    ensures forall n :: n in room.persists ==>
              CaptureIs(room.persists[n], true, EpochOf(room.authority), log + [rec], history + [rec.update])
  {
    hide CaptureIs;
    forall n | n in room.persists
      ensures CaptureIs(room.persists[n], true, EpochOf(room.authority), log + [rec], history + [rec.update])
    {
      CaptureFollows(room.persists[n], EpochOf(room.authority), log, history, rec);
    }
  }

  /** A closed room, while another of the same authority appends. */
  lemma RoomFollows(room: Room, log: seq<Record>, history: seq<Doc>, rec: Record)
    requires RoomIs(room, true, log, history) && !room.open && rec.epoch == EpochOf(room.authority)
    ensures RoomIs(room, true, log + [rec], history + [rec.update])
  {
    CapturesFollow(room, log, history, rec);
    hide CaptureIs;
    if room.gapless {
      JoinToSame(history, [rec.update], room.lastOffset);
    }
  }

  /** The open room that appends. */
  lemma RoomAppends(room: Room, log: seq<Record>, history: seq<Doc>, update: Doc)
    requires RoomIs(room, true, log, history) && room.open
    ensures var rec := Record(|history| + 1, update, EpochOf(room.authority));
            RoomIs(room.(doc := room.doc + update, lastOffset := |history| + 1), true, log + [rec], history + [update])
  {
    var rec := Record(|history| + 1, update, EpochOf(room.authority));
    CapturesFollow(room, log, history, rec);
    JoinToSame(history, [update], room.lastOffset);
    assert JoinTo(history + [update], |history| + 1) == JoinTo(history + [update], |history|) + update;
    hide CaptureIs, JoinTo;
  }

  lemma CaptureSuffix(c: Capture, current: bool, epoch: nat, log: seq<Record>, history: seq<Doc>, n: nat)
    requires CaptureIs(c, current, epoch, log, history) && n <= |log|
    ensures CaptureIs(c, current, epoch, log[n..], history)
  {
    assert forall i :: 0 <= i < |log[n..]| ==> log[n..][i] == log[i + n];
  }

  lemma RoomSuffix(room: Room, current: bool, log: seq<Record>, history: seq<Doc>, n: nat)
    requires RoomIs(room, current, log, history) && n <= |log|
    ensures RoomIs(room, current, log[n..], history)
  {
    hide CaptureIs;
    forall m | m in room.persists
      ensures CaptureIs(room.persists[m], current, EpochOf(room.authority), log[n..], history)
    {
      CaptureSuffix(room.persists[m], current, EpochOf(room.authority), log, history, n);
    }
  }

  lemma LoadLoses(load: Load, current: bool, log: seq<Record>, last: nat, history: seq<Doc>)
    requires LoadIs(load, current, log, last, history)
    ensures LoadIs(load, false, log, last, history)
  {
    hide EpochsOk;
  }

  /** A load whose fence is gone, while others append. */
  lemma LoadStale(load: Load, log: seq<Record>, last: nat, history: seq<Doc>, rec: Record)
    requires LoadIs(load, false, log, last, history) && rec.epoch == last
    ensures LoadIs(load, false, log + [rec], last, history + [rec.update])
  {
    if load.from.Some? {
      EpochsAppend(GotBase(load), log, last, rec);
      JoinToSame(history, [rec.update], load.got.through);
    }
    hide EpochsOk;
  }

  lemma LoadSuffix(load: Load, current: bool, log: seq<Record>, last: nat, history: seq<Doc>, n: nat)
    requires LoadIs(load, current, log, last, history) && n <= |log|
    ensures LoadIs(load, current, log[n..], last, history)
  {
    if load.from.Some? {
      EpochsSuffix(GotBase(load), log, last, n);
    }
    hide EpochsOk;
  }

  lemma EpochsSuffix(base: Checkpoint, log: seq<Record>, last: nat, n: nat)
    requires EpochsOk(base, log, last) && n <= |log|
    ensures EpochsOk(base, log[n..], last)
  {
    assert forall i :: 0 <= i < |log[n..]| ==> log[n..][i] == log[i + n];
  }

  lemma LoadLater(load: Load, current: bool, log: seq<Record>, last: nat, later: nat, history: seq<Doc>)
    requires LoadIs(load, current, log, last, history) && last <= later
    ensures LoadIs(load, current, log, later, history)
  {
    if load.from.Some? {
      LaterEpochs(GotBase(load), log, last, later);
    }
    hide EpochsOk;
  }

  lemma LaterEpochs(base: Checkpoint, log: seq<Record>, last: nat, later: nat)
    requires EpochsOk(base, log, last) && last <= later
    ensures EpochsOk(base, log, later)
  {
  }

  // --- one room, or one load ---

  /** A change of one room that leaves the store alone. */
  lemma RoomChanges(sys: System, k: Key, s: string, fenced: bool, id: nat, room: Room)
    requires Safe(sys, k, s, fenced) && id in sys.rooms && room.authority == sys.rooms[id].authority
    requires room.open ==> sys.rooms[id].open
    requires RoomIs(room, Current(sys.st, room.authority), LogOf(sys.st, k), sys.history)
    ensures Safe(sys.(rooms := sys.rooms[id := room]), k, s, fenced)
  {
    hide StoreIs, RoomIs, LoadIs, LogOf, Current, AuthorityIs, LastOf;
    var next := sys.(rooms := sys.rooms[id := room]);
    StillApart(sys.rooms, sys.loads, id, room);
    assert RoomsOk(next, k, s, fenced);
  }

  lemma StillApart(rooms: map<nat, Room>, loads: map<nat, Load>, id: nat, room: Room)
    requires Apart(rooms, loads) && id in rooms && room.authority == rooms[id].authority
    requires room.open ==> rooms[id].open
    ensures Apart(rooms[id := room], loads)
  {
  }

  /** A change of one load. */
  lemma LoadChanges(sys: System, k: Key, s: string, fenced: bool, id: nat, load: Load)
    requires Safe(sys, k, s, fenced) && id in sys.loads && load.authority == sys.loads[id].authority
    ensures Safe(sys.(loads := sys.loads[id := load]), k, s, fenced) <==>
            LoadIs(load, Current(sys.st, load.authority), LogOf(sys.st, k), LastOf(sys.st, s, fenced), sys.history)
  {
    hide StoreIs, RoomIs, LoadIs, LogOf, Current, AuthorityIs, LastOf;
    var next := sys.(loads := sys.loads[id := load]);
    assert Apart(next.rooms, next.loads) && RoomsOk(next, k, s, fenced);
    assert next.loads[id] == load;
    hide RoomsOk, Apart;
  }

  lemma LoadEnds(sys: System, k: Key, s: string, fenced: bool, id: nat)
    requires Safe(sys, k, s, fenced)
    ensures Safe(sys.(loads := sys.loads - {id}), k, s, fenced)
  {
    hide StoreIs, RoomIs, LoadIs, LogOf, Current, AuthorityIs, LastOf;
    assert RoomsOk(sys.(loads := sys.loads - {id}), k, s, fenced);
  }

  // --- append ---

  lemma LogAppends(log: seq<Record>, history: seq<Doc>, update: Doc, epoch: nat)
    requires LogIs(log, history)
    ensures LogIs(log + [Record(|history| + 1, update, epoch)], history + [update])
  {
  }

  lemma BaseStays(base: Checkpoint, log: seq<Record>, history: seq<Doc>, rec: Record)
    requires BaseIs(base, log, history)
    ensures BaseIs(base, log + [rec], history + [rec.update])
  {
    JoinToSame(history, [rec.update], base.through);
  }

  lemma EpochsAppend(base: Checkpoint, log: seq<Record>, last: nat, rec: Record)
    requires EpochsOk(base, log, last) && rec.epoch == last
    ensures EpochsOk(base, log + [rec], last)
  {
  }

  lemma AppendEffect(st: State, k: Key, update: Doc, fence: Option<Fence>, now: nat)
    requires MayWrite(st, k, fence, now).Ok?
    ensures var next := Append(st, k, update, fence, now);
            && LogOf(next, k) == LogOf(st, k) + [Record(NextOf(st, k) + 1, update, EpochOf(fence))]
            && NextOf(next, k) == NextOf(st, k) + 1 && BaseOf(next, k) == BaseOf(st, k)
            && next.leases == st.leases && next.last == st.last && next.placements == st.placements
  {
    hide MayWrite;
  }

  lemma AppendStore(st: State, k: Key, s: string, fenced: bool, history: seq<Doc>, update: Doc, fence: Option<Fence>,
        now: nat)
    requires StoreIs(st, k, s, fenced, history) && MayWrite(st, k, fence, now).Ok?
          && EpochOf(fence) == LastOf(st, s, fenced)
    ensures StoreIs(Append(st, k, update, fence, now), k, s, fenced, history + [update])
  {
    AppendEffect(st, k, update, fence, now);
    hide MayWrite, Append, LogIs, BaseIs, EpochsOk, LogOf, NextOf, BaseOf;
    var rec := Record(|history| + 1, update, EpochOf(fence));
    LogAppends(LogOf(st, k), history, update, EpochOf(fence));
    BaseStays(BaseOf(st, k), LogOf(st, k), history, rec);
    EpochsAppend(BaseOf(st, k), LogOf(st, k), LastOf(st, s, fenced), rec);
  }

  /** The rooms and loads after room `id` appended. */
  lemma AppendsKeep(sys: System, k: Key, s: string, fenced: bool, id: nat, next: State, room: Room, rec: Record)
    requires Safe(sys, k, s, fenced) && id in sys.rooms && sys.rooms[id].open
    requires Current(sys.st, sys.rooms[id].authority)
    requires next.leases == sys.st.leases && next.last == sys.st.last && LogOf(next, k) == LogOf(sys.st, k) + [rec]
    requires StoreIs(next, k, s, fenced, sys.history + [rec.update]) && rec.epoch == LastOf(sys.st, s, fenced)
    requires rec.epoch == EpochOf(room.authority) && room.authority == sys.rooms[id].authority
    requires RoomIs(room, true, LogOf(next, k), sys.history + [rec.update])
    ensures Safe(System(next, sys.rooms[id := room], sys.loads, sys.history + [rec.update]), k, s, fenced)
  {
    OneOpen(sys, k, s, fenced, id);
    var after := System(next, sys.rooms[id := room], sys.loads, sys.history + [rec.update]);
    StillApart(sys.rooms, sys.loads, id, room);
    SameLast(sys.st, next, s, fenced);
    hide StoreIs, RoomIs, LoadIs, LogOf, Current, AuthorityIs, LastOf, Apart;
    forall j | j in after.rooms
      ensures AuthorityIs(next, after.rooms[j].authority, s, fenced)
      ensures RoomIs(after.rooms[j], Current(next, after.rooms[j].authority), LogOf(next, k), after.history)
    {
      RoomOf(sys, k, s, fenced, j);
      SameCurrent(sys.st, next, after.rooms[j].authority, s, fenced);
      if j != id {
        if Current(next, sys.rooms[j].authority) {
          RoomFollows(sys.rooms[j], LogOf(sys.st, k), sys.history, rec);
        } else {
          RoomStale(sys.rooms[j], LogOf(sys.st, k), sys.history, LogOf(next, k), [rec.update]);
        }
      }
    }
    forall j | j in after.loads
      ensures AuthorityIs(next, after.loads[j].authority, s, fenced)
      ensures LoadIs(after.loads[j], Current(next, after.loads[j].authority), LogOf(next, k), LastOf(next, s, fenced),
                     after.history)
    {
      LoadOf(sys, k, s, fenced, j);
      SameCurrent(sys.st, next, after.loads[j].authority, s, fenced);
      LoadStale(sys.loads[j], LogOf(sys.st, k), LastOf(sys.st, s, fenced), sys.history, rec);
    }
  }

  lemma AppliesHappens(sys: System, k: Key, s: string, fenced: bool, e: Event)
    requires e.Applies? && e.id in sys.rooms
    ensures var room := sys.rooms[e.id];
            var may := MayWrite(sys.st, k, room.authority, e.now);
            Happens(sys, k, s, fenced, e) ==
              if room.lost || !room.open then sys.(rooms := sys.rooms[e.id := room])
              else if may.Err? then sys.(rooms := sys.rooms[e.id := Refused(room, may.error)])
              else
                System(Append(sys.st, k, e.update, room.authority, e.now),
                       sys.rooms[e.id := room.(doc := room.doc + e.update, lastOffset := NextOf(sys.st, k) + 1)],
                       sys.loads, sys.history + [e.update])
  {
    var room := sys.rooms[e.id];
    if !room.lost && room.open && MayWrite(sys.st, k, room.authority, e.now).Ok? {
      AppendEffect(sys.st, k, e.update, room.authority, e.now);
    }
    hide MayWrite, Append, Refused, Recovered, Step, NextOf;
  }

  lemma AppliesKeeps(sys: System, k: Key, s: string, fenced: bool, e: Event)
    requires Safe(sys, k, s, fenced) && e.Applies? && e.id in sys.rooms
    ensures Safe(Happens(sys, k, s, fenced, e), k, s, fenced)
  {
    var room := sys.rooms[e.id];
    AppliesHappens(sys, k, s, fenced, e);
    hide Safe, RoomIs, MayWrite, Append, Happens, Current, LogOf, NextOf;
    var may := MayWrite(sys.st, k, room.authority, e.now);
    if !room.lost && room.open && may.Ok? {
      ApplySucceeds(sys, k, s, fenced, e);
    } else {
      RoomOf(sys, k, s, fenced, e.id);
      LostSame(room, Current(sys.st, room.authority), LogOf(sys.st, k), sys.history);
      RoomChanges(sys, k, s, fenced, e.id, room);
      RoomChanges(sys, k, s, fenced, e.id, room.(lost := true));
    }
  }

  lemma ApplySucceeds(sys: System, k: Key, s: string, fenced: bool, e: Event)
    requires Safe(sys, k, s, fenced) && e.Applies? && e.id in sys.rooms && sys.rooms[e.id].open
    requires MayWrite(sys.st, k, sys.rooms[e.id].authority, e.now).Ok?
    ensures var room := sys.rooms[e.id];
            Safe(System(Append(sys.st, k, e.update, room.authority, e.now),
                        sys.rooms[e.id := room.(doc := room.doc + e.update, lastOffset := NextOf(sys.st, k) + 1)],
                        sys.loads, sys.history + [e.update]), k, s, fenced)
  {
    var room := sys.rooms[e.id];
    StoreOf(sys, k, s, fenced);
    RoomOf(sys, k, s, fenced, e.id);
    hide Safe, StoreIs, RoomIs, MayWrite, Append, AuthorityIs, Current, LogOf, NextOf, LeaseOk, LastOf, EpochOf;
    WritesWhenCurrent(sys.st, k, room.authority, s, fenced, e.now);
    AppendEffect(sys.st, k, e.update, room.authority, e.now);
    AppendStore(sys.st, k, s, fenced, sys.history, e.update, room.authority, e.now);
    RoomAppends(room, LogOf(sys.st, k), sys.history, e.update);
    AppendsKeep(sys, k, s, fenced, e.id, Append(sys.st, k, e.update, room.authority, e.now),
                room.(doc := room.doc + e.update, lastOffset := |sys.history| + 1),
                Record(|sys.history| + 1, e.update, EpochOf(room.authority)));
  }

  lemma LostSame(room: Room, current: bool, log: seq<Record>, history: seq<Doc>)
    requires RoomIs(room, current, log, history)
    ensures RoomIs(room.(lost := true), current, log, history)
  {
    hide CaptureIs;
  }

  lemma EndedSame(room: Room, current: bool, log: seq<Record>, history: seq<Doc>, ticket: nat)
    requires RoomIs(room, current, log, history)
    ensures RoomIs(Ended(room, ticket), current, log, history)
          && RoomIs(Ended(room.(lost := true), ticket), current, log, history)
  {
    hide CaptureIs;
  }

  // --- capture ---

  lemma CaptureSet(room: Room, current: bool, log: seq<Record>, history: seq<Doc>, ticket: nat, c: Capture)
    requires RoomIs(room, current, log, history) && CaptureIs(c, current, EpochOf(room.authority), log, history)
    ensures RoomIs(room.(persists := room.persists[ticket := c]), current, log, history)
  {
    hide CaptureIs;
  }

  lemma FullCapture(room: Room, current: bool, log: seq<Record>, history: seq<Doc>, trim: bool)
    requires RoomIs(room, current, log, history) && LogIs(log, history)
    ensures room.open ==>
              CaptureIs(Capture(room.doc, room.lastOffset, trim, false), current, EpochOf(room.authority), log, history)
    ensures CaptureIs(Capture(JoinTo(history, |history|), |history|, trim, false), current, EpochOf(room.authority),
                      log, history)
  {
  }

  lemma CaptureMade(room: Room, current: bool, log: seq<Record>, history: seq<Doc>, ticket: nat)
    requires RoomIs(room, current, log, history) && LogIs(log, history)
    ensures RoomIs(CaptureRoom(room, ticket), current, log, history)
    ensures RoomIs(room.(persists := room.persists[ticket :=
                     Capture(JoinTo(history, |history|), |history|, true, false)]), current, log, history)
  {
    hide RoomIs, CaptureIs, LogIs, JoinTo;
    FullCapture(room, current, log, history, room.lastOffset > room.compactedAt);
    FullCapture(room, current, log, history, true);
    CaptureSet(room, current, log, history, ticket, Capture(JoinTo(history, |history|), |history|, true, false));
    if room.open {
      CaptureSet(room, current, log, history, ticket,
                 Capture(room.doc, room.lastOffset, room.lastOffset > room.compactedAt, false));
    }
  }

  lemma LogCaptured(sys: System, k: Key, s: string, fenced: bool, room: Room, ticket: nat)
    requires Safe(sys, k, s, fenced)
    ensures var c := Capture(JoinTo(sys.history, |sys.history|), |sys.history|, true, false);
            CaptureLog(sys.st, k, room, ticket) in {room, room.(persists := room.persists[ticket := c])}
  {
    StoreOf(sys, k, s, fenced);
    hide Safe, Recovered, JoinTo, StoreIs, LeaseOk, BaseOf;
    if Recovered(sys.st, k, 0).Ok? {
      RecoveredValid(sys.st, k);
      RecoversAll(sys.st, k, s, fenced, sys.history);
    }
  }

  lemma CapturesKeeps(sys: System, k: Key, s: string, fenced: bool, e: Event)
    requires Safe(sys, k, s, fenced) && (e.Captures? || e.Compacts?) && e.id in sys.rooms
    ensures Safe(Happens(sys, k, s, fenced, e), k, s, fenced)
  {
    var room := sys.rooms[e.id];
    var next := if e.Captures? then CaptureRoom(room, e.ticket) else CaptureLog(sys.st, k, room, e.ticket);
    assert Happens(sys, k, s, fenced, e) == sys.(rooms := sys.rooms[e.id := next]) by {
      hide Safe, CaptureRoom, CaptureLog, Step, Loads;
    }
    StoreOf(sys, k, s, fenced);
    StoreParts(sys.st, k, s, fenced, sys.history);
    RoomOf(sys, k, s, fenced, e.id);
    LogCaptured(sys, k, s, fenced, room, e.ticket);
    CaptureMade(room, Current(sys.st, room.authority), LogOf(sys.st, k), sys.history, e.ticket);
    CaptureOfSame(room, e.ticket);
    hide Safe, Happens, RoomIs, CaptureRoom, CaptureLog, LogIs, BaseIs, EpochsOk, AuthorityIs, Current, LogOf, BaseOf,
        LeaseOk, StoreIs, JoinTo;
    RoomChanges(sys, k, s, fenced, e.id, next);
  }

  lemma CaptureOfSame(room: Room, ticket: nat)
    ensures CaptureRoom(room, ticket).authority == room.authority && CaptureRoom(room, ticket).open == room.open
  {
  }

  lemma RecoveredValid(st: State, k: Key)
    requires Recovered(st, k, 0).Ok?
    ensures ValidKey(k)
  {
    hide ValidKey;
  }

  // --- save ---

  lemma SaveEffect(st: State, k: Key, doc: Doc, through: nat, fence: Option<Fence>, now: nat)
    requires MayWrite(st, k, fence, now).Ok?
    ensures var next := Save(st, k, doc, through, 0, fence, now);
            && LogOf(next, k) == LogOf(st, k) && NextOf(next, k) == NextOf(st, k)
            && BaseOf(next, k) == Checkpoint(doc, through, EpochOf(fence))
            && next.leases == st.leases && next.last == st.last && next.placements == st.placements
  {
    hide MayWrite;
  }

  /** A checkpoint of a capture is one exactly if it is saved in its turn. */
  lemma SavedBase(c: Capture, base: Checkpoint, log: seq<Record>, history: seq<Doc>, last: nat)
    requires LogIs(log, history) && BaseIs(base, log, history) && EpochsOk(base, log, last)
    requires CaptureIs(c, true, last, log, history)
    ensures var next := Checkpoint(c.doc, c.through, last);
            EpochsOk(next, log, last) && (BaseIs(next, log, history) <==> |history| <= c.through + |log|)
  {
  }

  lemma SavedRoom(room: Room, current: bool, log: seq<Record>, history: seq<Doc>, ticket: nat)
    requires RoomIs(room, current, log, history) && ticket in room.persists
    ensures RoomIs(Saved(room, ticket), current, log, history)
  {
    var c := room.persists[ticket];
    assert CaptureIs(c, current, EpochOf(room.authority), log, history);
    assert CaptureIs(c.(saved := true), current, EpochOf(room.authority), log, history);
    CaptureSet(room, current, log, history, ticket, c.(saved := true));
    EndedSame(room, current, log, history, ticket);
  }

  lemma CaptureOf(room: Room, current: bool, log: seq<Record>, history: seq<Doc>, ticket: nat)
    requires RoomIs(room, current, log, history) && ticket in room.persists
    ensures CaptureIs(room.persists[ticket], current, EpochOf(room.authority), log, history)
  {
    hide CaptureIs;
  }

  /** The store after a save is as it should be exactly if it came in its turn. */
  lemma SaveResult(st: State, k: Key, s: string, fenced: bool, history: seq<Doc>, c: Capture, fence: Option<Fence>,
        now: nat)
    requires StoreIs(st, k, s, fenced, history) && MayWrite(st, k, fence, now).Ok?
          && EpochOf(fence) == LastOf(st, s, fenced)
    requires CaptureIs(c, true, EpochOf(fence), LogOf(st, k), history)
    ensures StoreIs(Save(st, k, c.doc, c.through, 0, fence, now), k, s, fenced, history) <==> SaveInTurn(st, k, c)
  {
    SaveEffect(st, k, c.doc, c.through, fence, now);
    hide MayWrite, Save, LogIs, BaseIs, EpochsOk, LogOf, BaseOf, NextOf, CaptureIs;
    SavedBase(c, BaseOf(st, k), LogOf(st, k), history, LastOf(st, s, fenced));
  }

  lemma SaveHappens(sys: System, k: Key, s: string, fenced: bool, e: Event)
    requires e.SavesIt? && e.id in sys.rooms
    ensures var room := sys.rooms[e.id];
            var may := MayWrite(sys.st, k, room.authority, e.now);
            Happens(sys, k, s, fenced, e) ==
              if !ToSave(room, e.ticket) then sys.(rooms := sys.rooms[e.id := room])
              else if may.Err? then sys.(rooms := sys.rooms[e.id := Ended(Refused(room, may.error), e.ticket)])
              else
                var c := room.persists[e.ticket];
                System(Save(sys.st, k, c.doc, c.through, 0, room.authority, e.now),
                       sys.rooms[e.id := Saved(room, e.ticket)], sys.loads, sys.history)
  {
    hide Saved, MayWrite, Save, Refused, Recovered, Step, Loads, Ended;
  }

  /** The rooms and loads after room `id` saved or trimmed. */
  lemma CompactsKeep(sys: System, k: Key, s: string, fenced: bool, id: nat, next: State, room: Room, n: nat)
    requires Safe(sys, k, s, fenced) && id in sys.rooms
    requires next.leases == sys.st.leases && next.last == sys.st.last
    requires n <= |LogOf(sys.st, k)| && LogOf(next, k) == LogOf(sys.st, k)[n..]
    requires StoreIs(next, k, s, fenced, sys.history)
    requires room.authority == sys.rooms[id].authority && (room.open ==> sys.rooms[id].open)
    requires RoomIs(room, Current(sys.st, room.authority), LogOf(sys.st, k), sys.history)
    ensures Safe(System(next, sys.rooms[id := room], sys.loads, sys.history), k, s, fenced)
  {
    var after := System(next, sys.rooms[id := room], sys.loads, sys.history);
    RoomChanges(sys, k, s, fenced, id, room);
    var before := sys.(rooms := sys.rooms[id := room]);
    SameLast(sys.st, next, s, fenced);
    hide StoreIs, RoomIs, LoadIs, LogOf, Current, AuthorityIs, LastOf, Apart;
    forall j | j in after.rooms
      ensures AuthorityIs(next, after.rooms[j].authority, s, fenced)
      ensures RoomIs(after.rooms[j], Current(next, after.rooms[j].authority), LogOf(next, k), after.history)
    {
      RoomOf(before, k, s, fenced, j);
      SameCurrent(sys.st, next, after.rooms[j].authority, s, fenced);
      RoomSuffix(before.rooms[j], Current(sys.st, before.rooms[j].authority), LogOf(sys.st, k), sys.history, n);
    }
    forall j | j in after.loads
      ensures AuthorityIs(next, after.loads[j].authority, s, fenced)
      ensures LoadIs(after.loads[j], Current(next, after.loads[j].authority), LogOf(next, k), LastOf(next, s, fenced),
                     after.history)
    {
      LoadOf(before, k, s, fenced, j);
      SameCurrent(sys.st, next, after.loads[j].authority, s, fenced);
      LoadSuffix(sys.loads[j], Current(sys.st, sys.loads[j].authority), LogOf(sys.st, k), LastOf(sys.st, s, fenced),
                 sys.history, n);
    }
  }

  lemma SavesKeeps(sys: System, k: Key, s: string, fenced: bool, e: Event)
    requires Safe(sys, k, s, fenced) && e.SavesIt? && e.id in sys.rooms
    ensures Safe(Happens(sys, k, s, fenced, e), k, s, fenced) <==> InTurn(sys, k, e)
  {
    var room := sys.rooms[e.id];
    SaveHappens(sys, k, s, fenced, e);
    RoomOf(sys, k, s, fenced, e.id);
    hide Safe, RoomIs, MayWrite, Save, Happens, LogOf, AuthorityIs, Current, SaveInTurn, TrimInTurn, ListInTurn;
    var may := MayWrite(sys.st, k, room.authority, e.now);
    if ToSave(room, e.ticket) && may.Ok? {
      SaveSucceeds(sys, k, s, fenced, e);
    } else {
      LostSame(room, Current(sys.st, room.authority), LogOf(sys.st, k), sys.history);
      EndedSame(room, Current(sys.st, room.authority), LogOf(sys.st, k), sys.history, e.ticket);
      RoomChanges(sys, k, s, fenced, e.id, room);
      RoomChanges(sys, k, s, fenced, e.id, Ended(room, e.ticket));
      RoomChanges(sys, k, s, fenced, e.id, Ended(room.(lost := true), e.ticket));
    }
  }

  lemma SaveSucceeds(sys: System, k: Key, s: string, fenced: bool, e: Event)
    requires Safe(sys, k, s, fenced) && e.SavesIt? && e.id in sys.rooms && ToSave(sys.rooms[e.id], e.ticket)
    requires MayWrite(sys.st, k, sys.rooms[e.id].authority, e.now).Ok?
    ensures var room := sys.rooms[e.id];
            var c := room.persists[e.ticket];
            var next := System(Save(sys.st, k, c.doc, c.through, 0, room.authority, e.now),
                               sys.rooms[e.id := Saved(room, e.ticket)], sys.loads, sys.history);
            Safe(next, k, s, fenced) <==> SaveInTurn(sys.st, k, c)
  {
    var room := sys.rooms[e.id];
    var c := room.persists[e.ticket];
    RoomOf(sys, k, s, fenced, e.id);
    StoreOf(sys, k, s, fenced);
    SavedSame(room, e.ticket);
    hide RoomIs, CaptureIs, MayWrite, Save, LogOf, BaseOf, NextOf, StoreIs, LeaseOk, AuthorityIs, Current, SaveInTurn,
        Saved, RoomsOk, LoadsOk, Apart;
    WritesWhenCurrent(sys.st, k, room.authority, s, fenced, e.now);
    CaptureOf(room, true, LogOf(sys.st, k), sys.history, e.ticket);
    SaveEffect(sys.st, k, c.doc, c.through, room.authority, e.now);
    SavedRoom(room, true, LogOf(sys.st, k), sys.history, e.ticket);
    SaveResult(sys.st, k, s, fenced, sys.history, c, room.authority, e.now);
    var st := Save(sys.st, k, c.doc, c.through, 0, room.authority, e.now);
    if SaveInTurn(sys.st, k, c) {
      hide Safe;
      assert LogOf(sys.st, k)[0..] == LogOf(sys.st, k);
      CompactsKeep(sys, k, s, fenced, e.id, st, Saved(room, e.ticket), 0);
    }
  }

  lemma SavedSame(room: Room, ticket: nat)
    requires ticket in room.persists
    ensures Saved(room, ticket).authority == room.authority && Saved(room, ticket).open == room.open
  {
  }

  // --- trim ---

  lemma TrimEffect(st: State, k: Key, through: nat, fence: Option<Fence>, now: nat)
    requires MayWrite(st, k, fence, now).Ok?
    ensures var next := Trim(st, k, through, fence, now);
            && LogOf(next, k) == After(LogOf(st, k), through) && NextOf(next, k) == NextOf(st, k)
            && BaseOf(next, k) == BaseOf(st, k)
            && next.leases == st.leases && next.last == st.last && next.placements == st.placements
  {
    WithLogIs(st, k, After(LogOf(st, k), through));
    hide MayWrite, After, WithLog, LogOf;
  }

  lemma SuffixIs(base: Checkpoint, log: seq<Record>, history: seq<Doc>, last: nat, n: nat)
    requires LogIs(log, history) && BaseIs(base, log, history) && EpochsOk(base, log, last)
    requires n <= |log| && (n > 0 ==> log[n - 1].offset <= base.through)
    ensures LogIs(log[n..], history) && BaseIs(base, log[n..], history) && EpochsOk(base, log[n..], last)
  {
    EpochsSuffix(base, log, last, n);
    hide JoinTo, EpochsOk;
    var rest := log[n..];
    assert forall i :: 0 <= i < |rest| ==> rest[i] == log[i + n];
  }

  /** The log after a trim is covered by the checkpoint exactly if it came in
      its turn. */
  lemma TrimmedLog(c: Capture, base: Checkpoint, log: seq<Record>, history: seq<Doc>, last: nat)
    requires LogIs(log, history) && BaseIs(base, log, history) && EpochsOk(base, log, last) && c.through <= |history|
    ensures var n := UpTo(log, c.through);
            && n <= |log| && After(log, c.through) == log[n..]
            && (c.through <= base.through ==> LogIs(log[n..], history) && BaseIs(base, log[n..], history) && EpochsOk(base, log[n..], last))
            && (c.through > base.through ==> !BaseIs(base, log[n..], history))
  {
    LogRises(log, history);
    UpToSplits(log, c.through);
    var n := UpTo(log, c.through);
    hide UpTo, Rising, JoinTo;
    if c.through <= base.through {
      SuffixIs(base, log, history, last, n);
    } else {
      assert n < |log| ==> log[n].offset > c.through;
      assert n == |log| || n >= c.through - (|history| - |log|);
      assert |log[n..]| == |log| - n;
    }
  }

  lemma TrimsStore(st: State, next: State, k: Key, s: string, fenced: bool, history: seq<Doc>)
    requires StoreIs(st, k, s, fenced, history)
    requires next.leases == st.leases && next.last == st.last && next.placements == st.placements
    requires NextOf(next, k) == NextOf(st, k) && BaseOf(next, k) == BaseOf(st, k)
    requires LogIs(LogOf(next, k), history) && BaseIs(BaseOf(next, k), LogOf(next, k), history)
    requires EpochsOk(BaseOf(next, k), LogOf(next, k), LastOf(next, s, fenced))
    ensures StoreIs(next, k, s, fenced, history)
  {
    hide LogIs, BaseIs, EpochsOk, LogOf, BaseOf, NextOf;
  }

  /** The store after a trim is as it should be exactly if it came in its turn. */
  lemma TrimResult(st: State, k: Key, s: string, fenced: bool, history: seq<Doc>, c: Capture, fence: Option<Fence>,
        now: nat)
    requires StoreIs(st, k, s, fenced, history) && MayWrite(st, k, fence, now).Ok? && c.through <= |history|
    ensures var next := Trim(st, k, c.through, fence, now);
            && (StoreIs(next, k, s, fenced, history) <==> TrimInTurn(st, k, c))
            && next.leases == st.leases && next.last == st.last
            && UpTo(LogOf(st, k), c.through) <= |LogOf(st, k)|
            && LogOf(next, k) == LogOf(st, k)[UpTo(LogOf(st, k), c.through)..]
  {
    StoreParts(st, k, s, fenced, history);
    TrimEffect(st, k, c.through, fence, now);
    hide MayWrite, Trim, After, UpTo, LogIs, BaseIs, EpochsOk, LogOf, BaseOf, NextOf, LastOf;
    TrimmedLog(c, BaseOf(st, k), LogOf(st, k), history, LastOf(st, s, fenced));
    var next := Trim(st, k, c.through, fence, now);
    SameLast(st, next, s, fenced);
    if TrimInTurn(st, k, c) {
      hide StoreIs;
      TrimsStore(st, next, k, s, fenced, history);
    }
  }

  lemma TrimSucceeds(sys: System, k: Key, s: string, fenced: bool, e: Event)
    requires Safe(sys, k, s, fenced) && e.TrimsIt? && e.id in sys.rooms && ToTrim(sys.rooms[e.id], e.ticket)
    requires MayWrite(sys.st, k, sys.rooms[e.id].authority, e.now).Ok?
    ensures var room := sys.rooms[e.id];
            var c := room.persists[e.ticket];
            var next := System(Trim(sys.st, k, c.through, room.authority, e.now),
                               sys.rooms[e.id := Compacted(Ended(room, e.ticket), c.through)], sys.loads, sys.history);
            Safe(next, k, s, fenced) <==> TrimInTurn(sys.st, k, c)
  {
    var room := sys.rooms[e.id];
    var c := room.persists[e.ticket];
    RoomOf(sys, k, s, fenced, e.id);
    StoreOf(sys, k, s, fenced);
    EndedAuthority(room, e.ticket, c.through);
    hide Compacted, Ended, RoomIs, MayWrite, Trim, LogOf, BaseOf, NextOf, StoreIs, LeaseOk, AuthorityIs, Current,
        TrimInTurn, UpTo, RoomsOk, LoadsOk, Apart, CaptureIs;
    WritesWhenCurrent(sys.st, k, room.authority, s, fenced, e.now);
    CaptureOf(room, true, LogOf(sys.st, k), sys.history, e.ticket);
    CaptureBounded(c, EpochOf(room.authority), LogOf(sys.st, k), sys.history);
    TrimResult(sys.st, k, s, fenced, sys.history, c, room.authority, e.now);
    CompactedSame(room, LogOf(sys.st, k), sys.history, e.ticket, c.through);
    var st := Trim(sys.st, k, c.through, room.authority, e.now);
    if TrimInTurn(sys.st, k, c) {
      hide Safe;
      CompactsKeep(sys, k, s, fenced, e.id, st, Compacted(Ended(room, e.ticket), c.through),
                   UpTo(LogOf(sys.st, k), c.through));
    }
  }

  lemma CaptureBounded(c: Capture, epoch: nat, log: seq<Record>, history: seq<Doc>)
    requires CaptureIs(c, true, epoch, log, history)
    ensures c.through <= |history| && c.doc == JoinTo(history, c.through)
  {
  }

  lemma CompactedSame(room: Room, log: seq<Record>, history: seq<Doc>, ticket: nat, through: nat)
    requires RoomIs(room, true, log, history)
    ensures RoomIs(Compacted(Ended(room, ticket), through), true, log, history)
  {
    hide CaptureIs;
  }

  lemma EndedAuthority(room: Room, ticket: nat, through: nat)
    ensures var next := Compacted(Ended(room, ticket), through);
            next.authority == room.authority && next.open == room.open
  {
  }

  lemma StoreParts(st: State, k: Key, s: string, fenced: bool, history: seq<Doc>)
    requires StoreIs(st, k, s, fenced, history)
    ensures LogIs(LogOf(st, k), history) && BaseIs(BaseOf(st, k), LogOf(st, k), history)
    ensures EpochsOk(BaseOf(st, k), LogOf(st, k), LastOf(st, s, fenced))
  {
    hide LogIs, BaseIs, EpochsOk, LogOf, BaseOf, NextOf;
  }

  lemma TrimHappens(sys: System, k: Key, s: string, fenced: bool, e: Event)
    requires e.TrimsIt? && e.id in sys.rooms
    ensures var room := sys.rooms[e.id];
            var may := MayWrite(sys.st, k, room.authority, e.now);
            Happens(sys, k, s, fenced, e) ==
              if !ToTrim(room, e.ticket) then sys.(rooms := sys.rooms[e.id := room])
              else if may.Err? then sys.(rooms := sys.rooms[e.id := Ended(Refused(room, may.error), e.ticket)])
              else
                var c := room.persists[e.ticket];
                System(Trim(sys.st, k, c.through, room.authority, e.now),
                       sys.rooms[e.id := Compacted(Ended(room, e.ticket), c.through)], sys.loads, sys.history)
  {
    hide Compacted, MayWrite, Trim, Refused, Recovered, Step, Loads, Ended;
  }

  lemma TrimsKeeps(sys: System, k: Key, s: string, fenced: bool, e: Event)
    requires Safe(sys, k, s, fenced) && e.TrimsIt? && e.id in sys.rooms
    ensures Safe(Happens(sys, k, s, fenced, e), k, s, fenced) <==> InTurn(sys, k, e)
  {
    var room := sys.rooms[e.id];
    TrimHappens(sys, k, s, fenced, e);
    RoomOf(sys, k, s, fenced, e.id);
    hide Safe, RoomIs, MayWrite, Trim, Happens, LogOf, AuthorityIs, Current, SaveInTurn, TrimInTurn, ListInTurn,
        Compacted;
    var may := MayWrite(sys.st, k, room.authority, e.now);
    if ToTrim(room, e.ticket) && may.Ok? {
      TrimSucceeds(sys, k, s, fenced, e);
    } else {
      LostSame(room, Current(sys.st, room.authority), LogOf(sys.st, k), sys.history);
      EndedSame(room, Current(sys.st, room.authority), LogOf(sys.st, k), sys.history, e.ticket);
      RoomChanges(sys, k, s, fenced, e.id, room);
      RoomChanges(sys, k, s, fenced, e.id, Ended(room, e.ticket));
      RoomChanges(sys, k, s, fenced, e.id, Ended(room.(lost := true), e.ticket));
    }
  }

  // --- load ---

  lemma ResolvedIs(st: State, s: string, fenced: bool, authority: Option<Fence>)
    requires LeaseOk(st) && Resolved(st, s, fenced) == Ok(authority)
    ensures AuthorityIs(st, authority, s, fenced) && Current(st, authority)
  {
  }

  lemma ResolvesKeeps(sys: System, k: Key, s: string, fenced: bool, e: Event)
    requires Safe(sys, k, s, fenced) && e.Resolves? && MayLoad(sys, s, fenced, e.id)
    ensures Safe(Happens(sys, k, s, fenced, e), k, s, fenced)
  {
    StoreOf(sys, k, s, fenced);
    var authority := Resolved(sys.st, s, fenced).value;
    ResolvedIs(sys.st, s, fenced, authority);
    var next := sys.(loads := sys.loads[e.id := Begun(authority)]);
    assert Happens(sys, k, s, fenced, e) == next by {
      hide Safe, Step, Resolved, NoRoom, StoreIs, LeaseOk, Current, AuthorityIs, NextOf;
    }
    hide Happens, StoreIs, RoomIs, LogOf, Current, AuthorityIs, LastOf, LeaseOk, Resolved, EpochsOk, JoinTo, NextOf;
    assert Apart(next.rooms, next.loads);
    hide Apart;
    assert RoomsOk(next, k, s, fenced);
    hide RoomsOk;
  }

  lemma FetchedIs(load: Load, current: bool, base: Checkpoint, log: seq<Record>, last: nat, history: seq<Doc>)
    requires BaseIs(base, log, history) && EpochsOk(base, log, last)
    ensures LoadIs(Load(load.authority, Some(base.through), Replayed(base.doc, base.through, 0, base.epoch), false),
                   current, log, last, history)
  {
    assert Checkpoint(base.doc, base.through, base.epoch) == base;
    hide EpochsOk, JoinTo;
  }

  lemma FetchesKeeps(sys: System, k: Key, s: string, fenced: bool, e: Event)
    requires Safe(sys, k, s, fenced) && e.Fetches? && e.id in sys.loads && ToFetch(sys.loads[e.id])
    ensures Safe(Happens(sys, k, s, fenced, e), k, s, fenced)
  {
    var load := sys.loads[e.id];
    StoreOf(sys, k, s, fenced);
    StoreParts(sys.st, k, s, fenced, sys.history);
    hide Safe, StoreIs, LogIs, BaseIs, EpochsOk, LogOf, BaseOf, Current, LoadIs, ValidKey, LastOf, LeaseOk, Step,
        Recovered;
    if ValidKey(k) {
      FetchedIs(load, Current(sys.st, load.authority), BaseOf(sys.st, k), LogOf(sys.st, k), LastOf(sys.st, s, fenced),
                sys.history);
      LoadChanges(sys, k, s, fenced, e.id, Fetched(sys.st, k, load).value);
    } else {
      LoadEnds(sys, k, s, fenced, e.id);
    }
  }

  /** A stretch of the log takes the join of a prefix to that of a longer one. */
  lemma {:induction false} JoinedPart(log: seq<Record>, history: seq<Doc>, i: nat, j: nat)
    requires LogIs(log, history) && i <= j <= |log|
    ensures JoinTo(history, |history| - |log| + i) + Joined(log[i..j]) == JoinTo(history, |history| - |log| + j)
    decreases j - i
  {
    if i < j {
      assert log[i..j][0] == log[i] && log[i..j][1..] == log[i + 1..j];
      JoinedPart(log, history, i + 1, j);
      var n := |history| - |log| + i;
      assert JoinTo(history, n + 1) == JoinTo(history, n) + log[i].update;
    }
  }

  /** The epoch after a replay is no higher than one that bounds all it saw. */
  lemma {:induction false} ReplayEpoch(records: seq<Record>, r: Replayed, bound: nat)
    requires ReplayAll(records, r).Ok? && r.epoch <= bound
    requires forall i :: 0 <= i < |records| ==> records[i].epoch <= bound
    ensures ReplayAll(records, r).value.epoch <= bound
    decreases |records|
  {
    if records != [] {
      var rec := records[0];
      assert forall i :: 0 <= i < |records[1..]| ==> records[1..][i] == records[i + 1];
      ReplayEpoch(records[1..], Replayed(r.doc + rec.update, rec.offset, r.applied + 1,
                                         if rec.epoch > 0 then rec.epoch else r.epoch), bound);
    }
  }

  /** Where a page lies in the log: behind what the load has got, or at the very
      front when that has gone. */
  lemma PageAt(log: seq<Record>, history: seq<Doc>, through: nat, limit: int) returns (m: nat, p: nat)
    requires LogIs(log, history) && through <= |history|
    ensures m + p <= |log| && Page(log, through, limit) == log[m..m + p] && (p == 0 ==> m == |log|)
    ensures m == if |history| - |log| <= through then through - (|history| - |log|) else 0
    ensures forall i :: m <= i < |log| ==> log[i].offset > through
  {
    LogRises(log, history);
    if |history| - |log| <= through {
      TailStart(log, history, through);
    } else {
      UpToSplits(log, through);
    }
    AfterPage(log, through, limit);
    m, p := UpTo(log, through), |Page(log, through, limit)|;
    assert log[m..][..p] == log[m..m + p];
    UpToSplits(log, through);
  }

  /** A page never fails to replay, gap or not. */
  lemma PageReplays(load: Load, current: bool, log: seq<Record>, last: nat, history: seq<Doc>, m: nat, p: nat)
    requires LogIs(log, history) && load.from.Some? && LoadIs(load, current, log, last, history)
    requires m + p <= |log| && p > 0 && forall i :: m <= i < |log| ==> log[i].offset > load.got.through
    ensures var r := ReplayAll(log[m..m + p], load.got);
            && r.Ok? && r.value.doc == load.got.doc + Joined(log[m..m + p])
            && r.value.through == |history| - |log| + m + p && r.value.applied == load.got.applied + p
            && EpochsOk(Checkpoint(r.value.doc, r.value.through, r.value.epoch), log, last)
  {
    var page := log[m..m + p];
    assert forall i :: 0 <= i < p ==> page[i] == log[i + m];
    assert page[p - 1] == log[m + p - 1];
    hide ReplayAll, JoinTo, Joined;
    ReplaySucceeds(page, load.got);
    ReplayJoins(page, load.got);
    var r := ReplayAll(page, load.got).value;
    ReplayEpoch(page, load.got, last);
    forall i | 0 <= i < |log| && log[i].offset > r.through
      ensures r.epoch <= log[i].epoch
    {
      ReplayEpoch(page, load.got, log[i].epoch);
    }
  }

  /** A page listed, or the end found: the load is still as it should be exactly
      if nothing it lacks has gone, or its fence no longer holds. */
  lemma ListedIs(st: State, k: Key, load: Load, limit: int, current: bool, last: nat, history: seq<Doc>)
    requires LogIs(LogOf(st, k), history) && NextOf(st, k) == |history| && ToList(load)
    requires LoadIs(load, current, LogOf(st, k), last, history)
    ensures Listed(st, k, load, limit).Ok?
    ensures Listed(st, k, load, limit).value.authority == load.authority
    ensures LoadIs(Listed(st, k, load, limit).value, current, LogOf(st, k), last, history) <==>
            (current ==> ListInTurn(st, k, load))
  {
    var log := LogOf(st, k);
    hide LogOf, NextOf, BoundedLimit;
    var m, p := PageAt(log, history, load.got.through, BoundedLimit(limit));
    if p == 0 {
      assert log[m..m + p] == [];
      hide LogIs, EpochsOk, JoinTo, Page;
    } else {
      PageReplays(load, current, log, last, history, m, p);
      assert |log[m..m + p]| == p;
      if |history| - |log| <= load.got.through {
        JoinedPart(log, history, m, m + p);
      }
      hide LogIs, EpochsOk, JoinTo, Page, ReplayAll, Joined;
    }
  }

  lemma ListsKeeps(sys: System, k: Key, s: string, fenced: bool, e: Event)
    requires Safe(sys, k, s, fenced) && e.Lists? && e.id in sys.loads && ToList(sys.loads[e.id])
    ensures Safe(Happens(sys, k, s, fenced, e), k, s, fenced) <==> InTurn(sys, k, e)
  {
    var load := sys.loads[e.id];
    StoreOf(sys, k, s, fenced);
    StoreParts(sys.st, k, s, fenced, sys.history);
    LoadOf(sys, k, s, fenced, e.id);
    hide Safe, StoreIs, LogIs, BaseIs, EpochsOk, LogOf, BaseOf, NextOf, Current, LoadIs, LastOf, LeaseOk, Listed,
        ListInTurn, Step, Recovered;
    ListedIs(sys.st, k, load, e.limit, Current(sys.st, load.authority), LastOf(sys.st, s, fenced), sys.history);
    LoadChanges(sys, k, s, fenced, e.id, Listed(sys.st, k, load, e.limit).value);
  }

  lemma OpenedIs(load: Load, current: bool, log: seq<Record>, last: nat, history: seq<Doc>)
    requires ToInstall(load) && LoadIs(load, current, log, last, history)
    ensures RoomIs(Opened(load), current, log, history)
  {
    hide EpochsOk, JoinTo, CaptureIs;
  }

  lemma InstallsHappens(sys: System, k: Key, s: string, fenced: bool, e: Event)
    requires e.Installs? && e.id in sys.loads && ToInstall(sys.loads[e.id]) && e.id !in sys.rooms
    ensures var load := sys.loads[e.id];
            Happens(sys, k, s, fenced, e) ==
              if NoRoom(sys, load.authority)
              then sys.(rooms := sys.rooms[e.id := Opened(load)], loads := sys.loads - {e.id})
              else sys.(loads := sys.loads - {e.id})
  {
    hide Step, NoRoom, Opened;
  }

  lemma InstallsKeeps(sys: System, k: Key, s: string, fenced: bool, e: Event)
    requires Safe(sys, k, s, fenced) && e.Installs? && e.id in sys.loads && ToInstall(sys.loads[e.id])
    requires e.id !in sys.rooms
    ensures Safe(Happens(sys, k, s, fenced, e), k, s, fenced)
  {
    var load := sys.loads[e.id];
    InstallsHappens(sys, k, s, fenced, e);
    hide Happens;
    if NoRoom(sys, load.authority) {
      LoadOf(sys, k, s, fenced, e.id);
      OpenedIs(load, Current(sys.st, load.authority), LogOf(sys.st, k), LastOf(sys.st, s, fenced), sys.history);
      hide StoreIs, RoomIs, LoadIs, LogOf, Current, AuthorityIs, LastOf;
      var next := sys.(rooms := sys.rooms[e.id := Opened(load)], loads := sys.loads - {e.id});
      assert Apart(next.rooms, next.loads);
      hide Apart, NoRoom;
      assert LoadsOk(next, k, s, fenced);
      hide LoadsOk;
    } else {
      hide Safe, NoRoom;
      LoadEnds(sys, k, s, fenced, e.id);
    }
  }

  // --- close, crash, everything else ---

  lemma ClosesKeeps(sys: System, k: Key, s: string, fenced: bool, e: Event)
    requires Safe(sys, k, s, fenced) && e.Closes? && e.id in sys.rooms
    ensures Safe(Happens(sys, k, s, fenced, e), k, s, fenced)
  {
    var room := sys.rooms[e.id];
    RoomOf(sys, k, s, fenced, e.id);
    ClosedSame(room, Current(sys.st, room.authority), LogOf(sys.st, k), sys.history);
    hide Safe, RoomIs, Current, LogOf, AuthorityIs, Step, Recovered;
    RoomChanges(sys, k, s, fenced, e.id, room.(open := false));
  }

  lemma ClosedSame(room: Room, current: bool, log: seq<Record>, history: seq<Doc>)
    requires RoomIs(room, current, log, history)
    ensures RoomIs(room.(open := false), current, log, history)
  {
    hide CaptureIs;
  }

  lemma CrashesKeeps(sys: System, k: Key, s: string, fenced: bool, e: Event)
    requires Safe(sys, k, s, fenced) && e.Crashes?
    ensures Safe(Happens(sys, k, s, fenced, e), k, s, fenced)
  {
    hide StoreIs, RoomIs, LoadIs, AuthorityIs, Current, LogOf, LastOf;
    var next := Happens(sys, k, s, fenced, e);
    assert Apart(next.rooms, next.loads);
    hide Apart;
    assert RoomsOk(next, k, s, fenced);
    hide RoomsOk;
  }

  lemma ForeignEffect(st: State, k: Key, s: string, op: Op)
    requires Foreign(op, k, s) && (k in st.placements ==> st.placements[k] == s)
    ensures var next := Step(st, op);
            && LogOf(next, k) == LogOf(st, k) && NextOf(next, k) == NextOf(st, k) && BaseOf(next, k) == BaseOf(st, k)
            && (k in next.placements ==> next.placements[k] == s)
  {
    SameLog(st, k, s, op);
    SameBase(st, k, op);
    hide Step, LogOf, NextOf, BaseOf;
  }

  lemma SameBase(st: State, k: Key, op: Op)
    requires op.Saves? ==> op.key != k
    ensures BaseOf(Step(st, op), k) == BaseOf(st, k)
  {
    hide MayWrite, Granted, HandedOff, Released, After, LogOf, NextOf;
  }

  /** No operation brings a lost fence back. */
  lemma CurrentOnlyIfBefore(st: State, op: Op, authority: Option<Fence>, s: string, fenced: bool)
    requires LeaseOk(st) && AuthorityIs(st, authority, s, fenced)
    ensures Current(Step(st, op), authority) ==> Current(st, authority)
    ensures AuthorityIs(Step(st, op), authority, s, fenced)
  {
    StepAdvances(st, op);
    hide Step, NewGeneration;
    if fenced && !Current(st, authority) {
      assert Dead(st, authority.value);
      DeadStays(st, authority.value, op);
    }
  }

  lemma OtherStore(sys: System, k: Key, s: string, fenced: bool, op: Op)
    requires Safe(sys, k, s, fenced) && Foreign(op, k, s)
    ensures StoreIs(Step(sys.st, op), k, s, fenced, sys.history)
    ensures LogOf(Step(sys.st, op), k) == LogOf(sys.st, k)
    ensures LastOf(sys.st, s, fenced) <= LastOf(Step(sys.st, op), s, fenced)
  {
    hide RoomsOk, LoadsOk, Apart, LogIs, BaseIs, EpochsOk, LogOf, BaseOf, NextOf, Step, NewGeneration, Foreign, LeaseOk,
        LastEpoch;
    ForeignEffect(sys.st, k, s, op);
    StepAdvances(sys.st, op);
    LaterEpochs(BaseOf(sys.st, k), LogOf(sys.st, k), LastOf(sys.st, s, fenced), LastOf(Step(sys.st, op), s, fenced));
  }

  lemma OtherKeeps(sys: System, k: Key, s: string, fenced: bool, e: Event)
    requires Safe(sys, k, s, fenced) && e.Other? && Foreign(e.op, k, s)
    ensures Safe(Happens(sys, k, s, fenced, e), k, s, fenced)
  {
    OtherStore(sys, k, s, fenced, e.op);
    StoreOf(sys, k, s, fenced);
    hide Safe, StoreIs, RoomIs, LoadIs, LogOf, Current, AuthorityIs, Step, Foreign, LeaseOk, LastOf, Recovered;
    var next := sys.(st := Step(sys.st, e.op));
    assert Happens(sys, k, s, fenced, e) == next;
    forall i | i in sys.rooms
      ensures AuthorityIs(next.st, sys.rooms[i].authority, s, fenced)
      ensures RoomIs(sys.rooms[i], Current(next.st, sys.rooms[i].authority), LogOf(next.st, k), sys.history)
    {
      RoomOf(sys, k, s, fenced, i);
      CurrentOnlyIfBefore(sys.st, e.op, sys.rooms[i].authority, s, fenced);
      CapturesLose(sys.rooms[i], Current(sys.st, sys.rooms[i].authority), LogOf(sys.st, k), sys.history);
    }
    assert RoomsOk(next, k, s, fenced);
    forall i | i in sys.loads
      ensures AuthorityIs(next.st, sys.loads[i].authority, s, fenced)
      ensures LoadIs(sys.loads[i], Current(next.st, sys.loads[i].authority), LogOf(next.st, k),
                     LastOf(next.st, s, fenced), sys.history)
    {
      LoadOf(sys, k, s, fenced, i);
      var current, log, last := Current(sys.st, sys.loads[i].authority), LogOf(sys.st, k), LastOf(sys.st, s, fenced);
      CurrentOnlyIfBefore(sys.st, e.op, sys.loads[i].authority, s, fenced);
      LoadLater(sys.loads[i], current, log, last, LastOf(next.st, s, fenced), sys.history);
      LoadLoses(sys.loads[i], current, log, LastOf(next.st, s, fenced), sys.history);
    }
    assert LoadsOk(next, k, s, fenced);
    hide RoomsOk, LoadsOk, Happens;
    SafeParts(sys, next, k, s, fenced);
  }

  lemma SafeParts(sys: System, next: System, k: Key, s: string, fenced: bool)
    requires Safe(sys, k, s, fenced) && next.rooms == sys.rooms && next.loads == sys.loads
    requires StoreIs(next.st, k, s, fenced, next.history) && RoomsOk(next, k, s, fenced) && LoadsOk(next, k, s, fenced)
    ensures Safe(next, k, s, fenced)
  {
    hide StoreIs, RoomsOk, LoadsOk;
  }

  lemma LoadsKeep(sys: System, k: Key, s: string, fenced: bool, e: Event)
    requires Safe(sys, k, s, fenced) && (e.Resolves? || e.Fetches? || e.Lists? || e.Installs?)
    ensures Safe(Happens(sys, k, s, fenced, e), k, s, fenced) <==> InTurn(sys, k, e)
  {
    hide Safe, MayLoad, Begun, Fetched, Listed, Opened, LoadGoes, ListInTurn, Step, NoRoom;
    match e
    case Resolves(id) => if MayLoad(sys, s, fenced, id) { ResolvesKeeps(sys, k, s, fenced, e); }
    case Fetches(id) => if id in sys.loads && ToFetch(sys.loads[id]) { FetchesKeeps(sys, k, s, fenced, e); }
    case Lists(id, _) => if id in sys.loads && ToList(sys.loads[id]) { ListsKeeps(sys, k, s, fenced, e); }
    case Installs(id) =>
      if id in sys.loads && ToInstall(sys.loads[id]) && id !in sys.rooms { InstallsKeeps(sys, k, s, fenced, e); }
  }

  /** An event keeps the invariant if and only if it comes in its turn. */
  lemma EventKeeps(sys: System, k: Key, s: string, fenced: bool, e: Event)
    requires Safe(sys, k, s, fenced)
    ensures Safe(Happens(sys, k, s, fenced, e), k, s, fenced) <==> InTurn(sys, k, e)
  {
    hide Safe, Foreign, Loads, ApplyPayload, SaveCapture, TrimCapture, CaptureRoom, CaptureLog, Step, SaveInTurn,
        TrimInTurn, ListInTurn;
    match e
    case Applies(id, _, _) => if id in sys.rooms { AppliesKeeps(sys, k, s, fenced, e); }
    case Captures(id, _) => if id in sys.rooms { CapturesKeeps(sys, k, s, fenced, e); }
    case Compacts(id, _) => if id in sys.rooms { CapturesKeeps(sys, k, s, fenced, e); }
    case SavesIt(id, _, _) => if id in sys.rooms { SavesKeeps(sys, k, s, fenced, e); }
    case TrimsIt(id, _, _) => if id in sys.rooms { TrimsKeeps(sys, k, s, fenced, e); }
    case Closes(id) => if id in sys.rooms { ClosesKeeps(sys, k, s, fenced, e); }
    case Crashes(id) => CrashesKeeps(sys, k, s, fenced, e);
    case Other(op) => if Foreign(op, k, s) { OtherKeeps(sys, k, s, fenced, e); }
    case _ => LoadsKeep(sys, k, s, fenced, e);
  }

  lemma StartIsSafe(k: Key, s: string, fenced: bool)
    ensures Safe(NOBODY, k, s, fenced)
  {
  }

  lemma {:induction false} AlwaysSafe(k: Key, s: string, fenced: bool, events: seq<Event>)
    requires AllInTurn(k, s, fenced, events)
    ensures Safe(RunAll(k, s, fenced, events), k, s, fenced)
  {
    hide Safe, Happens, InTurn;
    if events == [] {
      StartIsSafe(k, s, fenced);
    } else {
      AlwaysSafe(k, s, fenced, events[..|events| - 1]);
      EventKeeps(RunAll(k, s, fenced, events[..|events| - 1]), k, s, fenced, events[|events| - 1]);
    }
  }

  /** Crash safety: after any events whatever, in any order, with any number of
      loads, persists and compactions on their way and with appends between the
      steps of each, recovery from the store succeeds and yields the join of all
      updates ever appended, as long as pages, saves and trims come in their
      turn. */
  lemma CrashSafe(k: Key, s: string, fenced: bool, events: seq<Event>)
    requires ValidKey(k) && AllInTurn(k, s, fenced, events)
    ensures var sys := RunAll(k, s, fenced, events);
            && Recovered(sys.st, k, 0).Ok?
            && Recovered(sys.st, k, 0).value.doc == JoinTo(sys.history, |sys.history|)
            && Recovered(sys.st, k, 0).value.lastOffset == |sys.history|
  {
    AlwaysSafe(k, s, fenced, events);
    hide RunAll, RoomsOk, LoadsOk, Apart, Recovered, ValidKey, StoreIs, AllInTurn;
    var sys := RunAll(k, s, fenced, events);
    RecoversAll(sys.st, k, s, fenced, sys.history);
  }

  /** The checkpoint joined with the records behind it, up to an offset that the
      checkpoint has not passed, is the join of the updates up to there. */
  lemma CheckpointAndLog(base: Checkpoint, log: seq<Record>, history: seq<Doc>, n: nat)
    requires LogIs(log, history) && BaseIs(base, log, history) && base.through <= n <= |history|
    ensures base.doc + Joined(After(log[..UpTo(log, n)], base.through)) == JoinTo(history, n)
  {
    TailStart(log, history, n);
    var m := UpTo(log, n);
    var shorter, before := log[..m], history[..n];
    assert LogIs(shorter, before);
    TailStart(shorter, before, base.through);
    hide UpTo, LogIs;
    JoinedTail(shorter, before, base.through - (n - m), base.through);
    assert before + history[n..] == history;
    JoinToSame(before, history[n..], base.through);
    JoinToSame(before, history[n..], n);
  }

  /** A gapless room is the checkpoint joined with the log up to its last offset,
      unless the checkpoint has passed it. */
  lemma RoomIsCheckpointAndLog(k: Key, s: string, fenced: bool, events: seq<Event>, i: nat)
    requires AllInTurn(k, s, fenced, events) && i in RunAll(k, s, fenced, events).rooms
    requires RunAll(k, s, fenced, events).rooms[i].gapless
    requires var sys := RunAll(k, s, fenced, events); BaseOf(sys.st, k).through <= sys.rooms[i].lastOffset
    ensures var sys := RunAll(k, s, fenced, events);
            var base, log, room := BaseOf(sys.st, k), LogOf(sys.st, k), sys.rooms[i];
            room.doc == base.doc + Joined(After(log[..UpTo(log, room.lastOffset)], base.through))
  {
    AlwaysSafe(k, s, fenced, events);
    var sys := RunAll(k, s, fenced, events);
    hide RunAll, AllInTurn;
    RoomOf(sys, k, s, fenced, i);
    StoreOf(sys, k, s, fenced);
    StoreParts(sys.st, k, s, fenced, sys.history);
    hide Safe, Current, AuthorityIs, LogOf, BaseOf, LogIs, BaseIs, EpochsOk, After, UpTo, Joined, JoinTo, StoreIs;
    CheckpointAndLog(BaseOf(sys.st, k), LogOf(sys.st, k), sys.history, sys.rooms[i].lastOffset);
  }

  /** Every gapless room shows the join of the updates up to its last offset; an
      open room whose fence still holds is gapless and shows everything, and there
      is at most one such. */
  lemma RoomsShowPrefixes(k: Key, s: string, fenced: bool, events: seq<Event>, i: nat)
    requires AllInTurn(k, s, fenced, events) && i in RunAll(k, s, fenced, events).rooms
    ensures var sys := RunAll(k, s, fenced, events);
            var room := sys.rooms[i];
            && (room.gapless ==> room.lastOffset <= |sys.history| && room.doc == JoinTo(sys.history, room.lastOffset))
            && (room.open && Current(sys.st, room.authority) ==>
                  && room.gapless && room.lastOffset == |sys.history|
                  && forall j :: j in sys.rooms && j != i && sys.rooms[j].open ==>
                       !Current(sys.st, sys.rooms[j].authority))
  {
    AlwaysSafe(k, s, fenced, events);
    var sys := RunAll(k, s, fenced, events);
    hide RunAll, AllInTurn;
    RoomOf(sys, k, s, fenced, i);
    hide Safe, Current, AuthorityIs, LogOf;
    if sys.rooms[i].open && Current(sys.st, sys.rooms[i].authority) {
      OneOpen(sys, k, s, fenced, i);
    }
  }
}
