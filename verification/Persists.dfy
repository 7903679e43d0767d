/** Several persists and loads of one document on their way at once: when they
    are safe, and what exactly is lost when one comes out of its turn. */
module Persists {
  import opened Prelude
  import opened Storage
  import opened Fencing
  import opened Replay
  import opened Provider

  // ----- One persist at a time -----

  /** At most one persist is on its way, of an open room, and its capture has not
      fallen behind the checkpoint before it is saved, nor run ahead of it after. */
  predicate AloneRoom(room: Room, current: bool, through: nat) {
    && (forall a, b :: a in room.persists && b in room.persists ==> a == b)
    && (!room.open ==> room.persists == map[])
    && (current ==> forall n :: n in room.persists ==>
          var c := room.persists[n]; if c.saved then c.through <= through else through <= c.through)
  }

  predicate AloneRooms(sys: System, k: Key) {
    forall i :: i in sys.rooms ==>
      AloneRoom(sys.rooms[i], Current(sys.st, sys.rooms[i].authority), BaseOf(sys.st, k).through)
  }

  /** Nothing that a current load lacks has gone from the log. */
  predicate AloneLoads(sys: System, k: Key) {
    forall i :: i in sys.loads && ToList(sys.loads[i]) && Current(sys.st, sys.loads[i].authority) ==>
      ListInTurn(sys.st, k, sys.loads[i])
  }

  predicate Alone(sys: System, k: Key) {
    AloneRooms(sys, k) && AloneLoads(sys, k)
  }

  /** A persist begins only in an open room that has none on its way, and a room
      is not closed while one is. */
  predicate OneAtATime(sys: System, e: Event) {
    && ((e.Captures? || e.Compacts?) && e.id in sys.rooms ==> sys.rooms[e.id].open && sys.rooms[e.id].persists == map[])
    && (e.Closes? && e.id in sys.rooms ==> sys.rooms[e.id].persists == map[])
  }

  predicate AllOneAtATime(k: Key, s: string, fenced: bool, events: seq<Event>) {
    events == [] ||
    (&& AllOneAtATime(k, s, fenced, events[..|events| - 1])
     && OneAtATime(RunAll(k, s, fenced, events[..|events| - 1]), events[|events| - 1]))
  }

  lemma AloneInTurn(sys: System, k: Key, s: string, fenced: bool, e: Event)
    requires Safe(sys, k, s, fenced) && Alone(sys, k)
    ensures InTurn(sys, k, e)
  {
    StoreOf(sys, k, s, fenced);
    StoreParts(sys.st, k, s, fenced, sys.history);
    hide Safe, StoreIs, LogIs, EpochsOk, MayWrite, LogOf, NextOf, BaseOf, LeaseOk, JoinTo, ListInTurn;
    if (e.SavesIt? || e.TrimsIt?) && e.id in sys.rooms && MayWrite(sys.st, k, sys.rooms[e.id].authority, e.now).Ok? {
      RoomOf(sys, k, s, fenced, e.id);
      WritesWhenCurrent(sys.st, k, sys.rooms[e.id].authority, s, fenced, e.now);
    }
  }

  // --- the rooms ---

  lemma AloneStays(room: Room, current: bool, through: nat, later: bool)
    requires AloneRoom(room, current, through) && (later ==> current)
    ensures AloneRoom(room, later, through)
    ensures AloneRoom(room.(lost := true), later, through)
    ensures forall n :: AloneRoom(Ended(room, n), later, through) && AloneRoom(Ended(room.(lost := true), n), later, through)
    ensures forall n, c :: AloneRoom(Compacted(Ended(room, n), c), later, through)
  {
  }

  /** Neither a stale room nor a closed one cares for the checkpoint. */
  lemma AloneAnyway(room: Room, current: bool, through: nat, other: nat, later: bool)
    requires AloneRoom(room, current, through) && (!later || !room.open)
    ensures AloneRoom(room, later, other)
  {
  }

  /** The other rooms as before: none has become current, and a new checkpoint is
      none of theirs. */
  ghost predicate Elsewhere(sys: System, k: Key, next: System, id: nat) {
    forall j :: j in next.rooms && j != id ==>
      && j in sys.rooms && next.rooms[j] == sys.rooms[j]
      && (Current(next.st, sys.rooms[j].authority) ==>
            && Current(sys.st, sys.rooms[j].authority)
            && (BaseOf(next.st, k) == BaseOf(sys.st, k) || !sys.rooms[j].open))
  }

  lemma AloneElsewhere(sys: System, k: Key, next: System, id: nat)
    requires AloneRooms(sys, k) && Elsewhere(sys, k, next, id)
    requires id in next.rooms ==>
               AloneRoom(next.rooms[id], Current(next.st, next.rooms[id].authority), BaseOf(next.st, k).through)
    ensures AloneRooms(next, k)
  {
    hide AloneRoom, Current, BaseOf;
    forall j | j in next.rooms && j != id
      ensures AloneRoom(next.rooms[j], Current(next.st, next.rooms[j].authority), BaseOf(next.st, k).through)
    {
      var room, current, through := sys.rooms[j], Current(sys.st, sys.rooms[j].authority), BaseOf(sys.st, k).through;
      var later := Current(next.st, room.authority);
      assert AloneRoom(room, current, through);
      if later && room.open {
        AloneStays(room, current, through, later);
      } else {
        AloneAnyway(room, current, through, BaseOf(next.st, k).through, later);
      }
    }
  }

  lemma SameElsewhere(sys: System, k: Key, next: System, id: nat, room: Room, s: string, fenced: bool)
    requires next.rooms == sys.rooms[id := room] && next.st.leases == sys.st.leases && next.st.last == sys.st.last
    requires BaseOf(next.st, k) == BaseOf(sys.st, k)
    ensures Elsewhere(sys, k, next, id) && Current(next.st, room.authority) == Current(sys.st, room.authority)
  {
    hide BaseOf, Current;
    SameCurrent(sys.st, next.st, room.authority, s, fenced);
    forall j | j in next.rooms && j != id
      ensures Current(next.st, sys.rooms[j].authority) == Current(sys.st, sys.rooms[j].authority)
    {
      SameCurrent(sys.st, next.st, sys.rooms[j].authority, s, fenced);
    }
  }

  /** A change of one room that leaves the checkpoint and the leases alone. */
  lemma AloneQuiet(sys: System, k: Key, next: System, id: nat, room: Room, s: string, fenced: bool)
    requires AloneRooms(sys, k) && id in sys.rooms && next.rooms == sys.rooms[id := room]
    requires next.st.leases == sys.st.leases && next.st.last == sys.st.last && BaseOf(next.st, k) == BaseOf(sys.st, k)
    requires AloneRoom(room, Current(sys.st, room.authority), BaseOf(sys.st, k).through)
    ensures AloneRooms(next, k)
  {
    hide BaseOf, Current, AloneRoom, AloneRooms, Elsewhere;
    SameElsewhere(sys, k, next, id, room, s, fenced);
    AloneElsewhere(sys, k, next, id);
  }

  lemma AloneCapture(room: Room, current: bool, through: nat, ticket: nat, c: Capture)
    requires room.open && room.persists == map[] && !c.saved && (current ==> through <= c.through)
    ensures AloneRoom(room.(persists := room.persists[ticket := c]), current, through)
    ensures AloneRoom(room, current, through)
  {
  }

  lemma CaptureAhead(room: Room, current: bool, base: Checkpoint, log: seq<Record>, history: seq<Doc>)
    requires RoomIs(room, current, log, history) && BaseIs(base, log, history) && room.open
    ensures current ==> base.through <= room.lastOffset
    ensures base.through <= |history|
  {
    hide CaptureIs, JoinTo;
  }

  lemma AloneCaptures(sys: System, k: Key, s: string, fenced: bool, e: Event)
    requires Safe(sys, k, s, fenced) && AloneRooms(sys, k) && OneAtATime(sys, e) && (e.Captures? || e.Compacts?)
          && e.id in sys.rooms
    ensures AloneRooms(Happens(sys, k, s, fenced, e), k)
  {
    var room := sys.rooms[e.id];
    var current, through := Current(sys.st, room.authority), BaseOf(sys.st, k).through;
    var after := if e.Captures? then CaptureRoom(room, e.ticket) else CaptureLog(sys.st, k, room, e.ticket);
    assert Happens(sys, k, s, fenced, e) == sys.(rooms := sys.rooms[e.id := after]) by {
      hide Safe, AloneRooms, CaptureRoom, CaptureLog, Step, Loads;
    }
    StoreOf(sys, k, s, fenced);
    StoreParts(sys.st, k, s, fenced, sys.history);
    RoomOf(sys, k, s, fenced, e.id);
    CaptureAhead(room, current, BaseOf(sys.st, k), LogOf(sys.st, k), sys.history);
    LogCaptured(sys, k, s, fenced, room, e.ticket);
    hide Safe, Happens, StoreIs, RoomIs, LogIs, BaseIs, EpochsOk, AuthorityIs, LogOf, BaseOf, LeaseOk, JoinTo, Current,
        CaptureLog, AloneRoom, AloneRooms, NextOf;
    AloneCapture(room, current, through, e.ticket, Capture(room.doc, room.lastOffset,
        room.lastOffset > room.compactedAt, false));
    AloneCapture(room, current, through, e.ticket, Capture(JoinTo(sys.history, |sys.history|), |sys.history|, true,
        false));
    AloneQuiet(sys, k, sys.(rooms := sys.rooms[e.id := after]), e.id, after, s, fenced);
  }

  lemma AloneApplies(sys: System, k: Key, s: string, fenced: bool, e: Event)
    requires AloneRooms(sys, k) && e.Applies? && e.id in sys.rooms
    ensures AloneRooms(Happens(sys, k, s, fenced, e), k)
  {
    var room := sys.rooms[e.id];
    AppliesHappens(sys, k, s, fenced, e);
    var may := MayWrite(sys.st, k, room.authority, e.now);
    hide Happens, MayWrite, Append, BaseOf, Current, NextOf;
    var current, through := Current(sys.st, room.authority), BaseOf(sys.st, k).through;
    assert AloneRoom(room, current, through);
    AloneStays(room, current, through, current);
    var next := Happens(sys, k, s, fenced, e);
    if !room.lost && room.open && may.Ok? {
      AppendEffect(sys.st, k, e.update, room.authority, e.now);
      SamePersists(room, next.rooms[e.id], current, through);
    }
    hide AloneRoom, AloneRooms;
    AloneQuiet(sys, k, next, e.id, next.rooms[e.id], s, fenced);
  }

  lemma SamePersists(room: Room, after: Room, current: bool, through: nat)
    requires AloneRoom(room, current, through) && after.persists == room.persists && after.open == room.open
    ensures AloneRoom(after, current, through)
  {
  }

  lemma AloneSaved(room: Room, current: bool, through: nat, ticket: nat)
    requires AloneRoom(room, current, through) && ticket in room.persists
    ensures AloneRoom(Saved(room, ticket), true, room.persists[ticket].through) && room.open
  {
  }

  lemma AloneSaves(sys: System, k: Key, s: string, fenced: bool, e: Event)
    requires Safe(sys, k, s, fenced) && AloneRooms(sys, k) && e.SavesIt? && e.id in sys.rooms
    ensures AloneRooms(Happens(sys, k, s, fenced, e), k)
  {
    SaveHappens(sys, k, s, fenced, e);
    var room := sys.rooms[e.id];
    var may := MayWrite(sys.st, k, room.authority, e.now);
    var current, through := Current(sys.st, room.authority), BaseOf(sys.st, k).through;
    hide Safe, MayWrite, Save, Happens, BaseOf, Current, Saved;
    assert AloneRoom(room, current, through);
    AloneStays(room, current, through, current);
    var next := Happens(sys, k, s, fenced, e);
    if ToSave(room, e.ticket) && may.Ok? {
      AloneSaveSucceeds(sys, k, s, fenced, e);
    } else {
      hide AloneRoom, AloneRooms;
      AloneQuiet(sys, k, next, e.id, next.rooms[e.id], s, fenced);
    }
  }

  lemma AloneSaveSucceeds(sys: System, k: Key, s: string, fenced: bool, e: Event)
    requires Safe(sys, k, s, fenced) && AloneRooms(sys, k) && e.SavesIt? && e.id in sys.rooms
    requires ToSave(sys.rooms[e.id], e.ticket) && MayWrite(sys.st, k, sys.rooms[e.id].authority, e.now).Ok?
    ensures var room := sys.rooms[e.id];
            var c := room.persists[e.ticket];
            AloneRooms(System(Save(sys.st, k, c.doc, c.through, 0, room.authority, e.now),
                              sys.rooms[e.id := Saved(room, e.ticket)], sys.loads, sys.history), k)
  {
    var room := sys.rooms[e.id];
    var c := room.persists[e.ticket];
    StoreOf(sys, k, s, fenced);
    RoomOf(sys, k, s, fenced, e.id);
    SavedSame(room, e.ticket);
    assert AloneRoom(room, Current(sys.st, room.authority), BaseOf(sys.st, k).through);
    AloneSaved(room, Current(sys.st, room.authority), BaseOf(sys.st, k).through, e.ticket);
    hide MayWrite, Save, BaseOf, LogOf, NextOf, Current, RoomIs, StoreIs, LeaseOk, AuthorityIs, Saved, AloneRoom,
        AloneRooms, Safe;
    WritesWhenCurrent(sys.st, k, room.authority, s, fenced, e.now);
    SaveEffect(sys.st, k, c.doc, c.through, room.authority, e.now);
    OneOpen(sys, k, s, fenced, e.id);
    var next := System(Save(sys.st, k, c.doc, c.through, 0, room.authority, e.now),
                       sys.rooms[e.id := Saved(room, e.ticket)], sys.loads, sys.history);
    forall j | j in sys.rooms
      ensures Current(next.st, sys.rooms[j].authority) == Current(sys.st, sys.rooms[j].authority)
    {
      SameCurrent(sys.st, next.st, sys.rooms[j].authority, s, fenced);
    }
    AloneElsewhere(sys, k, next, e.id);
  }

  lemma AloneTrims(sys: System, k: Key, s: string, fenced: bool, e: Event)
    requires AloneRooms(sys, k) && e.TrimsIt? && e.id in sys.rooms
    ensures AloneRooms(Happens(sys, k, s, fenced, e), k)
  {
    TrimHappens(sys, k, s, fenced, e);
    var room := sys.rooms[e.id];
    var may := MayWrite(sys.st, k, room.authority, e.now);
    hide MayWrite, Trim, Happens, BaseOf, LogOf, Current;
    var current, through := Current(sys.st, room.authority), BaseOf(sys.st, k).through;
    assert AloneRoom(room, current, through);
    AloneStays(room, current, through, current);
    var next := Happens(sys, k, s, fenced, e);
    if ToTrim(room, e.ticket) && may.Ok? {
      TrimEffect(sys.st, k, room.persists[e.ticket].through, room.authority, e.now);
      EndedAuthority(room, e.ticket, room.persists[e.ticket].through);
    }
    hide AloneRoom, AloneRooms, Compacted;
    AloneQuiet(sys, k, next, e.id, next.rooms[e.id], s, fenced);
  }

  lemma AloneCloses(sys: System, k: Key, s: string, fenced: bool, e: Event)
    requires AloneRooms(sys, k) && OneAtATime(sys, e) && e.Closes? && e.id in sys.rooms
    ensures AloneRooms(Happens(sys, k, s, fenced, e), k)
  {
    var room := sys.rooms[e.id];
    var next := sys.(rooms := sys.rooms[e.id := room.(open := false)]);
    assert Happens(sys, k, s, fenced, e) == next by {
      hide AloneRooms, Step;
    }
    hide Happens, BaseOf, Current;
    assert AloneRoom(next.rooms[e.id], Current(sys.st, room.authority), BaseOf(sys.st, k).through);
    hide AloneRoom, AloneRooms;
    AloneQuiet(sys, k, next, e.id, next.rooms[e.id], s, fenced);
  }

  lemma AloneOther(sys: System, k: Key, s: string, fenced: bool, op: Op)
    requires Safe(sys, k, s, fenced) && Alone(sys, k) && Foreign(op, k, s)
    ensures Alone(sys.(st := Step(sys.st, op)), k)
  {
    StoreOf(sys, k, s, fenced);
    var next := sys.(st := Step(sys.st, op));
    assert k in sys.st.placements ==> sys.st.placements[k] == s;
    ForeignEffect(sys.st, k, s, op);
    hide Safe, StoreIs, LogOf, BaseOf, NextOf, Step, Current, AuthorityIs, Foreign, LeaseOk, AloneRoom;
    forall j | j in sys.rooms && Current(next.st, sys.rooms[j].authority)
      ensures Current(sys.st, sys.rooms[j].authority)
    {
      RoomOf(sys, k, s, fenced, j);
      CurrentOnlyIfBefore(sys.st, op, sys.rooms[j].authority, s, fenced);
    }
    forall j | j in sys.loads && Current(next.st, sys.loads[j].authority)
      ensures Current(sys.st, sys.loads[j].authority)
    {
      LoadOf(sys, k, s, fenced, j);
      CurrentOnlyIfBefore(sys.st, op, sys.loads[j].authority, s, fenced);
    }
    forall j | j in sys.rooms
      ensures AloneRoom(sys.rooms[j], Current(next.st, sys.rooms[j].authority), BaseOf(next.st, k).through)
    {
      AloneStays(sys.rooms[j], Current(sys.st, sys.rooms[j].authority), BaseOf(sys.st, k).through,
          Current(next.st, sys.rooms[j].authority));
    }
  }

  lemma AloneCrashes(sys: System, k: Key, s: string, fenced: bool, e: Event)
    requires Alone(sys, k) && e.Crashes?
    ensures Alone(Happens(sys, k, s, fenced, e), k)
  {
    hide AloneRoom, BaseOf, Current, ListInTurn;
  }

  // --- the loads ---

  /** While an open room writes, no load is current. */
  lemma NoLoadCurrent(sys: System, k: Key, s: string, fenced: bool, id: nat, next: System)
    requires Safe(sys, k, s, fenced) && id in sys.rooms && sys.rooms[id].open
    requires Current(sys.st, sys.rooms[id].authority)
    requires next.loads == sys.loads && next.st.leases == sys.st.leases && next.st.last == sys.st.last
    ensures AloneLoads(next, k)
  {
    OneOpen(sys, k, s, fenced, id);
    hide Safe, Current, ListInTurn;
    forall j | j in next.loads
      ensures !Current(next.st, next.loads[j].authority)
    {
      SameCurrent(sys.st, next.st, next.loads[j].authority, s, fenced);
    }
  }

  lemma LoadsSame(sys: System, k: Key, next: System)
    requires AloneLoads(sys, k) && next.loads == sys.loads && next.st == sys.st
    ensures AloneLoads(next, k)
  {
  }

  /** A write that is let through comes from an open room that is current. */
  lemma WriterOpen(sys: System, k: Key, s: string, fenced: bool, id: nat, now: nat)
    requires Safe(sys, k, s, fenced) && AloneRooms(sys, k) && id in sys.rooms
    requires MayWrite(sys.st, k, sys.rooms[id].authority, now).Ok?
    ensures Current(sys.st, sys.rooms[id].authority)
    ensures sys.rooms[id].persists != map[] ==> sys.rooms[id].open
  {
    StoreOf(sys, k, s, fenced);
    RoomOf(sys, k, s, fenced, id);
    hide Safe, StoreIs, RoomIs, MayWrite, LeaseOk, LogOf, NextOf;
    WritesWhenCurrent(sys.st, k, sys.rooms[id].authority, s, fenced, now);
    hide Current, BaseOf;
    assert AloneRoom(sys.rooms[id], Current(sys.st, sys.rooms[id].authority), BaseOf(sys.st, k).through);
  }

  lemma LoadsWhileApplied(sys: System, k: Key, s: string, fenced: bool, e: Event)
    requires Safe(sys, k, s, fenced) && Alone(sys, k) && e.Applies? && e.id in sys.rooms
    ensures AloneLoads(Happens(sys, k, s, fenced, e), k)
  {
    AppliesHappens(sys, k, s, fenced, e);
    var room := sys.rooms[e.id];
    hide Safe, Happens, MayWrite, Append, NextOf, Current, AloneRooms, AloneLoads;
    if !room.lost && room.open && MayWrite(sys.st, k, room.authority, e.now).Ok? {
      WriterOpen(sys, k, s, fenced, e.id, e.now);
      AppendEffect(sys.st, k, e.update, room.authority, e.now);
      NoLoadCurrent(sys, k, s, fenced, e.id, Happens(sys, k, s, fenced, e));
    } else {
      LoadsSame(sys, k, Happens(sys, k, s, fenced, e));
    }
  }

  lemma LoadsWhileSaved(sys: System, k: Key, s: string, fenced: bool, e: Event)
    requires Safe(sys, k, s, fenced) && Alone(sys, k) && e.SavesIt? && e.id in sys.rooms
    ensures AloneLoads(Happens(sys, k, s, fenced, e), k)
  {
    SaveHappens(sys, k, s, fenced, e);
    var room := sys.rooms[e.id];
    hide Safe, Happens, MayWrite, Save, Saved, Current, AloneRooms, AloneLoads;
    if ToSave(room, e.ticket) && MayWrite(sys.st, k, room.authority, e.now).Ok? {
      WriterOpen(sys, k, s, fenced, e.id, e.now);
      SaveEffect(sys.st, k, room.persists[e.ticket].doc, room.persists[e.ticket].through, room.authority, e.now);
      NoLoadCurrent(sys, k, s, fenced, e.id, Happens(sys, k, s, fenced, e));
    } else {
      LoadsSame(sys, k, Happens(sys, k, s, fenced, e));
    }
  }

  lemma LoadsWhileTrimmed(sys: System, k: Key, s: string, fenced: bool, e: Event)
    requires Safe(sys, k, s, fenced) && Alone(sys, k) && e.TrimsIt? && e.id in sys.rooms
    ensures AloneLoads(Happens(sys, k, s, fenced, e), k)
  {
    TrimHappens(sys, k, s, fenced, e);
    var room := sys.rooms[e.id];
    hide Safe, Happens, MayWrite, Trim, Compacted, Current, AloneRooms, AloneLoads;
    if ToTrim(room, e.ticket) && MayWrite(sys.st, k, room.authority, e.now).Ok? {
      WriterOpen(sys, k, s, fenced, e.id, e.now);
      TrimEffect(sys.st, k, room.persists[e.ticket].through, room.authority, e.now);
      NoLoadCurrent(sys, k, s, fenced, e.id, Happens(sys, k, s, fenced, e));
    } else {
      LoadsSame(sys, k, Happens(sys, k, s, fenced, e));
    }
  }

  /** A page only takes a load further. */
  lemma ListedFurther(st: State, k: Key, load: Load, limit: int)
    requires ListInTurn(st, k, load) && Listed(st, k, load, limit).Ok?
    ensures ListInTurn(st, k, Listed(st, k, load, limit).value)
  {
    hide LogOf, NextOf, BoundedLimit, Page, ReplayAll;
    var page := Page(LogOf(st, k), load.got.through, BoundedLimit(limit));
    if page != [] {
      ReplayJoins(page, load.got);
    }
  }

  lemma FetchedInTurn(sys: System, k: Key, s: string, fenced: bool, load: Load)
    requires Safe(sys, k, s, fenced) && Fetched(sys.st, k, load).Ok?
    ensures ListInTurn(sys.st, k, Fetched(sys.st, k, load).value)
  {
    StoreOf(sys, k, s, fenced);
    StoreParts(sys.st, k, s, fenced, sys.history);
    hide Safe, StoreIs, LogIs, EpochsOk, LogOf, BaseOf, NextOf, LeaseOk, ValidKey, JoinTo;
  }

  lemma AloneLoading(sys: System, k: Key, s: string, fenced: bool, e: Event)
    requires Safe(sys, k, s, fenced) && Alone(sys, k) && (e.Resolves? || e.Fetches? || e.Lists? || e.Installs?)
    ensures Alone(Happens(sys, k, s, fenced, e), k)
  {
    hide Safe, Resolved, BaseOf, LogOf, NextOf, Current, Step, NoRoom, MayLoad, Fetched, Listed, ListInTurn, AloneRoom;
    match e
    case Resolves(id) =>
    case Fetches(id) =>
      if id in sys.loads && Fetched(sys.st, k, sys.loads[id]).Ok? {
        FetchedInTurn(sys, k, s, fenced, sys.loads[id]);
        FetchedSame(sys.st, k, sys.loads[id]);
      }
    case Lists(id, limit) =>
      if id in sys.loads && ToList(sys.loads[id]) && Listed(sys.st, k, sys.loads[id], limit).Ok? {
        ListedSame(sys.st, k, sys.loads[id], limit);
        if Current(sys.st, sys.loads[id].authority) {
          ListedFurther(sys.st, k, sys.loads[id], limit);
        }
      }
    case Installs(id) =>
      if id in sys.loads && ToInstall(sys.loads[id]) {
        NothingOnItsWay(sys.loads[id], Current(sys.st, sys.loads[id].authority), BaseOf(sys.st, k).through);
      }
  }

  lemma FetchedSame(st: State, k: Key, load: Load)
    ensures Fetched(st, k, load).Ok? ==> Fetched(st, k, load).value.authority == load.authority
  {
    hide ValidKey;
  }

  lemma ListedSame(st: State, k: Key, load: Load, limit: int)
    ensures Listed(st, k, load, limit).Ok? ==> Listed(st, k, load, limit).value.authority == load.authority
  {
    hide LogOf, Page, ReplayAll;
  }

  lemma NothingOnItsWay(load: Load, current: bool, through: nat)
    requires ToInstall(load)
    ensures AloneRoom(Opened(load), current, through) && Opened(load).authority == load.authority
  {
  }

  lemma AloneKeeps(sys: System, k: Key, s: string, fenced: bool, e: Event)
    requires Safe(sys, k, s, fenced) && Alone(sys, k) && OneAtATime(sys, e)
    ensures Alone(Happens(sys, k, s, fenced, e), k)
  {
    hide Safe, AloneRooms, AloneLoads, Foreign, ApplyPayload, SaveCapture, TrimCapture, CaptureRoom, CaptureLog, Step,
        Loads;
    match e
    case Applies(id, _, _) =>
      if id in sys.rooms {
        AloneApplies(sys, k, s, fenced, e);
        LoadsWhileApplied(sys, k, s, fenced, e);
      }
    case Captures(id, _) =>
      if id in sys.rooms {
        AloneCaptures(sys, k, s, fenced, e);
        LoadsSame(sys, k, Happens(sys, k, s, fenced, e));
      }
    case Compacts(id, _) =>
      if id in sys.rooms {
        AloneCaptures(sys, k, s, fenced, e);
        LoadsSame(sys, k, Happens(sys, k, s, fenced, e));
      }
    case SavesIt(id, _, _) =>
      if id in sys.rooms {
        AloneSaves(sys, k, s, fenced, e);
        LoadsWhileSaved(sys, k, s, fenced, e);
      }
    case TrimsIt(id, _, _) =>
      if id in sys.rooms {
        AloneTrims(sys, k, s, fenced, e);
        LoadsWhileTrimmed(sys, k, s, fenced, e);
      }
    case Closes(id) =>
      if id in sys.rooms {
        AloneCloses(sys, k, s, fenced, e);
        LoadsSame(sys, k, Happens(sys, k, s, fenced, e));
      }
    case Crashes(id) => AloneCrashes(sys, k, s, fenced, e);
    case Other(op) => if Foreign(op, k, s) { AloneOther(sys, k, s, fenced, op); }
    case _ => AloneLoading(sys, k, s, fenced, e);
  }

  /** With one persist of a room at a time, and no room closed over one, every
      step comes in its turn: pages, saves and trims alike. Such runs are crash
      safe without further condition. */
  lemma {:induction false} OneAtATimeSafe(k: Key, s: string, fenced: bool, events: seq<Event>)
    requires AllOneAtATime(k, s, fenced, events)
    ensures AllInTurn(k, s, fenced, events) && Alone(RunAll(k, s, fenced, events), k)
  {
    hide Safe, Happens, InTurn, Alone, OneAtATime;
    if events == [] {
      NobodyAlone(k);
    } else {
      var before := events[..|events| - 1];
      OneAtATimeSafe(k, s, fenced, before);
      AlwaysSafe(k, s, fenced, before);
      AloneInTurn(RunAll(k, s, fenced, before), k, s, fenced, events[|events| - 1]);
      AloneKeeps(RunAll(k, s, fenced, before), k, s, fenced, events[|events| - 1]);
    }
  }

  lemma NobodyAlone(k: Key)
    ensures Alone(NOBODY, k)
  {
  }

  // ----- Out of turn -----

  /** Every fact of the first updates is in their join, and no other. */
  lemma {:induction false} JoinToHas(history: seq<Doc>, n: nat, m: nat)
    requires n <= m <= |history|
    ensures JoinTo(history, n) <= JoinTo(history, m)
    ensures forall i :: n <= i < m ==> history[i] <= JoinTo(history, m)
    ensures forall doc: Doc :: JoinTo(history, n) <= doc && (forall i :: n <= i < m ==> history[i] <= doc) ==>
          JoinTo(history, m) <= doc
    decreases m - n
  {
    if n < m {
      JoinToHas(history, n, m - 1);
    }
  }

  /** The updates between the checkpoint and the log, which neither holds. */
  predicate Holed(base: Checkpoint, log: seq<Record>, history: seq<Doc>) {
    && |log| <= |history| && base.through < |history| - |log| && base.doc == JoinTo(history, base.through)
  }

  /** What a recovery then finds: the checkpoint joined with the log. */
  lemma HoledReplayed(base: Checkpoint, log: seq<Record>, history: seq<Doc>, last: nat, applied: nat)
    requires LogIs(log, history) && Holed(base, log, history) && EpochsOk(base, log, last)
    ensures var r := ReplayAll(After(log, base.through), Replayed(base.doc, base.through, applied, base.epoch));
            r.Ok? && r.value.doc == base.doc + Joined(log)
  {
    NothingBefore(base, log, history);
    LogRises(log, history);
    hide After, ReplayAll, JoinTo, LogIs, Rising, Joined, Holed;
    var start := Replayed(base.doc, base.through, applied, base.epoch);
    ReplaySucceeds(log, start);
    ReplayJoins(log, start);
  }

  /** That is everything exactly if nothing in the gap is new. */
  lemma HoledLoses(base: Checkpoint, log: seq<Record>, history: seq<Doc>)
    requires LogIs(log, history) && Holed(base, log, history)
    ensures var doc := base.doc + Joined(log);
            doc == JoinTo(history, |history|) <==> forall n :: base.through <= n < |history| - |log| ==>
                history[n] <= doc
  {
    JoinedTail(log, history, 0, |history| - |log|);
    hide LogIs, Joined;
    assert log[0..] == log;
    JoinToHas(history, base.through, |history| - |log|);
    hide JoinTo;
    EverythingIff(base, log, history);
  }

  lemma EverythingIff(base: Checkpoint, log: seq<Record>, history: seq<Doc>)
    requires |log| <= |history| && base.through <= |history| - |log| && base.doc == JoinTo(history, base.through)
    requires var kept := |history| - |log|;
             && JoinTo(history, |history|) == JoinTo(history, kept) + Joined(log)
             && JoinTo(history, base.through) <= JoinTo(history, kept)
             && (forall i :: base.through <= i < kept ==> history[i] <= JoinTo(history, kept))
             && (forall doc: Doc :: base.doc <= doc && (forall i :: base.through <= i < kept ==> history[i] <= doc) ==>
                   JoinTo(history, kept) <= doc)
    ensures var doc := base.doc + Joined(log);
            doc == JoinTo(history, |history|) <==> forall n :: base.through <= n < |history| - |log| ==>
                history[n] <= doc
  {
    hide JoinTo, Joined;
    var doc := base.doc + Joined(log);
    var kept := |history| - |log|;
    if forall n :: base.through <= n < kept ==> history[n] <= doc {
      assert base.doc <= doc;
      assert JoinTo(history, kept) <= doc;
    }
  }

  lemma NothingBefore(base: Checkpoint, log: seq<Record>, history: seq<Doc>)
    requires LogIs(log, history) && Holed(base, log, history)
    ensures After(log, base.through) == log && forall i :: 0 <= i < |log| ==> log[i].offset > base.through
  {
    LogRises(log, history);
    UpToSplits(log, base.through);
  }

  /** A save out of its turn leaves a gap behind its checkpoint. */
  lemma LateSave(sys: System, k: Key, s: string, fenced: bool, e: Event)
    requires Safe(sys, k, s, fenced) && e.SavesIt? && !InTurn(sys, k, e)
    ensures var next := Happens(sys, k, s, fenced, e);
            && next.history == sys.history && LogIs(LogOf(next.st, k), next.history)
            && Holed(BaseOf(next.st, k), LogOf(next.st, k), next.history)
            && EpochsOk(BaseOf(next.st, k), LogOf(next.st, k), LastOf(next.st, s, fenced))
  {
    var room := sys.rooms[e.id];
    var c := room.persists[e.ticket];
    SaveHappens(sys, k, s, fenced, e);
    StoreOf(sys, k, s, fenced);
    StoreParts(sys.st, k, s, fenced, sys.history);
    RoomOf(sys, k, s, fenced, e.id);
    hide Safe, StoreIs, RoomIs, CaptureIs, MayWrite, Save, Happens, AuthorityIs, LogIs, BaseIs, EpochsOk, LogOf,
        BaseOf, NextOf,
        LeaseOk, Current, LastOf;
    WritesWhenCurrent(sys.st, k, room.authority, s, fenced, e.now);
    CaptureOf(room, true, LogOf(sys.st, k), sys.history, e.ticket);
    SaveEffect(sys.st, k, c.doc, c.through, room.authority, e.now);
    SavedBase(c, BaseOf(sys.st, k), LogOf(sys.st, k), sys.history, LastOf(sys.st, s, fenced));
    SameLast(sys.st, Happens(sys, k, s, fenced, e).st, s, fenced);
    CaptureBounded(c, EpochOf(room.authority), LogOf(sys.st, k), sys.history);
  }

  /** So does a trim out of its turn. */
  lemma LateTrim(sys: System, k: Key, s: string, fenced: bool, e: Event)
    requires Safe(sys, k, s, fenced) && e.TrimsIt? && !InTurn(sys, k, e)
    ensures var next := Happens(sys, k, s, fenced, e);
            && next.history == sys.history && LogIs(LogOf(next.st, k), next.history)
            && Holed(BaseOf(next.st, k), LogOf(next.st, k), next.history)
            && EpochsOk(BaseOf(next.st, k), LogOf(next.st, k), LastOf(next.st, s, fenced))
  {
    var room := sys.rooms[e.id];
    var c := room.persists[e.ticket];
    TrimHappens(sys, k, s, fenced, e);
    StoreOf(sys, k, s, fenced);
    StoreParts(sys.st, k, s, fenced, sys.history);
    RoomOf(sys, k, s, fenced, e.id);
    hide Safe, StoreIs, RoomIs, CaptureIs, MayWrite, Trim, Happens, AuthorityIs, LogIs, BaseIs, EpochsOk, LogOf,
        BaseOf, NextOf,
        LeaseOk, Current, LastOf, After;
    WritesWhenCurrent(sys.st, k, room.authority, s, fenced, e.now);
    CaptureOf(room, true, LogOf(sys.st, k), sys.history, e.ticket);
    CaptureBounded(c, EpochOf(room.authority), LogOf(sys.st, k), sys.history);
    TrimEffect(sys.st, k, c.through, room.authority, e.now);
    TrimmedPast(c.through, BaseOf(sys.st, k), LogOf(sys.st, k), sys.history, LastOf(sys.st, s, fenced));
    SameLast(sys.st, Happens(sys, k, s, fenced, e).st, s, fenced);
  }

  lemma TrimmedPast(through: nat, base: Checkpoint, log: seq<Record>, history: seq<Doc>, last: nat)
    requires LogIs(log, history) && BaseIs(base, log, history) && EpochsOk(base, log, last)
          && base.through < through <= |history|
    ensures var rest := After(log, through);
            LogIs(rest, history) && Holed(base, rest, history) && EpochsOk(base, rest, last)
  {
    TailStart(log, history, through);
    hide UpTo;
    var n := UpTo(log, through);
    var rest := log[n..];
    assert forall i :: 0 <= i < |rest| ==> rest[i] == log[i + n];
  }

  /** What a save or a trim out of its turn loses: recovery still succeeds, and finds all
      that was ever appended if and only if it finds, elsewhere, every update
      between the checkpoint and the log. */
  lemma OutOfTurn(sys: System, k: Key, s: string, fenced: bool, e: Event)
    requires Safe(sys, k, s, fenced) && ValidKey(k) && (e.SavesIt? || e.TrimsIt?) && !InTurn(sys, k, e)
    ensures var next := Happens(sys, k, s, fenced, e);
            var from, to := BaseOf(next.st, k).through, |next.history| - |LogOf(next.st, k)|;
            && next.history == sys.history && from < to <= |next.history| && Recovered(next.st, k, 0).Ok?
            && (Recovered(next.st, k, 0).value.doc == JoinTo(next.history, |next.history|) <==>
                forall n :: from <= n < to ==> next.history[n] <= Recovered(next.st, k, 0).value.doc)
  {
    if e.SavesIt? {
      LateSave(sys, k, s, fenced, e);
    } else {
      LateTrim(sys, k, s, fenced, e);
    }
    var next := Happens(sys, k, s, fenced, e);
    hide Safe, InTurn, Happens, LogIs, EpochsOk, JoinTo, Recovered, ValidKey, ReplayAll, After, LogOf, BaseOf,
        Joined, LastOf;
    HoledReplayed(BaseOf(next.st, k), LogOf(next.st, k), next.history, LastOf(next.st, s, fenced), 0);
    HoledLoses(BaseOf(next.st, k), LogOf(next.st, k), next.history);
    RecoveredParts(next.st, k);
  }

  /** What a page out of its turn loses: whatever is still listed, the load does
      not fail, and it ends with all that was ever appended if and only if it
      finds, elsewhere, every update between what it has and the log. */
  lemma LoadOutOfTurn(sys: System, k: Key, s: string, fenced: bool, e: Event)
    requires Safe(sys, k, s, fenced) && e.Lists? && !InTurn(sys, k, e)
    ensures var load, log := sys.loads[e.id], LogOf(sys.st, k);
            var from, to := load.got.through, |sys.history| - |log|;
            var rest := ReplayAll(After(log, from), load.got);
            && from < to <= |sys.history| && rest.Ok?
            && (rest.value.doc == JoinTo(sys.history, |sys.history|) <==>
                forall n :: from <= n < to ==> sys.history[n] <= rest.value.doc)
  {
    var load := sys.loads[e.id];
    StoreOf(sys, k, s, fenced);
    StoreParts(sys.st, k, s, fenced, sys.history);
    LoadOf(sys, k, s, fenced, e.id);
    hide Safe, StoreIs, LogIs, BaseIs, EpochsOk, LogOf, BaseOf, NextOf, Current, LastOf, LeaseOk, JoinTo, ReplayAll,
        After, Joined;
    var log := LogOf(sys.st, k);
    LogLength(log, sys.history);
    assert Holed(GotBase(load), log, sys.history);
    HoledReplayed(GotBase(load), log, sys.history, LastOf(sys.st, s, fenced), load.got.applied);
    HoledLoses(GotBase(load), log, sys.history);
  }

  lemma LogLength(log: seq<Record>, history: seq<Doc>)
    requires LogIs(log, history)
    ensures |log| <= |history|
  {
  }

  /** Undisturbed, the pages of a load lead where the whole log behind what it
      has leads at once. */
  lemma PageByPage(st: State, k: Key, load: Load, limit: int)
    requires Rising(LogOf(st, k)) && Listed(st, k, load, limit).Ok?
    ensures var log, next := LogOf(st, k), Listed(st, k, load, limit).value;
            && ReplayAll(After(log, next.got.through), next.got) == ReplayAll(After(log, load.got.through), load.got)
            && (After(log, load.got.through) == [] ==> next == load.(done := true))
            && (After(log, load.got.through) != [] ==> next.got.through > load.got.through)
  {
    var log := LogOf(st, k);
    hide LogOf, BoundedLimit;
    var rest, page := After(log, load.got.through), Page(log, load.got.through, BoundedLimit(limit));
    AfterPage(log, load.got.through, BoundedLimit(limit));
    hide After, Page;
    if page != [] {
      assert page + rest[|page|..] == rest;
      ReplayConcat(page, rest[|page|..], load.got);
      ReplayJoins(page, load.got);
      FirstBehind(page, load.got);
    }
  }

  lemma FirstBehind(page: seq<Record>, got: Replayed)
    requires page != [] && ReplayAll(page, got).Ok?
    ensures ReplayAll(page, got).value.through > got.through
  {
    var rec := page[0];
    ReplayJoins(page[1..], Replayed(got.doc + rec.update, rec.offset, got.applied + 1,
                                    if rec.epoch > 0 then rec.epoch else got.epoch));
  }
}
