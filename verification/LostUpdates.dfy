/** Two runs after which an update is gone from the store: two persists of one
    room overtake each other, and a persist outlives its room while the next
    load is on its way. */
module LostUpdates {
  import opened Prelude
  import opened Storage
  import opened Fencing
  import opened Replay
  import opened Provider
  import opened Persists

  const KEY := Key("n", "d")

  /** A room is opened, gets an update, and a persist of it begins. */
  const STARTING: seq<Event> :=
    [] + [Resolves(0)] + [Fetches(0)] + [Lists(0, 0)] + [Installs(0)] + [Applies(0, {1}, 1)] + [Captures(0, 1)]

  /** A second persist captures one update more, saves and trims it, and then the
      first one saves. */
  const OVERTAKING: seq<Event> :=
    STARTING + [Applies(0, {2}, 1)] + [Captures(0, 2)] + [SavesIt(0, 2, 1)] + [TrimsIt(0, 2, 1)] + [SavesIt(0, 1, 1)]

  /** The room is closed; the next load reads the checkpoint, then the persist
      saves and trims, and then the load lists the log. */
  const OUTLIVED: seq<Event> :=
    STARTING + [Closes(0)] + [Resolves(1)] + [Fetches(1)] + [SavesIt(0, 1, 1)] + [TrimsIt(0, 1, 1)] + [Lists(1, 0)]
    + [Installs(1)]

  /** The room it opens gets an update, and is persisted. */
  const OUTLIVING: seq<Event> :=
    OUTLIVED + [Applies(1, {2}, 1)] + [Captures(1, 1)] + [SavesIt(1, 1, 1)]

  function Stored(items: map<Key, Checkpoint>, log: seq<Record>, next: nat): State {
    State(items, if log == [] then map[] else map[KEY := log], if next == 0 then map[]
        else map[KEY := next], map[], map[], map[])
  }

  function RoomAt(doc: Doc, lastOffset: nat, compactedAt: nat, open: bool, persists: map<nat, Capture>): Room {
    Room(doc, lastOffset, compactedAt, None, false, open, true, persists)
  }

  function LoadAt(done: bool): Load {
    Load(None, Some(0), Replayed({}, 0, 0, 0), done)
  }

  function Then(sys: System, e: Event): System {
    Happens(sys, KEY, "s", false, e)
  }

  lemma KeyIsValid(st: State)
    ensures ValidKey(KEY) && MayWrite(st, KEY, None, 1) == Ok(())
  {
    assert !Space(KEY.documentId[0]);
  }

  const FIRST := Record(1, {1}, 0)
  const SECOND := Record(2, {2}, 0)
  const EARLY := Capture({1}, 1, true, false)
  const LATE := Capture({1, 2}, 2, true, false)
  const LONELY := Capture({2}, 2, true, false)
  const ONE := Checkpoint({1}, 1, 0)
  const BOTH := Checkpoint({1, 2}, 2, 0)
  const OTHER := Checkpoint({2}, 2, 0)

  // ----- The common beginning -----

  /** A load that finds neither checkpoint nor log. */
  lemma LoadsNothing(st: State, rooms: map<nat, Room>, history: seq<Doc>, id: nat)
    requires BaseOf(st, KEY) == Checkpoint({}, 0, 0) && id !in rooms && NoRoom(System(st, rooms, map[], history), None)
    ensures Then(System(st, rooms, map[], history), Resolves(id)) ==
            System(st, rooms, map[id := Begun(None)], history)
    ensures Then(System(st, rooms, map[id := Begun(None)], history), Fetches(id)) ==
            System(st, rooms, map[id := LoadAt(false)], history)
  {
    KeyIsValid(st);
    hide ValidKey, BaseOf, Step, NoRoom;
    assert (map[id := Begun(None)])[id := LoadAt(false)] == map[id := LoadAt(false)];
  }

  lemma ListedNothing(st: State, load: Load)
    requires LogOf(st, KEY) == []
    ensures Listed(st, KEY, load, 0) == Ok(load.(done := true))
  {
    hide LogOf, ReplayAll, UpTo;
    assert After([], load.got.through) == [];
  }

  lemma ListsNothing(st: State, rooms: map<nat, Room>, history: seq<Doc>, id: nat)
    requires LogOf(st, KEY) == []
    ensures Then(System(st, rooms, map[id := LoadAt(false)], history), Lists(id, 0)) ==
            System(st, rooms, map[id := LoadAt(true)], history)
  {
    ListedNothing(st, LoadAt(false));
    hide LogOf, Step, Listed, Recovered, MayWrite;
    assert (map[id := LoadAt(false)])[id := LoadAt(true)] == map[id := LoadAt(true)];
  }

  lemma InstallsNothing(st: State, rooms: map<nat, Room>, history: seq<Doc>, id: nat)
    requires id !in rooms && NoRoom(System(st, rooms, map[id := LoadAt(true)], history), None)
    ensures Then(System(st, rooms, map[id := LoadAt(true)], history), Installs(id)) ==
            System(st, rooms[id := RoomAt({}, 0, 0, true, map[])], map[], history)
  {
    var sys := System(st, rooms, map[id := LoadAt(true)], history);
    InstallsHappens(sys, KEY, "s", false, Installs(id));
    assert Opened(LoadAt(true)) == RoomAt({}, 0, 0, true, map[]);
    assert sys.loads - {id} == map[];
  }

  lemma AppliesFirst()
    ensures Then(System(Stored(map[], [], 0), map[0 := RoomAt({}, 0, 0, true, map[])], map[], []), Applies(0, {1}, 1))
         == System(Stored(map[], [FIRST], 1), map[0 := RoomAt({1}, 1, 0, true, map[])], map[], [{1}])
  {
    var sys := System(Stored(map[], [], 0), map[0 := RoomAt({}, 0, 0, true, map[])], map[], []);
    AppliesHappens(sys, KEY, "s", false, Applies(0, {1}, 1));
    KeyIsValid(sys.st);
    hide ValidKey, MayWrite, Happens;
    var next := Append(sys.st, KEY, {1}, None, 1);
    assert [] + [FIRST] == [FIRST] && {} + {1} == {1} && [] + [{1}] == [{1}];
    assert next.logs == map[KEY := [FIRST]] && next.next == map[KEY := 1];
    assert next == Stored(map[], [FIRST], 1);
  }

  lemma CapturesIt(st: State, rooms: map<nat, Room>, history: seq<Doc>, id: nat, ticket: nat)
    requires id in rooms && rooms[id].open && !rooms[id].lost && ticket !in rooms[id].persists
    ensures var room := rooms[id];
            var c := Capture(room.doc, room.lastOffset, room.lastOffset > room.compactedAt, false);
            Then(System(st, rooms, map[], history), Captures(id, ticket)) ==
            System(st, rooms[id := room.(persists := room.persists[ticket := c])], map[], history)
  {
    hide Step;
  }

  /** The state after the common beginning. */
  const STARTED := System(Stored(map[], [FIRST], 1), map[0 := RoomAt({1}, 1, 0, true, map[1 := EARLY])], map[], [{1}])

  lemma RunStep(events: seq<Event>, e: Event)
    ensures RunAll(KEY, "s", false, events + [e]) == Then(RunAll(KEY, "s", false, events), e)
  {
    assert (events + [e])[..|events|] == events;
    hide Happens;
  }

  lemma Extends(events: seq<Event>, sys: System, e: Event, next: System)
    requires RunAll(KEY, "s", false, events) == sys && Then(sys, e) == next
    ensures RunAll(KEY, "s", false, events + [e]) == next
  {
    RunStep(events, e);
  }

  lemma Starts()
    ensures RunAll(KEY, "s", false, STARTING) == STARTED
  {
    var st := Stored(map[], [], 0);
    assert st == EMPTY;
    LoadsNothing(st, map[], [], 0);
    ListsNothing(st, map[], [], 0);
    InstallsNothing(st, map[], [], 0);
    AppliesFirst();
    CapturesIt(Stored(map[], [FIRST], 1), map[0 := RoomAt({1}, 1, 0, true, map[])], [{1}], 0, 1);
    assert RunAll(KEY, "s", false, []) == NOBODY;
    assert STARTED.rooms == map[0 := RoomAt({1}, 1, 0, true, map[])][0 := RoomAt({1}, 1, 0, true, map[1 := EARLY])];
    assert (map[])[0 := RoomAt({}, 0, 0, true, map[])] == map[0 := RoomAt({}, 0, 0, true, map[])];
    hide RunAll, Then, Stored, RoomAt, LoadAt, Begun;
    var e := [Resolves(0)];
    Extends([], NOBODY, Resolves(0), System(st, map[], map[0 := Begun(None)], []));
    Extends([] + e, System(st, map[], map[0 := Begun(None)], []), Fetches(0), System(st, map[],
        map[0 := LoadAt(false)], []));
    e := [] + e + [Fetches(0)];
    Extends(e, System(st, map[], map[0 := LoadAt(false)], []), Lists(0, 0), System(st, map[], map[0 := LoadAt(true)],
        []));
    e := e + [Lists(0, 0)];
    Extends(e, System(st, map[], map[0 := LoadAt(true)], []), Installs(0),
            System(st, map[0 := RoomAt({}, 0, 0, true, map[])], map[], []));
    e := e + [Installs(0)];
    Extends(e, System(st, map[0 := RoomAt({}, 0, 0, true, map[])], map[], []), Applies(0, {1}, 1),
            System(Stored(map[], [FIRST], 1), map[0 := RoomAt({1}, 1, 0, true, map[])], map[], [{1}]));
    Extends(e + [Applies(0, {1}, 1)],
            System(Stored(map[], [FIRST], 1), map[0 := RoomAt({1}, 1, 0, true, map[])], map[], [{1}]), Captures(0, 1),
            STARTED);
  }

  // ----- Overtaking -----

  lemma AppliesSecond()
    ensures Then(STARTED, Applies(0, {2}, 1)) ==
            System(Stored(map[], [FIRST, SECOND], 2), map[0 := RoomAt({1, 2}, 2, 0, true, map[1 := EARLY])], map[],
                   [{1}, {2}])
  {
    AppliesHappens(STARTED, KEY, "s", false, Applies(0, {2}, 1));
    KeyIsValid(STARTED.st);
    hide ValidKey, MayWrite, Happens;
    var next := Append(STARTED.st, KEY, {2}, None, 1);
    assert [FIRST] + [SECOND] == [FIRST, SECOND] && {1} + {2} == {1, 2} && [{1}] + [{2}] == [{1}, {2}];
    assert next.logs == map[KEY := [FIRST, SECOND]] && next.next == map[KEY := 2];
    assert next == Stored(map[], [FIRST, SECOND], 2);
  }

  const TWICE := RoomAt({1, 2}, 2, 0, true, map[1 := EARLY, 2 := LATE])

  lemma SavesSecond()
    ensures Then(System(Stored(map[], [FIRST, SECOND], 2), map[0 := TWICE], map[], [{1}, {2}]), SavesIt(0, 2, 1)) ==
            System(Stored(map[KEY := BOTH], [FIRST, SECOND], 2),
                   map[0 := TWICE.(persists := map[1 := EARLY, 2 := LATE.(saved := true)])], map[], [{1}, {2}])
  {
    var sys := System(Stored(map[], [FIRST, SECOND], 2), map[0 := TWICE], map[], [{1}, {2}]);
    SaveHappens(sys, KEY, "s", false, SavesIt(0, 2, 1));
    KeyIsValid(sys.st);
    hide ValidKey, MayWrite, Happens;
    assert Save(sys.st, KEY, {1, 2}, 2, 0, None, 1) == Stored(map[KEY := BOTH], [FIRST, SECOND], 2);
    assert Saved(TWICE, 2).persists == map[1 := EARLY, 2 := LATE.(saved := true)];
  }

  lemma TrimsSecond()
    ensures Then(System(Stored(map[KEY := BOTH], [FIRST, SECOND], 2),
                          map[0 := TWICE.(persists := map[1 := EARLY, 2 := LATE.(saved := true)])], map[], [{1}, {2}]),
                   TrimsIt(0, 2, 1)) ==
            System(Stored(map[KEY := BOTH], [], 2), map[0 := RoomAt({1, 2}, 2, 2, true, map[1 := EARLY])], map[],
                   [{1}, {2}])
  {
    var room := TWICE.(persists := map[1 := EARLY, 2 := LATE.(saved := true)]);
    var sys := System(Stored(map[KEY := BOTH], [FIRST, SECOND], 2), map[0 := room], map[], [{1}, {2}]);
    TrimHappens(sys, KEY, "s", false, TrimsIt(0, 2, 1));
    KeyIsValid(sys.st);
    hide ValidKey, MayWrite, Happens;
    assert [FIRST, SECOND][1..] == [SECOND] && [SECOND][1..] == [];
    assert UpTo([SECOND], 2) == 1 && UpTo([FIRST, SECOND], 2) == 2;
    assert After([FIRST, SECOND], 2) == [];
    assert room.persists - {2} == map[1 := EARLY];
  }

  lemma SavesFirst()
    ensures var sys := System(Stored(map[KEY := BOTH], [], 2), map[0 := RoomAt({1, 2}, 2, 2, true, map[1 := EARLY])],
                              map[], [{1}, {2}]);
            Then(sys, SavesIt(0, 1, 1)).st == Stored(map[KEY := ONE], [], 2)
            && Then(sys, SavesIt(0, 1, 1)).history == [{1}, {2}]
  {
    var sys := System(Stored(map[KEY := BOTH], [], 2), map[0 := RoomAt({1, 2}, 2, 2, true, map[1 := EARLY])], map[],
                      [{1}, {2}]);
    SaveHappens(sys, KEY, "s", false, SavesIt(0, 1, 1));
    KeyIsValid(sys.st);
    hide ValidKey, MayWrite, Happens;
    assert (map[KEY := BOTH])[KEY := ONE] == map[KEY := ONE];
  }

  lemma RecoversOnly(base: Checkpoint, log: seq<Record>)
    requires After(log, base.through) == []
    ensures var r := Recovered(Stored(map[KEY := base], log, 2), KEY, 0); r.Ok? && r.value.doc == base.doc
  {
    var st := Stored(map[KEY := base], log, 2);
    KeyIsValid(st);
    hide ValidKey;
    assert LogOf(st, KEY) == log && BaseOf(st, KEY) == base;
    RecoveredParts(st, KEY);
  }

  /** After the first run the second update is gone from the store, for good. */
  lemma OvertakingLoses()
    ensures var sys := RunAll(KEY, "s", false, OVERTAKING);
            && sys.history == [{1}, {2}] && Recovered(sys.st, KEY, 0).Ok? && Recovered(sys.st, KEY, 0).value.doc == {1}
  {
    Starts();
    AppliesSecond();
    CapturesIt(Stored(map[], [FIRST, SECOND], 2), map[0 := RoomAt({1, 2}, 2, 0, true, map[1 := EARLY])], [{1}, {2}], 0,
               2);
    assert map[0 := RoomAt({1, 2}, 2, 0, true, map[1 := EARLY])][0 := TWICE] == map[0 := TWICE];
    assert (map[1 := EARLY])[2 := LATE] == map[1 := EARLY, 2 := LATE];
    SavesSecond();
    TrimsSecond();
    SavesFirst();
    hide RunAll, Then, Recovered, Stored, RoomAt;
    var e := STARTING + [Applies(0, {2}, 1)];
    var history := [{1}, {2}];
    var st, room := Stored(map[], [FIRST, SECOND], 2), RoomAt({1, 2}, 2, 0, true, map[1 := EARLY]);
    Extends(STARTING, STARTED, Applies(0, {2}, 1), System(st, map[0 := room], map[], history));
    Extends(e, System(st, map[0 := room], map[], history), Captures(0, 2), System(st, map[0 := TWICE], map[], history));
    e := e + [Captures(0, 2)];
    var saved := map[0 := TWICE.(persists := map[1 := EARLY, 2 := LATE.(saved := true)])];
    Extends(e, System(st, map[0 := TWICE], map[], history), SavesIt(0, 2, 1),
            System(Stored(map[KEY := BOTH], [FIRST, SECOND], 2), saved, map[], history));
    e := e + [SavesIt(0, 2, 1)];
    var last := System(Stored(map[KEY := BOTH], [], 2), map[0 := RoomAt({1, 2}, 2, 2, true, map[1 := EARLY])], map[],
                       history);
    Extends(e, System(Stored(map[KEY := BOTH], [FIRST, SECOND], 2), saved, map[], history), TrimsIt(0, 2, 1), last);
    e := e + [TrimsIt(0, 2, 1)];
    Extends(e, last, SavesIt(0, 1, 1), Then(last, SavesIt(0, 1, 1)));
    RecoversOnly(ONE, []);
  }

  // ----- Outliving -----

  const LEFT := RoomAt({1}, 1, 0, false, map[1 := EARLY])
  const GONE := RoomAt({1}, 1, 1, false, map[])

  lemma ClosesIt()
    ensures Then(STARTED, Closes(0)) == System(STARTED.st, map[0 := LEFT], map[], [{1}])
  {
    hide Step;
    assert STARTED.rooms[0 := LEFT] == map[0 := LEFT];
  }

  lemma SavesOutlived()
    ensures Then(System(STARTED.st, map[0 := LEFT], map[1 := LoadAt(false)], [{1}]), SavesIt(0, 1, 1)) ==
            System(Stored(map[KEY := ONE], [FIRST], 1), map[0 := LEFT.(persists := map[1 := EARLY.(saved := true)])],
                   map[1 := LoadAt(false)], [{1}])
  {
    var sys := System(STARTED.st, map[0 := LEFT], map[1 := LoadAt(false)], [{1}]);
    SaveHappens(sys, KEY, "s", false, SavesIt(0, 1, 1));
    KeyIsValid(sys.st);
    hide ValidKey, MayWrite, Happens;
    assert Save(sys.st, KEY, {1}, 1, 0, None, 1) == Stored(map[KEY := ONE], [FIRST], 1);
    assert Saved(LEFT, 1).persists == map[1 := EARLY.(saved := true)];
  }

  lemma TrimsOutlived()
    ensures Then(System(Stored(map[KEY := ONE], [FIRST], 1),
                          map[0 := LEFT.(persists := map[1 := EARLY.(saved := true)])], map[1 := LoadAt(false)], [{1}]),
                   TrimsIt(0, 1, 1)) ==
            System(Stored(map[KEY := ONE], [], 1), map[0 := GONE], map[1 := LoadAt(false)], [{1}])
  {
    var room := LEFT.(persists := map[1 := EARLY.(saved := true)]);
    var sys := System(Stored(map[KEY := ONE], [FIRST], 1), map[0 := room], map[1 := LoadAt(false)], [{1}]);
    TrimHappens(sys, KEY, "s", false, TrimsIt(0, 1, 1));
    KeyIsValid(sys.st);
    hide ValidKey, MayWrite, Happens;
    assert [FIRST][1..] == [] && UpTo([FIRST], 1) == 1 && After([FIRST], 1) == [];
    assert room.persists - {1} == map[];
  }

  lemma AppliesOther()
    ensures Then(System(Stored(map[KEY := ONE], [], 1), map[0 := GONE, 1 := RoomAt({}, 0, 0, true, map[])], map[],
                          [{1}]), Applies(1, {2}, 1)) ==
            System(Stored(map[KEY := ONE], [SECOND], 2), map[0 := GONE, 1 := RoomAt({2}, 2, 0, true, map[])], map[],
                   [{1}, {2}])
  {
    var sys := System(Stored(map[KEY := ONE], [], 1), map[0 := GONE, 1 := RoomAt({}, 0, 0, true, map[])], map[], [{1}]);
    AppliesHappens(sys, KEY, "s", false, Applies(1, {2}, 1));
    KeyIsValid(sys.st);
    hide ValidKey, MayWrite, Happens;
    var next := Append(sys.st, KEY, {2}, None, 1);
    assert [] + [SECOND] == [SECOND] && {} + {2} == {2} && [{1}] + [{2}] == [{1}, {2}];
    assert next.logs == map[KEY := [SECOND]] && next.next == map[KEY := 2];
    assert next == Stored(map[KEY := ONE], [SECOND], 2);
  }

  lemma SavesOther()
    ensures var sys := System(Stored(map[KEY := ONE], [SECOND], 2),
                              map[0 := GONE, 1 := RoomAt({2}, 2, 0, true, map[1 := LONELY])], map[], [{1}, {2}]);
            Then(sys, SavesIt(1, 1, 1)).st == Stored(map[KEY := OTHER], [SECOND], 2)
            && Then(sys, SavesIt(1, 1, 1)).history == [{1}, {2}]
  {
    var sys := System(Stored(map[KEY := ONE], [SECOND], 2),
                      map[0 := GONE, 1 := RoomAt({2}, 2, 0, true, map[1 := LONELY])], map[], [{1}, {2}]);
    SaveHappens(sys, KEY, "s", false, SavesIt(1, 1, 1));
    KeyIsValid(sys.st);
    hide ValidKey, MayWrite, Happens;
    assert (map[KEY := ONE])[KEY := OTHER] == map[KEY := OTHER];
  }

  /** The second load, around the persist that outlives its room. */
  lemma SecondLoad()
    ensures Then(System(STARTED.st, map[0 := LEFT], map[], [{1}]), Resolves(1)) ==
            System(STARTED.st, map[0 := LEFT], map[1 := Begun(None)], [{1}])
    ensures Then(System(STARTED.st, map[0 := LEFT], map[1 := Begun(None)], [{1}]), Fetches(1)) ==
            System(STARTED.st, map[0 := LEFT], map[1 := LoadAt(false)], [{1}])
    ensures var st := Stored(map[KEY := ONE], [], 1);
            && Then(System(st, map[0 := GONE], map[1 := LoadAt(false)], [{1}]), Lists(1, 0)) ==
               System(st, map[0 := GONE], map[1 := LoadAt(true)], [{1}])
            && Then(System(st, map[0 := GONE], map[1 := LoadAt(true)], [{1}]), Installs(1)) ==
               System(st, map[0 := GONE, 1 := RoomAt({}, 0, 0, true, map[])], map[], [{1}])
  {
    var st := Stored(map[KEY := ONE], [], 1);
    assert BaseOf(STARTED.st, KEY) == Checkpoint({}, 0, 0) && LogOf(st, KEY) == [];
    hide Then, Stored;
    LoadsNothing(STARTED.st, map[0 := LEFT], [{1}], 1);
    ListsNothing(st, map[0 := GONE], [{1}], 1);
    InstallsNothing(st, map[0 := GONE], [{1}], 1);
    assert (map[0 := GONE])[1 := RoomAt({}, 0, 0, true, map[])] == map[0 := GONE, 1 := RoomAt({}, 0, 0, true, map[])];
  }

  lemma OutlivingLoads()
    ensures RunAll(KEY, "s", false, OUTLIVED) ==
            System(Stored(map[KEY := ONE], [], 1), map[0 := GONE, 1 := RoomAt({}, 0, 0, true, map[])], map[], [{1}])
  {
    Starts();
    ClosesIt();
    SecondLoad();
    SavesOutlived();
    TrimsOutlived();
    hide RunAll, Then, Stored, RoomAt, LoadAt, Begun;
    var st, left, loads := STARTED.st, map[0 := LEFT], map[1 := LoadAt(false)];
    var saved := System(Stored(map[KEY := ONE], [FIRST], 1),
                        map[0 := LEFT.(persists := map[1 := EARLY.(saved := true)])], loads, [{1}]);
    var trimmed := Stored(map[KEY := ONE], [], 1);
    var e := STARTING + [Closes(0)];
    Extends(STARTING, STARTED, Closes(0), System(st, left, map[], [{1}]));
    Extends(e, System(st, left, map[], [{1}]), Resolves(1), System(st, left, map[1 := Begun(None)], [{1}]));
    e := e + [Resolves(1)];
    Extends(e, System(st, left, map[1 := Begun(None)], [{1}]), Fetches(1), System(st, left, loads, [{1}]));
    e := e + [Fetches(1)];
    Extends(e, System(st, left, loads, [{1}]), SavesIt(0, 1, 1), saved);
    e := e + [SavesIt(0, 1, 1)];
    Extends(e, saved, TrimsIt(0, 1, 1), System(trimmed, map[0 := GONE], loads, [{1}]));
    e := e + [TrimsIt(0, 1, 1)];
    Extends(e, System(trimmed, map[0 := GONE], loads, [{1}]), Lists(1, 0),
            System(trimmed, map[0 := GONE], map[1 := LoadAt(true)], [{1}]));
    e := e + [Lists(1, 0)];
    Extends(e, System(trimmed, map[0 := GONE], map[1 := LoadAt(true)], [{1}]), Installs(1),
            System(trimmed, map[0 := GONE, 1 := RoomAt({}, 0, 0, true, map[])], map[], [{1}]));
  }

  /** After the second run the first update is gone: the load skipped it without
      an error, and the next checkpoint covers its offset. */
  lemma OutlivingLoses()
    ensures var sys := RunAll(KEY, "s", false, OUTLIVING);
            && sys.history == [{1}, {2}] && Recovered(sys.st, KEY, 0).Ok? && Recovered(sys.st, KEY, 0).value.doc == {2}
  {
    AppliesOther();
    var rooms := map[0 := GONE, 1 := RoomAt({2}, 2, 0, true, map[])];
    CapturesIt(Stored(map[KEY := ONE], [SECOND], 2), rooms, [{1}, {2}], 1, 1);
    assert rooms[1 := RoomAt({2}, 2, 0, true, map[1 := LONELY])] ==
           map[0 := GONE, 1 := RoomAt({2}, 2, 0, true, map[1 := LONELY])];
    SavesOther();
    assert [SECOND][1..] == [] && UpTo([SECOND], 2) == 1 && After([SECOND], 2) == [];
    hide RunAll, Then, Recovered, UpTo, Stored, RoomAt, LoadAt, Begun;
    OutlivingLoads();
    var st := Stored(map[KEY := ONE], [], 1);
    var e := OUTLIVED;
    var ready := System(st, map[0 := GONE, 1 := RoomAt({}, 0, 0, true, map[])], map[], [{1}]);
    var applied := System(Stored(map[KEY := ONE], [SECOND], 2), rooms, map[], [{1}, {2}]);
    Extends(e, ready, Applies(1, {2}, 1), applied);
    e := e + [Applies(1, {2}, 1)];
    var last := System(Stored(map[KEY := ONE], [SECOND], 2),
                       map[0 := GONE, 1 := RoomAt({2}, 2, 0, true, map[1 := LONELY])], map[], [{1}, {2}]);
    Extends(e, applied, Captures(1, 1), last);
    e := e + [Captures(1, 1)];
    Extends(e, last, SavesIt(1, 1, 1), Then(last, SavesIt(1, 1, 1)));
    RecoversOnly(OTHER, [SECOND]);
  }
}
