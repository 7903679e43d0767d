/** The document rebalance planner: a greedy allocator in two phases. */
module Rebalance {
  import opened Prelude
  import opened Storage

  /** What the owner lookup answered: an owner, an error after which promotion
      is allowed (no owner, no placement, expired lease), or anything else. */
  datatype Answer = Owned(node: string) | Missing | Failed

  datatype Document = Document(key: Key, answer: Answer)

  datatype Reason = OwnerMissing | OwnerOutsideTargets | LoadShedding

  datatype SkipReason = InvalidDocument | OwnerLookupFailed | MaxMovesReached

  /** A planned move; `from` is empty when the document had no owner. */
  datatype Move = Move(key: Key, from: string, to: string, reason: Reason)

  datatype Skip = Skip(key: Key, reason: SkipReason)

  datatype Ledger = Ledger(loads: map<string, int>, owned: map<string, seq<Key>>, moved: set<Key>,
                           moves: seq<Move>, skipped: seq<Skip>)

  // ----- The planner, step by step -----

  predicate LimitReached(maxMoves: int, current: int) {
    maxMoves > 0 && current >= maxMoves
  }

  predicate Loaded(targets: seq<string>, loads: map<string, int>) {
    targets != [] && forall t :: t in targets ==> t in loads
  }

  /** The first of the n first targets with the least load. */
  function Least(targets: seq<string>, loads: map<string, int>, n: nat): (s: string)
    requires Loaded(targets, loads) && 0 < n <= |targets|
    ensures s in targets && forall i :: 0 <= i < n ==> loads[s] <= loads[targets[i]]
  {
    if n == 1 then targets[0] else
      var s := Least(targets, loads, n - 1);
      if loads[targets[n - 1]] < loads[s] then targets[n - 1] else s
  }

  function Most(targets: seq<string>, loads: map<string, int>, n: nat): (s: string)
    requires Loaded(targets, loads) && 0 < n <= |targets|
    ensures s in targets && forall i :: 0 <= i < n ==> loads[s] >= loads[targets[i]]
  {
    if n == 1 then targets[0] else
      var s := Most(targets, loads, n - 1);
      if loads[targets[n - 1]] > loads[s] then targets[n - 1] else s
  }

  function FirstMovable(keys: seq<Key>, moved: set<Key>): (r: Option<Key>)
    ensures r.None? <==> forall k :: k in keys ==> k in moved
    ensures r.Some? ==> r.value in keys && r.value !in moved
  {
    if keys == [] then None
    else if keys[0] !in moved then Some(keys[0])
    else FirstMovable(keys[1..], moved)
  }

  function OwnedBy(l: Ledger, t: string): seq<Key> {
    if t in l.owned then l.owned[t] else []
  }

  function Place(l: Ledger, m: Move): (r: Ledger)
    requires m.to in l.loads
  {
    Ledger(l.loads[m.to := l.loads[m.to] + 1], l.owned, l.moved + {m.key}, l.moves + [m], l.skipped)
  }

  function Own(l: Ledger, owner: string, key: Key): (r: Ledger)
    requires owner in l.loads
  {
    l.(loads := l.loads[owner := l.loads[owner] + 1], owned := l.owned[owner := OwnedBy(l, owner) + [key]])
  }

  function Skipped(l: Ledger, key: Key, reason: SkipReason): Ledger {
    l.(skipped := l.skipped + [Skip(key, reason)])
  }

  function Assign(l: Ledger, d: Document, targets: seq<string>, promote: bool, maxMoves: int): (r: Ledger)
    requires Loaded(targets, l.loads)
    ensures Loaded(targets, r.loads)
  {
    if !ValidKey(d.key) then Skipped(l, d.key, InvalidDocument)
    else if d.answer.Owned? && d.answer.node in targets then
      Own(l, d.answer.node, d.key)
    else if d.answer.Owned? then
      if LimitReached(maxMoves, |l.moves|) then Skipped(l, d.key, MaxMovesReached)
      else Place(l, Move(d.key, d.answer.node, Least(targets, l.loads, |targets|), OwnerOutsideTargets))
    else if d.answer.Missing? && promote && !LimitReached(maxMoves, |l.moves|) then
      Place(l, Move(d.key, "", Least(targets, l.loads, |targets|), OwnerMissing))
    else Skipped(l, d.key, OwnerLookupFailed)
  }

  function Fresh(targets: seq<string>): Ledger {
    Ledger(map t | t in targets :: 0, map[], {}, [], [])
  }

  function AssignAll(docs: seq<Document>, n: nat, targets: seq<string>, promote: bool, maxMoves: int): (r: Ledger)
    requires n <= |docs| && targets != []
    ensures Loaded(targets, r.loads)
  {
    if n == 0 then Fresh(targets)
    else Assign(AssignAll(docs, n - 1, targets, promote, maxMoves), docs[n - 1], targets, promote, maxMoves)
  }

  /** One move of the second phase, or nothing when the phase is over. Targets
      are never blank, and equal ones differ in load by 0. */
  function Shed(l: Ledger, targets: seq<string>, maxMoves: int): (r: Option<Ledger>)
    requires Loaded(targets, l.loads)
    ensures r.Some? ==> Loaded(targets, r.value.loads)
  {
    var from, to := Most(targets, l.loads, |targets|), Least(targets, l.loads, |targets|);
    if LimitReached(maxMoves, |l.moves|) || l.loads[from] - l.loads[to] <= 1 then None
    else
      var key := FirstMovable(OwnedBy(l, from), l.moved);
      if key.None? then None
      else Some(Place(l.(loads := l.loads[from := l.loads[from] - 1]), Move(key.value, from, to, LoadShedding)))
  }

  ghost function Movable(l: Ledger): set<Key> {
    (set t, k | t in l.owned && k in l.owned[t] :: k) - l.moved
  }

  lemma ShedShrinks(l: Ledger, targets: seq<string>, maxMoves: int)
    requires Loaded(targets, l.loads) && Shed(l, targets, maxMoves).Some?
    ensures Movable(Shed(l, targets, maxMoves).value) < Movable(l)
  {
    var next := Shed(l, targets, maxMoves).value;
    var from := Most(targets, l.loads, |targets|);
    var key := FirstMovable(OwnedBy(l, from), l.moved);
    assert key.value in Movable(l) && key.value !in Movable(next);
  }

  ghost function ShedAll(l: Ledger, targets: seq<string>, maxMoves: int): (r: Ledger)
    requires Loaded(targets, l.loads)
    ensures Loaded(targets, r.loads)
    decreases Movable(l)
  {
    var s := Shed(l, targets, maxMoves);
    if s.None? then l else
      ShedShrinks(l, targets, maxMoves);
      ShedAll(s.value, targets, maxMoves)
  }

  /** The ledger when planning ends. */
  ghost function Planned(docs: seq<Document>, targets: seq<string>, promote: bool, maxMoves: int): Ledger
    requires targets != []
  {
    ShedAll(AssignAll(docs, |docs|, targets, promote, maxMoves), targets, maxMoves)
  }

  // ----- Targets -----

  predicate Before(a: string, b: string) {
    if b == [] then false
    else if a == [] then true
    else a[0] < b[0] || (a[0] == b[0] && Before(a[1..], b[1..]))
  }

  lemma {:induction false} BeforeTotal(a: string, b: string)
    ensures Before(a, b) || a == b || Before(b, a)
    ensures !(Before(a, b) && Before(b, a)) && !(a == b && Before(a, b))
  {
    if a != [] && b != [] && a[0] == b[0] {
      BeforeTotal(a[1..], b[1..]);
      assert a == [a[0]] + a[1..] && b == [b[0]] + b[1..];
    }
  }

  lemma {:induction false} BeforeTransitive(a: string, b: string, c: string)
    requires Before(a, b) && Before(b, c)
    ensures Before(a, c)
  {
    if a != [] && a[0] == b[0] && b[0] == c[0] {
      BeforeTransitive(a[1..], b[1..], c[1..]);
    }
  }

  predicate Ascending(q: seq<string>) {
    forall i, j :: 0 <= i < j < |q| ==> Before(q[i], q[j])
  }

  lemma {:induction false} AscendingUnique(a: seq<string>, b: seq<string>)
    requires Ascending(a) && Ascending(b)
    requires forall s :: s in a <==> s in b
    ensures a == b
  {
    assert a != [] ==> a[0] in a && a[0] in b;
    assert b != [] ==> b[0] in b && b[0] in a;
    if a != [] && b != [] {
      BeforeTotal(a[0], b[0]);
      forall s
        ensures s in a[1..] <==> s in b[1..]
      {
        BeforeTotal(a[0], a[0]);
        assert s in a <==> s == a[0] || s in a[1..];
        assert s in b <==> s == b[0] || s in b[1..];
      }
      AscendingUnique(a[1..], b[1..]);
      assert a == [a[0]] + a[1..] && b == [b[0]] + b[1..];
    }
  }

  function Insert(q: seq<string>, s: string): (r: seq<string>)
    requires Ascending(q) && s !in q
    ensures Ascending(r) && forall x :: x in r <==> x == s || x in q
  {
    if q == [] then [s]
    else if Before(s, q[0]) then
      assert forall j :: 0 <= j < |q| ==> Before(s, q[j]) by {
        forall j | 0 <= j < |q|
          ensures Before(s, q[j])
        {
          if j > 0 { BeforeTransitive(s, q[0], q[j]); }
        }
      }
      [s] + q
    else
      var rest := Insert(q[1..], s);
      assert Before(q[0], s) by { BeforeTotal(q[0], s); assert q[0] in q; }
      assert forall x :: x in q <==> x == q[0] || x in q[1..];
      assert forall j :: 0 <= j < |rest| ==> Before(q[0], rest[j]) by {
        assert forall j :: 0 <= j < |rest| ==> rest[j] in rest;
        assert forall x :: x in q[1..] ==> Before(q[0], x);
      }
      [q[0]] + rest
  }

  /** The distinct targets in ascending order; refuses none at all and blank names. */
  method NormalizeTargets(targets: seq<string>) returns (r: Result<seq<string>>)
    ensures r.Ok? <==> targets != [] && forall t :: t in targets ==> !Blank(t)
    ensures r.Err? ==> r.error == InvalidPlan
    ensures r.Ok? ==> r.value != [] && Ascending(r.value) && forall t :: t in r.value <==> t in targets
  {
    if targets == [] {
      return Err(InvalidPlan);
    }
    var seen: set<string> := {};
    var distinct: seq<string> := [];
    for i := 0 to |targets|
      invariant seen == set t | t in targets[..i]
      invariant forall t :: t in distinct <==> t in seen
      invariant forall t :: t in targets[..i] ==> !Blank(t)
      invariant forall j, k :: 0 <= j < k < |distinct| ==> distinct[j] != distinct[k]
    {
      assert targets[..i + 1] == targets[..i] + [targets[i]];
      if Blank(targets[i]) {
        assert targets[i] in targets;
        return Err(InvalidPlan);
      }
      if targets[i] !in seen {
        seen := seen + {targets[i]};
        distinct := distinct + [targets[i]];
      }
    }
    assert targets[..|targets|] == targets;
    var sorted: seq<string> := [];
    for i := 0 to |distinct|
      invariant Ascending(sorted)
      invariant forall t :: t in sorted <==> t in distinct[..i]
    {
      assert distinct[..i + 1] == distinct[..i] + [distinct[i]];
      sorted := Insert(sorted, distinct[i]);
    }
    assert distinct[..|distinct|] == distinct;
    assert targets[0] in sorted;
    return Ok(sorted);
  }

  // ----- The methods -----

  method LeastLoaded(targets: seq<string>, loads: map<string, int>) returns (s: string)
    requires Loaded(targets, loads)
    ensures s == Least(targets, loads, |targets|)
    ensures s in targets && forall t :: t in targets ==> loads[s] <= loads[t]
  {
    s := targets[0];
    for i := 1 to |targets|
      invariant s == Least(targets, loads, i)
    {
      if loads[targets[i]] < loads[s] {
        s := targets[i];
      }
    }
  }

  method MostLoaded(targets: seq<string>, loads: map<string, int>) returns (s: string)
    requires Loaded(targets, loads)
    ensures s == Most(targets, loads, |targets|)
    ensures s in targets && forall t :: t in targets ==> loads[s] >= loads[t]
  {
    s := targets[0];
    for i := 1 to |targets|
      invariant s == Most(targets, loads, i)
    {
      if loads[targets[i]] > loads[s] {
        s := targets[i];
      }
    }
  }

  method NextMovable(keys: seq<Key>, moved: set<Key>) returns (r: Option<Key>)
    ensures r == FirstMovable(keys, moved)
  {
    for i := 0 to |keys|
      invariant FirstMovable(keys, moved) == FirstMovable(keys[i..], moved)
    {
      if keys[i] !in moved {
        return Some(keys[i]);
      }
      assert keys[i..][1..] == keys[i + 1..];
    }
    return None;
  }

  method Plan(docs: seq<Document>, targetHolders: seq<string>, promote: bool, maxMoves: int)
    returns (r: Result<(seq<Move>, seq<Skip>)>)
    ensures r.Ok? <==> maxMoves >= 0 && targetHolders != [] && forall t :: t in targetHolders ==> !Blank(t)
    ensures r.Err? ==> r.error == InvalidPlan
    ensures r.Ok? ==> exists targets: seq<string> ::
      && targets != [] && Ascending(targets) && (forall t :: t in targets <==> t in targetHolders)
      && r.value.0 == Planned(docs, targets, promote, maxMoves).moves
      && r.value.1 == Planned(docs, targets, promote, maxMoves).skipped
  {
    hide Assign, Ascending, Shed;
    if maxMoves < 0 {
      return Err(InvalidPlan);
    }
    var normalized := NormalizeTargets(targetHolders);
    if normalized.Err? {
      return Err(InvalidPlan);
    }
    var targets := normalized.value;
    var l := Fresh(targets);
    for i := 0 to |docs|
      invariant l == AssignAll(docs, i, targets, promote, maxMoves)
    {
      l := AssignOne(l, docs[i], targets, promote, maxMoves);
    }
    var more := true;
    while more
      invariant Loaded(targets, l.loads)
      invariant Planned(docs, targets, promote, maxMoves) == ShedAll(l, targets, maxMoves)
      invariant !more ==> Planned(docs, targets, promote, maxMoves) == l
      decreases more, Movable(l)
    {
      var s := ShedOne(l, targets, maxMoves);
      if s.None? {
        more := false;
      } else {
        ShedShrinks(l, targets, maxMoves);
        l := s.value;
      }
    }
    return Ok((l.moves, l.skipped));
  }

  method AssignOne(l: Ledger, d: Document, targets: seq<string>, promote: bool, maxMoves: int) returns (r: Ledger)
    requires Loaded(targets, l.loads)
    ensures r == Assign(l, d, targets, promote, maxMoves)
  {
    if !ValidKey(d.key) {
      return Skipped(l, d.key, InvalidDocument);
    }
    if !d.answer.Owned? {
      if d.answer.Missing? && promote && !LimitReached(maxMoves, |l.moves|) {
        var target := LeastLoaded(targets, l.loads);
        return Place(l, Move(d.key, "", target, OwnerMissing));
      }
      return Skipped(l, d.key, OwnerLookupFailed);
    }
    var owner := d.answer.node;
    if owner !in targets {
      if LimitReached(maxMoves, |l.moves|) {
        return Skipped(l, d.key, MaxMovesReached);
      }
      var target := LeastLoaded(targets, l.loads);
      return Place(l, Move(d.key, owner, target, OwnerOutsideTargets));
    }
    return Own(l, owner, d.key);
  }

  method ShedOne(l: Ledger, targets: seq<string>, maxMoves: int) returns (r: Option<Ledger>)
    requires Loaded(targets, l.loads)
    ensures r == Shed(l, targets, maxMoves)
  {
    if LimitReached(maxMoves, |l.moves|) {
      return None;
    }
    var from := MostLoaded(targets, l.loads);
    var to := LeastLoaded(targets, l.loads);
    if from == to || l.loads[from] - l.loads[to] <= 1 {
      return None;
    }
    var key := NextMovable(OwnedBy(l, from), l.moved);
    if key.None? {
      return None;
    }
    return Some(Place(l.(loads := l.loads[from := l.loads[from] - 1]), Move(key.value, from, to, LoadShedding)));
  }

  // ----- Counting -----

  /** How many of the keys have not been moved. */
  function Rest(keys: seq<Key>, moved: set<Key>): (r: nat)
    ensures r > 0 ==> exists k :: k in keys && k !in moved
  {
    if keys == [] then 0 else
      var last := keys[|keys| - 1];
      Rest(keys[..|keys| - 1], moved) + if last in moved then 0 else 1
  }

  /** How many moves a target received, in load shedding or before it. */
  function Received(moves: seq<Move>, t: string, shed: bool): nat {
    if moves == [] then 0 else
      var last := moves[|moves| - 1];
      Received(moves[..|moves| - 1], t, shed) + if last.to == t && (last.reason == LoadShedding) == shed then 1 else 0
  }

  /** How many moves a target gave in load shedding. */
  function Gave(moves: seq<Move>, t: string): nat {
    if moves == [] then 0 else
      var last := moves[|moves| - 1];
      Gave(moves[..|moves| - 1], t) + if last.from == t && last.reason == LoadShedding then 1 else 0
  }

  predicate NoDup(keys: seq<Key>) {
    forall i, j :: 0 <= i < j < |keys| ==> keys[i] != keys[j]
  }

  lemma {:induction false} RestMoved(keys: seq<Key>, moved: set<Key>, key: Key)
    requires NoDup(keys) && key !in moved
    ensures Rest(keys, moved + {key}) == Rest(keys, moved) - if key in keys then 1 else 0
  {
    if keys != [] {
      var init, last := keys[..|keys| - 1], keys[|keys| - 1];
      RestMoved(init, moved, key);
      assert keys == init + [last];
      assert key in keys <==> key in init || key == last;
      assert key in init ==> key != last;
    }
  }

  lemma ReceivedOne(moves: seq<Move>, m: Move, t: string, shed: bool)
    ensures Received(moves + [m], t, shed)
         == Received(moves, t, shed) + if m.to == t && (m.reason == LoadShedding) == shed then 1 else 0
    ensures Gave(moves + [m], t) == Gave(moves, t) + if m.from == t && m.reason == LoadShedding then 1 else 0
  {
    assert (moves + [m])[..|moves|] == moves;
  }

  lemma RestOne(keys: seq<Key>, moved: set<Key>, key: Key)
    ensures Rest(keys + [key], moved) == Rest(keys, moved) + if key in moved then 0 else 1
  {
    assert (keys + [key])[..|keys|] == keys;
  }

  /** Who holds a document once the moves are done, in their order. */
  function Holder(d: Document, moves: seq<Move>): Option<string> {
    if moves == [] then (if ValidKey(d.key) && d.answer.Owned? then Some(d.answer.node) else None)
    else if moves[|moves| - 1].key == d.key then Some(moves[|moves| - 1].to)
    else Holder(d, moves[..|moves| - 1])
  }

  /** How many of the n first documents a node holds once the moves are done. */
  function Held(docs: seq<Document>, n: nat, moves: seq<Move>, t: string): nat
    requires n <= |docs|
  {
    if n == 0 then 0 else Held(docs, n - 1, moves, t) + if Holder(docs[n - 1], moves) == Some(t) then 1 else 0
  }

  predicate NoneTwice(docs: seq<Document>) {
    forall i, j :: 0 <= i < j < |docs| ==> docs[i].key != docs[j].key
  }

  lemma HolderOne(d: Document, moves: seq<Move>, m: Move)
    ensures Holder(d, moves + [m]) == if m.key == d.key then Some(m.to) else Holder(d, moves)
  {
    assert (moves + [m])[..|moves|] == moves;
  }

  /** One more move changes the count only through the document it moves. */
  lemma {:induction false} HeldOne(docs: seq<Document>, n: nat, moves: seq<Move>, m: Move, t: string)
    requires n <= |docs| && NoneTwice(docs)
    ensures (forall i :: 0 <= i < n ==> docs[i].key != m.key)
         ==> Held(docs, n, moves + [m], t) == Held(docs, n, moves, t)
    ensures forall i :: 0 <= i < n && docs[i].key == m.key ==>
              Held(docs, n, moves + [m], t) == Held(docs, n, moves, t) + (if m.to == t then 1 else 0)
                                               - (if Holder(docs[i], moves) == Some(t) then 1 else 0)
  {
    if n > 0 {
      HeldOne(docs, n - 1, moves, m, t);
      HolderOne(docs[n - 1], moves, m);
    }
  }

  lemma {:induction false} HolderUnmoved(d: Document, moves: seq<Move>)
    requires forall i :: 0 <= i < |moves| ==> moves[i].key != d.key
    ensures Holder(d, moves) == if ValidKey(d.key) && d.answer.Owned? then Some(d.answer.node) else None
  {
    if moves != [] {
      HolderUnmoved(d, moves[..|moves| - 1]);
    }
  }

  // ----- What both phases keep -----

  /** One of the n first documents has this valid key and this owner. */
  ghost predicate Answered(docs: seq<Document>, n: nat, k: Key, t: string)
    requires n <= |docs|
  {
    ValidKey(k) && exists i :: 0 <= i < n && docs[i].key == k && docs[i].answer == Owned(t)
  }

  /** Every key in the ledger comes from one of the n first documents. */
  ghost predicate Recorded(l: Ledger, docs: seq<Document>, n: nat)
    requires n <= |docs|
  {
    && (forall i :: 0 <= i < |l.moves| ==> l.moves[i].key in l.moved)
    && (forall k :: k in l.moved ==> exists i :: 0 <= i < n && docs[i].key == k)
    && (forall t, j :: 0 <= j < |OwnedBy(l, t)| ==> Answered(docs, n, OwnedBy(l, t)[j], t))
    && (forall t :: NoDup(OwnedBy(l, t)))
  }

  predicate Once(moves: seq<Move>) {
    forall i, j :: 0 <= i < j < |moves| ==> moves[i].key != moves[j].key
  }

  /** A load is what a target still owns plus what it received; it is also the
      number of documents the target holds after the moves. */
  ghost predicate Books(l: Ledger, targets: seq<string>, docs: seq<Document>, n: nat)
    requires n <= |docs|
  {
    && Loaded(targets, l.loads)
    && forall t :: t in targets ==>
         && l.loads[t] == Rest(OwnedBy(l, t), l.moved) + Received(l.moves, t, false) + Received(l.moves, t, true)
         && l.loads[t] == Held(docs, n, l.moves, t)
  }

  /** Whoever received is among the lightest, whoever gave among the heaviest. */
  ghost predicate FairTo(l: Ledger, targets: seq<string>, t: string)
    requires Loaded(targets, l.loads) && t in targets
  {
    && (Gave(l.moves, t) == 0 || Received(l.moves, t, true) == 0)
    && forall u :: u in targets ==>
         && Received(l.moves, t, false) <= l.loads[u] + 1
         && (Received(l.moves, t, true) > 0 ==> l.loads[t] <= l.loads[u] + 1)
         && (Gave(l.moves, t) > 0 ==> l.loads[u] <= l.loads[t] + 1)
  }

  ghost predicate Fair(l: Ledger, targets: seq<string>)
    requires Loaded(targets, l.loads)
  {
    forall t :: t in targets ==> FairTo(l, targets, t)
  }

  /** Nothing has been shed yet. */
  ghost predicate Unshed(l: Ledger) {
    forall t :: Gave(l.moves, t) == 0 && Received(l.moves, t, true) == 0
  }

  ghost predicate Good(l: Ledger, targets: seq<string>, docs: seq<Document>, n: nat)
    requires n <= |docs|
  {
    Books(l, targets, docs, n) && Recorded(l, docs, n) && Fair(l, targets) && Once(l.moves)
  }

  lemma LeastIsLeast(targets: seq<string>, loads: map<string, int>)
    requires Loaded(targets, loads)
    ensures forall t :: t in targets ==> loads[Least(targets, loads, |targets|)] <= loads[t]
    ensures forall t :: t in targets ==> loads[Most(targets, loads, |targets|)] >= loads[t]
  {
  }

  /** The key of the next document is new to the ledger. */
  lemma NewKey(l: Ledger, docs: seq<Document>, n: nat)
    requires NoneTwice(docs) && n < |docs| && Recorded(l, docs, n)
    ensures docs[n].key !in l.moved
    ensures forall t :: docs[n].key !in OwnedBy(l, t)
    ensures forall i :: 0 <= i < |l.moves| ==> l.moves[i].key != docs[n].key
    ensures forall i :: 0 <= i < n ==> docs[i].key != docs[n].key
  {
  }

  // ----- The first phase -----

  lemma OwnAnswered(l: Ledger, docs: seq<Document>, n: nat, t: string, j: nat)
    requires n < |docs| && ValidKey(docs[n].key) && docs[n].answer.Owned? && docs[n].answer.node in l.loads
    requires forall u, i :: 0 <= i < |OwnedBy(l, u)| ==> Answered(docs, n, OwnedBy(l, u)[i], u)
    requires j < |OwnedBy(Own(l, docs[n].answer.node, docs[n].key), t)|
    ensures Answered(docs, n + 1, OwnedBy(Own(l, docs[n].answer.node, docs[n].key), t)[j], t)
  {
    hide ValidKey;
    var r := Own(l, docs[n].answer.node, docs[n].key);
    if t == docs[n].answer.node && j == |OwnedBy(l, t)| {
      assert OwnedBy(r, t)[j] == docs[n].key;
    } else {
      assert OwnedBy(r, t)[j] == OwnedBy(l, t)[j];
      assert Answered(docs, n, OwnedBy(l, t)[j], t);
    }
  }

  lemma OwnKnown(l: Ledger, docs: seq<Document>, n: nat)
    requires NoneTwice(docs) && n < |docs| && Recorded(l, docs, n)
    requires ValidKey(docs[n].key) && docs[n].answer.Owned? && docs[n].answer.node in l.loads
    ensures Recorded(Own(l, docs[n].answer.node, docs[n].key), docs, n + 1)
  {
    NewKey(l, docs, n);
    var r := Own(l, docs[n].answer.node, docs[n].key);
    forall t, j | 0 <= j < |OwnedBy(r, t)|
      ensures Answered(docs, n + 1, OwnedBy(r, t)[j], t)
    {
      OwnAnswered(l, docs, n, t, j);
    }
    forall t
      ensures NoDup(OwnedBy(r, t))
    {
      assert NoDup(OwnedBy(l, t));
    }
  }

  lemma OwnFigures(l: Ledger, docs: seq<Document>, n: nat, t: string)
    requires NoneTwice(docs) && n < |docs| && Recorded(l, docs, n)
    requires ValidKey(docs[n].key) && docs[n].answer.Owned? && docs[n].answer.node in l.loads
    ensures var r, step := Own(l, docs[n].answer.node, docs[n].key), if t == docs[n].answer.node then 1 else 0;
      && Rest(OwnedBy(r, t), r.moved) == Rest(OwnedBy(l, t), l.moved) + step
      && Held(docs, n + 1, r.moves, t) == Held(docs, n, l.moves, t) + step
  {
    NewKey(l, docs, n);
    hide Recorded, NoneTwice;
    HolderUnmoved(docs[n], l.moves);
    hide Holder, ValidKey;
    RestOne(OwnedBy(l, t), l.moved, docs[n].key);
    var node, k := docs[n].answer.node, docs[n].key;
    assert OwnedBy(Own(l, node, k), t) == if t == node then OwnedBy(l, t) + [k] else OwnedBy(l, t);
  }

  lemma OwnGood(l: Ledger, docs: seq<Document>, n: nat, targets: seq<string>)
    requires NoneTwice(docs) && n < |docs| && Good(l, targets, docs, n) && Unshed(l)
    requires ValidKey(docs[n].key) && docs[n].answer.Owned? && docs[n].answer.node in targets
    ensures Good(Own(l, docs[n].answer.node, docs[n].key), targets, docs, n + 1)
  {
    hide Recorded, Once, Rest, Received, Gave, Held, OwnedBy, NoneTwice;
    forall t {
      OwnFigures(l, docs, n, t);
    }
    OwnKnown(l, docs, n);
  }

  lemma SkippedGood(l: Ledger, docs: seq<Document>, n: nat, targets: seq<string>, reason: SkipReason)
    requires NoneTwice(docs) && n < |docs| && Good(l, targets, docs, n) && Unshed(l)
    requires !(ValidKey(docs[n].key) && docs[n].answer.Owned? && docs[n].answer.node in targets)
    ensures Good(Skipped(l, docs[n].key, reason), targets, docs, n + 1)
  {
    hide Rest, Received, Gave, NoDup, Once;
    NewKey(l, docs, n);
    HolderUnmoved(docs[n], l.moves);
    var r := Skipped(l, docs[n].key, reason);
    assert forall t :: OwnedBy(r, t) == OwnedBy(l, t);
  }

  lemma PlaceKnown(l: Ledger, docs: seq<Document>, n: nat, m: Move)
    requires NoneTwice(docs) && n < |docs| && Recorded(l, docs, n) && Once(l.moves)
    requires m.key == docs[n].key && m.to in l.loads
    ensures Recorded(Place(l, m), docs, n + 1) && Once(Place(l, m).moves)
  {
    hide NoDup;
    NewKey(l, docs, n);
    var r := Place(l, m);
    assert forall t :: OwnedBy(r, t) == OwnedBy(l, t);
  }

  lemma PlaceFigures(l: Ledger, docs: seq<Document>, n: nat, m: Move, t: string)
    requires NoneTwice(docs) && n < |docs| && Recorded(l, docs, n)
    requires m.key == docs[n].key && m.to in l.loads && m.reason != LoadShedding
    ensures var r, step := Place(l, m), if t == m.to then 1 else 0;
      && Rest(OwnedBy(r, t), r.moved) == Rest(OwnedBy(l, t), l.moved)
      && Received(r.moves, t, false) == Received(l.moves, t, false) + step
      && Received(r.moves, t, true) == Received(l.moves, t, true) && Gave(r.moves, t) == Gave(l.moves, t)
      && Held(docs, n + 1, r.moves, t) == Held(docs, n, l.moves, t) + step
  {
    NewKey(l, docs, n);
    ReceivedOne(l.moves, m, t, false);
    ReceivedOne(l.moves, m, t, true);
    RestMoved(OwnedBy(l, t), l.moved, m.key);
    HeldOne(docs, n, l.moves, m, t);
    HolderOne(docs[n], l.moves, m);
  }

  lemma PlaceBooks(l: Ledger, docs: seq<Document>, n: nat, targets: seq<string>, m: Move)
    requires NoneTwice(docs) && n < |docs| && Recorded(l, docs, n) && Books(l, targets, docs, n)
    requires m.key == docs[n].key && m.to in targets && m.reason != LoadShedding
    ensures Books(Place(l, m), targets, docs, n + 1)
  {
    hide Recorded, Rest, Received, Gave, Held, OwnedBy, NoneTwice;
    forall t {
      PlaceFigures(l, docs, n, m, t);
    }
  }

  lemma PlaceFair(l: Ledger, docs: seq<Document>, n: nat, targets: seq<string>, m: Move)
    requires NoneTwice(docs) && n < |docs| && Good(l, targets, docs, n) && Unshed(l)
    requires m.key == docs[n].key && m.to == Least(targets, l.loads, |targets|) && m.reason != LoadShedding
    ensures Loaded(targets, Place(l, m).loads) && Fair(Place(l, m), targets) && Unshed(Place(l, m))
  {
    hide Recorded, Once, Rest, Received, Gave, Held, OwnedBy, NoneTwice, Least;
    LeastIsLeast(targets, l.loads);
    forall t
      ensures Gave(Place(l, m).moves, t) == 0 && Received(Place(l, m).moves, t, true) == 0
      ensures t in targets ==> FairTo(Place(l, m), targets, t)
    {
      PlaceFigures(l, docs, n, m, t);
      assert t in targets ==> FairTo(l, targets, t);
    }
  }

  lemma PlaceGood(l: Ledger, docs: seq<Document>, n: nat, targets: seq<string>, m: Move)
    requires NoneTwice(docs) && n < |docs| && Good(l, targets, docs, n) && Unshed(l)
    requires m.key == docs[n].key && m.to == Least(targets, l.loads, |targets|) && m.reason != LoadShedding
    ensures Good(Place(l, m), targets, docs, n + 1) && Unshed(Place(l, m))
  {
    hide Recorded, Once, Fair, Unshed, NoneTwice;
    PlaceKnown(l, docs, n, m);
    PlaceBooks(l, docs, n, targets, m);
    PlaceFair(l, docs, n, targets, m);
  }

  lemma AssignGood(l: Ledger, docs: seq<Document>, n: nat, targets: seq<string>, promote: bool, maxMoves: int)
    requires NoneTwice(docs) && n < |docs| && Good(l, targets, docs, n) && Unshed(l)
    ensures Good(Assign(l, docs[n], targets, promote, maxMoves), targets, docs, n + 1)
    ensures Unshed(Assign(l, docs[n], targets, promote, maxMoves))
  {
    hide Recorded, Fair, Once;
    var d := docs[n];
    if ValidKey(d.key) && d.answer.Owned? && d.answer.node in targets {
      OwnGood(l, docs, n, targets);
    } else if ValidKey(d.key) && d.answer.Owned? && !LimitReached(maxMoves, |l.moves|) {
      PlaceGood(l, docs, n, targets, Move(d.key, d.answer.node, Least(targets, l.loads, |targets|),
          OwnerOutsideTargets));
    } else if ValidKey(d.key) && d.answer.Missing? && promote && !LimitReached(maxMoves, |l.moves|) {
      PlaceGood(l, docs, n, targets, Move(d.key, "", Least(targets, l.loads, |targets|), OwnerMissing));
    } else {
      SkippedGood(l, docs, n, targets, InvalidDocument);
      SkippedGood(l, docs, n, targets, OwnerLookupFailed);
      SkippedGood(l, docs, n, targets, MaxMovesReached);
    }
  }

  lemma FreshGood(targets: seq<string>, docs: seq<Document>)
    requires targets != []
    ensures Good(Fresh(targets), targets, docs, 0) && Unshed(Fresh(targets))
  {
  }

  lemma {:induction false} AssignAllGood(docs: seq<Document>, n: nat, targets: seq<string>, promote: bool,
        maxMoves: int)
    requires NoneTwice(docs) && n <= |docs| && targets != []
    ensures Good(AssignAll(docs, n, targets, promote, maxMoves), targets, docs, n)
    ensures Unshed(AssignAll(docs, n, targets, promote, maxMoves))
  {
    hide Good, Unshed, Assign, NoneTwice, Fresh;
    if n == 0 {
      FreshGood(targets, docs);
    } else {
      AssignAllGood(docs, n - 1, targets, promote, maxMoves);
      AssignGood(AssignAll(docs, n - 1, targets, promote, maxMoves), docs, n - 1, targets, promote, maxMoves);
    }
  }

  // ----- The second phase -----

  predicate Even(targets: seq<string>, loads: map<string, int>)
    requires Loaded(targets, loads)
  {
    forall t, u :: t in targets && u in targets ==> loads[t] <= loads[u] + 1
  }

  /** An uneven plan always has a document to move. */
  lemma NeverStalls(l: Ledger, targets: seq<string>, docs: seq<Document>, maxMoves: int)
    requires Good(l, targets, docs, |docs|)
    requires !(0 < maxMoves <= |l.moves|) && !Even(targets, l.loads)
    ensures Shed(l, targets, maxMoves).Some?
  {
    hide Recorded, Once, Received, Gave, Held, OwnedBy;
    var from, to := Most(targets, l.loads, |targets|), Least(targets, l.loads, |targets|);
    LeastIsLeast(targets, l.loads);
    assert FairTo(l, targets, from);
    assert Received(l.moves, from, false) <= l.loads[to] + 1;
  }

  lemma OneOwner(l: Ledger, docs: seq<Document>, key: Key, from: string, t: string)
    requires NoneTwice(docs) && Recorded(l, docs, |docs|) && key in OwnedBy(l, from)
    ensures key in OwnedBy(l, t) <==> t == from
  {
    hide NoDup;
  }

  lemma ShedKnown(l: Ledger, docs: seq<Document>, m: Move)
    requires Recorded(l, docs, |docs|) && Once(l.moves)
    requires m.key in OwnedBy(l, m.from) && m.key !in l.moved && m.from in l.loads && m.to in l.loads
    ensures var r := Place(l.(loads := l.loads[m.from := l.loads[m.from] - 1]), m);
            Recorded(r, docs, |docs|) && Once(r.moves)
  {
    hide NoDup;
    var r := Place(l.(loads := l.loads[m.from := l.loads[m.from] - 1]), m);
    assert forall t :: OwnedBy(r, t) == OwnedBy(l, t);
  }

  lemma ShedHeld(l: Ledger, docs: seq<Document>, m: Move, t: string)
    requires NoneTwice(docs) && Recorded(l, docs, |docs|)
    requires m.key in OwnedBy(l, m.from) && m.key !in l.moved
    ensures Held(docs, |docs|, l.moves + [m], t)
         == Held(docs, |docs|, l.moves, t) + (if t == m.to then 1 else 0) - (if t == m.from then 1 else 0)
  {
    hide NoDup, Received, Gave, Rest, Held, Holder;
    assert Answered(docs, |docs|, m.key, m.from);
    var i :| 0 <= i < |docs| && docs[i].key == m.key && docs[i].answer == Owned(m.from);
    HolderUnmoved(docs[i], l.moves);
    HeldOne(docs, |docs|, l.moves, m, t);
  }

  lemma ShedFigures(l: Ledger, docs: seq<Document>, m: Move, t: string)
    requires NoneTwice(docs) && Recorded(l, docs, |docs|) && m.reason == LoadShedding
    requires m.key in OwnedBy(l, m.from) && m.key !in l.moved && m.from in l.loads && m.to in l.loads
    ensures var r := Place(l.(loads := l.loads[m.from := l.loads[m.from] - 1]), m);
      var took, gave := if t == m.to then 1 else 0, if t == m.from then 1 else 0;
      && Rest(OwnedBy(r, t), r.moved) == Rest(OwnedBy(l, t), l.moved) - gave
      && Received(r.moves, t, false) == Received(l.moves, t, false)
      && Received(r.moves, t, true) == Received(l.moves, t, true) + took && Gave(r.moves, t) == Gave(l.moves, t) + gave
      && Held(docs, |docs|, r.moves, t) == Held(docs, |docs|, l.moves, t) + took - gave
  {
    assert NoDup(OwnedBy(l, t));
    hide Received, Gave, Rest, Held, NoDup, NoneTwice, Answered;
    ReceivedOne(l.moves, m, t, false);
    ReceivedOne(l.moves, m, t, true);
    RestMoved(OwnedBy(l, t), l.moved, m.key);
    OneOwner(l, docs, m.key, m.from, t);
    ShedHeld(l, docs, m, t);
  }

  lemma ShedBooks(l: Ledger, docs: seq<Document>, targets: seq<string>, m: Move)
    requires NoneTwice(docs) && Recorded(l, docs, |docs|) && Books(l, targets, docs, |docs|)
    requires m.key in OwnedBy(l, m.from) && m.key !in l.moved && m.reason == LoadShedding
    requires m.from in targets && m.to in targets
    ensures Books(Place(l.(loads := l.loads[m.from := l.loads[m.from] - 1]), m), targets, docs, |docs|)
  {
    hide Recorded, Rest, Received, Gave, Held, OwnedBy, NoneTwice;
    forall t {
      ShedFigures(l, docs, m, t);
    }
  }

  lemma ShedFair(l: Ledger, docs: seq<Document>, targets: seq<string>, m: Move)
    requires NoneTwice(docs) && Recorded(l, docs, |docs|) && Books(l, targets, docs, |docs|) && Fair(l, targets)
    requires m.key in OwnedBy(l, m.from) && m.key !in l.moved && m.reason == LoadShedding
    requires m.from in targets && m.to in targets && l.loads[m.from] - l.loads[m.to] >= 2
    requires forall t :: t in targets ==> l.loads[m.to] <= l.loads[t] <= l.loads[m.from]
    ensures var r := Place(l.(loads := l.loads[m.from := l.loads[m.from] - 1]), m);
            Loaded(targets, r.loads) && Fair(r, targets)
  {
    hide Recorded, Rest, Received, Gave, Held, OwnedBy, NoneTwice, NoDup;
    var r := Place(l.(loads := l.loads[m.from := l.loads[m.from] - 1]), m);
    forall t | t in targets
      ensures FairTo(r, targets, t)
    {
      ShedFigures(l, docs, m, t);
      assert FairTo(l, targets, t) && FairTo(l, targets, m.from) && FairTo(l, targets, m.to);
    }
  }

  lemma ShedGood(l: Ledger, targets: seq<string>, docs: seq<Document>, maxMoves: int)
    requires NoneTwice(docs) && Good(l, targets, docs, |docs|) && Shed(l, targets, maxMoves).Some?
    ensures Good(Shed(l, targets, maxMoves).value, targets, docs, |docs|)
  {
    hide Recorded, Once, Fair, OwnedBy, NoneTwice, Least, Most, Rest, Received, Held;
    var from, to := Most(targets, l.loads, |targets|), Least(targets, l.loads, |targets|);
    var m := Move(FirstMovable(OwnedBy(l, from), l.moved).value, from, to, LoadShedding);
    LeastIsLeast(targets, l.loads);
    ShedKnown(l, docs, m);
    ShedBooks(l, docs, targets, m);
    ShedFair(l, docs, targets, m);
  }

  lemma {:induction false} ShedAllGood(l: Ledger, targets: seq<string>, docs: seq<Document>, maxMoves: int)
    requires NoneTwice(docs) && Good(l, targets, docs, |docs|)
    ensures Good(ShedAll(l, targets, maxMoves), targets, docs, |docs|)
    ensures var r := ShedAll(l, targets, maxMoves); 0 < maxMoves <= |r.moves| || Even(targets, r.loads)
    decreases Movable(l)
  {
    hide Recorded, Fair, Once, NoneTwice, Even, Shed;
    if Shed(l, targets, maxMoves).Some? {
      ShedShrinks(l, targets, maxMoves);
      ShedGood(l, targets, docs, maxMoves);
      ShedAllGood(Shed(l, targets, maxMoves).value, targets, docs, maxMoves);
    } else if !LimitReached(maxMoves, |l.moves|) && !Even(targets, l.loads) {
      NeverStalls(l, targets, docs, maxMoves);
    }
  }

  // ----- What the plan promises -----

  /** Planning over distinct documents moves none twice, lets no target both
      give and receive, and ends even unless it used every move it was allowed. */
  lemma PlanBalances(docs: seq<Document>, targets: seq<string>, promote: bool, maxMoves: int)
    requires NoneTwice(docs) && targets != []
    ensures var moves := Planned(docs, targets, promote, maxMoves).moves;
      && (0 < maxMoves <= |moves| || forall t, u :: t in targets && u in targets ==>
            Held(docs, |docs|, moves, t) <= Held(docs, |docs|, moves, u) + 1)
      && Once(moves)
      && (forall t :: t in targets ==> Gave(moves, t) == 0 || Received(moves, t, true) == 0)
  {
    hide Recorded, Rest, Received, Gave, Held, OwnedBy, NoneTwice, Shed, Assign, Once;
    AssignAllGood(docs, |docs|, targets, promote, maxMoves);
    ShedAllGood(AssignAll(docs, |docs|, targets, promote, maxMoves), targets, docs, maxMoves);
  }

  /** Why a document may be moved. */
  predicate Justified(m: Move, d: Document, targets: seq<string>, promote: bool) {
    && m.key == d.key && ValidKey(d.key) && m.to in targets
    && match m.reason {
         case OwnerMissing => promote && d.answer.Missing? && m.from == ""
         case OwnerOutsideTargets => d.answer == Owned(m.from) && m.from !in targets
         case LoadShedding => d.answer == Owned(m.from) && m.from in targets && m.from != m.to
       }
  }

  /** One of the n first documents justifies the move. */
  ghost predicate Explained(m: Move, docs: seq<Document>, n: nat, targets: seq<string>, promote: bool)
    requires n <= |docs|
  {
    m.to in targets && exists j :: 0 <= j < n && Justified(m, docs[j], targets, promote)
  }

  /** Why a document may be skipped, `used` moves having been planned. */
  predicate Excused(s: Skip, d: Document, targets: seq<string>, promote: bool, maxMoves: int, used: nat) {
    && s.key == d.key
    && match s.reason {
         case InvalidDocument => !ValidKey(d.key)
         case OwnerLookupFailed => d.answer.Failed? || (d.answer.Missing? && (!promote || 0 < maxMoves <= used))
         case MaxMovesReached => 0 < maxMoves <= used && d.answer.Owned? && d.answer.node !in targets
       }
  }

  /** A document ends on a target, or was skipped for a reason that fits it. */
  predicate Settled(d: Document, l: Ledger, targets: seq<string>, promote: bool, maxMoves: int) {
    || (Holder(d, l.moves).Some? && Holder(d, l.moves).value in targets)
    || exists i :: 0 <= i < |l.skipped| && Excused(l.skipped[i], d, targets, promote, maxMoves, |l.moves|)
  }

  ghost predicate Orderly(l: Ledger, docs: seq<Document>, n: nat, targets: seq<string>, promote: bool, maxMoves: int)
    requires n <= |docs|
  {
    && (forall t :: OwnedBy(l, t) != [] ==> t in targets)
    && (forall t, j :: 0 <= j < |OwnedBy(l, t)| ==> Answered(docs, n, OwnedBy(l, t)[j], t))
    && (forall i :: 0 <= i < |l.moves| ==> Explained(l.moves[i], docs, n, targets, promote))
    && (forall i :: 0 <= i < n ==> Settled(docs[i], l, targets, promote, maxMoves))
    && (maxMoves > 0 ==> |l.moves| <= maxMoves)
  }

  lemma SettledStays(d: Document, l: Ledger, r: Ledger, targets: seq<string>, promote: bool, maxMoves: int)
    requires Settled(d, l, targets, promote, maxMoves)
    requires r.moves == l.moves || (|r.moves| > 0 && r.moves[..|r.moves| - 1] == l.moves
          && r.moves[|r.moves| - 1].to in targets)
    requires l.skipped <= r.skipped
    ensures Settled(d, r, targets, promote, maxMoves)
  {
  }

  /** What one of the first documents accounts for, one of more documents does. */
  lemma MoreDocuments(l: Ledger, docs: seq<Document>, n: nat, next: nat, targets: seq<string>, promote: bool,
        maxMoves: int)
    requires n <= next <= |docs| && Orderly(l, docs, n, targets, promote, maxMoves)
    ensures forall i :: 0 <= i < |l.moves| ==> Explained(l.moves[i], docs, next, targets, promote)
    ensures forall t, j :: 0 <= j < |OwnedBy(l, t)| ==> Answered(docs, next, OwnedBy(l, t)[j], t)
  {
    hide Justified, Settled;
    forall i | 0 <= i < |l.moves|
      ensures Explained(l.moves[i], docs, next, targets, promote)
    {
      assert Explained(l.moves[i], docs, n, targets, promote);
    }
    forall t, j | 0 <= j < |OwnedBy(l, t)|
      ensures Answered(docs, next, OwnedBy(l, t)[j], t)
    {
      assert Answered(docs, n, OwnedBy(l, t)[j], t);
    }
  }

  lemma OrderlyMove(l: Ledger, r: Ledger, m: Move, docs: seq<Document>, n: nat, next: nat, targets: seq<string>,
                    promote: bool, maxMoves: int, j: nat)
    requires n <= next <= |docs| && Orderly(l, docs, n, targets, promote, maxMoves)
    requires r.moves == l.moves + [m] && r.skipped == l.skipped && r.owned == l.owned
    requires j < next && Justified(m, docs[j], targets, promote) && !LimitReached(maxMoves, |l.moves|)
    requires next == n || (next == n + 1 && j == n)
    ensures Orderly(r, docs, next, targets, promote, maxMoves)
  {
    MoreDocuments(l, docs, n, next, targets, promote, maxMoves);
    assert Explained(m, docs, next, targets, promote) && m.key == docs[j].key;
    hide Settled, Justified, Explained, Answered;
    assert forall t :: OwnedBy(r, t) == OwnedBy(l, t);
    forall i | 0 <= i < next
      ensures Settled(docs[i], r, targets, promote, maxMoves)
    {
      if i < n {
        SettledStays(docs[i], l, r, targets, promote, maxMoves);
      } else {
        MovedSettled(docs[i], r, targets, promote, maxMoves);
      }
    }
    forall i | 0 <= i < |r.moves|
      ensures Explained(r.moves[i], docs, next, targets, promote)
    {
      assert i < |l.moves| ==> r.moves[i] == l.moves[i];
    }
  }

  lemma MovedSettled(d: Document, r: Ledger, targets: seq<string>, promote: bool, maxMoves: int)
    requires r.moves != [] && r.moves[|r.moves| - 1].key == d.key && r.moves[|r.moves| - 1].to in targets
    ensures Settled(d, r, targets, promote, maxMoves)
  {
  }

  lemma OrderlySkip(l: Ledger, reason: SkipReason, docs: seq<Document>, n: nat, targets: seq<string>,
                    promote: bool, maxMoves: int)
    requires n < |docs| && Orderly(l, docs, n, targets, promote, maxMoves)
    requires Excused(Skip(docs[n].key, reason), docs[n], targets, promote, maxMoves, |l.moves|)
    ensures Orderly(Skipped(l, docs[n].key, reason), docs, n + 1, targets, promote, maxMoves)
  {
    hide Justified;
    var r := Skipped(l, docs[n].key, reason);
    assert r.skipped[|l.skipped|] == Skip(docs[n].key, reason);
    assert Settled(docs[n], r, targets, promote, maxMoves);
    MoreDocuments(l, docs, n, n + 1, targets, promote, maxMoves);
    hide Settled, Excused, Explained, Answered;
    assert forall t :: OwnedBy(r, t) == OwnedBy(l, t);
    forall i | 0 <= i < n
      ensures Settled(docs[i], r, targets, promote, maxMoves)
    {
      SettledStays(docs[i], l, r, targets, promote, maxMoves);
    }
  }

  lemma {:induction false} HolderInTargets(d: Document, moves: seq<Move>, targets: seq<string>)
    requires ValidKey(d.key) && d.answer.Owned? && d.answer.node in targets
    requires forall i :: 0 <= i < |moves| ==> moves[i].to in targets
    ensures Holder(d, moves).Some? && Holder(d, moves).value in targets
  {
    if moves != [] {
      HolderInTargets(d, moves[..|moves| - 1], targets);
    }
  }

  lemma OwnSettled(d: Document, l: Ledger, docs: seq<Document>, n: nat, targets: seq<string>, promote: bool,
        maxMoves: int)
    requires n <= |docs| && Orderly(l, docs, n, targets, promote, maxMoves)
    requires ValidKey(d.key) && d.answer.Owned? && d.answer.node in targets
    ensures Settled(d, l, targets, promote, maxMoves)
  {
    hide Justified, Answered, Excused, OwnedBy;
    assert forall i :: 0 <= i < |l.moves| ==> Explained(l.moves[i], docs, n, targets, promote);
    HolderInTargets(d, l.moves, targets);
  }

  lemma OrderlyOwn(l: Ledger, docs: seq<Document>, n: nat, targets: seq<string>, promote: bool, maxMoves: int)
    requires n < |docs| && Orderly(l, docs, n, targets, promote, maxMoves) && Loaded(targets, l.loads)
    requires ValidKey(docs[n].key) && docs[n].answer.Owned? && docs[n].answer.node in targets
    ensures Orderly(Own(l, docs[n].answer.node, docs[n].key), docs, n + 1, targets, promote, maxMoves)
  {
    hide Settled, Explained, Answered, ValidKey;
    var r := Own(l, docs[n].answer.node, docs[n].key);
    OwnSettled(docs[n], l, docs, n, targets, promote, maxMoves);
    MoreDocuments(l, docs, n, n + 1, targets, promote, maxMoves);
    forall i | 0 <= i < n + 1
      ensures Settled(docs[i], r, targets, promote, maxMoves)
    {
      SettledStays(docs[i], l, r, targets, promote, maxMoves);
    }
    forall t, j | 0 <= j < |OwnedBy(r, t)|
      ensures Answered(docs, n + 1, OwnedBy(r, t)[j], t)
    {
      OwnAnswered(l, docs, n, t, j);
    }
  }

  lemma AssignOrderly(l: Ledger, docs: seq<Document>, n: nat, targets: seq<string>, promote: bool, maxMoves: int)
    requires n < |docs| && Orderly(l, docs, n, targets, promote, maxMoves) && Loaded(targets, l.loads)
    ensures Orderly(Assign(l, docs[n], targets, promote, maxMoves), docs, n + 1, targets, promote, maxMoves)
  {
    hide Orderly, Least;
    var d, r := docs[n], Assign(l, docs[n], targets, promote, maxMoves);
    if !ValidKey(d.key) {
      OrderlySkip(l, InvalidDocument, docs, n, targets, promote, maxMoves);
    } else if d.answer.Owned? && d.answer.node in targets {
      OrderlyOwn(l, docs, n, targets, promote, maxMoves);
    } else if r.skipped != l.skipped {
      OrderlySkip(l, if d.answer.Owned? then MaxMovesReached
          else OwnerLookupFailed, docs, n, targets, promote, maxMoves);
    } else {
      OrderlyMove(l, r, r.moves[|l.moves|], docs, n, n + 1, targets, promote, maxMoves, n);
    }
  }

  lemma FreshOrderly(docs: seq<Document>, targets: seq<string>, promote: bool, maxMoves: int)
    ensures Orderly(Fresh(targets), docs, 0, targets, promote, maxMoves)
  {
    assert forall t :: OwnedBy(Fresh(targets), t) == [];
  }

  lemma {:induction false} AssignAllOrderly(docs: seq<Document>, n: nat, targets: seq<string>, promote: bool,
        maxMoves: int)
    requires n <= |docs| && targets != []
    ensures Orderly(AssignAll(docs, n, targets, promote, maxMoves), docs, n, targets, promote, maxMoves)
  {
    hide Orderly, Assign, Loaded, Fresh;
    if n == 0 {
      FreshOrderly(docs, targets, promote, maxMoves);
    } else {
      AssignAllOrderly(docs, n - 1, targets, promote, maxMoves);
      AssignOrderly(AssignAll(docs, n - 1, targets, promote, maxMoves), docs, n - 1, targets, promote, maxMoves);
    }
  }

  lemma ShedOrderly(l: Ledger, docs: seq<Document>, targets: seq<string>, promote: bool, maxMoves: int)
    requires Loaded(targets, l.loads) && Shed(l, targets, maxMoves).Some?
    requires Orderly(l, docs, |docs|, targets, promote, maxMoves)
    ensures Orderly(Shed(l, targets, maxMoves).value, docs, |docs|, targets, promote, maxMoves)
  {
    var from, to := Most(targets, l.loads, |targets|), Least(targets, l.loads, |targets|);
    var key := FirstMovable(OwnedBy(l, from), l.moved).value;
    var k :| 0 <= k < |OwnedBy(l, from)| && OwnedBy(l, from)[k] == key;
    assert Answered(docs, |docs|, key, from);
    var j :| 0 <= j < |docs| && docs[j].key == key && docs[j].answer == Owned(from);
    hide Orderly, Most, Least, Answered;
    OrderlyMove(l, Shed(l, targets, maxMoves).value, Move(key, from, to, LoadShedding), docs, |docs|, |docs|, targets,
                promote, maxMoves, j);
  }

  lemma {:induction false} ShedAllOrderly(l: Ledger, docs: seq<Document>, targets: seq<string>, promote: bool,
        maxMoves: int)
    requires Loaded(targets, l.loads) && Orderly(l, docs, |docs|, targets, promote, maxMoves)
    ensures Orderly(ShedAll(l, targets, maxMoves), docs, |docs|, targets, promote, maxMoves)
    decreases Movable(l)
  {
    if Shed(l, targets, maxMoves).Some? {
      hide Orderly, Shed;
      ShedShrinks(l, targets, maxMoves);
      ShedOrderly(l, docs, targets, promote, maxMoves);
      ShedAllOrderly(Shed(l, targets, maxMoves).value, docs, targets, promote, maxMoves);
    }
  }

  /** One of the n first documents excuses the skip. */
  ghost predicate Excusable(s: Skip, docs: seq<Document>, n: nat, targets: seq<string>, promote: bool, maxMoves: int,
        used: nat)
    requires n <= |docs|
  {
    exists j :: 0 <= j < n && Excused(s, docs[j], targets, promote, maxMoves, used)
  }

  lemma {:induction false} SkipsExcused(docs: seq<Document>, n: nat, targets: seq<string>, promote: bool, maxMoves: int)
    requires n <= |docs| && targets != []
    ensures var l := AssignAll(docs, n, targets, promote, maxMoves);
            && |l.skipped| <= n
            && forall s :: s in l.skipped ==> Excusable(s, docs, n, targets, promote, maxMoves, |l.moves|)
  {
    if n > 0 {
      SkipsExcused(docs, n - 1, targets, promote, maxMoves);
      hide AssignAll, Least;
      AssignSkips(AssignAll(docs, n - 1, targets, promote, maxMoves), docs, n - 1, targets, promote, maxMoves);
      AssignAllStep(docs, n, targets, promote, maxMoves);
    } else {
      assert Fresh(targets).skipped == [];
    }
  }

  lemma AssignAllStep(docs: seq<Document>, n: nat, targets: seq<string>, promote: bool, maxMoves: int)
    requires 0 < n <= |docs| && targets != []
    ensures AssignAll(docs, n, targets, promote, maxMoves) ==
            Assign(AssignAll(docs, n - 1, targets, promote, maxMoves), docs[n - 1], targets, promote, maxMoves)
  {
    hide Assign;
  }

  lemma AssignSkips(l: Ledger, docs: seq<Document>, n: nat, targets: seq<string>, promote: bool, maxMoves: int)
    requires n < |docs| && Loaded(targets, l.loads)
    requires forall s :: s in l.skipped ==> Excusable(s, docs, n, targets, promote, maxMoves, |l.moves|)
    ensures var r := Assign(l, docs[n], targets, promote, maxMoves);
            && |r.skipped| <= |l.skipped| + 1
            && forall s :: s in r.skipped ==> Excusable(s, docs, n + 1, targets, promote, maxMoves, |r.moves|)
  {
    hide Least, ValidKey;
    var d, r := docs[n], Assign(l, docs[n], targets, promote, maxMoves);
    forall s | s in r.skipped
      ensures Excusable(s, docs, n + 1, targets, promote, maxMoves, |r.moves|)
    {
      if s in l.skipped {
        assert Excusable(s, docs, n, targets, promote, maxMoves, |l.moves|);
        var j :| 0 <= j < n && Excused(s, docs[j], targets, promote, maxMoves, |l.moves|);
        assert Excused(s, docs[j], targets, promote, maxMoves, |r.moves|);
      } else {
        assert Excused(s, d, targets, promote, maxMoves, |r.moves|);
      }
    }
  }

  lemma {:induction false} ShedSkipsNothing(l: Ledger, targets: seq<string>, maxMoves: int)
    requires Loaded(targets, l.loads)
    ensures ShedAll(l, targets, maxMoves).skipped == l.skipped && |ShedAll(l, targets, maxMoves).moves| >= |l.moves|
    decreases Movable(l)
  {
    if Shed(l, targets, maxMoves).Some? {
      ShedShrinks(l, targets, maxMoves);
      ShedSkipsNothing(Shed(l, targets, maxMoves).value, targets, maxMoves);
    }
  }

  /** For any documents, repeated ones too: every move is justified by its
      document, every skip is excused by its own, no document is lost, and a
      limit is never exceeded. */
  lemma PlanAccounts(docs: seq<Document>, targets: seq<string>, promote: bool, maxMoves: int)
    requires targets != []
    ensures var l := Planned(docs, targets, promote, maxMoves);
      && (forall i :: 0 <= i < |l.moves| ==> Explained(l.moves[i], docs, |docs|, targets, promote))
      && (forall i :: 0 <= i < |docs| ==> Settled(docs[i], l, targets, promote, maxMoves))
      && (forall s :: s in l.skipped ==> Excusable(s, docs, |docs|, targets, promote, maxMoves, |l.moves|))
      && |l.skipped| <= |docs|
      && (maxMoves > 0 ==> |l.moves| <= maxMoves)
  {
    hide Settled, Explained, AssignAll, ShedAll;
    var l := AssignAll(docs, |docs|, targets, promote, maxMoves);
    AssignAllOrderly(docs, |docs|, targets, promote, maxMoves);
    ShedAllOrderly(l, docs, targets, promote, maxMoves);
    SkipsExcused(docs, |docs|, targets, promote, maxMoves);
    ShedSkipsNothing(l, targets, maxMoves);
    var r := ShedAll(l, targets, maxMoves);
    forall s | s in r.skipped
      ensures Excusable(s, docs, |docs|, targets, promote, maxMoves, |r.moves|)
    {
      assert Excusable(s, docs, |docs|, targets, promote, maxMoves, |l.moves|);
      var j :| 0 <= j < |docs| && Excused(s, docs[j], targets, promote, maxMoves, |l.moves|);
      assert Excused(s, docs[j], targets, promote, maxMoves, |r.moves|);
    }
  }
}
