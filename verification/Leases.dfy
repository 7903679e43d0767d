/** The control plane over the store's leases: lookup, acquire, renew, hand
    off, and the manager that keeps one shard's lease. Shards are the store's
    shard texts; a generated token is a parameter. */
module Leases {
  import opened Prelude
  import opened Storage
  import opened Fencing

  datatype Request = Request(shard: string, holder: string, ttl: int, token: string)

  function Trimmed(s: string): (r: string)
    ensures Blank(r) <==> Blank(s)
    ensures r == [] <==> Blank(s)
  {
    if s == [] then []
    else if Space(s[0]) then
      var r := Trimmed(s[1..]);
      assert forall i :: 1 <= i < |s| ==> s[i] == s[1..][i - 1];
      assert Blank(s) <==> Blank(s[1..]);
      r
    else TrimmedEnd(s)
  }

  function TrimmedEnd(s: string): (r: string)
    requires s != [] && !Space(s[0])
    ensures r != [] && r[0] == s[0]
  {
    if Space(s[|s| - 1]) then TrimmedEnd(s[..|s| - 1]) else s
  }

  /** t is s without the white space at its ends, s[i..j]. */
  predicate Trims(s: string, t: string, i: nat, j: nat) {
    && i <= j <= |s| && t == s[i..j] && Blank(s[..i]) && Blank(s[j..])
    && (i < j ==> !Space(s[i]) && !Space(s[j - 1]))
  }

  /** Trimming takes white space off both ends, all of it and nothing else. */
  lemma {:induction false} TrimmedExact(s: string)
    ensures exists i: nat, j: nat :: Trims(s, Trimmed(s), i, j)
  {
    hide Space;
    if s == [] {
      assert Trims(s, Trimmed(s), 0, 0);
    } else if Space(s[0]) {
      TrimmedExact(s[1..]);
      var i: nat, j: nat :| Trims(s[1..], Trimmed(s[1..]), i, j);
      TrimsFront(s, Trimmed(s), i, j);
    } else {
      TrimmedEndExact(s);
      var j: nat :| Trims(s, TrimmedEnd(s), 0, j);
      assert Trims(s, Trimmed(s), 0, j);
    }
  }

  lemma TrimsFront(s: string, t: string, i: nat, j: nat)
    requires s != [] && Space(s[0]) && Trims(s[1..], t, i, j)
    ensures Trims(s, t, i + 1, j + 1)
  {
    hide Space;
    assert s[1..][i..j] == s[i + 1..j + 1] && s[1..][j..] == s[j + 1..];
    assert s[..i + 1] == [s[0]] + s[1..][..i];
  }

  lemma TrimsBack(s: string, t: string, j: nat)
    requires s != [] && Space(s[|s| - 1]) && Trims(s[..|s| - 1], t, 0, j)
    ensures Trims(s, t, 0, j)
  {
    hide Space;
    assert s[..|s| - 1][0..j] == s[0..j] && s[j..] == s[..|s| - 1][j..] + [s[|s| - 1]];
  }

  lemma {:induction false} TrimmedEndExact(s: string)
    requires s != [] && !Space(s[0])
    ensures exists j: nat :: Trims(s, TrimmedEnd(s), 0, j)
  {
    hide Space;
    if Space(s[|s| - 1]) {
      TrimmedEndExact(s[..|s| - 1]);
      var j: nat :| Trims(s[..|s| - 1], TrimmedEnd(s[..|s| - 1]), 0, j);
      TrimsBack(s, TrimmedEnd(s), j);
    } else {
      assert s[0..|s|] == s;
      assert Trims(s, TrimmedEnd(s), 0, |s|);
    }
  }

  function CheckRequest(req: Request): Result<()> {
    if Blank(req.holder) || req.ttl <= 0 then Err(InvalidLeaseRequest) else Ok(())
  }

  function FromRecord(l: Lease): Result<Lease> {
    if CheckLease(l).Err? then Err(InvalidLease) else Ok(l)
  }

  function TokenFor(req: Request, generated: string): string {
    var token := Trimmed(req.token);
    if token == "" then generated else token
  }

  function Wanted(req: Request, shard: string, epoch: nat, token: string, now: nat): Lease
    requires req.ttl > 0
  {
    Lease(shard, Owner(req.holder, epoch), token, now, now + req.ttl)
  }

  /** The epoch the store names when it refuses a lease as stale. */
  function StaleAt(st: State, l: Lease): nat {
    if l.shard !in st.leases then LastEpoch(st, l.shard)
    else if st.leases[l.shard].expiresAt > l.acquiredAt then st.leases[l.shard].owner.epoch
    else Max(st.leases[l.shard].owner.epoch, LastEpoch(st, l.shard))
  }

  method StaleEpoch(store: Store, l: Lease) returns (epoch: nat)
    ensures epoch == StaleAt(store.View(), l)
  {
    var lastEpoch := if l.shard in store.leaseLast then store.leaseLast[l.shard] else 0;
    if l.shard !in store.leases {
      return lastEpoch;
    }
    var current := store.leases[l.shard];
    return if current.expiresAt > l.acquiredAt then current.owner.epoch else Max(current.owner.epoch, lastEpoch);
  }

  predicate Leased(st: State, shard: string, now: nat) {
    shard in st.leases && now < st.leases[shard].expiresAt
  }

  // ----- Stored leases -----

  predicate StoredOk(st: State) {
    LeaseOk(st) && forall s :: s in st.leases ==> CheckLease(st.leases[s]).Ok? && st.leases[s].acquiredAt != 0
  }

  lemma GrantedIsChecked(st: State, lease: Lease, now: nat)
    requires StoredOk(st) && now > 0 && Granted(st, lease, now).Ok?
    ensures var l := Granted(st, lease, now).value; CheckLease(l).Ok? && l.acquiredAt != 0
  {
  }

  lemma InstallStored(st: State, l: Lease)
    requires StoredOk(st) && CheckLease(l).Ok? && l.acquiredAt != 0
    requires Holds(st, FenceOf(l)) || l.owner.epoch > LastEpoch(st, l.shard)
    ensures StoredOk(Install(st, l))
  {
    hide CheckLease;
  }

  lemma ReleaseStored(st: State, shard: string, token: string)
    requires StoredOk(st)
    ensures StoredOk(ReleaseLease(st, shard, token))
  {
    hide CheckLease, Blank;
  }

  lemma WriteStored(st: State, op: Op)
    requires StoredOk(st) && (op.Appends? || op.Trims? || op.Saves? || op.Places?)
    ensures StoredOk(Step(st, op))
  {
    WritesKeepLeases(st, op);
    hide Step, NewGeneration, CheckLease;
  }

  /** Every operation of the store keeps its leases well-formed. */
  lemma StoredStays(st: State, op: Op)
    requires StoredOk(st) && (op.Leases? ==> op.now > 0) && (op.HandsOff? ==> op.now > 0)
    ensures StoredOk(Step(st, op))
  {
    match op
    case Leases(lease, now) =>
      if Granted(st, lease, now).Ok? {
        GrantedIsChecked(st, lease, now);
        GrantedRises(st, lease, now);
        hide Granted, Install, StoredOk;
        InstallStored(st, Granted(st, lease, now).value);
      }
    case HandsOff(shard, token, next, now) =>
      HandedOffIsChecked(st, shard, token, next, now);
      HandedOffRises(st, shard, token, next, now);
      hide HandedOff, Install, StoredOk;
      if HandedOff(st, shard, token, next, now).Ok? {
        InstallStored(st, HandedOff(st, shard, token, next, now).value);
      }
    case Releases(shard, token) =>
      hide ReleaseLease, StoredOk;
      ReleaseStored(st, shard, token);
    case _ =>
      hide Step, StoredOk;
      WriteStored(st, op);
  }

  lemma HandedOffIsChecked(st: State, shard: string, token: string, next: Lease, now: nat)
    requires now > 0
    ensures var g := HandedOff(st, shard, token, next, now);
            g.Ok? ==> CheckLease(g.value).Ok? && g.value.acquiredAt != 0
  {
  }

  // ----- Takeover and time -----

  /** The store judges whether another's lease has run out by the start that the
      new lease claims, not by its own clock. So a save replaces a lease that
      still has time left exactly when the start claimed is not before its end. */
  lemma TakeoverExact(st: State, lease: Lease, now: nat)
    requires lease.shard in st.leases && FenceOf(st.leases[lease.shard]) != FenceOf(lease)
    ensures var current := st.leases[lease.shard];
            var start := WithStart(lease, now).acquiredAt;
            Granted(st, lease, now).Ok? && Leased(st, lease.shard, now) <==>
              && now < current.expiresAt <= start && CheckLease(WithStart(lease, now)).Ok?
              && lease.owner.epoch > current.owner.epoch && lease.owner.epoch > LastEpoch(st, lease.shard)
  {
    hide Blank;
  }

  /** Nobody replaces another's lease before it has run out, as long as the start
      is left to the store or does not lie in its future. */
  lemma NoTheft(st: State, lease: Lease, now: nat)
    requires lease.shard in st.leases && FenceOf(st.leases[lease.shard]) != FenceOf(lease)
    requires Granted(st, lease, now).Ok? && (lease.acquiredAt == 0 || lease.acquiredAt <= now)
    ensures !Leased(st, lease.shard, now)
  {
    TakeoverExact(st, lease, now);
  }

  /** A hand-off of a lease that has run out succeeds in the same way, when the
      next lease claims a start before the end of the present one. */
  lemma HandoffExact(st: State, shard: string, token: string, next: Lease, now: nat)
    requires StoredOk(st) && shard in st.leases
    ensures var current := st.leases[shard];
            var start := WithStart(next, now).acquiredAt;
            HandedOff(st, shard, token, next, now).Ok? && !Leased(st, shard, now) <==>
              && start < current.expiresAt <= now && CheckLease(WithStart(next, now)).Ok? && start < next.expiresAt
              && next.shard == shard && token == current.token && next.owner.epoch == current.owner.epoch + 1
  {
    hide Blank;
  }

  // ----- Lookup -----

  /** The owner of a document whose shard is resolved to `shard`. */
  function LookUp(st: State, k: Key, shard: string, now: nat): Result<Lease> {
    if !ValidKey(k) then Err(InvalidDocumentKey)
    else if k !in st.placements then Err(PlacementNotFound)
    else if st.placements[k] != shard then Err(InvalidPlacement)
    else if shard !in st.leases then Err(OwnerNotFound)
    else
      var lease :- FromRecord(st.leases[shard]);
      if lease.shard != shard then Err(InvalidLease)
      else if now >= lease.expiresAt then Err(LeaseExpired)
      else Ok(lease)
  }

  method LookupOwner(store: Store, k: Key, shard: string, now: nat) returns (r: Result<Lease>)
    ensures r == LookUp(store.View(), k, shard, now)
  {
    if !ValidKey(k) {
      return Err(InvalidDocumentKey);
    }
    if k !in store.placements {
      return Err(PlacementNotFound);
    }
    if store.placements[k] != shard {
      return Err(InvalidPlacement);
    }
    if shard !in store.leases {
      return Err(OwnerNotFound);
    }
    var lease := FromRecord(store.leases[shard]);
    if lease.Err? {
      return lease;
    }
    if lease.value.shard != shard {
      return Err(InvalidLease);
    }
    if now >= lease.value.expiresAt {
      return Err(LeaseExpired);
    }
    return lease;
  }

  /** The owner that the lookup names is exactly the one whose writes the store
      accepts at that moment. */
  lemma LookupIsAuthority(st: State, k: Key, f: Fence, now: nat)
    requires StoredOk(st) && ValidKey(k)
    ensures Authorized(st, k, f, now) <==>
            LookUp(st, k, f.shard, now).Ok? && FenceOf(LookUp(st, k, f.shard, now).value) == f
  {
    hide CheckLease;
  }

  /** What the lookup's errors say is at fault. */
  lemma LookUpFails(st: State, k: Key, shard: string, now: nat)
    requires StoredOk(st)
    ensures var r := LookUp(st, k, shard, now);
      var placed := ValidKey(k) && k in st.placements;
      && (r == Err(InvalidDocumentKey) <==> !ValidKey(k))
      && (r == Err(PlacementNotFound) <==> ValidKey(k) && k !in st.placements)
      && (r == Err(InvalidPlacement) <==> placed && st.placements[k] != shard)
      && (r == Err(OwnerNotFound) <==> placed && st.placements[k] == shard && shard !in st.leases)
      && (r == Err(LeaseExpired) <==> placed && st.placements[k] == shard && shard in st.leases
                                      && !Leased(st, shard, now))
      && (r.Ok? <==> placed && st.placements[k] == shard && Leased(st, shard, now))
      && (r.Ok? ==> r.value == st.leases[shard])
  {
    hide CheckLease, ValidKey;
  }

  /** The lookup names the lease of fence f as the owner. */
  predicate Owns(st: State, k: Key, f: Fence, now: nat) {
    LookUp(st, k, f.shard, now).Ok? && FenceOf(LookUp(st, k, f.shard, now).value) == f
  }

  /** A write under a fence is let through exactly if the lookup, at that moment,
      names the fence's own lease as the owner of the document. */
  lemma FencedWriteExact(st: State, k: Key, f: Fence, now: nat)
    requires StoredOk(st)
    ensures MayWrite(st, k, Some(f), now).Ok? <==> Owns(st, k, f, now)
    ensures ValidKey(k) && CheckFence(f).Ok? && MayWrite(st, k, Some(f), now).Err? ==>
              MayWrite(st, k, Some(f), now) == Err(AuthorityLost)
  {
    if ValidKey(k) {
      LookupIsAuthority(st, k, f, now);
      if Owns(st, k, f, now) {
        LookedUpFence(st, k, f, now);
      }
      hide LookUp, Authorized, CheckFence, StoredOk;
    }
  }

  lemma LookedUpFence(st: State, k: Key, f: Fence, now: nat)
    requires Owns(st, k, f, now)
    ensures CheckFence(f).Ok?
  {
    hide Blank;
  }

  /** So an append, a save or a trim under a fence takes effect exactly then, and
      otherwise leaves the store as it is. */
  lemma FencedAppend(st: State, k: Key, f: Fence, now: nat, update: Doc)
    requires StoredOk(st)
    ensures var next := Append(st, k, update, Some(f), now);
            if Owns(st, k, f, now) then
              && LogOf(next, k) == LogOf(st, k) + [Record(NextOf(st, k) + 1, update, f.owner.epoch)]
              && NextOf(next, k) == NextOf(st, k) + 1
            else next == st
  {
    FencedWriteExact(st, k, f, now);
    hide MayWrite, LookUp, StoredOk;
  }

  lemma FencedSave(st: State, k: Key, f: Fence, now: nat, doc: Doc, through: nat, epoch: nat)
    requires StoredOk(st)
    ensures Save(st, k, doc, through, epoch, Some(f), now) ==
            if Owns(st, k, f, now) then st.(items := st.items[k := Checkpoint(doc, through, f.owner.epoch)]) else st
  {
    FencedWriteExact(st, k, f, now);
    hide MayWrite, LookUp, StoredOk;
  }

  lemma FencedTrim(st: State, k: Key, f: Fence, now: nat, through: nat)
    requires StoredOk(st)
    ensures var next := Trim(st, k, through, Some(f), now);
            if Owns(st, k, f, now) then LogOf(next, k) == After(LogOf(st, k), through) else next == st
  {
    FencedWriteExact(st, k, f, now);
    WithLogIs(st, k, After(LogOf(st, k), through));
    hide MayWrite, LookUp, StoredOk, After, WithLog;
  }

  /** From the end of a lease on, nothing its holder does under it changes the
      store. */
  lemma ExpiredChangesNothing(st: State, k: Key, shard: string, now: nat, update: Doc, doc: Doc, through: nat,
        epoch: nat)
    requires StoredOk(st) && shard in st.leases && st.leases[shard].expiresAt <= now
    ensures var f := FenceOf(st.leases[shard]);
            && Append(st, k, update, Some(f), now) == st && Trim(st, k, through, Some(f), now) == st
            && Save(st, k, doc, through, epoch, Some(f), now) == st
  {
    var f := FenceOf(st.leases[shard]);
    StoredFence(st, shard);
    NotOwned(st, k, f, now);
    FencedAppend(st, k, f, now, update);
    FencedSave(st, k, f, now, doc, through, epoch);
    FencedTrim(st, k, f, now, through);
    hide Append, Trim, Save, Owns, StoredOk, CheckLease;
  }

  lemma NotOwned(st: State, k: Key, f: Fence, now: nat)
    requires StoredOk(st) && f.shard in st.leases && st.leases[f.shard].expiresAt <= now
    ensures !Owns(st, k, f, now)
  {
    hide CheckLease, ValidKey;
  }

  // ----- Acquire -----

  method AcquireLease(store: Store, req: Request, generated: string, now: nat) returns (r: Result<Lease>)
    requires StoredOk(store.View()) && now > 0 && !Blank(req.shard) && !Blank(generated)
    modifies store
    ensures StoredOk(store.View())
    ensures r.Ok? <==> CheckRequest(req).Ok? && !Leased(old(store.View()), req.shard, now)
    ensures r.Err? ==> store.View() == old(store.View())
    ensures r.Err? && CheckRequest(req).Ok? ==>
              r.error == if old(store.View()).leases[req.shard].owner.node == req.holder then InvalidLeaseRequest
                  else LeaseHeld
    ensures r.Ok? ==>
              && r.value == Wanted(req, req.shard, LastEpoch(old(store.View()), req.shard) + 1,
                  TokenFor(req, generated), now)
              && store.View() == Install(old(store.View()), r.value)
  {
    hide CheckLease, Blank, Trimmed;
    var checked := CheckRequest(req);
    if checked.Err? {
      return Err(checked.error);
    }
    var token := TokenFor(req, generated);
    var epoch := 1;
    if req.shard in store.leases {
      var existing := store.leases[req.shard];
      if now < existing.expiresAt {
        return Err(if existing.owner.node == req.holder then InvalidLeaseRequest else LeaseHeld);
      }
      epoch := existing.owner.epoch + 1;
    }
    ghost var before := store.View();
    var wanted := Wanted(req, req.shard, epoch, token, now);
    var saved := store.SaveLeaseRecord(wanted, now);
    WantedIsChecked(req, epoch, token, now);
    FreeGrants(before, req, epoch, token, now);
    if saved.Err? {
      assert store.View() == before;
      var stale := StaleEpoch(store, wanted);
      if saved.error == LeaseStaleEpoch && stale >= epoch {
        var next := stale + 1;
        WantedIsChecked(req, next, token, now);
        FreeGrants(before, req, next, token, now);
        saved := store.SaveLeaseRecord(Wanted(req, req.shard, next, token, now), now);
      }
    }
    assert saved.Ok?;
    InstallStored(before, saved.value);
    r := FromRecord(saved.value);
  }

  lemma WantedIsChecked(req: Request, epoch: nat, token: string, now: nat)
    requires CheckRequest(req).Ok? && !Blank(req.shard) && epoch > 0 && !Blank(token) && now > 0
    ensures CheckLease(Wanted(req, req.shard, epoch, token, now)).Ok?
  {
  }

  /** On a free shard the store grants exactly the epochs above its last. */
  lemma FreeGrants(st: State, req: Request, epoch: nat, token: string, now: nat)
    requires StoredOk(st) && now > 0 && CheckRequest(req).Ok? && !Leased(st, req.shard, now)
    requires CheckLease(Wanted(req, req.shard, epoch, token, now)).Ok?
    requires req.shard in st.leases ==> epoch > st.leases[req.shard].owner.epoch
    ensures var l := Wanted(req, req.shard, epoch, token, now);
            Granted(st, l, now) == if epoch > LastEpoch(st, req.shard) then Ok(l) else Err(LeaseStaleEpoch)
  {
    hide CheckLease, Blank;
  }

  /** Between the load and the saves of an acquire other nodes may act. Whatever
      state its save meets, a granted save outruns every epoch of the shard, or
      repeats the lease that already holds. */
  lemma RacingAcquire(st: State, wanted: Lease, now: nat)
    requires StoredOk(st) && wanted.acquiredAt != 0 && Granted(st, wanted, now).Ok?
    ensures var next := SaveLease(st, wanted, now);
      && Holds(next, FenceOf(wanted)) && LastEpoch(next, wanted.shard) == wanted.owner.epoch
      && (Holds(st, FenceOf(wanted)) || wanted.owner.epoch > LastEpoch(st, wanted.shard))
  {
    GrantedRises(st, wanted, now);
    hide CheckLease;
  }

  /** Of two nodes that race for a shard, the one whose save comes second with the
      same epoch, or a lower one, never gets it: at no later time, by no clock. */
  lemma RacersExclude(st: State, first: Lease, now: nat, ops: seq<Op>, second: Lease, later: nat)
    requires LeaseOk(st) && Granted(st, first, now).Ok?
    requires first.shard == second.shard && FenceOf(first) != FenceOf(second)
    requires second.owner.epoch <= first.owner.epoch
    ensures Granted(RunFrom(SaveLease(st, first, now), ops), second, later).Err?
  {
    var next := SaveLease(st, first, now);
    GrantedSupersedes(st, first, now, FenceOf(second));
    hide Dead, LeaseOk, Holds, Granted, SaveLease, RunFrom, Authorized;
    DeadForever(next, FenceOf(second), ops, Key("", ""), later);
    RunKeepsLeases(next, ops);
    DeadNeverGranted(RunFrom(next, ops), second, later);
  }

  lemma GrantedSupersedes(st: State, lease: Lease, now: nat, f: Fence)
    requires LeaseOk(st) && Granted(st, lease, now).Ok?
    requires f.shard == lease.shard && f != FenceOf(lease) && f.owner.epoch <= lease.owner.epoch
    ensures LeaseOk(SaveLease(st, lease, now)) && Dead(SaveLease(st, lease, now), f)
  {
    GrantedRises(st, lease, now);
    hide CheckLease;
  }

  lemma {:induction false} RunKeepsLeases(st: State, ops: seq<Op>)
    requires LeaseOk(st)
    ensures LeaseOk(RunFrom(st, ops))
    decreases |ops|
  {
    if ops != [] {
      StepAdvances(st, ops[0]);
      RunKeepsLeases(Step(st, ops[0]), ops[1..]);
    }
  }

  lemma DeadNeverGranted(st: State, lease: Lease, now: nat)
    requires LeaseOk(st) && Dead(st, FenceOf(lease))
    ensures Granted(st, lease, now).Err?
  {
    hide CheckLease;
  }

  // ----- Renew and hand off -----

  function Renewal(st: State, req: Request, now: nat): Result<Lease> {
    var _ :- CheckRequest(req);
    if req.shard !in st.leases then Err(OwnerNotFound)
    else
      var existing := st.leases[req.shard];
      if existing.owner.node != req.holder then Err(InvalidLeaseRequest)
      else if now >= existing.expiresAt then Err(LeaseExpired)
      else if Trimmed(req.token) != "" && Trimmed(req.token) != existing.token then Err(LeaseTokenMismatch)
      else if now + req.ttl <= existing.acquiredAt then Err(InvalidLeaseExpiry)
      else Ok(existing.(expiresAt := now + req.ttl))
  }

  method RenewLease(store: Store, req: Request, now: nat) returns (r: Result<Lease>)
    requires StoredOk(store.View())
    modifies store
    ensures StoredOk(store.View()) && r == Renewal(old(store.View()), req, now)
    ensures store.View() ==
            if r.Ok? then old(store.View()).(leases := old(store.View()).leases[req.shard := r.value])
                else old(store.View())
  {
    hide Blank, Trimmed;
    var checked := CheckRequest(req);
    if checked.Err? {
      return Err(checked.error);
    }
    if req.shard !in store.leases {
      return Err(OwnerNotFound);
    }
    var existing := store.leases[req.shard];
    if existing.owner.node != req.holder {
      return Err(InvalidLeaseRequest);
    }
    if now >= existing.expiresAt {
      return Err(LeaseExpired);
    }
    var token := Trimmed(req.token);
    if token == "" {
      token := existing.token;
    } else if token != existing.token {
      return Err(LeaseTokenMismatch);
    }
    var saved := store.SaveLeaseRecord(Lease(req.shard, existing.owner, token, existing.acquiredAt, now + req.ttl),
        now);
    if saved.Err? {
      return Err(saved.error);
    }
    r := FromRecord(saved.value);
  }

  /** A renewal keeps the generation: same fence, same start. */
  lemma RenewalKeepsFence(st: State, req: Request, now: nat)
    requires StoredOk(st) && Renewal(st, req, now).Ok?
    ensures var l := Renewal(st, req, now).value;
            Holds(st, FenceOf(l)) && l.acquiredAt == st.leases[req.shard].acquiredAt && l.expiresAt == now + req.ttl
  {
    hide Trimmed, CheckLease;
  }

  predicate Transferable(st: State, current: Lease, now: nat) {
    && Leased(st, current.shard, now)
    && st.leases[current.shard].token == current.token && st.leases[current.shard].owner.epoch == current.owner.epoch
  }

  /** What the store makes of a hand-off that the checks before it let through. */
  lemma HandedOffIs(st: State, current: Lease, req: Request, token: string, now: nat)
    requires StoredOk(st) && now > 0 && CheckLease(current).Ok? && CheckRequest(req).Ok? && !Blank(token)
    requires now < current.expiresAt
    ensures var wanted := Wanted(req, current.shard, current.owner.epoch + 1, token, now);
      var r := HandedOff(st, current.shard, current.token, wanted, now);
      && CheckLease(wanted).Ok?
      && (r.Ok? <==> Transferable(st, current, now))
      && (r.Ok? ==> r.value == wanted && wanted.owner.epoch > LastEpoch(st, current.shard))
      && (r.Err? ==> r.error == if current.shard !in st.leases then LeaseNotFound
                         else if st.leases[current.shard].token != current.token
                              || st.leases[current.shard].expiresAt <= now then LeaseConflict
                         else LeaseStaleEpoch)
  {
    hide Blank;
  }

  /** Hands the shard from the holder of `current` to the requested holder. */
  method HandOff(store: Store, current: Lease, req: Request, generated: string, now: nat) returns (r: Result<Lease>)
    requires StoredOk(store.View()) && now > 0 && !Blank(generated)
    modifies store
    ensures StoredOk(store.View())
    ensures r.Ok? <==> CheckLease(current).Ok? && CheckRequest(req).Ok? && (req.shard == "0" || req.shard == current.shard)
                       && now < current.expiresAt && Transferable(old(store.View()), current, now)
    ensures r.Err? ==> store.View() == old(store.View())
    ensures r.Ok? ==>
              && r.value == Wanted(req, current.shard, current.owner.epoch + 1, TokenFor(req, generated), now)
              && store.View() == Install(old(store.View()), r.value)
              && Holds(store.View(), FenceOf(r.value)) && Dead(store.View(), FenceOf(current))
    ensures r.Err? ==>
              var leases := old(store.View()).leases;
              r.error == if CheckLease(current).Err? then InvalidLease
                  else if CheckRequest(req).Err? then InvalidLeaseRequest
                  else if req.shard != "0" && req.shard != current.shard then InvalidLeaseRequest
                  else if now >= current.expiresAt then LeaseExpired
                  else if current.shard !in leases then OwnerNotFound
                  else if leases[current.shard].token != current.token || leases[current.shard].expiresAt <= now then
                      LeaseTokenMismatch
                  else LeaseStaleEpoch
  {
    hide Blank, Trimmed;
    if CheckLease(current).Err? {
      return Err(InvalidLease);
    }
    var checked := CheckRequest(req);
    if checked.Err? {
      return Err(checked.error);
    }
    if req.shard != "0" && req.shard != current.shard {
      return Err(InvalidLeaseRequest);
    }
    if now >= current.expiresAt {
      return Err(LeaseExpired);
    }
    var token := TokenFor(req, generated);
    HandedOffIs(store.View(), current, req, token, now);
    hide HandedOff, CheckLease, CheckRequest, StoredOk;
    var handed := store.HandoffLeaseRecord(current.shard, current.token,
                                           Wanted(req, current.shard, current.owner.epoch + 1, token, now), now);
    if handed.Err? {
      var error := handed.error;
      return Err(if error == LeaseNotFound then OwnerNotFound
                 else if error == LeaseConflict then LeaseTokenMismatch
                 else error);
    }
    InstallStored(old(store.View()), handed.value);
    r := FromRecord(handed.value);
  }

  // ----- The manager of one shard's lease -----

  /** Whether a manager may take over the shard's lease as it is, when it is
      active; None when the shard is free. */
  function Adoption(st: State, shard: string, holder: string, token: string, now: nat): Result<Option<Lease>> {
    if !Leased(st, shard, now) then Ok(None)
    else
      var lease := st.leases[shard];
      if lease.owner.node != holder then Err(LeaseHeld)
      else if token != "" && lease.token != token then Err(LeaseTokenMismatch)
      else Ok(Some(lease))
  }

  /** The cached lease is active and inside the renewal window. */
  predicate Renews(current: Option<Lease>, renewWithin: int, now: nat) {
    Active(current, now) && renewWithin != 0 && current.value.expiresAt - now <= renewWithin
  }

  predicate Active(current: Option<Lease>, now: nat) {
    current.Some? && now < current.value.expiresAt
  }

  /** A lease is due for renewal when it ends within the window that starts now. */
  lemma WhenDue(current: Option<Lease>, renewWithin: nat, now: nat)
    ensures Renews(current, renewWithin, now) <==>
            current.Some? && now < current.value.expiresAt <= now + renewWithin
  {
  }

  lemma StoredFence(st: State, shard: string)
    requires StoredOk(st) && shard in st.leases
    ensures var l := st.leases[shard];
            l.shard == shard && CheckLease(l).Ok? && Holds(st, FenceOf(l)) && l.owner.epoch == LastEpoch(st, shard)
  {
    hide CheckLease;
  }

  lemma FreeAdopts(st: State, shard: string, holder: string, token: string, now: nat)
    ensures !Leased(st, shard, now) ==> Adoption(st, shard, holder, token, now).Ok?
  {
  }

  /** What a renewal does to a free shard, and what it leaves behind. */
  lemma RenewalOutcome(st: State, req: Request, now: nat)
    requires StoredOk(st) && CheckRequest(req).Ok?
    ensures !Leased(st, req.shard, now) ==>
              Renewal(st, req, now) == Err(if req.shard !in st.leases then OwnerNotFound
                                           else if st.leases[req.shard].owner.node != req.holder then
                                               InvalidLeaseRequest
                                           else LeaseExpired)
    ensures Renewal(st, req, now).Ok? ==>
      var l := Renewal(st, req, now).value;
      && CheckLease(l).Ok? && l.shard == req.shard && l.owner.node == req.holder && now < l.expiresAt
      && Holds(st.(leases := st.leases[req.shard := l]), FenceOf(l)) && l.owner.epoch == LastEpoch(st, req.shard)
  {
    hide Trimmed, Blank;
  }

  /** What a renewal does to a lease that has not run out. */
  lemma RenewalOfLeased(st: State, req: Request, now: nat)
    requires CheckRequest(req).Ok? && Leased(st, req.shard, now) && !Blank(req.token)
    ensures var stored := st.leases[req.shard];
            Renewal(st, req, now) ==
            if stored.owner.node == req.holder && stored.token == Trimmed(req.token)
               && stored.acquiredAt < now + req.ttl then
              Ok(stored.(expiresAt := now + req.ttl))
            else
              Err(if stored.owner.node != req.holder then InvalidLeaseRequest
                  else if stored.token != Trimmed(req.token) then LeaseTokenMismatch
                  else InvalidLeaseExpiry)
  {
    hide Blank;
  }

  lemma CheckedToken(l: Lease)
    requires CheckLease(l).Ok?
    ensures !Blank(l.token)
  {
    hide Blank;
  }

  class LeaseManager {
    const store: Store
    const shard: string
    const holder: string
    const ttl: int
    const token: string
    var current: Option<Lease>

    /** The cached lease is this holder's, and the shard has reached its epoch. */
    ghost predicate Valid()
      reads this, store
    {
      && StoredOk(store.View()) && !Blank(shard) && !Blank(holder) && ttl > 0
      && (current.Some? ==>
            && CheckLease(current.value).Ok? && current.value.shard == shard && current.value.owner.node == holder
            && current.value.owner.epoch <= LastEpoch(store.View(), shard))
    }

    constructor (store: Store, shard: string, holder: string, ttl: int, token: string)
      requires StoredOk(store.View()) && !Blank(shard) && !Blank(holder) && ttl > 0
      ensures Valid() && current == None && this.store == store
    {
      this.store, this.shard, this.holder, this.ttl, this.token := store, shard, holder, ttl, token;
      current := None;
    }

    function RequestWith(token: string): Request {
      Request(shard, holder, ttl, token)
    }

    /** What an acquire that succeeds comes to: the active lease, or a new one of
        the next epoch that lasts from now for the manager's time to live. */
    function Gained(st: State, generated: string, now: nat): (l: Lease)
      requires ttl > 0
      ensures !Leased(st, shard, now) ==>
                && l.acquiredAt == now && l.expiresAt - l.acquiredAt == ttl && l.owner.node == holder
                && l.owner.epoch > LastEpoch(st, shard) && (Blank(token) ==> l.token == generated)
    {
      if Leased(st, shard, now) then st.leases[shard]
      else
        Lease(shard, Owner(holder, LastEpoch(st, shard) + 1), if Blank(token) then generated else Trimmed(token),
              now, now + ttl)
    }

    /** The shard's lease, if it has one, is another holder's. */
    predicate Foreign(st: State) {
      shard in st.leases && st.leases[shard].owner.node != holder
    }

    /** Loads the shard's lease; caches it when it is active and this holder's. */
    method TryAdopt(now: nat) returns (r: Result<Option<Lease>>)
      requires Valid()
      modifies this`current
      ensures Valid() && r == Adoption(store.View(), shard, holder, token, now)
      ensures current == if r.Ok? && r.value.Some? then r.value else old(current)
    {
      hide CheckLease, Blank;
      if shard !in store.leases {
        return Ok(None);
      }
      var lease := FromRecord(store.leases[shard]);
      assert lease.Ok?;
      if now >= lease.value.expiresAt {
        return Ok(None);
      }
      if lease.value.owner.node != holder {
        return Err(LeaseHeld);
      }
      if token != "" && lease.value.token != token {
        return Err(LeaseTokenMismatch);
      }
      current := Some(lease.value);
      return Ok(current);
    }

    /** Adopts the active lease or acquires a free shard. */
    method Acquire(generated: string, now: nat) returns (r: Result<(Lease, bool)>)
      requires Valid() && now > 0 && !Blank(generated)
      modifies this`current, store
      ensures Valid()
      ensures r.Ok? <==>
                Leased(old(store.View()), shard, now) ==>
                  && old(store.View()).leases[shard].owner.node == holder
                  && (token == "" || old(store.View()).leases[shard].token == token)
      ensures r.Err? ==>
                r.error == if old(store.View()).leases[shard].owner.node != holder then LeaseHeld
                    else LeaseTokenMismatch
      ensures r.Ok? <==> Adoption(old(store.View()), shard, holder, token, now).Ok?
      ensures r.Err? ==> r.error == Adoption(old(store.View()), shard, holder, token, now).error
      ensures r.Err? ==> store.View() == old(store.View()) && current == old(current)
      ensures r.Ok? ==>
                && current == Some(r.value.0) && r.value.1 == !Leased(old(store.View()), shard, now)
                && r.value.0 == Gained(old(store.View()), generated, now)
                && Holds(store.View(), FenceOf(r.value.0)) && now < r.value.0.expiresAt
                && store.View() == (if r.value.1 then Install(old(store.View()), r.value.0) else old(store.View()))
    {
      hide CheckLease, Blank, Trimmed, StoredOk;
      if shard in store.leases {
        StoredFence(store.View(), shard);
      }
      var adopted := TryAdopt(now);
      if adopted.Err? {
        return Err(adopted.error);
      }
      if adopted.value.Some? {
        return Ok((adopted.value.value, false));
      }
      WantedIsChecked(RequestWith(token), LastEpoch(store.View(), shard) + 1,
          TokenFor(RequestWith(token), generated), now);
      var lease := AcquireLease(store, RequestWith(token), generated, now);
      assert lease.Ok?;
      current := Some(lease.value);
      return Ok((lease.value, true));
    }

    /** The lease to work under. It holds in the store, unless it is answered
        from the cache, outside the renewal window, and has died meanwhile. */
    method Ensure(renewWithin: int, generated: string, now: nat) returns (r: Result<(Lease, bool)>)
      requires Valid() && now > 0 && !Blank(generated)
      modifies this`current, store
      ensures Valid()
      ensures r.Ok? ==> current == Some(r.value.0) && now < r.value.0.expiresAt
      ensures r.Ok? ==>
                || Holds(store.View(), FenceOf(r.value.0))
                || (Dead(store.View(), FenceOf(r.value.0)) && !r.value.1 && old(current) == Some(r.value.0)
                    && (renewWithin == 0 || r.value.0.expiresAt - now > renewWithin))
      ensures renewWithin < 0 ==>
                r == Err(InvalidLeaseRequest) && store.View() == old(store.View()) && current == old(current)
      ensures renewWithin >= 0 && Active(old(current), now) && !Renews(old(current), renewWithin, now) ==>
                && r == Ok((old(current).value, false)) && store.View() == old(store.View())
                && current == old(current)
      ensures renewWithin >= 0 && !Active(old(current), now) ==>
                if Adoption(old(store.View()), shard, holder, token, now).Err? then
                  && r == Err(Adoption(old(store.View()), shard, holder, token, now).error)
                  && store.View() == old(store.View()) && current == None
                else
                  && r == Ok((Gained(old(store.View()), generated, now), !Leased(old(store.View()), shard, now)))
                  && store.View() ==
                     if r.value.1 then Install(old(store.View()), r.value.0) else old(store.View())
      ensures Renews(old(current), renewWithin, now) && renewWithin >= 0 && !Leased(old(store.View()), shard, now) ==>
                if Foreign(old(store.View())) then
                  r == Err(InvalidLeaseRequest) && store.View() == old(store.View()) && current == old(current)
                else
                  && r == Ok((Gained(old(store.View()), generated, now), true))
                  && store.View() == Install(old(store.View()), r.value.0)
      ensures Renews(old(current), renewWithin, now) && renewWithin >= 0 && Leased(old(store.View()), shard, now) ==>
                var stored := old(store.View()).leases[shard];
                if stored.owner.node == holder && stored.token == Trimmed(old(current).value.token)
                   && stored.acquiredAt < now + ttl then
                  && r == Ok((stored.(expiresAt := now + ttl), true))
                  && store.View() == old(store.View()).(leases := old(store.View()).leases[shard := r.value.0])
                else
                  && store.View() == old(store.View())
                  && r == Err(if stored.owner.node != holder then InvalidLeaseRequest
                              else if stored.token != Trimmed(old(current).value.token) then LeaseTokenMismatch
                              else InvalidLeaseExpiry)
                  && current == if r.error == LeaseTokenMismatch then None else old(current)
    {
      hide CheckLease, Blank, Trimmed, StoredOk, Adoption, Renewal, Gained, Install;
      if renewWithin < 0 {
        return Err(InvalidLeaseRequest);
      }
      FreeAdopts(store.View(), shard, holder, token, now);
      if current.None? {
        r := Acquire(generated, now);
        return;
      }
      if now >= current.value.expiresAt {
        current := None;
        r := Acquire(generated, now);
        return;
      }
      if renewWithin == 0 || current.value.expiresAt - now > renewWithin {
        return Ok((current.value, false));
      }
      CheckedToken(current.value);
      if Leased(store.View(), shard, now) {
        RenewalOfLeased(store.View(), RequestWith(current.value.token), now);
      }
      RenewalOutcome(store.View(), RequestWith(current.value.token), now);
      var renewed := RenewLease(store, RequestWith(current.value.token), now);
      if renewed.Ok? {
        current := Some(renewed.value);
        return Ok((renewed.value, true));
      }
      if renewed.error == LeaseExpired || renewed.error == OwnerNotFound {
        current := None;
        r := Acquire(generated, now);
        return;
      }
      if renewed.error == LeaseTokenMismatch || renewed.error == LeaseHeld {
        current := None;
      }
      return Err(renewed.error);
    }

    /** Gives the cached lease back. */
    method Release() returns (r: Result<()>)
      requires Valid()
      modifies this`current, store
      ensures Valid()
      ensures old(current).None? ==> r.Err?
      ensures old(current).Some? ==>
                (r.Ok? <==> shard in old(store.View()).leases
                            && old(store.View()).leases[shard].token == old(current).value.token)
      ensures r.Ok? ==>
                && current == None && Dead(store.View(), FenceOf(old(current).value))
                && store.View().leases == old(store.View()).leases - {shard}
      ensures r.Err? ==>
                && current == old(current) && store.View() == old(store.View())
                && r.error == if current.None? then OwnerNotFound else LeaseNotFound
    {
      if current.None? {
        return Err(OwnerNotFound);
      }
      var released := store.ReleaseLeaseRecord(current.value.shard, current.value.token);
      if released.Err? {
        return Err(released.error);
      }
      current := None;
      r := Ok(());
    }
  }

  lemma NotBlank(s: string)
    requires |s| == 1 && (s[0] == '1' || 'a' <= s[0] <= 'z')
    ensures !Blank(s)
  {
    assert !Space(s[0]);
  }

  /** Node a's lease, held for a hundred instants from the first on, and node
      b's after it, held for one. */
  const LONG_LEASE := Lease("1", Owner("a", 1), "t", 1, 101)
  const SHORT_LEASE := Lease("1", Owner("b", 2), "u", 2, 3)

  lemma BothChecked()
    ensures CheckLease(LONG_LEASE).Ok? && CheckLease(SHORT_LEASE).Ok?
    ensures !Blank("1") && !Blank("a") && !Blank("t")
  {
    NotBlank("1");
    NotBlank("a");
    NotBlank("b");
    NotBlank("t");
    NotBlank("u");
    hide Blank;
  }

  /** A renewal that fails on a free shard: a's lease is given back at the store
      while a still has it cached, b takes the shard and lets its lease expire,
      and the renewal then finds b's. */
  lemma RenewalFails()
    ensures var granted := Step(EMPTY, Op.Leases(LONG_LEASE, 1));
            var released := Step(granted, Releases("1", "t"));
            var st := Step(released, Op.Leases(SHORT_LEASE, 2));
            && granted.leases == map["1" := LONG_LEASE] && StoredOk(st) && !Leased(st, "1", 50)
            && Renews(Some(LONG_LEASE), 60, 50) && Renewal(st, Request("1", "a", 100, "t"), 50) ==
                Err(InvalidLeaseRequest)
  {
    BothChecked();
    hide Blank, CheckLease, Trimmed;
    var granted := Step(EMPTY, Op.Leases(LONG_LEASE, 1));
    assert granted == EMPTY.(leases := map["1" := LONG_LEASE], last := map["1" := 1]);
    var released := Step(granted, Releases("1", "t"));
    assert released == EMPTY.(last := map["1" := 1]);
    var st := Step(released, Op.Leases(SHORT_LEASE, 2));
    assert st == EMPTY.(leases := map["1" := SHORT_LEASE], last := map["1" := 2]);
  }

  // ----- Clocks apart -----

  /** What a node whose clock is ahead asks for: its clock shows 200. */
  const EARLY_LEASE := Lease("1", Owner("b", 2), "u", 200, 300)

  lemma EarlyChecked()
    ensures CheckLease(EARLY_LEASE).Ok?
  {
    NotBlank("1");
    NotBlank("b");
    NotBlank("u");
    hide Blank;
  }

  /** At instant 50 a holds its lease until 101, and b, whose clock is ahead,
      takes it over. From then on a's writes are refused. */
  lemma EarlyTakeover(k: Key, ops: seq<Op>, later: nat)
    ensures var st := Step(EMPTY, Op.Leases(LONG_LEASE, 1));
            var next := Step(st, Op.Leases(EARLY_LEASE, 50));
            && StoredOk(st) && Leased(st, "1", 50) && Holds(st, FenceOf(LONG_LEASE))
            && Holds(next, FenceOf(EARLY_LEASE)) && !Authorized(RunFrom(next, ops), k, FenceOf(LONG_LEASE), later)
  {
    BothChecked();
    EarlyChecked();
    hide Blank, CheckLease, RunFrom;
    var st := Step(EMPTY, Op.Leases(LONG_LEASE, 1));
    assert st == EMPTY.(leases := map["1" := LONG_LEASE], last := map["1" := 1]);
    var next := Step(st, Op.Leases(EARLY_LEASE, 50));
    assert next == EMPTY.(leases := map["1" := EARLY_LEASE], last := map["1" := 2]);
    DeadForever(next, FenceOf(LONG_LEASE), ops, k, later);
  }

  /** At instant 150 a's lease, which ended at 101, is still handed over by a node
      whose clock shows 50. */
  lemma LateHandoff()
    ensures var st := Step(EMPTY, Op.Leases(LONG_LEASE, 1));
            var next := EARLY_LEASE.(acquiredAt := 50);
            && StoredOk(st) && !Leased(st, "1", 150) && HandedOff(st, "1", "t", next, 150) == Ok(next)
  {
    BothChecked();
    EarlyChecked();
    hide Blank;
    var st := Step(EMPTY, Op.Leases(LONG_LEASE, 1));
    assert st == EMPTY.(leases := map["1" := LONG_LEASE], last := map["1" := 1]);
  }
}
