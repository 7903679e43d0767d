/** The room as the object it is: each locked section is a method, and Persist
    runs its three sections one after the other. */
module Rooms {
  import opened Prelude
  import opened Storage
  import opened Fencing
  import opened Replay
  import opened Provider

  class ProviderRoom {
    const key: Key
    var doc: Doc
    var lastOffset: nat
    var compactedAt: nat
    var authority: Option<Fence>
    var authorityLost: bool
    var open: bool
    const gapless: bool
    var persists: map<nat, Capture>

    ghost function View(): Room
      reads this
    {
      Room(doc, lastOffset, compactedAt, authority, authorityLost, open, gapless, persists)
    }

    constructor (key: Key, recovery: Recovery, authority: Option<Fence>)
      ensures this.key == key
      ensures View() == Room(recovery.doc, recovery.lastOffset, recovery.checkpointThrough, authority, false, true,
                             recovery.lastOffset == recovery.checkpointThrough + recovery.applied, map[])
    {
      this.key := key;
      doc, lastOffset, compactedAt := recovery.doc, recovery.lastOffset, recovery.checkpointThrough;
      gapless := recovery.lastOffset == recovery.checkpointThrough + recovery.applied;
      this.authority, authorityLost, open, persists := authority, false, true, map[];
    }

    /** The last connection is closed. */
    method Close() returns (r: Result<()>)
      modifies this`open
      ensures View() == old(View()).(open := false)
      ensures r == if old(open) then Ok(()) else Err(ConnectionClosed)
    {
      r := if open then Ok(()) else Err(ConnectionClosed);
      open := false;
    }

    /** Appends first; only then is the update merged into the room. */
    method Apply(store: Store, update: Doc, now: nat) returns (r: Result<()>)
      modifies this, store
      ensures (store.View(), View()) == ApplyPayload(old(store.View()), key, old(View()), update, now)
      ensures r == if !open then Err(ConnectionClosed)
                  else if old(authorityLost) then Err(AuthorityLost)
                  else MayWrite(old(store.View()), key, old(authority), now)
      ensures r.Ok? ==> update <= doc
    {
      if MayWrite(store.View(), key, authority, now).Err? {
        RefusedWrites(store.View(), key, update, 0, authority, now);
      }
      hide Append, MayWrite;
      if !open {
        return Err(ConnectionClosed);
      }
      if authorityLost {
        return Err(AuthorityLost);
      }
      var record := store.AppendUpdate(key, Some(update), authority, now);
      if record.Err? {
        if record.error == AuthorityLost {
          authorityLost := true;
        }
        return Err(record.error);
      }
      doc := doc + update;
      lastOffset := record.value.offset;
      r := Ok(());
    }

    /** The first locked section of a persist, under a ticket of its own. */
    method CaptureState(ticket: nat) returns (r: Result<()>)
      requires ticket !in persists
      modifies this`persists
      ensures View() == CaptureRoom(old(View()), ticket)
      ensures r == if !open then Err(ConnectionClosed) else if authorityLost then Err(AuthorityLost) else Ok(())
      ensures r.Ok? ==> ToSave(View(), ticket)
    {
      if !open {
        return Err(ConnectionClosed);
      }
      if authorityLost {
        return Err(AuthorityLost);
      }
      persists := persists[ticket := Capture(doc, lastOffset, lastOffset > compactedAt, false)];
      r := Ok(());
    }

    method SaveCaptured(store: Store, ticket: nat, now: nat) returns (r: Result<()>)
      requires ToSave(View(), ticket)
      modifies this`persists, this`authorityLost, store`items
      ensures (store.View(), View()) == SaveCapture(old(store.View()), key, old(View()), ticket, now)
      ensures r == MayWrite(old(store.View()), key, authority, now)
    {
      var c := persists[ticket];
      if MayWrite(store.View(), key, authority, now).Err? {
        RefusedWrites(store.View(), key, c.doc, c.through, authority, now);
      }
      hide Save, MayWrite;
      r := store.SaveCheckpoint(key, c.doc, c.through, 0, authority, now);
      if r.Err? {
        persists := persists - {ticket};
        if r.error == AuthorityLost {
          authorityLost := true;
        }
        return;
      }
      persists := if c.trim then persists[ticket := c.(saved := true)] else persists - {ticket};
    }

    method TrimCaptured(store: Store, ticket: nat, now: nat) returns (r: Result<()>)
      requires ToTrim(View(), ticket) && Rising(LogOf(store.View(), key))
      modifies this`persists, this`authorityLost, this`compactedAt, store`updateLogs
      ensures (store.View(), View()) == TrimCapture(old(store.View()), key, old(View()), ticket, now)
      ensures r == MayWrite(old(store.View()), key, authority, now)
    {
      var c := persists[ticket];
      if MayWrite(store.View(), key, authority, now).Err? {
        RefusedWrites(store.View(), key, c.doc, c.through, authority, now);
      }
      hide Trim, MayWrite, Rising;
      r := store.TrimUpdates(key, c.through, authority, now);
      persists := persists - {ticket};
      if r.Err? {
        if r.error == AuthorityLost {
          authorityLost := true;
        }
        return;
      }
      if compactedAt < c.through {
        compactedAt := c.through;
      }
    }

    /** The whole of Persist with nobody in between. What it says on success:
        the checkpoint is the room, under the room's epoch, and the log holds
        nothing the checkpoint covers once there was something to trim. */
    method Persist(store: Store, ticket: nat, now: nat) returns (r: Result<()>)
      requires Rising(LogOf(store.View(), key)) && ticket !in persists
      modifies this`persists, this`authorityLost, this`compactedAt, store`items, store`updateLogs
      ensures doc == old(doc) && lastOffset == old(lastOffset) && persists == old(persists)
      ensures r == if !open then Err(ConnectionClosed)
                  else if old(authorityLost) then Err(AuthorityLost)
                  else MayWrite(old(store.View()), key, authority, now)
      ensures authorityLost <==> old(authorityLost) || r == Err(AuthorityLost)
      ensures compactedAt == if r.Ok? && lastOffset > old(compactedAt) then lastOffset else old(compactedAt)
      ensures r.Err? ==> store.View() == old(store.View())
      ensures Elsewhere(old(store.View()), store.View(), key)
      ensures r.Ok? ==>
                && BaseOf(store.View(), key) == Checkpoint(doc, lastOffset, EpochOf(authority))
                && LogOf(store.View(), key) ==
                     if lastOffset > old(compactedAt) then After(LogOf(old(store.View()), key), lastOffset)
                     else LogOf(old(store.View()), key)
    {
      ghost var before := store.View();
      hide MayWrite, After, Save, Trim, LogOf, BaseOf, Rising, EpochOf, Elsewhere;
      NowhereElse(before, key);
      RefusedPersist(before, key, Capture(doc, lastOffset, true, false), authority, now);
      var captured := CaptureState(ticket);
      if captured.Err? {
        return captured;
      }
      var saved := SaveCaptured(store, ticket, now);
      if saved.Err? {
        return saved;
      }
      SaveEffect(before, key, doc, lastOffset, authority, now);
      SaveElsewhere(before, key, doc, lastOffset, authority, now);
      ghost var middle := store.View();
      SameWrites(before, middle, key, authority, now);
      TrimElsewhere(middle, key, lastOffset, authority, now);
      BothElsewhere(before, middle, Trim(middle, key, lastOffset, authority, now), key);
      if ticket in persists {
        var trimmed := TrimCaptured(store, ticket, now);
        TrimEffect(middle, key, lastOffset, authority, now);
      }
      r := Ok(());
    }

    /** RevalidateAuthority: a fence that is gone or has changed is lost. */
    method Revalidate(resolved: Result<Option<Fence>>) returns (r: Result<()>)
      modifies this`authorityLost
      ensures old(authorityLost) ==> r == Err(AuthorityLost) && authorityLost
      ensures !old(authorityLost) && authority.None? ==> r == Ok(()) && !authorityLost
      ensures !old(authorityLost) && authority.Some? ==>
                (authorityLost <==> resolved == Err(AuthorityLost) || (resolved.Ok? && resolved.value != authority)) &&
                (r.Ok? <==> resolved == Ok(authority))
    {
      if authorityLost {
        return Err(AuthorityLost);
      }
      if authority.None? {
        return Ok(());
      }
      if resolved.Err? {
        if resolved.error == AuthorityLost {
          authorityLost := true;
        }
        return Err(resolved.error);
      }
      if resolved.value != authority {
        authorityLost := true;
        return Err(AuthorityLost);
      }
      r := Ok(());
    }
  }

  /** Every other document has the log, the counter and the checkpoint it had. */
  ghost predicate Elsewhere(a: State, b: State, k: Key) {
    forall other :: other != k ==>
      LogOf(a, other) == LogOf(b, other) && NextOf(a, other) == NextOf(b, other) && BaseOf(a, other) == BaseOf(b, other)
  }

  lemma NowhereElse(st: State, k: Key)
    ensures Elsewhere(st, st, k)
  {
  }

  lemma SaveElsewhere(st: State, k: Key, doc: Doc, through: nat, fence: Option<Fence>, now: nat)
    ensures Elsewhere(st, Save(st, k, doc, through, 0, fence, now), k)
  {
    hide MayWrite;
  }

  lemma TrimElsewhere(st: State, k: Key, through: nat, fence: Option<Fence>, now: nat)
    ensures Elsewhere(st, Trim(st, k, through, fence, now), k)
  {
    hide MayWrite, After;
    WithLogIs(st, k, After(LogOf(st, k), through));
  }

  lemma BothElsewhere(a: State, b: State, c: State, k: Key)
    requires Elsewhere(a, b, k) && Elsewhere(b, c, k)
    ensures Elsewhere(a, c, k)
  {
    hide LogOf, NextOf, BaseOf;
  }

  lemma RefusedPersist(st: State, k: Key, c: Capture, fence: Option<Fence>, now: nat)
    ensures MayWrite(st, k, fence, now).Err? ==> Save(st, k, c.doc, c.through, 0, fence, now) == st
  {
    hide MayWrite;
  }

  lemma RefusedWrites(st: State, k: Key, doc: Doc, through: nat, fence: Option<Fence>, now: nat)
    requires MayWrite(st, k, fence, now).Err?
    ensures Append(st, k, doc, fence, now) == st && Trim(st, k, through, fence, now) == st
    ensures Save(st, k, doc, through, 0, fence, now) == st
  {
  }

  lemma SameWrites(a: State, b: State, k: Key, fence: Option<Fence>, now: nat)
    requires a.leases == b.leases && a.placements == b.placements
    ensures MayWrite(a, k, fence, now) == MayWrite(b, k, fence, now)
  {
    hide ValidKey, CheckFence;
  }

  /** CompactUpdateLogAuthoritative with nobody in between: the replayed tail
      becomes the checkpoint, then goes from the log. */
  method CompactLog(store: Store, k: Key, base: Doc, after: nat, limit: int, fence: Fence, now: nat)
    returns (r: Result<Replayed>)
    requires ValidKey(k) && Rising(LogOf(store.View(), k))
    modifies store`items, store`updateLogs
    ensures var replay := ReplayAll(After(LogOf(old(store.View()), k), after), Replayed(base, after, 0, 0));
            && (CheckFence(fence).Err? ==> r == Err(CheckFence(fence).error) && store.View() == old(store.View()))
            && (replay.Err? && CheckFence(fence).Ok? ==> r == replay && store.View() == old(store.View()))
            && (replay.Ok? && replay.value.applied == 0 && CheckFence(fence).Ok? ==> r == replay && store.View() == old(store.View()))
            && (replay.Ok? && replay.value.applied > 0 && MayWrite(old(store.View()), k, Some(fence), now).Ok? ==>
                  && r == Ok(replay.value.(epoch := Max(replay.value.epoch, fence.owner.epoch)))
                  && BaseOf(store.View(), k) == Checkpoint(replay.value.doc, replay.value.through, fence.owner.epoch)
                  && LogOf(store.View(), k) == After(LogOf(old(store.View()), k), replay.value.through))
            && (CheckFence(fence).Ok? && replay.Ok? && replay.value.applied > 0
                && MayWrite(old(store.View()), k, Some(fence), now).Err? ==>
                  r == Err(MayWrite(old(store.View()), k, Some(fence), now).error))
    ensures MayWrite(old(store.View()), k, Some(fence), now).Err? ==> store.View() == old(store.View())
  {
    ghost var before := store.View();
    if MayWrite(before, k, Some(fence), now).Err? {
      RefusedWrites(before, k, base, 0, Some(fence), now);
    }
    FenceChecked(before, k, fence, now);
    hide MayWrite, After, Save, Trim, LogOf, BaseOf, Rising, ReplayAll, CheckFence;
    var checked := CheckFence(fence);
    if checked.Err? {
      return Err(checked.error);
    }
    var replay := ReplayLog(store, k, base, after, BoundedLimit(limit), 0);
    if replay.Err? || replay.value.applied == 0 {
      return replay;
    }
    var out := replay.value;
    var saved := SaveOrKeep(store, k, out.doc, out.through, fence, now);
    if saved.Err? {
      return Err(saved.error);
    }
    SaveEffect(before, k, out.doc, out.through, Some(fence), now);
    ghost var middle := store.View();
    SameWrites(before, middle, k, Some(fence), now);
    var trimmed := store.TrimUpdates(k, out.through, Some(fence), now);
    TrimEffect(middle, k, out.through, Some(fence), now);
    r := Ok(out.(epoch := if out.epoch < fence.owner.epoch then fence.owner.epoch else out.epoch));
  }

  method SaveOrKeep(store: Store, k: Key, doc: Doc, through: nat, fence: Fence, now: nat) returns (r: Result<()>)
    modifies store`items
    ensures r == MayWrite(old(store.View()), k, Some(fence), now)
    ensures store.View() == Save(old(store.View()), k, doc, through, 0, Some(fence), now)
    ensures r.Err? ==> store.View() == old(store.View())
  {
    if MayWrite(store.View(), k, Some(fence), now).Err? {
      RefusedWrites(store.View(), k, doc, through, Some(fence), now);
    }
    hide MayWrite, Save;
    r := store.SaveCheckpoint(k, doc, through, 0, Some(fence), now);
  }

  lemma FenceChecked(st: State, k: Key, f: Fence, now: nat)
    requires ValidKey(k)
    ensures CheckFence(f).Err? ==> MayWrite(st, k, Some(f), now).Err?
  {
    hide ValidKey, CheckFence;
  }
}

