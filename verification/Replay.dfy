/** Replaying the update log over a checkpoint, page by page. */
module Replay {
  import opened Prelude
  import opened Storage
  import opened Fencing

  datatype Replayed = Replayed(doc: Doc, through: nat, applied: nat, epoch: nat)

  /** validateReplayEpochProgression: 0 stands for no epoch. */
  predicate Progresses(lastEpoch: nat, next: nat) {
    lastEpoch == 0 || next == 0 || lastEpoch <= next
  }

  /** Records applied one after the other. */
  function ReplayAll(records: seq<Record>, r: Replayed): Result<Replayed>
    decreases |records|
  {
    if records == [] then Ok(r)
    else
      var rec := records[0];
      if rec.offset <= r.through then Err(OffsetsOutOfOrder)
      else if !Progresses(r.epoch, rec.epoch) then Err(EpochRegression)
      else
        ReplayAll(records[1..], Replayed(r.doc + rec.update, rec.offset, r.applied + 1,
                                         if rec.epoch > 0 then rec.epoch else r.epoch))
  }

  lemma {:induction false} ReplayConcat(a: seq<Record>, b: seq<Record>, r: Replayed)
    ensures ReplayAll(a + b, r) ==
            match ReplayAll(a, r) { case Ok(m) => ReplayAll(b, m) case Err(e) => Err(e) }
    decreases |a|
  {
    if a == [] {
      assert a + b == b;
    } else {
      assert (a + b)[1..] == a[1..] + b;
      var rec := a[0];
      ReplayConcat(a[1..], b, Replayed(r.doc + rec.update, rec.offset, r.applied + 1,
                                       if rec.epoch > 0 then rec.epoch else r.epoch));
    }
  }

  function Joined(records: seq<Record>): Doc {
    if records == [] then {} else records[0].update + Joined(records[1..])
  }

  function LastOffset(records: seq<Record>, after: nat): nat {
    if records == [] then after else records[|records| - 1].offset
  }

  /** A successful replay is the join of the base and all updates, in one go. */
  lemma {:induction false} ReplayJoins(records: seq<Record>, r: Replayed)
    requires ReplayAll(records, r).Ok?
    ensures var out := ReplayAll(records, r).value;
            && out.doc == r.doc + Joined(records) && out.through == LastOffset(records, r.through)
            && out.applied == r.applied + |records| && out.through >= r.through
    decreases |records|
  {
    if records != [] {
      var rec := records[0];
      ReplayJoins(records[1..], Replayed(r.doc + rec.update, rec.offset, r.applied + 1,
                                         if rec.epoch > 0 then rec.epoch else r.epoch));
    }
  }

  // ----- Epochs -----

  /** The epoch of the last record that has one, or the initial one. */
  function FinalEpoch(records: seq<Record>, initial: nat): nat {
    if records == [] then initial
    else if records[|records| - 1].epoch != 0 then records[|records| - 1].epoch
    else FinalEpoch(records[..|records| - 1], initial)
  }

  lemma {:induction false} FinalEpochCons(rec: Record, records: seq<Record>, initial: nat)
    ensures FinalEpoch([rec] + records, initial) ==
            FinalEpoch(records, if rec.epoch != 0 then rec.epoch else initial)
    decreases |records|
  {
    var all := [rec] + records;
    if records != [] {
      assert all[..|all| - 1] == [rec] + records[..|records| - 1];
      FinalEpochCons(rec, records[..|records| - 1], initial);
    } else {
      assert all[..0] == [];
    }
  }

  /** A replay that succeeds ends with the last epoch it has seen. */
  lemma {:induction false} ReplayEndsWith(records: seq<Record>, r: Replayed)
    requires ReplayAll(records, r).Ok?
    ensures ReplayAll(records, r).value.epoch == FinalEpoch(records, r.epoch)
    decreases |records|
  {
    if records != [] {
      var rec := records[0];
      ReplayEndsWith(records[1..], Replayed(r.doc + rec.update, rec.offset, r.applied + 1,
                                            if rec.epoch > 0 then rec.epoch else r.epoch));
      FinalEpochCons(rec, records[1..], r.epoch);
      assert records == [rec] + records[1..];
    }
  }

  /** The greatest epoch among the first records and the initial one. */
  function Greatest(records: seq<Record>, n: nat, initial: nat): nat
    requires n <= |records|
  {
    if n == 0 then initial else Max(Greatest(records, n - 1, initial), records[n - 1].epoch)
  }

  lemma {:induction false} GreatestCons(records: seq<Record>, n: nat, initial: nat)
    requires 0 < n <= |records|
    ensures Greatest(records, n, initial) == Greatest(records[1..], n - 1, Max(initial, records[0].epoch))
  {
    if n > 1 {
      GreatestCons(records, n - 1, initial);
    } else {
      assert Greatest(records, 0, initial) == initial;
    }
  }

  /** The offset of record i is not above the one before it. */
  predicate Falls(records: seq<Record>, after: nat, i: nat)
    requires i < |records|
  {
    records[i].offset <= if i == 0 then after else records[i - 1].offset
  }

  /** Record i has an epoch, below one that was seen before it. */
  predicate Regresses(records: seq<Record>, initial: nat, i: nat)
    requires i < |records|
  {
    0 < records[i].epoch < Greatest(records, i, initial)
  }

  lemma BadCons(records: seq<Record>, after: nat, initial: nat, i: nat)
    requires 0 < i < |records|
    ensures Falls(records, after, i) == Falls(records[1..], records[0].offset, i - 1)
    ensures Regresses(records, initial, i) == Regresses(records[1..], Max(initial, records[0].epoch), i - 1)
  {
    GreatestCons(records, i, initial);
  }

  /** None of the first records falls or regresses. */
  predicate AllGood(records: seq<Record>, after: nat, initial: nat, n: nat)
    requires n <= |records|
  {
    forall i :: 0 <= i < n ==> !Falls(records, after, i) && !Regresses(records, initial, i)
  }

  lemma GoodCons(records: seq<Record>, after: nat, initial: nat, n: nat)
    requires n < |records| && !Falls(records, after, 0) && !Regresses(records, initial, 0)
    requires AllGood(records[1..], records[0].offset, Max(initial, records[0].epoch), n)
    ensures AllGood(records, after, initial, n + 1)
  {
    hide Falls, Regresses;
    forall i | 0 <= i < n + 1
      ensures !Falls(records, after, i) && !Regresses(records, initial, i)
    {
      if i > 0 {
        BadCons(records, after, initial, i);
      }
    }
  }

  /** How far a replay comes, and why no further. */
  lemma {:induction false} ReplayStops(records: seq<Record>, r: Replayed) returns (n: nat)
    ensures n <= |records| && AllGood(records, r.through, r.epoch, n)
    ensures ReplayAll(records, r).Ok? <==> n == |records|
    ensures n < |records| ==> Falls(records, r.through, n) || Regresses(records, r.epoch, n)
    ensures n < |records| ==>
              ReplayAll(records, r) == Err(if Falls(records, r.through, n) then OffsetsOutOfOrder else EpochRegression)
    decreases |records|
  {
    n := 0;
    if records != [] {
      var rec, tail := records[0], records[1..];
      assert Falls(records, r.through, 0) <==> rec.offset <= r.through;
      assert Regresses(records, r.epoch, 0) <==> !Progresses(r.epoch, rec.epoch);
      if !Falls(records, r.through, 0) && !Regresses(records, r.epoch, 0) {
        var next := Replayed(r.doc + rec.update, rec.offset, r.applied + 1, if rec.epoch > 0 then rec.epoch else r.epoch);
        assert next.epoch == Max(r.epoch, rec.epoch) && ReplayAll(records, r) == ReplayAll(tail, next);
        hide Falls, Regresses, ReplayAll, AllGood;
        var m := ReplayStops(tail, next);
        GoodCons(records, r.through, r.epoch, m);
        n := m + 1;
        if n < |records| {
          BadCons(records, r.through, r.epoch, n);
        }
      }
    }
  }

  /** The first record that falls or regresses falls. */
  predicate FallsFirst(records: seq<Record>, after: nat, initial: nat, n: nat) {
    n < |records| && AllGood(records, after, initial, n) && Falls(records, after, n)
  }

  /** It only regresses: the offsets rise up to it. */
  predicate RegressesFirst(records: seq<Record>, after: nat, initial: nat, n: nat) {
    n < |records| && AllGood(records, after, initial, n) && !Falls(records, after, n) && Regresses(records, initial, n)
  }

  /** A replay succeeds exactly if no record falls or regresses, and its error
      says which of the two the first such record does. */
  lemma ReplayExact(records: seq<Record>, r: Replayed)
    ensures ReplayAll(records, r).Ok? <==> AllGood(records, r.through, r.epoch, |records|)
    ensures ReplayAll(records, r) == Err(OffsetsOutOfOrder) <==>
            exists n: nat :: FallsFirst(records, r.through, r.epoch, n)
    ensures ReplayAll(records, r) == Err(EpochRegression) <==>
            exists n: nat :: RegressesFirst(records, r.through, r.epoch, n)
  {
    hide Falls, Regresses, ReplayAll;
    var m := ReplayStops(records, r);
    assert m < |records| ==> FallsFirst(records, r.through, r.epoch, m) || RegressesFirst(records, r.through, r.epoch, m);
    forall n: nat | FallsFirst(records, r.through, r.epoch, n) || RegressesFirst(records, r.through, r.epoch, n)
      ensures n == m
    {
    }
  }

  /** Rising offsets and epochs that never fall are all a replay asks for. */
  lemma {:induction false} ReplaySucceeds(records: seq<Record>, r: Replayed)
    requires Rising(records) && (forall i :: 0 <= i < |records| ==> records[i].offset > r.through && records[i].epoch >= r.epoch)
    requires forall i, j :: 0 <= i < j < |records| ==> records[i].epoch <= records[j].epoch
    ensures ReplayAll(records, r).Ok?
    decreases |records|
  {
    if records != [] {
      var rec, tail := records[0], records[1..];
      assert forall i :: 0 <= i < |tail| ==> tail[i] == records[i + 1];
      ReplaySucceeds(tail, Replayed(r.doc + rec.update, rec.offset, r.applied + 1,
                                    if rec.epoch > 0 then rec.epoch else r.epoch));
    }
  }

  /** replayUpdateBatchContext: one page. */
  method ReplayBatch(records: seq<Record>, start: Replayed) returns (r: Result<Replayed>)
    ensures r == ReplayAll(records, start)
  {
    var out := start;
    assert records[0..] == records;
    for i := 0 to |records|
      invariant ReplayAll(records, start) == ReplayAll(records[i..], out)
    {
      var rec := records[i];
      assert records[i..][0] == rec && records[i..][1..] == records[i + 1..];
      if rec.offset <= out.through {
        return Err(OffsetsOutOfOrder);
      }
      if !Progresses(out.epoch, rec.epoch) {
        return Err(EpochRegression);
      }
      out := Replayed(out.doc + rec.update, rec.offset, out.applied + 1, if rec.epoch > 0 then rec.epoch
          else out.epoch);
    }
    r := Ok(out);
  }

  /** What comes after a page is what it has left over. */
  lemma AfterPage(log: seq<Record>, after: nat, limit: int)
    requires Rising(log)
    ensures var rest, page := After(log, after), Page(log, after, limit);
            && page == rest[..|page|] && (page == [] <==> rest == []) && |page| <= |rest|
            && (page != [] ==> After(log, page[|page| - 1].offset) == rest[|page|..])
  {
    UpToSplits(log, after);
    var rest, page := After(log, after), Page(log, after, limit);
    if page != [] {
      var n := UpTo(log, after) + |page|;
      var last := page[|page| - 1].offset;
      assert last == log[n - 1].offset;
      UpToSplits(log, last);
      assert UpTo(log, last) == n by {
        assert log[n - 1].offset <= last;
        assert n < |log| ==> log[n].offset > last;
      }
    }
  }

  /** replayUpdateLogContext: pages until one is empty. Whatever the page size,
      the result is that of all records at once. */
  method ReplayLog(store: Store, k: Key, base: Doc, after: nat, limit: int, initialEpoch: nat)
    returns (r: Result<Replayed>)
    requires ValidKey(k) && Rising(LogOf(store.View(), k))
    ensures r == ReplayAll(After(LogOf(store.View(), k), after), Replayed(base, after, 0, initialEpoch))
  {
    ghost var log := LogOf(store.View(), k);
    var out := Replayed(base, after, 0, initialEpoch);
    ghost var want := ReplayAll(After(log, after), out);
    while true
      invariant want == ReplayAll(After(log, out.through), out)
      decreases |After(log, out.through)|
    {
      hide ReplayAll, After, Page, Rising;
      AfterPage(log, out.through, limit);
      var listed := store.ListUpdates(k, out.through, limit);
      var records := listed.value;
      if |records| == 0 {
        break;
      }
      ghost var rest := After(log, out.through);
      assert records + rest[|records|..] == rest;
      ReplayConcat(records, rest[|records|..], out);
      var next := ReplayBatch(records, out);
      if next.Err? {
        return Err(next.error);
      }
      ReplayJoins(records, out);
      out := next.value;
    }
    r := Ok(out);
  }

  /** `tail` is what was listed up to `out`; replaying the rest is still to do. */
  ghost predicate ListedTo(log: seq<Record>, all: seq<Record>, start: Replayed, tail: seq<Record>, out: Replayed) {
    tail + After(log, out.through) == all && ReplayAll(all, start) == ReplayAll(After(log, out.through), out)
  }

  lemma ListedNone(log: seq<Record>, start: Replayed)
    ensures ListedTo(log, After(log, start.through), start, [], start)
  {
    assert [] + After(log, start.through) == After(log, start.through);
  }

  lemma ListedPage(log: seq<Record>, all: seq<Record>, start: Replayed, tail: seq<Record>, out: Replayed, limit: int)
    requires Rising(log) && ListedTo(log, all, start, tail, out)
    ensures var page := Page(log, out.through, limit);
            var next := ReplayAll(page, out);
            && (page == [] ==> ReplayAll(all, start) == Ok(out) && tail == all)
            && (page != [] && next.Err? ==> ReplayAll(all, start) == next)
            && (page != [] && next.Ok? ==>
                  ListedTo(log, all, start, tail + page, next.value) &&
                  |After(log, next.value.through)| < |After(log, out.through)|)
  {
    hide Page, After, Rising;
    AfterPage(log, out.through, limit);
    var rest, page := After(log, out.through), Page(log, out.through, limit);
    if page == [] {
      assert tail + [] == tail;
    } else {
      assert page + rest[|page|..] == rest;
      ReplayConcat(page, rest[|page|..], out);
      hide ReplayAll;
      if ReplayAll(page, out).Ok? {
        ReplayJoins(page, out);
        Assoc(tail, page, rest[|page|..]);
      }
    }
  }

  /** listReplayTailContext: all pages collected, with the same checks. */
  method ListTail(store: Store, k: Key, after: nat, limit: int, checkpointEpoch: nat)
    returns (r: Result<(seq<Record>, nat, nat)>)
    requires ValidKey(k) && Rising(LogOf(store.View(), k))
    ensures var tail := After(LogOf(store.View(), k), after);
            match ReplayAll(tail, Replayed({}, after, 0, checkpointEpoch))
            case Ok(out) => r == Ok((tail, out.through, out.epoch))
            case Err(e) => r == Err(e)
  {
    hide ReplayAll, After, Page, Rising, ListedTo;
    ghost var log := LogOf(store.View(), k);
    ghost var all := After(log, after);
    ghost var start := Replayed({}, after, 0, checkpointEpoch);
    ghost var out := start;
    var tail: seq<Record> := [];
    var through, epoch := after, checkpointEpoch;
    ListedNone(log, start);
    while true
      invariant through == out.through && epoch == out.epoch && ListedTo(log, all, start, tail, out)
      decreases |After(log, out.through)|
    {
      ListedPage(log, all, start, tail, out, limit);
      var listed := store.ListUpdates(k, through, limit);
      var records := listed.value;
      if |records| == 0 {
        break;
      }
      var batch := CheckBatch(records, through, epoch, out);
      if batch.Err? {
        return Err(batch.error);
      }
      out := ReplayAll(records, out).value;
      tail := tail + records;
      through, epoch := batch.value.0, batch.value.1;
    }
    r := Ok((tail, through, epoch));
  }

  method CheckBatch(records: seq<Record>, through0: nat, epoch0: nat, ghost start: Replayed)
    returns (r: Result<(nat, nat)>)
    requires start.through == through0 && start.epoch == epoch0
    ensures match ReplayAll(records, start)
            case Ok(out) => r == Ok((out.through, out.epoch))
            case Err(e) => r == Err(e)
  {
    ghost var out := start;
    var through, epoch := through0, epoch0;
    assert records[0..] == records;
    for i := 0 to |records|
      invariant through == out.through && epoch == out.epoch
      invariant ReplayAll(records, start) == ReplayAll(records[i..], out)
    {
      var rec := records[i];
      assert records[i..][0] == rec && records[i..][1..] == records[i + 1..];
      if rec.offset <= through {
        return Err(OffsetsOutOfOrder);
      }
      if !Progresses(epoch, rec.epoch) {
        return Err(EpochRegression);
      }
      out := Replayed(out.doc + rec.update, rec.offset, out.applied + 1, if rec.epoch > 0 then rec.epoch
          else out.epoch);
      through := rec.offset;
      if rec.epoch > 0 {
        epoch := rec.epoch;
      }
    }
    r := Ok((through, epoch));
  }

  // ----- Recovery -----

  datatype Recovery = Recovery(doc: Doc, checkpointThrough: nat, checkpointEpoch: nat, lastOffset: nat, lastEpoch: nat,
                               applied: nat)

  function BaseOf(st: State, k: Key): Checkpoint {
    if k in st.items then st.items[k] else Checkpoint({}, 0, 0)
  }

  /** The checkpoint, and the tail of the log behind it. */
  function Recovered(st: State, k: Key, after: nat): Result<Recovery> {
    if !ValidKey(k) then Err(InvalidDocumentKey)
    else
      var base := BaseOf(st, k);
      if base.through > 0 && after > 0 && after != base.through then Err(CheckpointMismatch)
      else
        var from := if after < base.through then base.through else after;
        var out :- ReplayAll(After(LogOf(st, k), from), Replayed(base.doc, from, 0, base.epoch));
        Ok(Recovery(out.doc, base.through, base.epoch, out.through, out.epoch, out.applied))
  }

  /** With a checkpoint a caller may name no other offset than its own; without
      one, recovery starts behind the offset named. */
  lemma RecoveredAfter(st: State, k: Key, after: nat)
    requires ValidKey(k)
    ensures var base := BaseOf(st, k);
            && (base.through > 0 && after in {0, base.through} ==> Recovered(st, k, after) == Recovered(st, k, 0))
            && (Recovered(st, k, after) == Err(CheckpointMismatch) <==>
                  base.through > 0 && after !in {0, base.through})
            && (base.through == 0 && Recovered(st, k, after).Ok? ==>
                  && Recovered(st, k, after).value.doc == base.doc + Joined(After(LogOf(st, k), after))
                  && Recovered(st, k, after).value.lastOffset == LastOffset(After(LogOf(st, k), after), after)
                  && Recovered(st, k, after).value.lastEpoch == FinalEpoch(After(LogOf(st, k), after), base.epoch))
  {
    hide ValidKey, After, LogOf, BaseOf, ReplayAll;
    var base := BaseOf(st, k);
    var from := if after < base.through then base.through else after;
    var rest, start := After(LogOf(st, k), from), Replayed(base.doc, from, 0, base.epoch);
    var n := ReplayStops(rest, start);
    if ReplayAll(rest, start).Ok? {
      ReplayJoins(rest, start);
      ReplayEndsWith(rest, start);
    }
  }

  function BoundedLimit(limit: int): int {
    if limit <= 0 then 512 else limit
  }

  /** RecoverSnapshotStateContext: paged replay over the checkpoint. */
  method RecoverState(store: Store, k: Key, after: nat, limit: int) returns (r: Result<Recovery>)
    requires Rising(LogOf(store.View(), k))
    ensures r == Recovered(store.View(), k, after)
  {
    if !ValidKey(k) {
      return Err(InvalidDocumentKey);
    }
    var base := if k in store.items then store.items[k] else Checkpoint({}, 0, 0);
    if base.through > 0 && after > 0 && after != base.through {
      return Err(CheckpointMismatch);
    }
    var from := if after < base.through then base.through else after;
    hide ReplayAll, After, Rising;
    var replay := ReplayLog(store, k, base.doc, from, BoundedLimit(limit), base.epoch);
    if replay.Err? {
      return Err(replay.error);
    }
    var out := replay.value;
    r := Ok(Recovery(out.doc, base.through, base.epoch, out.through, out.epoch, out.applied));
  }

  lemma {:induction false} SameChecks(records: seq<Record>, a: Replayed, b: Replayed)
    requires a.through == b.through && a.epoch == b.epoch
    ensures var x, y := ReplayAll(records, a), ReplayAll(records, b);
            if x.Ok? then y.Ok? && x.value.through == y.value.through && x.value.epoch == y.value.epoch
            else y.Err? && x.error == y.error
    decreases |records|
  {
    if records != [] {
      var rec := records[0];
      var epoch := if rec.epoch > 0 then rec.epoch else a.epoch;
      SameChecks(records[1..], Replayed(a.doc + rec.update, rec.offset, a.applied + 1, epoch),
                 Replayed(b.doc + rec.update, rec.offset, b.applied + 1, epoch));
    }
  }

  /** ReplaySnapshot: all updates merged at once. */
  method MergeAll(base: Doc, records: seq<Record>) returns (doc: Doc)
    ensures doc == base + Joined(records)
  {
    doc := base;
    assert records[0..] == records;
    for i := 0 to |records|
      invariant doc + Joined(records[i..]) == base + Joined(records)
    {
      assert records[i..][0] == records[i] && records[i..][1..] == records[i + 1..];
      doc := doc + records[i].update;
    }
  }

  /** RecoverSnapshot: the tail listed in full, then merged once. The result is
      that of the paged recovery, for any two page sizes. */
  method RecoverByList(store: Store, k: Key, after: nat, limit: int) returns (r: Result<Recovery>)
    requires Rising(LogOf(store.View(), k))
    ensures r == Recovered(store.View(), k, after)
  {
    if !ValidKey(k) {
      return Err(InvalidDocumentKey);
    }
    var base := if k in store.items then store.items[k] else Checkpoint({}, 0, 0);
    if base.through > 0 && after > 0 && after != base.through {
      return Err(CheckpointMismatch);
    }
    var from := if after < base.through then base.through else after;
    hide ReplayAll, After, Rising;
    ghost var all := After(LogOf(store.View(), k), from);
    SameChecks(all, Replayed({}, from, 0, base.epoch), Replayed(base.doc, from, 0, base.epoch));
    var listed := ListTail(store, k, from, limit, base.epoch);
    if listed.Err? {
      return Err(listed.error);
    }
    var (tail, through, epoch) := listed.value;
    ReplayJoins(all, Replayed(base.doc, from, 0, base.epoch));
    var doc := MergeAll(base.doc, tail);
    r := Ok(Recovery(doc, base.through, base.epoch, through, epoch, |tail|));
  }

  // ----- Logs built by the store -----

  lemma AfterOffsets(log: seq<Record>, after: nat)
    requires Rising(log)
    ensures var rest := After(log, after);
            Rising(rest) && (forall i :: 0 <= i < |rest| ==> rest[i].offset > after && rest[i] == log[UpTo(log, after) + i])
  {
    UpToSplits(log, after);
    hide UpTo;
    var n := UpTo(log, after);
    assert forall i :: 0 <= i < |log[n..]| ==> log[n..][i] == log[n + i];
  }

  /** Whatever was done to the store: while the document stays on its shard and
      is written under fences, a replay from no earlier epoch finds neither
      offsets out of order nor an epoch that falls. */
  lemma BuiltLogReplays(ops: seq<Op>, k: Key, s: string, base: Doc, after: nat)
    requires forall op :: op in ops ==> Fenced(op, k, s)
    ensures ReplayAll(After(LogOf(Exec(ops).st, k), after), Replayed(base, after, 0, 0)).Ok?
  {
    ExecLogOk(ops, k, s);
    hide Exec, Fenced, Started;
    var log := LogOf(Exec(ops).st, k);
    AfterOffsets(log, after);
    hide After, LogOf;
    ReplaySucceeds(After(log, after), Replayed(base, after, 0, 0));
  }
}
