/** The store of the distributed runtime: update log, checkpoints, placements
    and fenced leases. Time is a parameter; the zero time is 0. */
module Storage {
  import opened Prelude

  /** What a document holds, as a set: merging updates is union. */
  type Fact = int
  type Doc = set<Fact>

  datatype Key = Key(namespace: string, documentId: string)

  datatype Owner = Owner(node: string, epoch: nat)

  datatype Lease = Lease(shard: string, owner: Owner, token: string, acquiredAt: nat, expiresAt: nat)

  datatype Fence = Fence(shard: string, owner: Owner, token: string)

  datatype Record = Record(offset: nat, update: Doc, epoch: nat)

  datatype Checkpoint = Checkpoint(doc: Doc, through: nat, epoch: nat)

  datatype State = State(items: map<Key, Checkpoint>, logs: map<Key, seq<Record>>, next: map<Key, nat>,
                         placements: map<Key, string>, leases: map<string, Lease>, last: map<string, nat>)

  const EMPTY := State(map[], map[], map[], map[], map[], map[])

  /** White space in the sense of Unicode. */
  predicate Space(c: char) {
    || c in {' ', '\t', '\n', '\r', '\U{0B}', '\U{0C}', '\U{85}', '\U{A0}'}
    || c in {'\U{1680}', '\U{2028}', '\U{2029}', '\U{202F}', '\U{205F}', '\U{3000}'}
    || '\U{2000}' <= c <= '\U{200A}'
  }

  /** Nothing but white space. */
  predicate Blank(s: string) {
    forall i :: 0 <= i < |s| ==> Space(s[i])
  }

  predicate ValidKey(k: Key) {
    !Blank(k.documentId)
  }

  predicate ValidOwner(o: Owner) {
    !Blank(o.node) && o.epoch != 0
  }

  function CheckLease(l: Lease): Result<()> {
    if Blank(l.shard) then Err(InvalidShard)
    else if !ValidOwner(l.owner) then Err(InvalidOwner)
    else if Blank(l.token) then Err(InvalidLeaseToken)
    else if l.expiresAt == 0 then Err(InvalidLeaseExpiry)
    else if l.acquiredAt != 0 && l.expiresAt <= l.acquiredAt then Err(InvalidLeaseExpiry)
    else Ok(())
  }

  function CheckFence(f: Fence): Result<()> {
    if Blank(f.shard) then Err(InvalidShard)
    else if !ValidOwner(f.owner) then Err(InvalidOwner)
    else if Blank(f.token) then Err(InvalidLeaseToken)
    else Ok(())
  }

  function FenceOf(l: Lease): Fence {
    Fence(l.shard, l.owner, l.token)
  }

  /** A lease is in order if its fence is and it ends after its start; the zero
      time stands for no start. */
  lemma LeaseInOrder(l: Lease)
    ensures CheckLease(l).Ok? <==> CheckFence(FenceOf(l)).Ok? && l.expiresAt > l.acquiredAt
    ensures CheckFence(FenceOf(l)).Ok? <==>
            !Blank(l.shard) && !Blank(l.owner.node) && l.owner.epoch > 0 && !Blank(l.token)
  {
    hide Blank;
  }

  function LogOf(st: State, k: Key): seq<Record> {
    if k in st.logs then st.logs[k] else []
  }

  function NextOf(st: State, k: Key): nat {
    if k in st.next then st.next[k] else 0
  }

  function LastEpoch(st: State, shard: string): nat {
    if shard in st.last then st.last[shard] else 0
  }

  // ----- Leases -----

  function WithStart(l: Lease, now: nat): Lease {
    if l.acquiredAt == 0 then l.(acquiredAt := now) else l
  }

  /** What SaveLease would store, or why it refuses. */
  function Granted(st: State, lease: Lease, now: nat): Result<Lease> {
    var l := WithStart(lease, now);
    var _ :- CheckLease(l);
    var lastEpoch := LastEpoch(st, l.shard);
    var next :-
      if l.shard !in st.leases then
        if l.owner.epoch <= lastEpoch then Err(LeaseStaleEpoch) else Ok(l)
      else
        var current := st.leases[l.shard];
        if FenceOf(current) == FenceOf(l) then Ok(l.(acquiredAt := current.acquiredAt))
        else if current.expiresAt > l.acquiredAt then
          Err(if l.owner.epoch <= current.owner.epoch then LeaseStaleEpoch else LeaseConflict)
        else if l.owner.epoch <= current.owner.epoch || l.owner.epoch <= lastEpoch then Err(LeaseStaleEpoch)
        else Ok(l);
    if next.expiresAt <= next.acquiredAt then Err(InvalidLeaseExpiry) else Ok(next)
  }

  function Install(st: State, l: Lease): State {
    st.(leases := st.leases[l.shard := l],
        last := if l.owner.epoch > LastEpoch(st, l.shard) then st.last[l.shard := l.owner.epoch] else st.last)
  }

  function SaveLease(st: State, lease: Lease, now: nat): State {
    var g := Granted(st, lease, now);
    if g.Ok? then Install(st, g.value) else st
  }

  /** What HandoffLease would store: exactly the next epoch, from the owner. */
  function HandedOff(st: State, shard: string, token: string, next: Lease, now: nat): Result<Lease> {
    if Blank(shard) then Err(InvalidShard)
    else if Blank(token) then Err(InvalidLeaseToken)
    else if next.shard != shard then Err(InvalidShard)
    else
      var l := WithStart(next, now);
      var _ :- CheckLease(l);
      if l.expiresAt <= l.acquiredAt then Err(InvalidLeaseExpiry)
      else if shard !in st.leases then Err(LeaseNotFound)
      else
        var current := st.leases[shard];
        if current.token != token then Err(LeaseConflict)
        else if current.expiresAt <= l.acquiredAt then Err(LeaseConflict)
        else if l.owner.epoch != current.owner.epoch + 1 then Err(LeaseStaleEpoch)
        else if l.owner.epoch <= LastEpoch(st, shard) then Err(LeaseStaleEpoch)
        else Ok(l)
  }

  function HandoffLease(st: State, shard: string, token: string, next: Lease, now: nat): State {
    var g := HandedOff(st, shard, token, next, now);
    if g.Ok? then Install(st, g.value) else st
  }

  function Released(st: State, shard: string, token: string): Result<()> {
    if Blank(shard) then Err(InvalidShard)
    else if Blank(token) then Err(InvalidLeaseToken)
    else if shard !in st.leases || st.leases[shard].token != token then Err(LeaseNotFound)
    else Ok(())
  }

  function ReleaseLease(st: State, shard: string, token: string): State {
    if Released(st, shard, token).Err? then st
    else
      var epoch := st.leases[shard].owner.epoch;
      st.(leases := st.leases - {shard},
          last := if epoch > LastEpoch(st, shard) then st.last[shard := epoch] else st.last)
  }

  /** validateAuthorityLocked: the placement names the fence's shard, and the
      shard's lease is the fence's and has not expired. */
  predicate Authorized(st: State, k: Key, f: Fence, now: nat) {
    && k in st.placements && st.placements[k] == f.shard
    && f.shard in st.leases
    && st.leases[f.shard].owner == f.owner && st.leases[f.shard].token == f.token
    && st.leases[f.shard].expiresAt > now
  }

  /** A write may carry a fence; without one it is not checked. */
  function MayWrite(st: State, k: Key, fence: Option<Fence>, now: nat): Result<()> {
    if !ValidKey(k) then Err(InvalidDocumentKey)
    else if fence.None? then Ok(())
    else
      var _ :- CheckFence(fence.value);
      if Authorized(st, k, fence.value, now) then Ok(()) else Err(AuthorityLost)
  }

  function EpochOf(fence: Option<Fence>): nat {
    if fence.Some? then fence.value.owner.epoch else 0
  }

  // ----- Log and checkpoints -----

  function Append(st: State, k: Key, update: Doc, fence: Option<Fence>, now: nat): State {
    if MayWrite(st, k, fence, now).Err? then st
    else
      var offset := NextOf(st, k) + 1;
      st.(logs := st.logs[k := LogOf(st, k) + [Record(offset, update, EpochOf(fence))]], next := st.next[k := offset])
  }

  /** How many records at the front have offsets up to `through`. */
  function UpTo(log: seq<Record>, through: nat): (n: nat)
    ensures n <= |log|
  {
    if log == [] || log[0].offset > through then 0 else 1 + UpTo(log[1..], through)
  }

  function After(log: seq<Record>, after: nat): seq<Record> {
    log[UpTo(log, after)..]
  }

  /** An empty log has no entry. */
  function WithLog(st: State, k: Key, log: seq<Record>): State {
    if log == [] then st.(logs := st.logs - {k}) else st.(logs := st.logs[k := log])
  }

  lemma WithLogIs(st: State, k: Key, log: seq<Record>)
    ensures var next := WithLog(st, k, log);
            && LogOf(next, k) == log && (forall other :: other != k ==> LogOf(next, other) == LogOf(st, other))
            && next == st.(logs := next.logs)
  {
  }

  function Trim(st: State, k: Key, through: nat, fence: Option<Fence>, now: nat): State {
    if MayWrite(st, k, fence, now).Err? then st
    else
      var rest := After(LogOf(st, k), through);
      if rest == LogOf(st, k) then st else WithLog(st, k, rest)
  }

  function Save(st: State, k: Key, doc: Doc, through: nat, epoch: nat, fence: Option<Fence>, now: nat): State {
    if MayWrite(st, k, fence, now).Err? then st
    else st.(items := st.items[k := Checkpoint(doc, through, if fence.Some? then EpochOf(fence) else epoch)])
  }

  function Place(st: State, k: Key, shard: string): State {
    if !ValidKey(k) || Blank(shard) then st else st.(placements := st.placements[k := shard])
  }

  predicate Rising(log: seq<Record>) {
    forall i, j :: 0 <= i < j < |log| ==> log[i].offset < log[j].offset
  }

  /** In a log with rising offsets the count splits it exactly. */
  lemma {:induction false} UpToSplits(log: seq<Record>, through: nat)
    requires Rising(log)
    ensures forall i :: 0 <= i < |log| ==> (log[i].offset <= through <==> i < UpTo(log, through))
  {
    if log != [] {
      UpToSplits(log[1..], through);
      if log[0].offset <= through {
        forall i | 0 <= i < |log|
          ensures log[i].offset <= through <==> i < UpTo(log, through)
        {
          if i > 0 {
            assert log[1..][i - 1] == log[i];
          }
        }
      }
    }
  }

  /** firstUpdateLogIndexAfter: binary search for the first later offset. */
  method FirstIndexAfter(records: seq<Record>, after: nat) returns (k: nat)
    requires Rising(records)
    ensures k == UpTo(records, after)
  {
    UpToSplits(records, after);
    var low, high := 0, |records|;
    while low < high
      invariant 0 <= low <= UpTo(records, after) <= high <= |records|
    {
      var mid := (low + high) / 2;
      if records[mid].offset > after {
        high := mid;
      } else {
        low := mid + 1;
      }
    }
    k := low;
  }

  // ----- The store object -----

  class Store {
    var items: map<Key, Checkpoint>
    var updateLogs: map<Key, seq<Record>>
    var updateNext: map<Key, nat>
    var placements: map<Key, string>
    var leases: map<string, Lease>
    var leaseLast: map<string, nat>

    ghost function View(): State
      reads this
    {
      State(items, updateLogs, updateNext, placements, leases, leaseLast)
    }

    constructor ()
      ensures View() == EMPTY
    {
      items, updateLogs, updateNext, placements, leases, leaseLast := map[], map[], map[], map[], map[], map[];
    }

    /** The checks a write goes through. */
    method CheckWrite(k: Key, fence: Option<Fence>, now: nat) returns (r: Result<()>)
      ensures r == MayWrite(View(), k, fence, now)
    {
      if !ValidKey(k) {
        return Err(InvalidDocumentKey);
      }
      if fence.Some? {
        var checked := CheckFence(fence.value);
        if checked.Err? {
          return Err(checked.error);
        }
        var f := fence.value;
        if k !in placements || placements[k] != f.shard || f.shard !in leases {
          return Err(AuthorityLost);
        }
        var lease := leases[f.shard];
        if lease.owner != f.owner || lease.token != f.token || lease.expiresAt <= now {
          return Err(AuthorityLost);
        }
      }
      r := Ok(());
    }

    /** Without a payload it is refused, after the key but before the fence has
        been looked at. */
    method AppendUpdate(k: Key, payload: Option<Doc>, fence: Option<Fence>, now: nat) returns (r: Result<Record>)
      modifies this
      ensures payload.None? ==>
                View() == old(View()) && r == Err(if ValidKey(k) then InvalidPayload else InvalidDocumentKey)
      ensures payload.Some? ==>
                && View() == Append(old(View()), k, payload.value, fence, now)
                && match MayWrite(old(View()), k, fence, now)
                   case Err(e) => r == Err(e)
                   case Ok(_) => r == Ok(Record(NextOf(old(View()), k) + 1, payload.value, EpochOf(fence)))
    {
      if !ValidKey(k) {
        return Err(InvalidDocumentKey);
      }
      if payload.None? {
        return Err(InvalidPayload);
      }
      var update := payload.value;
      var may := CheckWrite(k, fence, now);
      if may.Err? {
        return Err(may.error);
      }
      var offset := (if k in updateNext then updateNext[k] else 0) + 1;
      var record := Record(offset, update, EpochOf(fence));
      updateLogs := updateLogs[k := (if k in updateLogs then updateLogs[k] else []) + [record]];
      updateNext := updateNext[k := offset];
      r := Ok(record);
    }

    /** Records after an offset, at most `limit` of them if that is positive. */
    method ListUpdates(k: Key, after: nat, limit: int) returns (r: Result<seq<Record>>)
      requires k in updateLogs ==> Rising(updateLogs[k])
      ensures r == if !ValidKey(k) then Err(InvalidDocumentKey) else Ok(Page(LogOf(View(), k), after, limit))
    {
      if !ValidKey(k) {
        return Err(InvalidDocumentKey);
      }
      var records := if k in updateLogs then updateLogs[k] else [];
      if |records| == 0 {
        return Ok([]);
      }
      var start := FirstIndexAfter(records, after);
      if start >= |records| {
        return Ok([]);
      }
      var maxResults := |records| - start;
      if limit > 0 && limit < maxResults {
        maxResults := limit;
      }
      ghost var rest := After(records, after);
      assert records[start..start + maxResults] == rest[..maxResults];
      assert maxResults == |rest| ==> rest[..maxResults] == rest;
      r := Ok(records[start..start + maxResults]);
    }

    method TrimUpdates(k: Key, through: nat, fence: Option<Fence>, now: nat) returns (r: Result<()>)
      requires k in updateLogs ==> Rising(updateLogs[k])
      modifies this`updateLogs
      ensures View() == Trim(old(View()), k, through, fence, now) && r == MayWrite(old(View()), k, fence, now)
    {
      r := CheckWrite(k, fence, now);
      if r.Err? {
        return;
      }
      var records := if k in updateLogs then updateLogs[k] else [];
      if |records| == 0 {
        return;
      }
      var firstRemaining := FirstIndexAfter(records, through);
      if firstRemaining == 0 {
        assert records[0..] == records;
        return;
      }
      assert |records[firstRemaining..]| < |records|;
      if firstRemaining >= |records| {
        updateLogs := updateLogs - {k};
        return;
      }
      updateLogs := updateLogs[k := records[firstRemaining..]];
    }

    method SaveCheckpoint(k: Key, doc: Doc, through: nat, epoch: nat, fence: Option<Fence>,
          now: nat) returns (r: Result<()>)
      modifies this`items
      ensures View() == Save(old(View()), k, doc, through, epoch, fence, now)
      ensures r == MayWrite(old(View()), k, fence, now)
    {
      r := CheckWrite(k, fence, now);
      if r.Ok? {
        items := items[k := Checkpoint(doc, through, if fence.Some? then EpochOf(fence) else epoch)];
      }
    }

    method SavePlacement(k: Key, shard: string) returns (r: Result<()>)
      modifies this`placements
      ensures View() == Place(old(View()), k, shard)
      ensures r.Ok? <==> ValidKey(k) && !Blank(shard)
    {
      if !ValidKey(k) {
        return Err(InvalidDocumentKey);
      }
      if Blank(shard) {
        return Err(InvalidShard);
      }
      placements := placements[k := shard];
      r := Ok(());
    }

    /** Grant, renew or take over. */
    method SaveLeaseRecord(lease: Lease, now: nat) returns (r: Result<Lease>)
      modifies this`leases, this`leaseLast
      ensures View() == SaveLease(old(View()), lease, now) && r == Granted(old(View()), lease, now)
    {
      var record := WithStart(lease, now);
      var checked := CheckLease(record);
      if checked.Err? {
        return Err(checked.error);
      }
      var opTime := record.acquiredAt;
      var lastEpoch := if record.shard in leaseLast then leaseLast[record.shard] else 0;
      if record.shard !in leases {
        if record.owner.epoch <= lastEpoch {
          return Err(LeaseStaleEpoch);
        }
      } else {
        var current := leases[record.shard];
        if current.shard == record.shard && current.owner == record.owner && current.token == record.token {
          record := record.(acquiredAt := current.acquiredAt);
        } else if current.expiresAt > opTime {
          return Err(if record.owner.epoch <= current.owner.epoch then LeaseStaleEpoch else LeaseConflict);
        } else if record.owner.epoch <= current.owner.epoch || record.owner.epoch <= lastEpoch {
          return Err(LeaseStaleEpoch);
        }
      }
      if record.expiresAt <= record.acquiredAt {
        return Err(InvalidLeaseExpiry);
      }
      if record.owner.epoch > lastEpoch {
        leaseLast := leaseLast[record.shard := record.owner.epoch];
      }
      leases := leases[record.shard := record];
      r := Ok(record);
    }

    method HandoffLeaseRecord(shard: string, token: string, next: Lease, now: nat) returns (r: Result<Lease>)
      modifies this`leases, this`leaseLast
      ensures View() == HandoffLease(old(View()), shard, token, next, now)
      ensures r == HandedOff(old(View()), shard, token, next, now)
    {
      if Blank(shard) {
        return Err(InvalidShard);
      }
      if Blank(token) {
        return Err(InvalidLeaseToken);
      }
      if next.shard != shard {
        return Err(InvalidShard);
      }
      var record := WithStart(next, now);
      var checked := CheckLease(record);
      if checked.Err? {
        return Err(checked.error);
      }
      if record.expiresAt <= record.acquiredAt {
        return Err(InvalidLeaseExpiry);
      }
      if shard !in leases {
        return Err(LeaseNotFound);
      }
      var current := leases[shard];
      if current.token != token || current.expiresAt <= record.acquiredAt {
        return Err(LeaseConflict);
      }
      var lastEpoch := if shard in leaseLast then leaseLast[shard] else 0;
      if record.owner.epoch != current.owner.epoch + 1 || record.owner.epoch <= lastEpoch {
        return Err(LeaseStaleEpoch);
      }
      leaseLast := leaseLast[shard := record.owner.epoch];
      leases := leases[shard := record];
      r := Ok(record);
    }

    method ReleaseLeaseRecord(shard: string, token: string) returns (r: Result<()>)
      modifies this`leases, this`leaseLast
      ensures View() == ReleaseLease(old(View()), shard, token) && r == Released(old(View()), shard, token)
    {
      if Blank(shard) {
        return Err(InvalidShard);
      }
      if Blank(token) {
        return Err(InvalidLeaseToken);
      }
      if shard !in leases || leases[shard].token != token {
        return Err(LeaseNotFound);
      }
      var record := leases[shard];
      if record.owner.epoch > (if shard in leaseLast then leaseLast[shard] else 0) {
        leaseLast := leaseLast[shard := record.owner.epoch];
      }
      leases := leases - {shard};
      r := Ok(());
    }
  }

  function Page(log: seq<Record>, after: nat, limit: int): seq<Record> {
    var rest := After(log, after);
    if 0 < limit < |rest| then rest[..limit] else rest
  }

  /** A page is the run of records that starts with the first later offset. It
      ends early only at a positive limit, and then it is as long as the limit. */
  lemma PageExact(log: seq<Record>, after: nat, limit: int)
    requires Rising(log)
    ensures var page, n := Page(log, after, limit), UpTo(log, after);
      && |page| == (if 0 < limit <= |log| - n then limit else |log| - n) && page == log[n..n + |page|]
      && forall i :: 0 <= i < |log| ==> (log[i].offset > after <==> n <= i)
  {
    UpToSplits(log, after);
  }
}
