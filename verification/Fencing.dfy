/** Fencing over whole runs: every sequence of operations on a store, any
    interleaving of clients. */
module Fencing {
  import opened Prelude
  import opened Storage

  datatype Op =
    | Appends(key: Key, update: Doc, fence: Option<Fence>, now: nat)
    | Trims(key: Key, through: nat, fence: Option<Fence>, now: nat)
    | Saves(key: Key, doc: Doc, through: nat, epoch: nat, fence: Option<Fence>, now: nat)
    | Places(key: Key, shard: string)
    | Leases(lease: Lease, now: nat)
    | HandsOff(shard: string, token: string, next: Lease, now: nat)
    | Releases(shard: string, token: string)

  /** One operation; a refused one changes nothing. */
  function Step(st: State, op: Op): State {
    match op
    case Appends(k, update, fence, now) => Append(st, k, update, fence, now)
    case Trims(k, through, fence, now) => Trim(st, k, through, fence, now)
    case Saves(k, doc, through, epoch, fence, now) => Save(st, k, doc, through, epoch, fence, now)
    case Places(k, shard) => Place(st, k, shard)
    case Leases(lease, now) => SaveLease(st, lease, now)
    case HandsOff(shard, token, next, now) => HandoffLease(st, shard, token, next, now)
    case Releases(shard, token) => ReleaseLease(st, shard, token)
  }

  predicate Holds(st: State, f: Fence) {
    f.shard in st.leases && FenceOf(st.leases[f.shard]) == f
  }

  /** The generation an operation starts: not for a renewal. */
  function NewGeneration(st: State, op: Op): seq<Fence> {
    match op
    case Leases(lease, now) =>
      var g := Granted(st, lease, now);
      if g.Ok? && !Holds(st, FenceOf(g.value)) then [FenceOf(g.value)] else []
    case HandsOff(shard, token, next, now) =>
      var g := HandedOff(st, shard, token, next, now);
      if g.Ok? then [FenceOf(g.value)] else []
    case _ => []
  }

  datatype World = World(st: State, generations: seq<Fence>)

  function Apply(w: World, op: Op): World {
    World(Step(w.st, op), w.generations + NewGeneration(w.st, op))
  }

  /** A run from the empty store, with all generations it has started. */
  function Exec(ops: seq<Op>): World {
    if ops == [] then World(EMPTY, []) else Apply(Exec(ops[..|ops| - 1]), ops[|ops| - 1])
  }

  // ----- The invariant -----

  predicate LeaseOk(st: State) {
    forall s :: s in st.leases ==> st.leases[s].shard == s && st.leases[s].owner.epoch == LastEpoch(st, s)
  }

  /** Later generations of a shard have higher epochs. */
  predicate RisingEpochs(g: seq<Fence>) {
    forall i, j :: 0 <= i < j < |g| && g[i].shard == g[j].shard ==> g[i].owner.epoch < g[j].owner.epoch
  }

  predicate Known(w: World) {
    && LeaseOk(w.st) && RisingEpochs(w.generations)
    && (forall f :: f in w.generations ==> f.owner.epoch <= LastEpoch(w.st, f.shard))
    && (forall s :: s in w.st.leases ==> FenceOf(w.st.leases[s]) in w.generations)
  }

  /** A granted lease either renews the current one or outruns every epoch. */
  lemma GrantedRises(st: State, lease: Lease, now: nat)
    requires LeaseOk(st) && Granted(st, lease, now).Ok?
    ensures var l := Granted(st, lease, now).value;
            Holds(st, FenceOf(l)) || l.owner.epoch > LastEpoch(st, l.shard)
  {
  }

  /** What one operation does to the leases: epochs never fall, a new holder is
      a new generation, and a new generation outruns every epoch before it. */
  ghost predicate Advances(st: State, next: State, started: seq<Fence>) {
    && LeaseOk(next)
    && (forall s :: LastEpoch(next, s) >= LastEpoch(st, s))
    && (forall f :: f in started ==> f.owner.epoch > LastEpoch(st, f.shard) && f.owner.epoch <= LastEpoch(next, f.shard))
    && (forall s :: s in next.leases ==>
          (s in st.leases && FenceOf(st.leases[s]) == FenceOf(next.leases[s])) || FenceOf(next.leases[s]) in started)
  }

  lemma InstallAdvances(st: State, l: Lease)
    requires LeaseOk(st) && (Holds(st, FenceOf(l)) || l.owner.epoch > LastEpoch(st, l.shard))
    ensures Advances(st, Install(st, l), if Holds(st, FenceOf(l)) then [] else [FenceOf(l)])
  {
  }

  lemma ReleaseAdvances(st: State, shard: string, token: string)
    requires LeaseOk(st)
    ensures Advances(st, ReleaseLease(st, shard, token), [])
  {
  }

  lemma WritesKeepLeases(st: State, op: Op)
    requires op.Appends? || op.Trims? || op.Saves? || op.Places?
    ensures Step(st, op).leases == st.leases && Step(st, op).last == st.last && NewGeneration(st, op) == []
  {
    hide MayWrite, After, LogOf, NextOf;
  }

  lemma StepAdvances(st: State, op: Op)
    requires LeaseOk(st)
    ensures Advances(st, Step(st, op), NewGeneration(st, op))
  {
    match op
    case Leases(lease, now) =>
      if Granted(st, lease, now).Ok? {
        GrantedRises(st, lease, now);
        hide Granted, Install, Advances;
        InstallAdvances(st, Granted(st, lease, now).value);
      }
    case HandsOff(shard, token, next, now) =>
      HandedOffRises(st, shard, token, next, now);
      hide HandedOff, Install;
      if HandedOff(st, shard, token, next, now).Ok? {
        InstallAdvances(st, HandedOff(st, shard, token, next, now).value);
      }
    case Releases(shard, token) =>
      hide ReleaseLease, Advances;
      ReleaseAdvances(st, shard, token);
    case _ =>
      hide Step, NewGeneration;
      WritesKeepLeases(st, op);
  }

  lemma HandedOffRises(st: State, shard: string, token: string, next: Lease, now: nat)
    requires LeaseOk(st)
    ensures var g := HandedOff(st, shard, token, next, now);
            g.Ok? ==> g.value.owner.epoch > LastEpoch(st, g.value.shard) && !Holds(st, FenceOf(g.value))
  {
    hide CheckLease;
  }

  lemma ApplyKeeps(w: World, op: Op)
    requires Known(w)
    ensures Known(Apply(w, op))
  {
    StepAdvances(w.st, op);
    hide Step, LeaseOk;
    var next := Apply(w, op);
    assert |NewGeneration(w.st, op)| <= 1;
    assert forall f :: f in next.generations <==> f in w.generations || f in NewGeneration(w.st, op);
    hide NewGeneration;
    forall i, j | 0 <= i < j < |next.generations| && next.generations[i].shard == next.generations[j].shard
      ensures next.generations[i].owner.epoch < next.generations[j].owner.epoch
    {
      if j == |w.generations| {
        assert next.generations[i] == w.generations[i] && w.generations[i] in w.generations;
        assert next.generations[j] in NewGeneration(w.st, op);
      }
    }
  }

  lemma {:induction false} ExecKnown(ops: seq<Op>)
    ensures Known(Exec(ops))
  {
    if ops != [] {
      ExecKnown(ops[..|ops| - 1]);
      ApplyKeeps(Exec(ops[..|ops| - 1]), ops[|ops| - 1]);
    }
  }

  /** Over every run: a shard's generations have strictly rising epochs, so shard
      and epoch determine node and token. */
  lemma EpochIdentifiesOwner(ops: seq<Op>, f: Fence, g: Fence)
    requires f in Exec(ops).generations && g in Exec(ops).generations
    requires f.shard == g.shard && f.owner.epoch == g.owner.epoch
    ensures f == g
  {
    ExecKnown(ops);
    hide Exec;
    var all := Exec(ops).generations;
    var i :| 0 <= i < |all| && all[i] == f;
    var j :| 0 <= j < |all| && all[j] == g;
    assert i < j || j < i || i == j;
  }

  lemma GenerationsRise(ops: seq<Op>)
    ensures RisingEpochs(Exec(ops).generations)
  {
    ExecKnown(ops);
  }

  // ----- Dead fences -----

  /** The shard has moved on, or the lease was given up. */
  predicate Dead(st: State, f: Fence) {
    f.owner.epoch <= LastEpoch(st, f.shard) && !Holds(st, f)
  }

  lemma DeadStays(st: State, f: Fence, op: Op)
    requires LeaseOk(st) && Dead(st, f)
    ensures LeaseOk(Step(st, op)) && Dead(Step(st, op), f)
  {
    StepAdvances(st, op);
    hide Step, NewGeneration;
  }

  function RunFrom(st: State, ops: seq<Op>): State
    decreases |ops|
  {
    if ops == [] then st else RunFrom(Step(st, ops[0]), ops[1..])
  }

  /** A superseded or released fence never validates again, whatever happens,
      for any document and at any time. */
  lemma {:induction false} DeadForever(st: State, f: Fence, ops: seq<Op>, k: Key, now: nat)
    requires LeaseOk(st) && Dead(st, f)
    ensures Dead(RunFrom(st, ops), f) && !Authorized(RunFrom(st, ops), k, f, now)
    decreases |ops|
  {
    if ops != [] {
      DeadStays(st, f, ops[0]);
      DeadForever(Step(st, ops[0]), f, ops[1..], k, now);
    }
  }

  /** Handing off, releasing and taking over kill the fence that held before. */
  lemma LosingKills(st: State, f: Fence, op: Op)
    requires LeaseOk(st) && Holds(st, f)
    ensures Holds(Step(st, op), f) || Dead(Step(st, op), f)
  {
    StepAdvances(st, op);
    hide Step;
  }

  /** At any point of any run a generation is the current one or dead. */
  lemma CurrentOrDead(ops: seq<Op>, f: Fence)
    requires f in Exec(ops).generations
    ensures Holds(Exec(ops).st, f) || Dead(Exec(ops).st, f)
  {
    ExecKnown(ops);
    hide Exec;
  }

  // ----- The fenced log -----

  /** The operation keeps document `k` on shard `s` and writes to its log only
      under a fence. */
  predicate Fenced(op: Op, k: Key, s: string) {
    && (op.Places? && op.key == k ==> op.shard == s)
    && (op.Appends? && op.key == k ==> op.fence.Some?)
  }

  /** Some generation of the shard has this epoch. */
  predicate Started(generations: seq<Fence>, s: string, epoch: nat) {
    exists f :: f in generations && f.shard == s && f.owner.epoch == epoch
  }

  /** Offsets rise up to the counter; epochs never fall, and each is that of one
      of the shard's generations. */
  predicate Blocks(log: seq<Record>, next: nat, generations: seq<Fence>, s: string, last: nat) {
    && Rising(log) && (forall i :: 0 <= i < |log| ==> 0 < log[i].offset <= next && log[i].epoch <= last)
    && (forall i, j :: 0 <= i < j < |log| ==> log[i].epoch <= log[j].epoch)
    && (forall i :: 0 <= i < |log| ==> Started(generations, s, log[i].epoch))
  }

  lemma BlocksAppend(log: seq<Record>, next: nat, g: seq<Fence>, s: string, last: nat, update: Doc, f: Fence)
    requires Blocks(log, next, g, s, last) && f in g && f.shard == s && f.owner.epoch == last
    ensures Blocks(log + [Record(next + 1, update, last)], next + 1, g, s, last)
  {
    assert Started(g, s, last);
    hide Started;
  }

  lemma BlocksSuffix(log: seq<Record>, next: nat, g: seq<Fence>, s: string, last: nat, n: nat)
    requires Blocks(log, next, g, s, last) && n <= |log|
    ensures Blocks(log[n..], next, g, s, last)
  {
    var rest := log[n..];
    assert forall i :: 0 <= i < |rest| ==> rest[i] == log[i + n];
  }

  lemma BlocksMore(log: seq<Record>, next: nat, g: seq<Fence>, more: seq<Fence>, s: string, last: nat, later: nat)
    requires Blocks(log, next, g, s, last) && last <= later
    ensures Blocks(log, next, g + more, s, later)
  {
    forall i | 0 <= i < |log|
      ensures Started(g + more, s, log[i].epoch)
    {
      assert Started(g, s, log[i].epoch);
      var f :| f in g && f.shard == s && f.owner.epoch == log[i].epoch;
      assert f in g + more;
    }
  }

  predicate LogOk(w: World, k: Key, s: string) {
    && Blocks(LogOf(w.st, k), NextOf(w.st, k), w.generations, s, LastEpoch(w.st, s))
    && (k in w.st.placements ==> w.st.placements[k] == s)
  }

  lemma MayWriteMeans(st: State, k: Key, f: Fence, now: nat)
    requires MayWrite(st, k, Some(f), now).Ok?
    ensures k in st.placements && st.placements[k] == f.shard
    ensures f.shard in st.leases && st.leases[f.shard].owner == f.owner && st.leases[f.shard].token == f.token
  {
    hide CheckFence;
  }

  lemma AppendAdds(st: State, k: Key, update: Doc, fence: Option<Fence>, now: nat)
    ensures var next := Append(st, k, update, fence, now);
      && next.placements == st.placements
      && (MayWrite(st, k, fence, now).Err? ==> next == st)
      && (MayWrite(st, k, fence, now).Ok? ==>
            LogOf(next, k) == LogOf(st, k) + [Record(NextOf(st, k) + 1, update, EpochOf(fence))]
            && NextOf(next, k) == NextOf(st, k) + 1)
      && forall other :: other != k ==> LogOf(next, other) == LogOf(st, other) && NextOf(next, other) == NextOf(st, other)
  {
    hide MayWrite;
  }

  lemma TrimDrops(st: State, k: Key, through: nat, fence: Option<Fence>, now: nat)
    ensures var next := Trim(st, k, through, fence, now);
      && next.placements == st.placements
      && (LogOf(next, k) == LogOf(st, k) || LogOf(next, k) == After(LogOf(st, k), through))
      && NextOf(next, k) == NextOf(st, k)
  {
    WithLogIs(st, k, After(LogOf(st, k), through));
    hide MayWrite, After, WithLog, LogOf;
  }

  lemma TrimSpares(st: State, k: Key, through: nat, fence: Option<Fence>, now: nat, other: Key)
    requires other != k
    ensures var next := Trim(st, k, through, fence, now);
      next.placements == st.placements && LogOf(next, other) == LogOf(st, other)
          && NextOf(next, other) == NextOf(st, other)
  {
    WithLogIs(st, k, After(LogOf(st, k), through));
    hide MayWrite, After, WithLog, LogOf;
  }

  lemma AppendKeepsLog(w: World, k: Key, s: string, op: Op)
    requires Known(w) && LogOk(w, k, s) && op.Appends? && Fenced(op, k, s) && op.key == k
    ensures LogOk(Apply(w, op), k, s)
  {
    WritesKeepLeases(w.st, op);
    AppendAdds(w.st, k, op.update, op.fence, op.now);
    assert w.generations + [] == w.generations;
    hide Blocks, MayWrite, RisingEpochs, Append, LogOf, NextOf;
    if MayWrite(w.st, k, op.fence, op.now).Ok? {
      var f := op.fence.value;
      MayWriteMeans(w.st, k, f, op.now);
      assert FenceOf(w.st.leases[f.shard]) == f;
      BlocksAppend(LogOf(w.st, k), NextOf(w.st, k), w.generations, s, LastEpoch(w.st, s), op.update, f);
    }
  }

  lemma TrimKeepsLog(w: World, k: Key, s: string, op: Op)
    requires LogOk(w, k, s) && op.Trims? && op.key == k
    ensures LogOk(Apply(w, op), k, s)
  {
    WritesKeepLeases(w.st, op);
    TrimDrops(w.st, k, op.through, op.fence, op.now);
    assert w.generations + [] == w.generations;
    hide Blocks, MayWrite, Trim, LogOf, NextOf;
    BlocksSuffix(LogOf(w.st, k), NextOf(w.st, k), w.generations, s, LastEpoch(w.st, s),
        UpTo(LogOf(w.st, k), op.through));
  }

  lemma SameLog(st: State, k: Key, s: string, op: Op)
    requires Fenced(op, k, s) && !((op.Appends? || op.Trims?) && op.key == k)
    requires k in st.placements ==> st.placements[k] == s
    ensures LogOf(Step(st, op), k) == LogOf(st, k) && NextOf(Step(st, op), k) == NextOf(st, k)
    ensures k in Step(st, op).placements ==> Step(st, op).placements[k] == s
  {
    match op
    case Appends(key, update, fence, now) =>
      hide Append, LogOf, NextOf;
      AppendAdds(st, key, update, fence, now);
    case Trims(key, through, fence, now) =>
      hide Trim, LogOf, NextOf;
      TrimSpares(st, key, through, fence, now, k);
    case _ =>
      LogsUntouched(st, op);
      hide Step;
  }

  lemma LogsUntouched(st: State, op: Op)
    requires !op.Appends? && !op.Trims?
    ensures var next := Step(st, op);
      && next.logs == st.logs && next.next == st.next
      && next.placements ==
         if op.Places? && ValidKey(op.key) && !Blank(op.shard) then st.placements[op.key := op.shard] else st.placements
  {
    hide Granted, HandedOff, Released, MayWrite, Blank;
  }

  /** Operations that leave the log alone. */
  lemma OtherKeepsLog(w: World, k: Key, s: string, op: Op)
    requires Known(w) && LogOk(w, k, s) && Fenced(op, k, s)
    requires !((op.Appends? || op.Trims?) && op.key == k)
    ensures LogOk(Apply(w, op), k, s)
  {
    StepAdvances(w.st, op);
    SameLog(w.st, k, s, op);
    hide Step, NewGeneration, LogOf, NextOf, Blocks;
    BlocksMore(LogOf(w.st, k), NextOf(w.st, k), w.generations, NewGeneration(w.st, op), s, LastEpoch(w.st, s),
               LastEpoch(Step(w.st, op), s));
  }

  lemma {:induction false} ExecLogOk(ops: seq<Op>, k: Key, s: string)
    requires forall op :: op in ops ==> Fenced(op, k, s)
    ensures LogOk(Exec(ops), k, s)
  {
    if ops != [] {
      var before, op := ops[..|ops| - 1], ops[|ops| - 1];
      assert op in ops && forall x :: x in before ==> x in ops;
      ExecLogOk(before, k, s);
      ExecKnown(before);
      hide LogOk, Known, Fenced;
      assert Exec(ops) == Apply(Exec(before), op);
      if op.Appends? && op.key == k {
        AppendKeepsLog(Exec(before), k, s, op);
      } else if op.Trims? && op.key == k {
        TrimKeepsLog(Exec(before), k, s, op);
      } else {
        OtherKeepsLog(Exec(before), k, s, op);
      }
    }
  }

  /** The log of a document that stays on one shard: records of one generation
      form one block, blocks are in rising epoch order, and each block has one
      owner. */
  lemma OneBlockPerOwner(ops: seq<Op>, k: Key, s: string, i: nat, j: nat)
    requires forall op :: op in ops ==> Fenced(op, k, s)
    requires i < j < |LogOf(Exec(ops).st, k)|
    ensures var log := LogOf(Exec(ops).st, k);
            && log[i].offset < log[j].offset && log[i].epoch <= log[j].epoch
            && (log[i].epoch == log[j].epoch ==> forall m :: i <= m <= j ==> log[m].epoch == log[i].epoch)
            && exists f :: f in Exec(ops).generations && f.shard == s && f.owner.epoch == log[i].epoch &&
                 forall g :: g in Exec(ops).generations && g.shard == s && g.owner.epoch == log[i].epoch ==> g == f
  {
    ExecLogOk(ops, k, s);
    hide Exec;
    var w := Exec(ops);
    var log := LogOf(w.st, k);
    hide LogOf, NextOf;
    assert Started(w.generations, s, log[i].epoch);
    var f :| f in w.generations && f.shard == s && f.owner.epoch == log[i].epoch;
    forall g | g in w.generations && g.shard == s && g.owner.epoch == log[i].epoch
      ensures g == f
    {
      EpochIdentifiesOwner(ops, f, g);
    }
    hide Blocks;
    EpochsBetween(log, NextOf(w.st, k), w.generations, s, LastEpoch(w.st, s), i, j);
  }

  lemma EpochsBetween(log: seq<Record>, next: nat, g: seq<Fence>, s: string, last: nat, i: nat, j: nat)
    requires Blocks(log, next, g, s, last) && i < j < |log|
    ensures log[i].offset < log[j].offset
    ensures forall m :: i <= m <= j ==> log[i].epoch <= log[m].epoch <= log[j].epoch
  {
    hide Started;
  }
}
