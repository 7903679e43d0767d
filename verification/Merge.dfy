/** Merging the struct lists of one client. The error returns of the code are
    unreachable on well-formed lists: every `.value` below is checked. */
module Merge {
  import opened Prelude
  import opened Structs
  import opened Sources
  import opened IdSets
  import opened IdSetObject

  /** `m` is one of two candidates, and present when either is. */
  predicate Picks(m: Option<Unit>, l: Option<Unit>, r: Option<Unit>) {
    (m.Some? <==> l.Some? || r.Some?) && (m.Some? ==> m == l || m == r)
  }

  /** Every clock of either list is in `m`, no other, each unit from one of them. */
  ghost predicate IsUnion(m: seq<Struct>, l: seq<Struct>, r: seq<Struct>) {
    forall c: nat :: Picks(At(m, c), At(l, c), At(r, c))
  }

  function OrElse(l: Option<Unit>, r: Option<Unit>): Option<Unit> {
    if l.Some? then l else r
  }

  lemma {:induction false} UnitMeansNonSkip(l: seq<Struct>, c: nat)
    requires At(l, c).Some?
    ensures HasUnits(l)
  {
    if l[0].id.clock <= c < l[0].End() {
      assert !l[0].Skip?;
    } else {
      UnitMeansNonSkip(l[1..], c);
      var i :| 0 <= i < |l[1..]| && !l[1..][i].Skip?;
      assert l[i + 1] == l[1..][i];
    }
  }

  lemma {:induction false} NonSkipHasUnit(client: u32, l: seq<Struct>, i: nat)
    requires Chain(client, l) && i < |l| && !l[i].Skip?
    ensures At(l, l[i].id.clock).Some?
  {
    if i > 0 {
      NonSkipHasUnit(client, l[1..], i - 1);
      ChainBounds(client, l[1..], l[i].id.clock);
    }
  }

  // ----- One list after the other -----

  /** Left, possibly a Skip over the gap, right: nothing else has a unit. */
  lemma DisjointAt(client: u32, left: seq<Struct>, mid: seq<Struct>, right: seq<Struct>, c: nat)
    requires WellFormed(client, left) && WellFormed(client, right)
    requires right[0].id.clock >= ListEnd(left)
    requires mid == if right[0].id.clock == ListEnd(left) then []
                    else [Skip(ID(client, left[|left| - 1].End()), right[0].id.clock - ListEnd(left))]
    ensures Chain(client, left + mid + right)
    ensures Picks(At(left + mid + right, c), At(left, c), At(right, c))
  {
    ChainBounds(client, left, c);
    ChainBounds(client, right, c);
    if mid == [] {
      assert left + mid == left;
    } else {
      ChainAppend(client, left, mid[0], c);
    }
    ChainConcat(client, left + mid, right, c);
  }

  /** The gap is closed with a Skip, if there is one. */
  method MergeDisjoint(client: u32, left: seq<Struct>, right: seq<Struct>, gap: u32, ghost ok: Struct -> bool,
        ghost cuts: Cuts)
    returns (out: seq<Struct>)
    requires WellFormed(client, left) && WellFormed(client, right)
    requires right[0].id.clock == ListEnd(left) + gap
    requires Survives(ok, cuts) && AllOf(left, ok) && AllOf(right, ok)
    ensures WellFormed(client, out) && IsUnion(out, left, right) && AllOf(out, ok)
    ensures out[0] == left[0] && ListEnd(out) == ListEnd(right)
  {
    hide Survives;
    ChainBounds(client, left, 0);
    ChainBounds(client, right, 0);
    var mid := [];
    if gap > 0 {
      var skip := Checked(Skip(ID(client, left[|left| - 1].End()), gap)).value;
      ChainSuffix(client, left, |left| - 1);
      SkipSurvives(skip.id, gap, ok, cuts);
      mid := [skip];
    }
    var merged := left + mid + right;
    forall c: nat
      ensures Chain(client, merged) && Picks(At(merged, c), At(left, c), At(right, c))
    {
      DisjointAt(client, left, mid, right, c);
    }
    DisjointAt(client, left, mid, right, 0);
    out := merged;
  }

  // ----- Overlapping lists -----

  /** What a cursor has yet to read: its current block, then the rest. */
  ghost function Todo(refs: seq<Struct>, index: nat, block: Struct): seq<Struct>
    requires index < |refs|
  {
    [block] + refs[index + 1..]
  }

  /** From clock `n` on, the cursor still shows all of `refs`. */
  ghost predicate CursorOk(client: u32, refs: seq<Struct>, index: nat, block: Struct, n: nat) {
    && index < |refs|
    && Chain(client, Todo(refs, index, block))
    && (forall c: nat :: c >= n ==> At(Todo(refs, index, block), c) == At(refs, c))
  }

  ghost predicate Exhausted(refs: seq<Struct>, n: nat) {
    forall c: nat :: c >= n ==> At(refs, c).None?
  }

  /** The result so far covers [base, n) without a hole and is right there. */
  ghost predicate Built(client: u32, result: seq<Struct>, base: nat, n: nat,
                        left: seq<Struct>, right: seq<Struct>) {
    && Chain(client, result)
    && (if result == [] then n == base else result[0].id.clock == base && ListEnd(result) == n)
    && (result != [] ==> HasUnits(left) || HasUnits(right))
    && (forall c: nat :: c < n ==> Picks(At(result, c), At(left, c), At(right, c)))
  }

  /** The cursor after its block, or the end of the list. */
  ghost predicate Moved(client: u32, refs: seq<Struct>, index: nat, n: nat) {
    if index < |refs| then CursorOk(client, refs, index, refs[index], n) else Exhausted(refs, n)
  }

  lemma CursorStart(client: u32, refs: seq<Struct>, n: nat)
    requires Chain(client, refs) && refs != []
    ensures CursorOk(client, refs, 0, refs[0], n)
  {
    assert Todo(refs, 0, refs[0]) == refs;
  }

  /** Passing a block that has nothing at or above `n`. */
  lemma PassBlock(client: u32, refs: seq<Struct>, index: nat, block: Struct, n: nat)
    requires CursorOk(client, refs, index, block, n)
    requires block.Skip? || block.End() <= n
    ensures Moved(client, refs, index + 1, n)
  {
    var todo := Todo(refs, index, block);
    var rest := refs[index + 1..];
    assert todo[1..] == rest;
    forall c: nat | c >= n
      ensures At(refs, c) == At(rest, c)
    {
      assert At(todo, c) == At(refs, c);
      if rest != [] {
        ChainBounds(client, rest, c);
      }
    }
    if index + 1 < |refs| {
      assert Todo(refs, index + 1, refs[index + 1]) == rest;
    }
  }

  /** Cutting a block at `n` loses nothing from there on. */
  lemma CutBlock(client: u32, refs: seq<Struct>, index: nat, block: Struct, n: nat)
    requires CursorOk(client, refs, index, block, n)
    requires block.id.clock < n < block.End()
    ensures SliceStruct(block, n - block.id.clock, 0).Ok?
    ensures var cut := SliceStruct(block, n - block.id.clock, 0).value;
            CursorOk(client, refs, index, cut, n) && cut.id.clock == n && cut.Skip? == block.Skip?
  {
    SliceKeepsUnits(block, n - block.id.clock, 0);
    var cut := SliceStruct(block, n - block.id.clock, 0).value;
    var todo, next := Todo(refs, index, block), Todo(refs, index, cut);
    assert todo[1..] == next[1..];
    forall c: nat | c >= n
      ensures At(next, c) == At(refs, c)
    {
      assert At(todo, c) == At(refs, c);
    }
  }

  /** A block that is no Skip is a unit of the list. */
  lemma CursorUnits(client: u32, refs: seq<Struct>, index: nat, block: Struct, n: nat)
    requires CursorOk(client, refs, index, block, n) && !block.Skip? && block.id.clock >= n
    ensures HasUnits(refs)
  {
    assert At(Todo(refs, index, block), block.id.clock) == At(refs, block.id.clock);
    UnitMeansNonSkip(refs, block.id.clock);
  }

  /** Taking a block that starts at `n` extends the result to its end. */
  lemma TakeBlock(client: u32, refs: seq<Struct>, index: nat, block: Struct, n: nat,
                  result: seq<Struct>, base: nat, left: seq<Struct>, right: seq<Struct>)
    requires CursorOk(client, refs, index, block, n) && (refs == left || refs == right)
    requires block.id.clock == n && !block.Skip?
    requires Built(client, result, base, n, left, right)
    ensures Built(client, result + [block], base, block.End(), left, right)
    ensures Moved(client, refs, index + 1, block.End())
    ensures index + 1 < |refs| ==> refs[index + 1].id.clock == block.End()
  {
    var todo := Todo(refs, index, block);
    forall c: nat | c < block.End()
      ensures Picks(At(result + [block], c), At(left, c), At(right, c))
    {
      ChainAppend(client, result, block, c);
      if c >= n {
        assert At(todo, c) == At(refs, c);
      }
    }
    ChainAppend(client, result, block, n);
    CursorUnits(client, refs, index, block, n);
    assert CursorOk(client, refs, index, block, block.End());
    PassBlock(client, refs, index, block, block.End());
  }

  /** A Skip is emitted only over clocks that neither side has. */
  lemma EmitSkip(client: u32, result: seq<Struct>, base: nat, n: nat, m: nat,
                 left: seq<Struct>, right: seq<Struct>)
    requires Built(client, result, base, n, left, right) && n < m <= MAX_U32 && (HasUnits(left) || HasUnits(right))
    requires forall c: nat :: n <= c < m ==> At(left, c).None? && At(right, c).None?
    ensures var skip := Skip(ID(client, n), m - n);
            Checked(skip) == Ok(skip) && Built(client, result + [skip], base, m, left, right)
  {
    var skip := Skip(ID(client, n), m - n);
    forall c: nat | c < m
      ensures Picks(At(result + [skip], c), At(left, c), At(right, c))
    {
      ChainAppend(client, result, skip, c);
    }
    ChainAppend(client, result, skip, n);
  }

  /** Below its block a cursor has nothing. */
  lemma NothingBelow(client: u32, refs: seq<Struct>, index: nat, block: Struct, n: nat, m: nat)
    requires CursorOk(client, refs, index, block, n) && m <= block.id.clock
    ensures forall c: nat :: n <= c < m ==> At(refs, c).None?
    ensures block.id.clock <= MAX_U32
  {
    forall c: nat | n <= c < m
      ensures At(refs, c).None?
    {
      assert At(Todo(refs, index, block), c) == At(refs, c);
      ChainBounds(client, Todo(refs, index, block), c);
    }
  }

  /** Where the merge has got to: the start of both lists, or a cut. */
  ghost predicate Reached(cuts: Cuts, client: u32, base: nat, n: nat) {
    n == base || CutAt(cuts, client, n)
  }

  /** What has been put out, up to where. */
  ghost predicate Output(result: seq<Struct>, ok: Struct -> bool, cuts: Cuts, client: u32, base: nat, n: nat) {
    AllOf(result, ok) && Reached(cuts, client, base, n)
  }

  ghost predicate Input(refs: seq<Struct>, ok: Struct -> bool, client: u32, base: nat) {
    forall i :: 0 <= i < |refs| ==> Usable(refs[i], ok, client, base)
  }

  ghost predicate Usable(s: Struct, ok: Struct -> bool, client: u32, base: nat) {
    ok(s) && s.id.client == client && s.id.clock >= base
  }

  lemma {:induction false} InputOf(client: u32, l: seq<Struct>, ok: Struct -> bool, base: nat)
    requires Chain(client, l) && AllOf(l, ok) && (l != [] ==> l[0].id.clock >= base)
    ensures Input(l, ok, client, base)
  {
    if l != [] {
      InputOf(client, l[1..], ok, base);
      assert forall i :: 0 < i < |l| ==> l[i] == l[1..][i - 1];
    }
  }

  lemma InputAt(refs: seq<Struct>, ok: Struct -> bool, client: u32, base: nat, i: nat)
    requires Input(refs, ok, client, base) && i < |refs|
    ensures Usable(refs[i], ok, client, base)
  {
  }

  /** Cutting where the merge has got to. */
  lemma CutUsable(s: Struct, n: nat, ok: Struct -> bool, cuts: Cuts, client: u32, base: nat, result: seq<Struct>)
    requires Survives(ok, cuts) && Usable(s, ok, client, base) && s.id.clock < n < s.End() && s.Valid()
    requires Output(result, ok, cuts, client, base, n)
    ensures SliceStruct(s, n - s.id.clock, 0).Ok? && Usable(SliceStruct(s, n - s.id.clock, 0).value, ok, client, base)
  {
    SliceBounds(s, n - s.id.clock, 0);
    hide Survives, SliceStruct;
    CutSurvives(s, n - s.id.clock, ok, cuts);
  }

  lemma OutputAll(result: seq<Struct>, ok: Struct -> bool, cuts: Cuts, client: u32, base: nat, n: nat)
    requires Output(result, ok, cuts, client, base, n)
    ensures AllOf(result, ok)
  {
  }

  lemma TakeUsable(s: Struct, n: nat, ok: Struct -> bool, cuts: Cuts, client: u32, base: nat, result: seq<Struct>)
    requires Survives(ok, cuts) && Usable(s, ok, client, base) && !s.Skip?
    requires Output(result, ok, cuts, client, base, n)
    ensures Output(result + [s], ok, cuts, client, base, s.End())
  {
    hide Survives;
    EndsAtCuts(s, ok, cuts);
    AllAppend(result, s, ok);
  }

  /** A Skip up to where a struct begins. */
  lemma SkipUsable(s: Struct, n: nat, ok: Struct -> bool, cuts: Cuts, client: u32, base: nat, result: seq<Struct>)
    requires Survives(ok, cuts) && Usable(s, ok, client, base) && !s.Skip? && n < s.id.clock
    requires Output(result, ok, cuts, client, base, n) && Checked(Skip(ID(client, n), s.id.clock - n)).Ok?
    ensures Output(result + [Skip(ID(client, n), s.id.clock - n)], ok, cuts, client, base, s.id.clock)
  {
    hide Survives, Checked;
    EndsAtCuts(s, ok, cuts);
    SkipSurvives(ID(client, n), s.id.clock - n, ok, cuts);
    AllAppend(result, Skip(ID(client, n), s.id.clock - n), ok);
  }

  datatype Progress = Progress(block: Option<Struct>, index: nat, result: seq<Struct>, next: nat)

  /** A cursor or, at its end, nothing more. */
  ghost predicate Side(client: u32, refs: seq<Struct>, index: nat, block: Option<Struct>, n: nat) {
    if index < |refs| then block.Some? && CursorOk(client, refs, index, block.value, n)
    else block.None? && Exhausted(refs, n)
  }

  lemma SideParts(client: u32, refs: seq<Struct>, index: nat, block: Option<Struct>, n: nat)
    requires Side(client, refs, index, block, n)
    ensures index < |refs| <==> block.Some?
    ensures index < |refs| ==> CursorOk(client, refs, index, block.value, n)
    ensures index >= |refs| ==> Exhausted(refs, n)
  {
  }

  lemma SideAt(client: u32, refs: seq<Struct>, index: nat, block: Struct, n: nat)
    requires CursorOk(client, refs, index, block, n)
    ensures Side(client, refs, index, Some(block), n) && index < |refs|
  {
  }

  lemma SideEnd(client: u32, refs: seq<Struct>, n: nat)
    requires Exhausted(refs, n)
    ensures Side(client, refs, |refs|, None, n)
  {
  }

  /** The closure's last loop: take on the blocks that follow without a gap. */
  method TakeRun(client: u32, refs: seq<Struct>, index0: nat, block0: Struct, result0: seq<Struct>, next0: nat,
                 ghost base: nat, ghost left: seq<Struct>, ghost right: seq<Struct>, ghost ok: Struct -> bool,
                       ghost cuts: Cuts)
    returns (out: Progress)
    requires refs == left || refs == right
    requires index0 < |refs| && CursorOk(client, refs, index0, block0, next0) && !block0.Skip?
          && block0.id.clock >= next0
    requires Built(client, result0, base, next0, left, right)
    requires Survives(ok, cuts) && Input(refs, ok, client, base) && Usable(block0, ok, client, base)
    requires Output(result0, ok, cuts, client, base, next0)
    ensures Built(client, out.result, base, out.next, left, right)
    ensures next0 <= out.next && index0 <= out.index <= |refs| && Side(client, refs, out.index, out.block, out.next)
    ensures out.index == index0 ==> out.block == Some(block0) && out.next == next0 && block0.id.clock > next0
    ensures Output(out.result, ok, cuts, client, base, out.next)
    ensures out.block.Some? ==> Usable(out.block.value, ok, client, base)
    ensures out.block.Some? && out.block.value.id.clock > out.next ==> !out.block.value.Skip?
  {
    hide Survives, CursorOk, Built, Exhausted, Side, Usable, Input, Output;
    var index: nat, next: nat := index0, next0;
    var block, result := block0, result0;
    while block.id.clock == next && !block.Skip?
      invariant Usable(block, ok, client, base) && Output(result, ok, cuts, client, base, next)
      invariant index0 <= index < |refs| && CursorOk(client, refs, index, block, next)
      invariant Built(client, result, base, next, left, right) && next0 <= next
      invariant block.id.clock >= next && (block.id.clock > next ==> !block.Skip?)
      invariant index == index0 ==> next == next0 && block == block0
      decreases |refs| - index
    {
      TakeBlock(client, refs, index, block, next, result, base, left, right);
      TakeUsable(block, next, ok, cuts, client, base, result);
      result := result + [block];
      next := block.End();
      index := index + 1;
      if index >= |refs| {
        SideEnd(client, refs, next);
        return Progress(None, index, result, next);
      }
      InputAt(refs, ok, client, base, index);
      block := refs[index];
    }
    SideAt(client, refs, index, block, next);
    out := Progress(Some(block), index, result, next);
  }

  /** The inner closure of the merge loop: pass what is behind, cut what
      straddles, take what follows on. */
  method Apply(client: u32, refs: seq<Struct>, index0: nat, block0: Struct, result0: seq<Struct>, next0: nat,
               ghost base: nat, ghost left: seq<Struct>, ghost right: seq<Struct>, ghost ok: Struct -> bool,
                     ghost cuts: Cuts)
    returns (out: Progress)
    requires refs == left || refs == right
    requires CursorOk(client, refs, index0, block0, next0)
    requires Built(client, result0, base, next0, left, right)
    requires Survives(ok, cuts) && Input(refs, ok, client, base) && Usable(block0, ok, client, base)
    requires Output(result0, ok, cuts, client, base, next0)
    ensures Built(client, out.result, base, out.next, left, right)
    ensures next0 <= out.next && index0 <= out.index <= |refs| && Side(client, refs, out.index, out.block, out.next)
    ensures out.index == index0 ==> out.block == Some(block0) && out.next == next0 && block0.id.clock > next0
    ensures Output(out.result, ok, cuts, client, base, out.next)
    ensures out.block.Some? ==> Usable(out.block.value, ok, client, base)
    ensures out.block.Some? && out.block.value.id.clock > out.next ==> !out.block.value.Skip?
  {
    SideAt(client, refs, index0, block0, next0);
    hide Survives, CursorOk, Built, Exhausted, Side, SliceStruct, Usable, Input, Output;
    var index: nat, next: nat := index0, next0;
    var block, result := block0, result0;
    while block.Skip? || block.End() <= next
      invariant Usable(block, ok, client, base)
      invariant index0 <= index < |refs| && CursorOk(client, refs, index, block, next)
      invariant index == index0 ==> block == block0
      decreases |refs| - index
    {
      PassBlock(client, refs, index, block, next);
      index := index + 1;
      if index >= |refs| {
        SideEnd(client, refs, next);
        return Progress(None, index, result, next);
      }
      InputAt(refs, ok, client, base, index);
      block := refs[index];
    }
    if block.id.clock < next {
      CutBlock(client, refs, index, block, next);
      CutUsable(block, next, ok, cuts, client, base, result);
      block := SliceStruct(block, next - block.id.clock, 0).value;
    }
    out := TakeRun(client, refs, index, block, result, next, base, left, right, ok, cuts);
  }

  lemma BuiltStart(client: u32, left: seq<Struct>, right: seq<Struct>)
    requires WellFormed(client, left) && WellFormed(client, right)
    requires left[0].id.clock <= right[0].id.clock
    ensures Built(client, [], left[0].id.clock, left[0].id.clock, left, right)
  {
    forall c: nat | c < left[0].id.clock
      ensures Picks(At([], c), At(left, c), At(right, c))
    {
      ChainBounds(client, left, c);
      ChainBounds(client, right, c);
    }
  }

  lemma Begin(client: u32, left: seq<Struct>, right: seq<Struct>, ok: Struct -> bool, cuts: Cuts)
    requires WellFormed(client, left) && WellFormed(client, right)
    requires left[0].id.clock <= right[0].id.clock
    requires AllOf(left, ok) && AllOf(right, ok)
    ensures left != [] && right != []
    ensures var base := left[0].id.clock;
            && Input(left, ok, client, base) && Input(right, ok, client, base)
            && Usable(left[0], ok, client, base) && Usable(right[0], ok, client, base)
            && Side(client, left, 0, Some(left[0]), base) && Side(client, right, 0, Some(right[0]), base)
            && Built(client, [], base, base, left, right) && Output([], ok, cuts, client, base, base)
  {
    var base := left[0].id.clock;
    BuiltStart(client, left, right);
    hide Built, HasUnits;
    InputOf(client, left, ok, base);
    InputOf(client, right, ok, base);
    hide Chain;
    InputAt(left, ok, client, base, 0);
    InputAt(right, ok, client, base, 0);
    hide Input, AllOf, Usable;
    CursorStart(client, left, base);
    CursorStart(client, right, base);
    hide CursorOk;
    SideAt(client, left, 0, left[0], base);
    SideAt(client, right, 0, right[0], base);
  }

  /** Where a round leaves both cursors ahead, only a Skip can follow. */
  lemma BothAhead(client: u32, left: seq<Struct>, li: nat, lblock: Struct, right: seq<Struct>, ri: nat, rblock: Struct,
                  n: nat, result: seq<Struct>, base: nat)
    requires Side(client, left, li, Some(lblock), n) && Side(client, right, ri, Some(rblock), n)
    requires Built(client, result, base, n, left, right) && n < Min(lblock.id.clock, rblock.id.clock) && !lblock.Skip?
    ensures var m := Min(lblock.id.clock, rblock.id.clock);
            var skip := Skip(ID(client, n), m - n);
            Checked(skip) == Ok(skip) && Built(client, result + [skip], base, m, left, right)
  {
    hide Built, CursorOk, Exhausted;
    var m := Min(lblock.id.clock, rblock.id.clock);
    CursorUnits(client, left, li, lblock, n);
    NothingBelow(client, left, li, lblock, n, m);
    NothingBelow(client, right, ri, rblock, n, m);
    EmitSkip(client, result, base, n, m, left, right);
  }

  ghost predicate Gap(l: Option<Struct>, r: Option<Struct>, n: nat) {
    l.Some? && r.Some? && l.value.id.clock > n && r.value.id.clock > n
  }

  lemma SideLater(client: u32, refs: seq<Struct>, index: nat, block: Option<Struct>, n: nat, m: nat)
    requires Side(client, refs, index, block, n) && n <= m
    ensures Side(client, refs, index, block, m)
    ensures index >= |refs| ==> Exhausted(refs, m)
  {
  }

  lemma StillExhausted(refs: seq<Struct>, n: nat, m: nat)
    requires Exhausted(refs, n) && n <= m
    ensures Exhausted(refs, m)
  {
  }

  lemma AheadOfEnd(client: u32, refs: seq<Struct>, index: nat, block: Struct, other: seq<Struct>, n: nat,
                   result: seq<Struct>, base: nat, left: seq<Struct>, right: seq<Struct>)
    requires (refs == left && other == right) || (refs == right && other == left)
    requires Side(client, refs, index, Some(block), n) && Exhausted(other, n)
    requires Built(client, result, base, n, left, right) && n < block.id.clock && !block.Skip?
    ensures var m := block.id.clock;
            var skip := Skip(ID(client, n), m - n);
            Checked(skip) == Ok(skip) && Built(client, result + [skip], base, m, left, right)
  {
    hide Built, CursorOk;
    CursorUnits(client, refs, index, block, n);
    NothingBelow(client, refs, index, block, n, block.id.clock);
    EmitSkip(client, result, base, n, block.id.clock, left, right);
  }

  /** The loop over what one side has left once the other is exhausted. */
  method Drain(client: u32, refs: seq<Struct>, index0: nat, block0: Option<Struct>, result0: seq<Struct>, next0: nat,
               ghost base: nat, ghost left: seq<Struct>, ghost right: seq<Struct>, ghost other: seq<Struct>,
               ghost ok: Struct -> bool, ghost cuts: Cuts)
    returns (out: Progress)
    requires (refs == left && other == right) || (refs == right && other == left)
    requires index0 <= |refs| && Side(client, refs, index0, block0, next0)
    requires index0 < |refs| ==> Exhausted(other, next0)
    requires Built(client, result0, base, next0, left, right)
    requires Survives(ok, cuts) && Input(refs, ok, client, base) && Output(result0, ok, cuts, client, base, next0)
    requires block0.Some? ==> Usable(block0.value, ok, client, base)
    ensures Output(out.result, ok, cuts, client, base, out.next)
    ensures next0 <= out.next
    ensures Built(client, out.result, base, out.next, left, right)
    ensures Exhausted(refs, out.next)
  {
    hide Survives, CursorOk, Built, Exhausted, Side, Usable, Input, Output;
    var p := Progress(block0, index0, result0, next0);
    while p.index < |refs|
      invariant Output(p.result, ok, cuts, client, base, p.next)
      invariant p.block.Some? ==> Usable(p.block.value, ok, client, base)
      invariant p.index <= |refs| && next0 <= p.next
      invariant Side(client, refs, p.index, p.block, p.next)
      invariant index0 < |refs| ==> Exhausted(other, p.next)
      invariant Built(client, p.result, base, p.next, left, right)
      decreases |refs| - p.index, if p.block.Some? && p.block.value.id.clock > p.next then 1 else 0
    {
      SideParts(client, refs, p.index, p.block, p.next);
      ghost var before := p.next;
      p := Apply(client, refs, p.index, p.block.value, p.result, p.next, base, left, right, ok, cuts);
      StillExhausted(other, before, p.next);
      if p.block.Some? && p.block.value.id.clock > p.next {
        var m := p.block.value.id.clock;
        AheadOfEnd(client, refs, p.index, p.block.value, other, p.next, p.result, base, left, right);
        var skip := Checked(Skip(ID(client, p.next), m - p.next)).value;
        SkipUsable(p.block.value, p.next, ok, cuts, client, base, p.result);
        StillExhausted(other, p.next, m);
        SideLater(client, refs, p.index, p.block, p.next, m);
        p := Progress(p.block, p.index, p.result + [skip], m);
      }
    }
    SideParts(client, refs, p.index, p.block, p.next);
    out := p;
  }

  lemma UnionReached(client: u32, result: seq<Struct>, base: nat, n: nat, left: seq<Struct>, right: seq<Struct>)
    requires Built(client, result, base, n, left, right)
    requires Exhausted(left, n) && Exhausted(right, n) && Chain(client, left) && Chain(client, right)
    ensures IsUnion(result, left, right) && Chain(client, result)
    ensures result != [] <==> HasUnits(left) || HasUnits(right)
  {
    forall c: nat
      ensures Picks(At(result, c), At(left, c), At(right, c))
    {
      if result != [] {
        ChainBounds(client, result, c);
      }
    }
    if HasUnits(left) {
      var c := SomeUnit(client, left);
      assert Picks(At(result, c), At(left, c), At(right, c));
    } else if HasUnits(right) {
      var c := SomeUnit(client, right);
      assert Picks(At(result, c), At(left, c), At(right, c));
    }
  }

  lemma SomeUnit(client: u32, l: seq<Struct>) returns (c: nat)
    requires Chain(client, l) && HasUnits(l)
    ensures At(l, c).Some?
  {
    var i :| 0 <= i < |l| && !l[i].Skip?;
    NonSkipHasUnit(client, l, i);
    c := l[i].id.clock;
  }

  /** What is left of either list, once the other is exhausted. */
  method DrainBoth(client: u32, left: seq<Struct>, li: nat, lblock: Option<Struct>, right: seq<Struct>, ri: nat,
        rblock: Option<Struct>,
                   result: seq<Struct>, next: nat, ghost base: nat, ghost ok: Struct -> bool, ghost cuts: Cuts)
    returns (out: seq<Struct>)
    requires li <= |left| && ri <= |right| && (li == |left| || ri == |right|)
    requires WellFormed(client, left) && WellFormed(client, right)
    requires Side(client, left, li, lblock, next) && Side(client, right, ri, rblock, next)
    requires Built(client, result, base, next, left, right)
    requires Survives(ok, cuts) && Input(left, ok, client, base) && Input(right, ok, client, base)
    requires Output(result, ok, cuts, client, base, next)
    requires lblock.Some? ==> Usable(lblock.value, ok, client, base)
    requires rblock.Some? ==> Usable(rblock.value, ok, client, base)
    ensures Chain(client, out) && IsUnion(out, left, right) && AllOf(out, ok)
    ensures out != [] <==> HasUnits(left) || HasUnits(right)
  {
    hide Survives, CursorOk, Built, Exhausted, Side, Chain, HasUnits, IsUnion, Usable, Input, Output, At;
    SideParts(client, left, li, lblock, next);
    SideParts(client, right, ri, rblock, next);
    var p := Drain(client, left, li, lblock, result, next, base, left, right, right, ok, cuts);
    SideLater(client, right, ri, rblock, next, p.next);
    SideParts(client, right, ri, rblock, p.next);
    ghost var leftDone := p.next;
    p := Drain(client, right, ri, rblock, p.result, p.next, base, left, right, left, ok, cuts);
    StillExhausted(left, leftDone, p.next);
    UnionReached(client, p.result, base, p.next, left, right);
    OutputAll(p.result, ok, cuts, client, base, p.next);
    out := p.result;
  }

  /** A Skip up to the nearer block, if both are ahead. */
  method BridgeGap(client: u32, left: seq<Struct>, li: nat, lblock: Struct, right: seq<Struct>, ri: nat, rblock: Struct,
                   result0: seq<Struct>, next0: nat, ghost base: nat, ghost ok: Struct -> bool, ghost cuts: Cuts)
    returns (result: seq<Struct>, next: nat)
    requires Side(client, left, li, Some(lblock), next0) && Side(client, right, ri, Some(rblock), next0)
    requires Built(client, result0, base, next0, left, right)
    requires Survives(ok, cuts) && Output(result0, ok, cuts, client, base, next0)
    requires Usable(lblock, ok, client, base) && (lblock.id.clock > next0 ==> !lblock.Skip?)
    requires Usable(rblock, ok, client, base) && (rblock.id.clock > next0 ==> !rblock.Skip?)
    ensures Side(client, left, li, Some(lblock), next) && Side(client, right, ri, Some(rblock), next)
    ensures Built(client, result, base, next, left, right) && Output(result, ok, cuts, client, base, next)
    ensures !Gap(Some(lblock), Some(rblock), next)
  {
    hide Survives, CursorOk, Built, Exhausted, Side, Usable, Output, At;
    result, next := result0, next0;
    var minNext := Min(lblock.id.clock, rblock.id.clock);
    if minNext > next {
      BothAhead(client, left, li, lblock, right, ri, rblock, next, result, base);
      var skip := Checked(Skip(ID(client, next), minNext - next)).value;
      SkipUsable(if lblock.id.clock == minNext then lblock else rblock, next, ok, cuts, client, base, result);
      result := result + [skip];
      SideLater(client, left, li, Some(lblock), next, minNext);
      SideLater(client, right, ri, Some(rblock), next, minNext);
      next := minNext;
    }
  }

  /** Both cursors step; a Skip bridges clocks that neither side has. Of two lists
      without any unit nothing is left. */
  method MergeOverlapping(client: u32, left: seq<Struct>, right: seq<Struct>, ghost ok: Struct -> bool,
        ghost cuts: Cuts)
    returns (out: seq<Struct>)
    requires WellFormed(client, left) && WellFormed(client, right)
    requires left[0].id.clock <= right[0].id.clock
    requires Survives(ok, cuts) && AllOf(left, ok) && AllOf(right, ok)
    ensures Chain(client, out) && IsUnion(out, left, right) && AllOf(out, ok)
    ensures out != [] <==> HasUnits(left) || HasUnits(right)
  {
    Begin(client, left, right, ok, cuts);
    hide Survives, CursorOk, Built, Exhausted, Side, Chain, HasUnits, IsUnion, Usable, Input, Output, At;
    ghost var base := left[0].id.clock;
    var next: nat := left[0].id.clock;
    var result: seq<Struct> := [];
    var li: nat, ri: nat := 0, 0;
    var lblock, rblock := Some(left[0]), Some(right[0]);
    while li < |left| && ri < |right|
      invariant li <= |left| && ri <= |right|
      invariant Side(client, left, li, lblock, next) && Side(client, right, ri, rblock, next)
      invariant Built(client, result, base, next, left, right)
      invariant Output(result, ok, cuts, client, base, next)
      invariant lblock.Some? ==> Usable(lblock.value, ok, client, base)
      invariant rblock.Some? ==> Usable(rblock.value, ok, client, base)
      decreases |left| - li + |right| - ri, if Gap(lblock, rblock, next) then 1 else 0
    {
      SideParts(client, left, li, lblock, next);
      var lp := Apply(client, left, li, lblock.value, result, next, base, left, right, ok, cuts);
      SideLater(client, right, ri, rblock, next, lp.next);
      SideParts(client, right, ri, rblock, lp.next);
      var rp := Apply(client, right, ri, rblock.value, lp.result, lp.next, base, left, right, ok, cuts);
      SideLater(client, left, lp.index, lp.block, lp.next, rp.next);
      lblock, li, rblock, ri, result, next := lp.block, lp.index, rp.block, rp.index, rp.result, rp.next;
      if lblock.None? || rblock.None? {
        break;
      }
      result, next := BridgeGap(client, left, li, lblock.value, right, ri, rblock.value, result, next, base, ok, cuts);
    }
    out := DrainBoth(client, left, li, lblock, right, ri, rblock, result, next, base, ok, cuts);
  }
}
