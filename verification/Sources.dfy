/** Where the units of a result come from, every code unit told apart: from one
    of its sources, exactly, unless a cut has separated the halves of a
    surrogate pair. And what every struct of a merge keeps. */
module Sources {
  import opened Prelude
  import opened Structs

  type Source = ID -> Option<Unit>

  /** Is there a cut just before this clock? */
  type Cuts = ID -> bool

  ghost predicate CutAfter(cuts: Cuts, id: ID) {
    id.clock < MAX_U32 && cuts(ID(id.client, id.clock + 1))
  }

  ghost predicate CutAt(cuts: Cuts, client: u32, n: nat) {
    n <= MAX_U32 && cuts(ID(client, n))
  }

  /** The unit at `id` is that of one source, but for a half cut off. */
  ghost predicate FromOne(sources: seq<Source>, cuts: Cuts, id: ID, u: Option<Unit>) {
    exists i :: 0 <= i < |sources| && sources[i](id).Some? && Preserved(sources[i](id), u, cuts(id), CutAfter(cuts, id))
  }

  ghost predicate UnitsFrom(s: Struct, sources: seq<Source>, cuts: Cuts) {
    s.Skip? || forall c: nat :: s.id.clock <= c < s.End() && c <= MAX_U32 ==>
      FromOne(sources, cuts, ID(s.id.client, c), FullStructAt(s, c))
  }

  lemma HalvedStays(sources: seq<Source>, cuts: Cuts, id: ID, u: Option<Unit>, v: Option<Unit>)
    requires FromOne(sources, cuts, id, u)
    requires Preserved(u, v, cuts(id), CutAfter(cuts, id))
    ensures FromOne(sources, cuts, id, v)
  {
    var i :| 0 <= i < |sources| && sources[i](id).Some? && Preserved(sources[i](id), u, cuts(id), CutAfter(cuts, id));
    assert Preserved(sources[i](id), v, cuts(id), CutAfter(cuts, id));
  }

  lemma WindowUnit(s: Struct, start: nat, trim: nat, sources: seq<Source>, cuts: Cuts, c: u32)
    requires s.Valid() && UnitsFrom(s, sources, cuts) && start + trim < s.Length() && !s.Skip?
    requires start > 0 ==> CutAt(cuts, s.id.client, s.id.clock + start)
    requires trim > 0 ==> CutAt(cuts, s.id.client, s.End() - trim)
    requires s.id.clock + start <= c < s.End() - trim
    ensures SliceStruct(s, start, trim).Ok?
    ensures FromOne(sources, cuts, ID(s.id.client, c), FullStructAt(SliceStruct(s, start, trim).value, c))
  {
    hide SliceStruct, FullStructAt, StructAt, FromOne, FirstHalf, SecondHalf, Struct.Length;
    SliceBounds(s, start, trim);
    SliceKeepsExactly(s, start, trim, c);
    HalvesInside(s, c);
    HalvedStays(sources, cuts, ID(s.id.client, c), FullStructAt(s, c),
                FullStructAt(SliceStruct(s, start, trim).value, c));
  }

  /** Whatever is cut out of a struct comes from the same sources. */
  lemma WindowFrom(s: Struct, start: nat, trim: nat, sources: seq<Source>, cuts: Cuts)
    requires s.Valid() && UnitsFrom(s, sources, cuts) && start + trim < s.Length()
    requires start > 0 ==> CutAt(cuts, s.id.client, s.id.clock + start)
    requires trim > 0 ==> CutAt(cuts, s.id.client, s.End() - trim)
    ensures SliceStruct(s, start, trim).Ok? && UnitsFrom(SliceStruct(s, start, trim).value, sources, cuts)
  {
    SliceBounds(s, start, trim);
    hide SliceStruct, FullStructAt, StructAt, FromOne, UnitsFrom, Struct.Length;
    var t := SliceStruct(s, start, trim).value;
    if !s.Skip? {
      forall c: nat | t.id.clock <= c < t.End() && c <= MAX_U32
        ensures FromOne(sources, cuts, ID(t.id.client, c), FullStructAt(t, c))
      {
        WindowUnit(s, start, trim, sources, cuts, c);
      }
    }
    UnitsFromIntro(t, sources, cuts);
  }

  lemma UnitsFromIntro(s: Struct, sources: seq<Source>, cuts: Cuts)
    requires s.Skip? || forall c: nat :: s.id.clock <= c < s.End() && c <= MAX_U32 ==>
               FromOne(sources, cuts, ID(s.id.client, c), FullStructAt(s, c))
    ensures UnitsFrom(s, sources, cuts)
  {
  }

  // ----- What every struct of a merge has -----

  ghost predicate AllOf(l: seq<Struct>, ok: Struct -> bool) {
    forall i :: 0 <= i < |l| ==> ok(l[i])
  }

  /** A property of structs that begin and end at cuts, if they hold units:
      cutting at a cut keeps it, and every Skip has it. */
  ghost predicate Survives(ok: Struct -> bool, cuts: Cuts) {
    && (forall s: Struct :: ok(s) && !s.Skip? ==> CutAt(cuts, s.id.client, s.id.clock) && CutAt(cuts, s.id.client, s.End()))
    && (forall s: Struct, start: nat :: ok(s) && CutAt(cuts, s.id.client, s.id.clock + start) && SliceStruct(s, start, 0).Ok? ==>
          ok(SliceStruct(s, start, 0).value))
    && (forall id: ID, len: u32 :: Checked(Skip(id, len)).Ok? ==> ok(Skip(id, len)))
  }

  lemma AllAppend(l: seq<Struct>, s: Struct, ok: Struct -> bool)
    requires AllOf(l, ok) && ok(s)
    ensures AllOf(l + [s], ok)
  {
  }

  lemma EndsAtCuts(s: Struct, ok: Struct -> bool, cuts: Cuts)
    requires Survives(ok, cuts) && ok(s) && !s.Skip?
    ensures CutAt(cuts, s.id.client, s.id.clock) && CutAt(cuts, s.id.client, s.End())
  {
  }

  lemma CutSurvives(s: Struct, start: nat, ok: Struct -> bool, cuts: Cuts)
    requires Survives(ok, cuts) && ok(s) && CutAt(cuts, s.id.client, s.id.clock + start) && SliceStruct(s, start, 0).Ok?
    ensures ok(SliceStruct(s, start, 0).value)
  {
  }

  lemma SkipSurvives(id: ID, len: u32, ok: Struct -> bool, cuts: Cuts)
    requires Survives(ok, cuts) && Checked(Skip(id, len)).Ok?
    ensures ok(Skip(id, len))
  {
  }

  ghost function Joint(f: Struct -> bool, g: Struct -> bool): Struct -> bool {
    (s: Struct) => f(s) && g(s)
  }

  /** A property that every cut keeps and every Skip has. */
  ghost predicate ClosedUnderCuts(ok: Struct -> bool) {
    && (forall s: Struct, start: nat :: ok(s) && SliceStruct(s, start, 0).Ok? ==> ok(SliceStruct(s, start, 0).value))
    && (forall id: ID, len: u32 :: Checked(Skip(id, len)).Ok? ==> ok(Skip(id, len)))
  }

  lemma JointSurvive(f: Struct -> bool, g: Struct -> bool, cuts: Cuts)
    requires ClosedUnderCuts(f) && Survives(g, cuts)
    ensures Survives(Joint(f, g), cuts)
  {
    hide SliceStruct;
  }

  /** With fewer cuts. */
  lemma NarrowSurvives(f: Struct -> bool, cuts: Cuts, g: Struct -> bool, narrow: Cuts)
    requires Survives(f, cuts) && Survives(g, narrow) && forall id :: narrow(id) ==> cuts(id)
    ensures Survives(Joint(f, g), narrow)
  {
    hide SliceStruct;
  }

  // ----- Sources as such a property -----

  /** A Skip, or a struct between cuts whose units come from the sources. */
  ghost function From(sources: seq<Source>, cuts: Cuts): Struct -> bool {
    (s: Struct) =>
      s.Valid() && (s.Skip? || (CutAt(cuts, s.id.client, s.id.clock) && CutAt(cuts, s.id.client, s.End())
          && UnitsFrom(s, sources, cuts)))
  }

  lemma FromHasUnits(s: Struct, sources: seq<Source>, cuts: Cuts)
    requires From(sources, cuts)(s)
    ensures UnitsFrom(s, sources, cuts)
  {
    hide FromOne;
  }

  lemma FromSurvives(sources: seq<Source>, cuts: Cuts)
    ensures Survives(From(sources, cuts), cuts)
  {
    hide SliceStruct, UnitsFrom, StructAt;
    var ok := From(sources, cuts);
    forall s: Struct, start: nat | ok(s) && CutAt(cuts, s.id.client, s.id.clock + start) && SliceStruct(s, start, 0).Ok?
      ensures ok(SliceStruct(s, start, 0).value)
    {
      SliceWithin(s, start);
      SliceKeepsUnits(s, start, 0);
      FromHasUnits(s, sources, cuts);
      WindowFrom(s, start, 0, sources, cuts);
    }
    forall id: ID, len: u32 | Checked(Skip(id, len)).Ok?
      ensures ok(Skip(id, len))
    {
      SkipValid(id, len);
    }
  }

  lemma SliceWithin(s: Struct, start: nat)
    requires SliceStruct(s, start, 0).Ok?
    ensures start < s.Length()
  {
  }

  lemma SkipValid(id: ID, len: u32)
    requires Checked(Skip(id, len)).Ok?
    ensures Skip(id, len).Valid()
  {
  }

  /** Every unit of a list of such structs comes from one of the sources. */
  lemma ListFrom(client: u32, l: seq<Struct>, sources: seq<Source>, cuts: Cuts, c: u32)
    requires Chain(client, l) && FullAt(l, c).Some?
    requires forall i :: 0 <= i < |l| ==> UnitsFrom(l[i], sources, cuts)
    ensures FromOne(sources, cuts, ID(client, c), FullAt(l, c))
  {
    hide FullStructAt, FromOne;
    var i := FullCovers(client, l, c);
    ChainSuffix(client, l, i);
    assert UnitsFrom(l[i], sources, cuts);
  }

  /** A list is where the units of its own structs come from. */
  lemma OwnUnits(client: u32, l: seq<Struct>, i: nat, sources: seq<Source>, k: nat, cuts: Cuts)
    requires Chain(client, l) && i < |l| && k < |sources|
    requires forall c: u32 :: sources[k](ID(client, c)) == FullAt(l, c)
    ensures UnitsFrom(l[i], sources, cuts)
  {
    hide FullStructAt, StructAt;
    ChainSuffix(client, l, i);
    if !l[i].Skip? {
      forall c: nat | l[i].id.clock <= c < l[i].End() && c <= MAX_U32
        ensures FromOne(sources, cuts, ID(client, c), FullStructAt(l[i], c))
      {
        FullCovered(client, l, i, c);
        HasUnit(l[i], c);
        assert Preserved(sources[k](ID(client, c)), FullStructAt(l[i], c), cuts(ID(client, c)),
            CutAfter(cuts, ID(client, c)));
      }
    }
  }

  lemma HasUnit(s: Struct, c: nat)
    requires s.Valid() && !s.Skip? && s.id.clock <= c < s.End()
    ensures FullStructAt(s, c).Some?
  {
  }

  /** Where no pair is cut, what comes from a source is exactly the source's. */
  ghost predicate NoPairCut(sources: seq<Source>, cuts: Cuts) {
    forall i, id :: 0 <= i < |sources| ==>
      !(SecondHalf(sources[i](id)) && cuts(id)) && !(FirstHalf(sources[i](id)) && CutAfter(cuts, id))
  }

  lemma ExactlyFrom(sources: seq<Source>, cuts: Cuts, id: ID, u: Option<Unit>)
    requires NoPairCut(sources, cuts) && FromOne(sources, cuts, id, u)
    ensures exists i :: 0 <= i < |sources| && sources[i](id).Some? && u == sources[i](id)
  {
    var i :| 0 <= i < |sources| && sources[i](id).Some? && Preserved(sources[i](id), u, cuts(id), CutAfter(cuts, id));
    assert u == sources[i](id);
  }
}
