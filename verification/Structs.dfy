/** Structs of an update and what they mean: one unit per clock. */
module Structs {
  import opened Prelude
  import opened Text

  datatype ID = ID(client: u32, clock: u32)

  datatype Parent = NoParent | Root(name: string) | ParentId(id: ID)

  /** Contents by wire reference 1 to 9. Embed, format, any and doc values are
      the raw bytes of one lib0 value. */
  datatype Content =
    | Deleted(len: u32)
    | Json(values: seq<string>)
    | Binary(buf: bytes)
    | Str(text: string)
    | Embed(raw: bytes)
    | Format(key: string, raw: bytes)
    | Type(typeRef: u32, name: string)
    | Any(items: seq<bytes>)
    | Doc(guid: string, raw: bytes)
  {
    function Length(): nat {
      match this
      case Deleted(n) => n
      case Json(values) => |values|
      case Str(text) => Utf16Length(text)
      case Any(items) => |items|
      case _ => 1
    }
  }

  datatype Struct =
    | GC(id: ID, len: u32)
    | Skip(id: ID, len: u32)
    | Item(id: ID, origin: Option<ID>, rightOrigin: Option<ID>, parent: Parent, parentSub: string,
           keep: bool, content: Content)
  {
    function Length(): nat {
      if Item? then content.Length() else len
    }

    function End(): nat {
      id.clock + Length()
    }

    /** What the constructors enforce: a length, and an end within 32 bits. */
    predicate Valid() {
      Length() > 0 && End() <= MAX_U32
    }
  }

  /** NewGC, NewSkip and NewItem: the two ways a struct can be refused. */
  function Checked(s: Struct): Result<Struct> {
    if s.Length() == 0 then Err(InvalidLength)
    else if s.End() > MAX_U32 then Err(StructOverflow)
    else Ok(s)
  }

  // ----- Meaning -----

  /** One clock's worth of content. Text that is a surrogate half, or the
      U+FFFD a cut through a pair leaves behind, is only known to be there. */
  datatype Atom =
    | DeletedAtom
    | JsonAtom(value: string)
    | TextAtom(code: unit)
    | BrokenText
    | AnyAtom(item: bytes)
    | Whole(content: Content)

  function TextAtomOf(u: unit): Atom {
    if Surrogate(u) || u == 0xFFFD then BrokenText else TextAtom(u)
  }

  function AtomAt(c: Content, k: nat): Atom
    requires k < c.Length()
  {
    match c
    case Deleted(_) => DeletedAtom
    case Json(values) => JsonAtom(values[k])
    case Str(text) => TextAtomOf(Units(text)[k])
    case Any(items) => AnyAtom(items[k])
    case _ => Whole(c)
  }

  /** The same with every code unit of a text told apart. */
  function FullAtom(c: Content, k: nat): (a: Atom)
    requires k < c.Length()
    ensures AtomAt(c, k) == if a.TextAtom? then TextAtomOf(a.code) else a
  {
    if c.Str? then TextAtom(Units(c.text)[k]) else AtomAt(c, k)
  }

  /** What one clock holds. Parent and parentSub count only where the wire
      carries them: on a unit with neither origin nor right origin. */
  datatype Unit =
    | Collected
    | Unit(origin: Option<ID>, rightOrigin: Option<ID>, parent: Parent, parentSub: string, keep: bool, atom: Atom)

  function MakeUnit(origin: Option<ID>, rightOrigin: Option<ID>, parent: Parent, parentSub: string,
                    keep: bool, atom: Atom): Unit
  {
    if origin.None? && rightOrigin.None? then Unit(origin, rightOrigin, parent, parentSub, keep, atom)
    else Unit(origin, rightOrigin, NoParent, "", keep, atom)
  }

  /** The unit of struct `s` at clock `c`, if it has one. */
  function StructAt(s: Struct, c: nat): Option<Unit> {
    if !(s.id.clock <= c < s.End()) || s.Skip? || !s.Valid() then None
    else if s.GC? then Some(Collected)
    else
      var origin := if c == s.id.clock then s.origin else Some(ID(s.id.client, c - 1));
      Some(MakeUnit(origin, s.rightOrigin, s.parent, s.parentSub, s.keep, AtomAt(s.content, c - s.id.clock)))
  }

  /** The unit at clock `c` of a list: that of the struct which covers `c`. */
  function At(l: seq<Struct>, c: nat): Option<Unit> {
    if l == [] then None
    else if l[0].id.clock <= c < l[0].End() then StructAt(l[0], c)
    else At(l[1..], c)
  }

  // ----- Meaning, every code unit told apart -----

  /** Two units that differ in nothing but surrogates and U+FFFD. */
  function Blurred(u: Unit): Unit {
    if u.Unit? && u.atom.TextAtom? then u.(atom := TextAtomOf(u.atom.code)) else u
  }

  function FullStructAt(s: Struct, c: nat): (u: Option<Unit>)
    ensures StructAt(s, c) == if u.Some? then Some(Blurred(u.value)) else None
  {
    var u := StructAt(s, c);
    if u.Some? && u.value.Unit? then Some(u.value.(atom := FullAtom(s.content, c - s.id.clock))) else u
  }

  function FullAt(l: seq<Struct>, c: nat): (u: Option<Unit>)
    ensures At(l, c) == if u.Some? then Some(Blurred(u.value)) else None
  {
    if l == [] then None
    else if l[0].id.clock <= c < l[0].End() then FullStructAt(l[0], c)
    else FullAt(l[1..], c)
  }

  /** The first or the second half of a surrogate pair. */
  predicate FirstHalfAtom(a: Atom) {
    a.TextAtom? && HighSurrogate(a.code)
  }

  predicate SecondHalfAtom(a: Atom) {
    a.TextAtom? && LowSurrogate(a.code)
  }

  predicate FirstHalf(u: Option<Unit>) {
    u.Some? && u.value.Unit? && FirstHalfAtom(u.value.atom)
  }

  predicate SecondHalf(u: Option<Unit>) {
    u.Some? && u.value.Unit? && SecondHalfAtom(u.value.atom)
  }

  /** What is left of a half once its partner is cut away: U+FFFD. */
  function Halved(u: Unit): Unit
    requires u.Unit?
  {
    u.(atom := TextAtom(0xFFFD))
  }

  /** A unit with a cut before or after it: a half without its partner is
      replaced, anything else stays. */
  function CutOff(u: Option<Unit>, cutBefore: bool, cutAfter: bool): Option<Unit> {
    if (cutBefore && SecondHalf(u)) || (cutAfter && FirstHalf(u)) then Some(Halved(u.value)) else u
  }

  /** Only a cut that meets a half counts. */
  lemma OneCut(u: Option<Unit>, before: bool, after: bool, before1: bool, after1: bool)
    requires SecondHalf(u) ==> before == before1
    requires FirstHalf(u) ==> after == after1
    ensures CutOff(u, before, after) == CutOff(u, before1, after1)
  {
  }

  lemma NotCut(u: Option<Unit>)
    ensures CutOff(u, false, false) == u
  {
  }

  lemma CutNone(before: bool, after: bool)
    ensures CutOff(None, before, after) == None
  {
  }

  /** `to` is `from` as it was, or as cuts there leave it. */
  predicate Preserved(from: Option<Unit>, to: Option<Unit>, cutBefore: bool, cutAfter: bool) {
    to == from || to == CutOff(from, cutBefore, cutAfter)
  }

  /** Structs of one client, each starting where the one before ends. */
  predicate Chain(client: u32, l: seq<Struct>) {
    l == [] ||
    (&& l[0].Valid() && l[0].id.client == client
     && (|l| > 1 ==> l[1].id.clock == l[0].End())
     && Chain(client, l[1..]))
  }

  predicate HasUnits(l: seq<Struct>) {
    exists i :: 0 <= i < |l| && !l[i].Skip?
  }

  /** What every operation expects of a client's list. */
  predicate WellFormed(client: u32, l: seq<Struct>) {
    Chain(client, l) && l != []
  }

  function ListEnd(l: seq<Struct>): nat
    requires l != []
  {
    l[|l| - 1].End()
  }

  /** Units lie between the first start and the last end. */
  lemma {:induction false} ChainBounds(client: u32, l: seq<Struct>, c: nat)
    requires Chain(client, l) && l != []
    ensures l[0].id.clock < l[0].End() <= ListEnd(l) <= MAX_U32
    ensures At(l, c).Some? ==> l[0].id.clock <= c < ListEnd(l)
  {
    if |l| > 1 {
      ChainBounds(client, l[1..], c);
    } else {
      assert At(l[1..], c).None?;
    }
  }

  lemma {:induction false} ChainSuffix(client: u32, l: seq<Struct>, i: nat)
    requires Chain(client, l) && i < |l|
    ensures Chain(client, l[i..]) && l[i].Valid() && l[i].id.client == client
    ensures i + 1 < |l| ==> l[i + 1].id.clock == l[i].End()
    ensures l[i..] == [l[i]] + l[i + 1..]
  {
    if i > 0 {
      ChainSuffix(client, l[1..], i - 1);
      assert l[1..][i - 1..] == l[i..];
    }
  }

  lemma ChainHead(client: u32, s: Struct, l: seq<Struct>)
    requires s.Valid() && s.id.client == client && Chain(client, l)
    requires l != [] ==> l[0].id.clock == s.End()
    ensures Chain(client, [s] + l)
  {
    assert ([s] + l)[1..] == l;
  }

  lemma {:induction false} ChainConcat(client: u32, a: seq<Struct>, b: seq<Struct>, c: nat)
    requires Chain(client, a) && Chain(client, b)
    requires a != [] && b != [] ==> b[0].id.clock == ListEnd(a)
    ensures Chain(client, a + b)
    ensures At(a + b, c) == if a != [] && c < ListEnd(a) then At(a, c) else At(b, c)
  {
    if a == [] {
      assert a + b == b;
    } else {
      var tail := a[1..] + b;
      assert (a + b)[1..] == tail && (a + b)[0] == a[0];
      ChainBounds(client, a, c);
      if b != [] {
        ChainBounds(client, b, c);
      }
      ChainConcat(client, a[1..], b, c);
      if |a| > 1 {
        ChainBounds(client, a[1..], c);
        assert ListEnd(a[1..]) == ListEnd(a);
        assert tail[0] == a[1];
      }
    }
  }

  lemma ChainAppend(client: u32, a: seq<Struct>, s: Struct, c: nat)
    requires Chain(client, a) && s.Valid() && s.id.client == client
    requires a != [] ==> s.id.clock == ListEnd(a)
    ensures Chain(client, a + [s])
    ensures At(a + [s], c) == if a != [] && c < ListEnd(a) then At(a, c) else StructAt(s, c)
  {
    ChainConcat(client, a, [s], c);
  }

  // ----- Slicing -----

  /** ParsedContent.SliceWindow: nine kinds, of which four can be cut. */
  function SliceContent(c: Content, start: nat, trim: nat): Result<Content> {
    if start + trim >= c.Length() then Err(InvalidSliceOffset)
    else if start == 0 && trim == 0 then Ok(c)
    else
      var n := c.Length() - start - trim;
      match c
      case Deleted(_) => Ok(Deleted(n))
      case Json(values) => Ok(Json(values[start..start + n]))
      case Str(text) =>
        var window :- Window(text, start, n);
        Ok(Str(window))
      case Any(items) => Ok(Any(items[start..start + n]))
      case _ => Err(UnsupportedContentSlice)
  }

  function OriginForSlice(s: Struct, start: nat): Option<ID>
    requires s.Item? && (start > 0 ==> s.id.clock + start - 1 <= MAX_U32)
  {
    if start == 0 then s.origin else Some(ID(s.id.client, s.id.clock + start - 1))
  }

  /** sliceStructWindowV1: drop `start` clocks in front and `trim` behind. */
  function SliceStruct(s: Struct, start: nat, trim: nat): Result<Struct> {
    if start + trim >= s.Length() then Err(InvalidSliceOffset)
    else if start == 0 && trim == 0 then Ok(s)
    else if s.id.clock + start > MAX_U32 then Err(StructOverflow)
    else
      var id := ID(s.id.client, s.id.clock + start);
      match s
      case GC(_, len) => Checked(GC(id, len - start - trim))
      case Skip(_, len) => Checked(Skip(id, len - start - trim))
      case Item(_, _, rightOrigin, parent, parentSub, keep, content) =>
        var next :- SliceContent(content, start, trim);
        Checked(Item(id, OriginForSlice(s, start), rightOrigin, parent, parentSub, keep, next))
  }

  /** Contents that cannot be cut have length one, so no cut ever reaches one;
      what is kept keeps its atoms. */
  lemma SliceContentKeepsAtoms(c: Content, start: nat, trim: nat)
    requires start + trim < c.Length()
    ensures SliceContent(c, start, trim).Ok?
    ensures SliceContent(c, start, trim).value.Length() == c.Length() - start - trim
    ensures forall k :: 0 <= k < c.Length() - start - trim ==>
              AtomAt(SliceContent(c, start, trim).value, k) == AtomAt(c, start + k)
  {
    if c.Str? && !(start == 0 && trim == 0) {
      SliceTextKeepsAtoms(c.text, start, c.Length() - start - trim);
    }
  }

  lemma SliceTextKeepsAtoms(text: string, start: nat, n: nat)
    requires start + n <= |Units(text)| && n > 0
    ensures Window(text, start, n).Ok?
    ensures var out := Units(Window(text, start, n).value);
            |out| == n && forall k :: 0 <= k < n ==> TextAtomOf(out[k]) == TextAtomOf(Units(text)[start + k])
  {
    UnitsOfFromUnits(Units(text)[start..start + n]);
  }

  /** A slice is defined, ends where it should, and every clock it keeps keeps
      its unit. */
  lemma SliceKeepsUnits(s: Struct, start: nat, trim: nat)
    requires s.Valid() && start + trim < s.Length()
    ensures SliceStruct(s, start, trim).Ok?
    ensures var t := SliceStruct(s, start, trim).value;
            && t.Valid() && t.id == ID(s.id.client, s.id.clock + start) && t.End() == s.End() - trim
            && t.Skip? == s.Skip? && t.GC? == s.GC?
            && forall c :: s.id.clock + start <= c < s.End() - trim ==> StructAt(t, c) == StructAt(s, c)
  {
    if s.Item? {
      SliceContentKeepsAtoms(s.content, start, trim);
    }
  }

  lemma SliceBounds(s: Struct, start: nat, trim: nat)
    requires s.Valid() && start + trim < s.Length()
    ensures SliceStruct(s, start, trim).Ok?
    ensures var t := SliceStruct(s, start, trim).value;
            t.id == ID(s.id.client, s.id.clock + start) && t.End() == s.End() - trim && t.Skip? == s.Skip?
  {
    hide SliceStruct, StructAt, Struct.Length;
    SliceKeepsUnits(s, start, trim);
  }

  // ----- Slicing, every code unit told apart -----

  lemma SliceTextExactly(text: string, start: nat, n: nat, k: nat)
    requires start + n <= |Units(text)| && k < n
    ensures var us, out := Units(text), Units(Window(text, start, n).value);
            && |out| == n
            && out[k] == if (k == 0 && SplitsPair(us, start)) || (k == n - 1 && SplitsPair(us, start + n)) then 0xFFFD
                         else us[start + k]
  {
    var us := Units(text);
    UnitsOfFromUnits(us[start..start + n]);
    UnitsPaired(text);
    assert Sanitized(us, start + k) == us[start + k];
  }

  /** A half at the end of a text has its partner next to it. */
  lemma HalvesArePaired(text: string, k: nat)
    requires k < |Units(text)|
    ensures LowSurrogate(Units(text)[k]) <==> SplitsPair(Units(text), k)
    ensures HighSurrogate(Units(text)[k]) <==> SplitsPair(Units(text), k + 1)
  {
    UnitsPaired(text);
    assert Sanitized(Units(text), k) == Units(text)[k];
  }

  lemma SliceContentExactly(c: Content, start: nat, trim: nat, k: nat)
    requires start + trim + k < c.Length() && SliceContent(c, start, trim).Ok?
    requires SliceContent(c, start, trim).value.Length() == c.Length() - start - trim
    ensures var out, a := SliceContent(c, start, trim).value, FullAtom(c, start + k);
            FullAtom(out, k) ==
            if (start > 0 && k == 0 && SecondHalfAtom(a)) || (trim > 0 && k == out.Length() - 1 && FirstHalfAtom(a))
            then TextAtom(0xFFFD) else a
  {
    if c.Str? && !(start == 0 && trim == 0) {
      hide Units, Window;
      SliceTextExactly(c.text, start, c.Length() - start - trim, k);
      HalvesArePaired(c.text, start + k);
    }
  }

  lemma FullItem(s: Struct, c: nat)
    requires s.Item? && s.Valid() && s.id.clock <= c < s.End()
    ensures FullStructAt(s, c) ==
            Some(MakeUnit(if c == s.id.clock then s.origin else Some(ID(s.id.client, c - 1)), s.rightOrigin, s.parent,
                          s.parentSub, s.keep, FullAtom(s.content, c - s.id.clock)))
  {
    hide FullAtom, AtomAt;
  }

  lemma SlicedItem(s: Struct, start: nat, trim: nat)
    requires s.Item? && s.Valid() && start + trim < s.Length() && SliceContent(s.content, start, trim).Ok?
    requires SliceStruct(s, start, trim).Ok?
    ensures SliceStruct(s, start, trim).value ==
            s.(id := ID(s.id.client, s.id.clock + start), origin := OriginForSlice(s, start),
               content := SliceContent(s.content, start, trim).value)
  {
  }

  /** A GC has collected units, a Skip none. */
  lemma PlainUnits(s: Struct, c: nat)
    requires !s.Item? && s.Valid() && s.id.clock <= c < s.End()
    ensures FullStructAt(s, c) == if s.Skip? then None else Some(Collected)
  {
  }

  lemma SliceItemExactly(s: Struct, start: nat, trim: nat, c: nat)
    requires s.Item? && s.Valid() && start + trim < s.Length() && s.id.clock + start <= c < s.End() - trim
    requires SliceStruct(s, start, trim).Ok?
    requires var t := SliceStruct(s, start, trim).value;
             t.Valid() && t.id == ID(s.id.client, s.id.clock + start) && t.End() == s.End() - trim
    ensures var t, u := SliceStruct(s, start, trim).value, FullStructAt(s, c);
            FullStructAt(t, c) ==
            if (start > 0 && c == t.id.clock && SecondHalf(u)) || (trim > 0 && c == t.End() - 1 && FirstHalf(u))
            then Some(Halved(u.value)) else u
  {
    SliceContentKeepsAtoms(s.content, start, trim);
    SlicedItem(s, start, trim);
    hide SliceContent, Content.Length, FullAtom, AtomAt, SliceStruct, FullStructAt, StructAt;
    SliceContentExactly(s.content, start, trim, c - s.id.clock - start);
    FullItem(s, c);
    FullItem(SliceStruct(s, start, trim).value, c);
  }

  /** The halves of a pair are next to each other in one struct. */
  lemma HalvesInside(s: Struct, c: nat)
    ensures SecondHalf(FullStructAt(s, c)) ==> s.id.clock < c < s.End() && FirstHalf(FullStructAt(s, c - 1))
    ensures FirstHalf(FullStructAt(s, c)) ==> s.id.clock <= c < s.End() - 1 && SecondHalf(FullStructAt(s, c + 1))
  {
    if s.Item? && s.content.Str? && s.Valid() && s.id.clock <= c < s.End() {
      var k := c - s.id.clock;
      hide Units;
      HalvesArePaired(s.content.text, k);
      FullItem(s, c);
      if k > 0 {
        FullItem(s, c - 1);
      }
      if c + 1 < s.End() {
        FullItem(s, c + 1);
      }
    }
  }

  /** What a slice does to a unit: it stays as it is, unless the slice cuts it
      off its other half; then U+FFFD is left. */
  lemma SliceKeepsExactly(s: Struct, start: nat, trim: nat, c: nat)
    requires s.Valid() && start + trim < s.Length() && s.id.clock + start <= c < s.End() - trim
    ensures SliceStruct(s, start, trim).Ok?
    ensures var t := SliceStruct(s, start, trim).value;
            FullStructAt(t, c) == CutOff(FullStructAt(s, c), c == t.id.clock, c == t.End() - 1)
  {
    SliceKeepsUnits(s, start, trim);
    HalvesInside(s, c);
    hide FullStructAt, StructAt, SliceStruct, FirstHalf, SecondHalf;
    if s.Item? {
      SliceItemExactly(s, start, trim, c);
    } else {
      PlainUnits(s, c);
      PlainUnits(SliceStruct(s, start, trim).value, c);
      NoHalves(FullStructAt(s, c));
    }
  }

  lemma NoHalves(u: Option<Unit>)
    requires u.None? || u.value.Collected?
    ensures !FirstHalf(u) && !SecondHalf(u)
  {
  }

  lemma {:induction false} FullConcat(client: u32, a: seq<Struct>, b: seq<Struct>, c: nat)
    requires Chain(client, a) && Chain(client, b)
    requires a != [] && b != [] ==> b[0].id.clock == ListEnd(a)
    ensures FullAt(a + b, c) == if a != [] && c < ListEnd(a) then FullAt(a, c) else FullAt(b, c)
  {
    hide FullStructAt;
    if a == [] {
      assert a + b == b;
    } else {
      assert (a + b)[1..] == a[1..] + b && (a + b)[0] == a[0];
      ChainBounds(client, a, c);
      if b != [] {
        ChainBounds(client, b, c);
      }
      FullConcat(client, a[1..], b, c);
      if |a| > 1 {
        ChainBounds(client, a[1..], c);
        assert ListEnd(a[1..]) == ListEnd(a);
      }
    }
  }

  /** A struct of a contiguous list says what its clocks hold. */
  lemma {:induction false} FullCovered(client: u32, l: seq<Struct>, i: nat, c: nat)
    requires Chain(client, l) && i < |l| && l[i].id.clock <= c < l[i].End()
    ensures FullAt(l, c) == FullStructAt(l[i], c)
  {
    if i > 0 {
      ChainBounds(client, l, c);
      ChainBounds(client, l[1..], c);
      FullCovered(client, l[1..], i - 1, c);
      ChainOrder(client, l, i);
    }
  }

  lemma {:induction false} ChainOrder(client: u32, l: seq<Struct>, i: nat)
    requires Chain(client, l) && 0 < i < |l|
    ensures l[0].End() <= l[i].id.clock
  {
    if i > 1 {
      ChainOrder(client, l[1..], i - 1);
      assert l[1].id.clock < l[1].End();
    }
  }

  /** A clock with a unit is covered by a struct that is no Skip. */
  lemma {:induction false} FullCovers(client: u32, l: seq<Struct>, c: nat) returns (i: nat)
    requires Chain(client, l) && FullAt(l, c).Some?
    ensures i < |l| && l[i].id.clock <= c < l[i].End() && !l[i].Skip? && FullAt(l, c) == FullStructAt(l[i], c)
  {
    if l[0].id.clock <= c < l[0].End() {
      i := 0;
    } else {
      var j := FullCovers(client, l[1..], c);
      i := j + 1;
    }
  }
}
