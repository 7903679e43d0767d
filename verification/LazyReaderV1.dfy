/** The lazy V1 reader: one struct at a time, clocks reconstructed, then the
    delete set. What it shows is a prefix of what `Decode` sees at once. */
module LazyReaderV1 {
  import opened Prelude
  import opened Wire
  import opened Orders
  import opened Structs
  import opened IdSetObject
  import opened Updates
  import opened CodecV1
  import opened DeleteSets
  import opened UpdateV1

  /** Structs still to come and the bytes behind them, or the failure ahead. */
  type Ahead = Result<(seq<Struct>, bytes)>

  /** The rest of the open block, then the other blocks. */
  function Coming(b: bytes, clients: nat, structs: nat, id: ID): Ahead {
    var (l, b1) :- ReadStructs(b, structs, id);
    var (more, rest) :- ReadBlocks(b1, clients);
    Ok((l + more, rest))
  }

  /** All structs of an update. */
  function AllStructs(update: bytes): Ahead {
    var (n, b1) :- ReadVarUint(update);
    ReadBlocks(b1, n)
  }

  function Prepend(l: seq<Struct>, p: Ahead): Ahead {
    match p
    case Ok((more, rest)) => Ok((l + more, rest))
    case Err(e) => Err(e)
  }

  lemma PrependNone(p: Ahead)
    ensures Prepend([], p) == p
  {
    if p.Ok? {
      assert [] + p.value.0 == p.value.0;
    }
  }

  lemma PrependMore(a: seq<Struct>, b: seq<Struct>, p: Ahead)
    ensures Prepend(a + b, p) == Prepend(a, Prepend(b, p))
  {
    if p.Ok? {
      Assoc(a, b, p.value.0);
    }
  }

  function NonSkips(l: seq<Struct>): seq<Struct> {
    if l == [] then [] else (if l[0].Skip? then [] else [l[0]]) + NonSkips(l[1..])
  }

  function Shown(p: Ahead, filterSkips: bool): Ahead {
    match p
    case Ok((l, rest)) => Ok((if filterSkips then NonSkips(l) else l, rest))
    case Err(e) => Err(e)
  }

  lemma ShownPrepend(s: Struct, p: Ahead, filterSkips: bool)
    ensures Shown(Prepend([s], p), filterSkips) ==
            if filterSkips && s.Skip? then Shown(p, filterSkips) else Prepend([s], Shown(p, filterSkips))
  {
    if p.Ok? {
      var l := p.value.0;
      assert ([s] + l)[1..] == l;
      assert NonSkips([s] + l) == (if s.Skip? then [] else [s]) + NonSkips(l);
      assert [] + NonSkips(l) == NonSkips(l);
    }
  }

  lemma ComingNone(b: bytes, id: ID)
    ensures Coming(b, 0, 0, id) == Ok(([], b))
  {
    var none: seq<Struct> := [];
    assert ReadStructs(b, 0, id) == Ok((none, b)) && ReadBlocks(b, 0) == Ok((none, b));
    assert none + none == none;
  }

  lemma ComingBlock(b: bytes, clients: nat, id: ID)
    requires clients > 0
    ensures match ReadVarUint(b)
            case Err(e) => Coming(b, clients, 0, id) == Err(e)
            case Ok((count, b1)) =>
              match ReadId(b1)
              case Err(e) => Coming(b, clients, 0, id) == Err(e)
              case Ok((first, b2)) => Coming(b, clients, 0, id) == Coming(b2, clients - 1, count, first)
  {
    var p := ReadBlocks(b, clients);
    PrependNone(p);
  }

  lemma ComingStruct(b: bytes, clients: nat, structs: nat, id: ID)
    requires structs > 0
    ensures match ReadStruct(b, id)
            case Err(e) => Coming(b, clients, structs, id) == Err(e)
            case Ok((s, b1)) =>
              Coming(b, clients, structs, id) ==
              Prepend([s], Coming(b1, clients, structs - 1, ID(id.client, AsU32(s.End()))))
  {
    hide ReadStruct;
    var r := ReadStruct(b, id);
    if r.Ok? {
      var (s, b1) := r.value;
      var l := ReadStructs(b1, structs - 1, ID(id.client, AsU32(s.End())));
      if l.Ok? {
        var more := ReadBlocks(l.value.1, clients);
        if more.Ok? {
          Assoc([s], l.value.0, more.value.0);
        }
      }
    }
  }

  class LazyReader {
    var rest: bytes
    var remainingClients: nat
    var remainingStructs: nat
    var currentClient: u32
    var currentClock: u32
    var current: Option<Struct>
    const filterSkips: bool
    var structsExhausted: bool
    var deleteSetConsumed: bool

    ghost predicate Valid()
      reads this
    {
      && (current.Some? ==> Encodable(current.value) && !(filterSkips && current.value.Skip?))
      && (current.None? ==> structsExhausted)
    }

    /** What lies behind the current struct. */
    ghost function Behind(): Ahead
      reads this
    {
      Shown(Coming(rest, remainingClients, remainingStructs, ID(currentClient, currentClock)), filterSkips)
    }

    /** What a client has not passed yet: the current struct and all behind. */
    ghost function Unread(): Ahead
      reads this
    {
      if current.Some? then Prepend([current.value], Behind()) else Ok(([], rest))
    }

    /** Less is left to read than there was, or nothing is shown any more. */
    ghost predicate Progress(clients: nat, structs: nat)
      reads this
    {
      remainingClients < clients ||
      (remainingClients == clients && (remainingStructs < structs || (remainingStructs == structs && current.None?)))
    }

    constructor (rest: bytes, count: nat, filterSkips: bool)
      ensures this.rest == rest && remainingClients == count && remainingStructs == 0
      ensures this.filterSkips == filterSkips && !structsExhausted && !deleteSetConsumed
    {
      this.rest, remainingClients, remainingStructs := rest, count, 0;
      currentClient, currentClock, current := 0, 0, None;
      this.filterSkips, structsExhausted, deleteSetConsumed := filterSkips, false, false;
    }

    /** Opens blocks until one has a struct, and reads that. */
    method NextStruct() returns (r: Result<Option<Struct>>)
      modifies `rest, `remainingClients, `remainingStructs, `currentClient, `currentClock, `structsExhausted
      ensures var before := old(Coming(rest, remainingClients, remainingStructs, ID(currentClient, currentClock)));
              var after := Coming(rest, remainingClients, remainingStructs, ID(currentClient, currentClock));
              match r
              case Err(e) => before == Err(e)
              case Ok(None) => before == Ok(([], rest)) && structsExhausted
              case Ok(Some(s)) => before == Prepend([s], after) && Encodable(s)
      ensures r.Ok? ==>
                && remainingClients <= old(remainingClients)
                && (remainingClients == old(remainingClients) ==> remainingStructs <= old(remainingStructs))
                && (r.value.Some? ==> remainingClients < old(remainingClients) || remainingStructs < old(remainingStructs))
    {
      hide Coming, ReadStruct, ReadVarUint, ReadId, EncStruct;
      while remainingStructs == 0
        invariant remainingClients <= old(remainingClients)
        invariant remainingClients == old(remainingClients) ==> remainingStructs == old(remainingStructs)
        invariant old(Coming(rest, remainingClients, remainingStructs, ID(currentClient, currentClock))) ==
                  Coming(rest, remainingClients, remainingStructs, ID(currentClient, currentClock))
        decreases remainingClients
      {
        if remainingClients == 0 {
          ComingNone(rest, ID(currentClient, currentClock));
          structsExhausted := true;
          return Ok(None);
        }
        ComingBlock(rest, remainingClients, ID(currentClient, currentClock));
        var count := ReadVarUint(rest);
        if count.Err? {
          return Err(count.error);
        }
        var first := ReadId(count.value.1);
        if first.Err? {
          return Err(first.error);
        }
        remainingClients := remainingClients - 1;
        remainingStructs := count.value.0;
        currentClient, currentClock := first.value.0.client, first.value.0.clock;
        rest := first.value.1;
      }
      var id := ID(currentClient, currentClock);
      ComingStruct(rest, remainingClients, remainingStructs, id);
      var next := ReadStruct(rest, id);
      if next.Err? {
        return Err(next.error);
      }
      ReadStructEncodable(rest, id);
      remainingStructs := remainingStructs - 1;
      currentClock := AsU32(next.value.0.End());
      rest := next.value.1;
      r := Ok(Some(next.value.0));
    }

    /** Moves to the next struct shown. */
    method Advance() returns (r: Result<()>)
      modifies `rest, `remainingClients, `remainingStructs, `currentClient, `currentClock, `structsExhausted, `current
      ensures match r
              case Err(e) => old(Behind()) == Err(e)
              case Ok(_) => old(Behind()) == Unread() && Valid()
      ensures r.Ok? ==> Progress(old(remainingClients), old(remainingStructs))
    {
      hide Coming, NonSkips, Encodable;
      while true
        invariant remainingClients <= old(remainingClients)
        invariant remainingClients == old(remainingClients) ==> remainingStructs <= old(remainingStructs)
        invariant old(Behind()) == Behind()
        decreases remainingClients, remainingStructs
      {
        ghost var before := Coming(rest, remainingClients, remainingStructs, ID(currentClient, currentClock));
        var next := NextStruct();
        if next.Err? {
          return Err(next.error);
        }
        if next.value.None? {
          NothingShown(filterSkips);
          current := None;
          return Ok(());
        }
        ghost var after := Coming(rest, remainingClients, remainingStructs, ID(currentClient, currentClock));
        ShownPrepend(next.value.value, after, filterSkips);
        if !filterSkips || !next.value.value.Skip? {
          current := next.value;
          return Ok(());
        }
      }
    }

    /** Next and its effect on what is unread. */
    method Next() returns (r: Result<()>)
      requires Valid() && current.Some?
      modifies `rest, `remainingClients, `remainingStructs, `currentClient, `currentClock, `structsExhausted, `current
      ensures match r
              case Err(e) => old(Unread()) == Err(e)
              case Ok(_) => old(Unread()) == Prepend([old(current).value], Unread()) && Valid()
      ensures r.Ok? ==> Progress(old(remainingClients), old(remainingStructs))
    {
      r := Advance();
    }

    /** The delete set, once: only behind the last struct, and nothing after it. */
    method ReadDeleteSet() returns (r: Result<Option<RangeMap>>)
      requires Valid()
      modifies `rest, `deleteSetConsumed
      ensures !structsExhausted ==> r == Err(DeleteSetBeforeStructsEnd)
      ensures structsExhausted && old(deleteSetConsumed) ==> r == Ok(None)
      ensures structsExhausted && !old(deleteSetConsumed) ==> r == DeletesAtEnd(old(rest))
    {
      if !structsExhausted {
        return Err(DeleteSetBeforeStructsEnd);
      }
      if deleteSetConsumed {
        return Ok(None);
      }
      var ds :- ReadDeletes(rest, Absolute);
      rest := ds.1;
      deleteSetConsumed := true;
      if |rest| != 0 {
        return Err(TrailingBytes);
      }
      r := Ok(Some(ds.0));
    }
  }

  lemma NothingShown(filterSkips: bool)
    ensures forall rest :: Shown(Ok(([], rest)), filterSkips) == Ok(([], rest))
  {
  }

  function DeletesAtEnd(b: bytes): (r: Result<Option<RangeMap>>)
    ensures r.Ok? ==> r.value.Some?
  {
    var (ds, rest) :- ReadDeletes(b, Absolute);
    if |rest| != 0 then Err(TrailingBytes) else Ok(Some(ds))
  }

  /** NewLazyReaderV1: the block count, then the first struct shown. */
  method Open(update: bytes, filterSkips: bool) returns (r: Result<LazyReader>)
    ensures match r
            case Err(e) => Shown(AllStructs(update), filterSkips) == Err(e)
            case Ok(reader) =>
              && fresh(reader) && reader.Valid() && reader.filterSkips == filterSkips && !reader.deleteSetConsumed
              && Shown(AllStructs(update), filterSkips) == reader.Unread()
  {
    hide ReadVarUint, Shown, ReadStructs, LazyReader.Valid;
    var count := ReadVarUint(update);
    if count.Err? {
      HiddenError(count.error, filterSkips);
      return Err(count.error);
    }
    var reader := new LazyReader(count.value.1, count.value.0, filterSkips);
    AllIsComing(update, ID(reader.currentClient, reader.currentClock));
    var first := reader.Advance();
    if first.Err? {
      return Err(first.error);
    }
    r := Ok(reader);
  }

  lemma HiddenError(e: Error, filterSkips: bool)
    ensures Shown(Err(e), filterSkips) == Err(e)
  {
  }

  lemma AllIsComing(update: bytes, id: ID)
    requires ReadVarUint(update).Ok?
    ensures var (n, b) := ReadVarUint(update).value; AllStructs(update) == Coming(b, n, 0, id)
  {
    hide ReadVarUint;
    var (n, b) := ReadVarUint(update).value;
    PrependNone(ReadBlocks(b, n));
  }

  /** Decode in the reader's terms. */
  lemma DecodeInParts(update: bytes)
    ensures Decode(update) ==
            match AllStructs(update)
            case Err(e) => Err(e)
            case Ok((structs, rest)) =>
              match DeletesAtEnd(rest)
              case Err(e) => Err(e)
              case Ok(ds) => Ok(Update(structs, ds.value))
  {
    hide ReadVarUint, ReadBlocks, ReadDeletes;
  }

  /** DecodeV1: all structs through the lazy reader, then the delete set. */
  method DecodeV1(update: bytes) returns (r: Result<Update>)
    ensures r == Decode(update)
  {
    DecodeInParts(update);
    hide AllStructs, Decode, LazyReader.Behind, Encodable, DeletesAtEnd;
    var start := Open(update, false);
    if start.Err? {
      return Err(start.error);
    }
    var reader := start.value;
    var structs: seq<Struct> := [];
    PrependNone(reader.Unread());
    while reader.current.Some?
      invariant reader.Valid() && !reader.deleteSetConsumed
      invariant AllStructs(update) == Prepend(structs, reader.Unread())
      decreases reader.remainingClients, reader.remainingStructs, reader.current.Some?
    {
      ghost var before := structs;
      ghost var s := reader.current.value;
      structs := structs + [reader.current.value];
      var next := reader.Next();
      if next.Err? {
        return Err(next.error);
      }
      PrependMore(before, [s], reader.Unread());
    }
    var ds := reader.ReadDeleteSet();
    if ds.Err? {
      return Err(ds.error);
    }
    assert structs + [] == structs;
    r := Ok(Update(structs, ds.value.value));
  }
}
