/** Diffing an update against a state vector, and the sync step built on it. */
module Diffs {
  import opened Prelude
  import opened Wire
  import opened Orders
  import opened Structs
  import opened Merge
  import opened IdSetObject
  import opened Updates
  import opened CodecV1
  import opened DeleteSets
  import opened UpdateV1
  import opened LazyReaderV1
  import opened StateVectors

  /** `s` from clock `n` on. */
  function Tail(s: Struct, n: nat): Struct {
    if s.id.clock < n && SliceStruct(s, n - s.id.clock, 0).Ok? then SliceStruct(s, n - s.id.clock, 0).value else s
  }

  /** What is written for one struct; `open` is the client whose remaining
      structs are all wanted. */
  function Part(s: Struct, v: Vector, open: Option<u32>): (seq<Struct>, Option<u32>) {
    if open == Some(s.id.client) then ([s], open)
    else if s.Skip? || s.End() <= ClockOf(v, s.id.client) then ([], None)
    else ([Tail(s, ClockOf(v, s.id.client))], Some(s.id.client))
  }

  function Diff(l: seq<Struct>, v: Vector, open: Option<u32>): seq<Struct>
    decreases |l|
  {
    if l == [] then [] else
      var (part, next) := Part(l[0], v, open);
      part + Diff(l[1..], v, next)
  }

  /** The blocks of a diff in bytes. */
  ghost function DiffBytes(update: bytes, vector: bytes): Result<bytes> {
    var v :- DecodeVector(vector);
    var u :- Decode(update);
    Ok(EncFragments(Diff(u.structs, v, None)) + EncDeletes(u.deletes, Absolute))
  }

  /** What has been written, then the diff of what is still unread. */
  ghost function Diffed(log: seq<Struct>, p: Ahead, v: Vector, open: Option<u32>): Ahead {
    match p
    case Ok((l, rest)) => Ok((log + Diff(l, v, open), rest))
    case Err(e) => Err(e)
  }

  lemma DiffedStep(log: seq<Struct>, s: Struct, p: Ahead, v: Vector, open: Option<u32>)
    ensures var (part, next) := Part(s, v, open);
            Diffed(log, Prepend([s], p), v, open) == Diffed(log + part, p, v, next)
  {
    if p.Ok? {
      var (part, next) := Part(s, v, open);
      assert ([s] + p.value.0)[1..] == p.value.0;
      Assoc(log, part, Diff(p.value.0, v, next));
    }
  }

  /** A client that is not the next one is as good as none. */
  lemma DiffedClose(log: seq<Struct>, p: Ahead, v: Vector, open: Option<u32>)
    requires p.Ok? && p.value.0 != [] ==> open != Some(p.value.0[0].id.client)
    ensures Diffed(log, p, v, open) == Diffed(log, p, v, None)
  {
  }

  /** Passes the structs of one client that the vector covers. */
  method SkipCovered(reader: LazyReader, v: Vector, ghost want: Ahead, ghost log: seq<Struct>) returns (r: Result<()>)
    requires reader.Valid() && reader.current.Some? && !reader.current.value.Skip?
    requires reader.current.value.End() <= ClockOf(v, reader.current.value.id.client)
    requires want == Diffed(log, reader.Unread(), v, None)
    modifies reader
    ensures match r
            case Err(e) => want == Err(e)
            case Ok(_) => reader.Valid() && want == Diffed(log, reader.Unread(), v, None)
    ensures reader.deleteSetConsumed == old(reader.deleteSetConsumed)
    ensures r.Ok? ==> reader.Progress(old(reader.remainingClients), old(reader.remainingStructs))
  {
    hide Encodable, LazyReader.Behind, Diff;
    var client := reader.current.value.id.client;
    var svClock := ClockOf(v, client);
    while reader.current.Some? && reader.current.value.id.client == client && reader.current.value.End() <= svClock
      invariant reader.Valid() && want == Diffed(log, reader.Unread(), v, None)
      invariant reader.deleteSetConsumed == old(reader.deleteSetConsumed)
      invariant reader.Progress(old(reader.remainingClients), old(reader.remainingStructs)) ||
                (reader.current == old(reader.current) && reader.remainingClients == old(reader.remainingClients) &&
                 reader.remainingStructs == old(reader.remainingStructs))
      decreases reader.remainingClients, reader.remainingStructs, reader.current.Some?
    {
      var current := reader.current.value;
      var next := reader.Next();
      if next.Err? {
        return Err(next.error);
      }
      DiffedStep(log, current, reader.Unread(), v, None);
      assert log + [] == log;
    }
    r := Ok(());
  }

  /** Writes what is left of a client once its first struct is written. */
  method WriteRest(reader: LazyReader, writer: LazyWriter, client: u32, v: Vector, ghost want: Ahead)
    returns (r: Result<()>)
    requires reader.Valid() && writer.Valid() && want == Diffed(writer.log, reader.Unread(), v, Some(client))
    modifies reader, writer
    ensures match r
            case Err(e) => want == Err(e)
            case Ok(_) => reader.Valid() && writer.Valid() && want == Diffed(writer.log, reader.Unread(), v, None)
    ensures reader.deleteSetConsumed == old(reader.deleteSetConsumed)
    ensures r.Ok? ==>
              reader.Progress(old(reader.remainingClients), old(reader.remainingStructs)) ||
              (reader.remainingClients == old(reader.remainingClients) &&
               reader.remainingStructs == old(reader.remainingStructs) && reader.current == old(reader.current))
  {
    hide EncStruct, LazyReader.Behind, Diff, LazyWriter.Valid;
    while reader.current.Some? && reader.current.value.id.client == client
      invariant reader.Valid() && writer.Valid() && want == Diffed(writer.log, reader.Unread(), v, Some(client))
      invariant reader.deleteSetConsumed == old(reader.deleteSetConsumed)
      invariant reader.Progress(old(reader.remainingClients), old(reader.remainingStructs)) ||
                (reader.current == old(reader.current) && reader.remainingClients == old(reader.remainingClients) &&
                 reader.remainingStructs == old(reader.remainingStructs))
      decreases reader.remainingClients, reader.remainingStructs, reader.current.Some?
    {
      ghost var log := writer.log;
      var current := reader.current.value;
      var written := writer.Write(current, 0, 0);
      assert written.Ok?;
      var next := reader.Next();
      if next.Err? {
        return Err(next.error);
      }
      DiffedStep(log, current, reader.Unread(), v, Some(client));
    }
    DiffedClose(writer.log, reader.Unread(), v, Some(client));
    r := Ok(());
  }

  /** The first struct of a client that reaches past the vector: cut to it. */
  method WriteFirst(writer: LazyWriter, current: Struct, svClock: u32)
    requires writer.Valid() && Encodable(current) && current.End() > svClock
    modifies writer
    ensures writer.Valid() && writer.log == old(writer.log) + [Tail(current, svClock)]
  {
    hide EncStruct, LazyWriter.Valid;
    var offset := if current.id.clock < svClock then svClock - current.id.clock else 0;
    SliceEncodable(current, offset, 0);
    var written := writer.Write(current, offset, 0);
    assert written.Ok?;
  }

  /** DiffUpdateV1Context without the context. */
  method DiffUpdate(update: bytes, stateVector: bytes) returns (r: Result<bytes>)
    ensures r == DiffBytes(update, stateVector)
  {
    DecodeInParts(update);
    hide AllStructs, Decode, LazyReader.Behind, LazyWriter.Valid, Encodable, DeletesAtEnd, Diff, EncFragments, Tail;
    var state := ParseVector(stateVector);
    if state.Err? {
      return Err(state.error);
    }
    var v := state.value;
    var start := Open(update, false);
    if start.Err? {
      return Err(start.error);
    }
    var reader := start.value;
    var writer := new LazyWriter();
    ghost var want := Diffed([], AllStructs(update), v, None);
    DiffedAll(AllStructs(update), v);
    while reader.current.Some?
      invariant fresh(reader) && reader.Valid() && !reader.deleteSetConsumed
      invariant fresh(writer) && writer.Valid()
      invariant want == Diffed(writer.log, reader.Unread(), v, None)
      decreases reader.remainingClients, reader.remainingStructs, reader.current.Some?
    {
      var current := reader.current.value;
      var svClock := ClockOf(v, current.id.client);
      ghost var log := writer.log;
      if current.Skip? {
        var next := reader.Next();
        if next.Err? {
          return Err(next.error);
        }
        DiffedStep(log, current, reader.Unread(), v, None);
        assert log + [] == log;
      } else if current.End() > svClock {
        WriteFirst(writer, current, svClock);
        var next := reader.Next();
        if next.Err? {
          return Err(next.error);
        }
        DiffedStep(log, current, reader.Unread(), v, None);
        var rest := WriteRest(reader, writer, current.id.client, v, want);
        if rest.Err? {
          return Err(rest.error);
        }
      } else {
        var skipped := SkipCovered(reader, v, want, log);
        if skipped.Err? {
          return Err(skipped.error);
        }
      }
    }
    DiffedDone(writer.log, reader.rest, v);
    var ds := reader.ReadDeleteSet();
    if ds.Err? {
      return Err(ds.error);
    }
    var body := writer.Finish();
    var out := AppendDeletes(body, ds.value.value, Absolute);
    r := Ok(out);
  }

  lemma DiffedDone(log: seq<Struct>, rest: bytes, v: Vector)
    ensures Diffed(log, Ok(([], rest)), v, None) == Ok((log, rest))
  {
    assert log + [] == log;
  }

  lemma DiffedAll(p: Ahead, v: Vector)
    ensures Diffed([], p, v, None) ==
            if p.Ok? then Ok((Diff(p.value.0, v, None), p.value.1)) else p
  {
    if p.Ok? {
      assert [] + Diff(p.value.0, v, None) == Diff(p.value.0, v, None);
    }
  }
}
