/** Messages out of a byte stream that arrives in chunks of any size. */
module Stream {
  import opened Prelude
  import opened Wire
  import opened Protocol

  // ----- A whole buffer at once -----

  /** At most n messages, all of them when n is negative. */
  function Whole(b: bytes, n: int, json: Compactor): (r: Result<seq<Message>>)
    decreases |b|
  {
    if n == 0 || b == [] then Ok([]) else
      var (first, rest) :- ReadMessage(b, json);
      var others :- Whole(rest, n - 1, json);
      Ok([first] + others)
  }

  /** Every message that is read takes at most `limit` bytes. */
  predicate Fits(b: bytes, n: int, limit: nat, json: Compactor)
    decreases |b|
  {
    n == 0 || b == [] || ReadMessage(b, json).Err? ||
    var rest := ReadMessage(b, json).value.1;
    |b| - |rest| <= limit && Fits(rest, n - 1, limit, json)
  }

  ghost function After(done: seq<Message>, r: Result<seq<Message>>): Result<seq<Message>> {
    if r.Ok? then Ok(done + r.value) else r
  }

  lemma AfterNothing(r: Result<seq<Message>>)
    ensures After([], r) == r
  {
    assert r.Ok? ==> [] + r.value == r.value;
  }

  lemma AfterStep(done: seq<Message>, b: bytes, n: int, json: Compactor)
    requires n != 0 && b != [] && ReadMessage(b, json).Ok?
    ensures var (m, rest) := ReadMessage(b, json).value;
            After(done, Whole(b, n, json)) == After(done + [m], Whole(rest, n - 1, json))
  {
    hide ReadMessage;
    var (m, rest) := ReadMessage(b, json).value;
    if Whole(rest, n - 1, json).Ok? {
      Assoc(done, [m], Whole(rest, n - 1, json).value);
    }
  }

  /** One more message read off the front of what is buffered. */
  lemma ReadStep(done: seq<Message>, b: bytes, later: bytes, n: int, limit: nat, json: Compactor)
    requires n != 0 && ReadMessage(b, json).Ok?
    ensures var (m, rest) := ReadMessage(b, json).value;
      && After(done, Whole(b + later, n, json)) == After(done + [m], Whole(rest + later, n - 1, json))
      && (|b| <= limit ==> Fits(b + later, n, limit, json) == Fits(rest + later, n - 1, limit, json))
  {
    hide ReadMessage, Whole;
    var rest := ReadMessage(b, json).value.1;
    MessageLocal(b, json, rest + later);
    Assoc(Front(b, rest), rest, later);
    AfterStep(done, b + later, n, json);
  }

  /** A definite failure of what is buffered is the failure of the whole. */
  lemma FailStep(done: seq<Message>, b: bytes, later: bytes, n: int, json: Compactor)
    requires n != 0 && b != [] && ReadMessage(b, json).Err? && ReadMessage(b, json) != Err(UnexpectedEOF)
    ensures After(done, Whole(b + later, n, json)) == Err(ReadMessage(b, json).error)
  {
    hide ReadMessage;
    FailureStable(b, json, later);
  }

  /** An incomplete message as long as the limit is one that does not fit. */
  lemma TooLong(b: bytes, later: bytes, n: int, limit: nat, json: Compactor)
    requires n != 0 && b != [] && ReadMessage(b, json) == Err(UnexpectedEOF) && |b| >= limit
    requires Whole(b + later, n, json).Ok?
    ensures !Fits(b + later, n, limit, json)
  {
    hide ReadMessage;
    var rest := ReadMessage(b + later, json).value.1;
    if |b + later| - |rest| <= |b| {
      Within(b, later, rest, json);
    }
  }

  /** A message that ends within b is one of b. */
  lemma Within(b: bytes, later: bytes, rest: bytes, json: Compactor)
    requires ReadMessage(b + later, json).Ok? && ReadMessage(b + later, json).value.1 == rest
    requires |b + later| - |rest| <= |b|
    ensures ReadMessage(b, json).Ok?
  {
    hide ReadMessage;
    var k := |b + later| - |rest|;
    MessageLocal(b + later, json, b[k..]);
    assert Front(b + later, rest) + b[k..] == b;
  }

  // ----- The buffered reader -----

  method ReadMessages(r: Reader, n: int, json: Compactor) returns (out: Result<seq<Message>>)
    requires r.Valid()
    modifies r`offset
    ensures r.Valid() && out == Whole(old(r.Rest()), n, json)
  {
    hide ReadMessage, Whole;
    var messages: seq<Message> := [];
    ghost var want := Whole(r.Rest(), n, json);
    AfterNothing(want);
    var count := 0;
    while n < 0 || count < n
      invariant r.Valid() && count == |messages| && (n < 0 || count <= n)
      invariant want == After(messages, Whole(r.Rest(), n - count, json))
      decreases |r.Rest()|
    {
      if |r.data| - r.offset == 0 {
        break;
      }
      WholeStep(messages, r.Rest(), n - count, json);
      var message := ReadProtocolMessage(r, json);
      if message.Err? {
        return Err(message.error);
      }
      messages := messages + [message.value];
      count := count + 1;
    }
    WholeDone(messages, r.Rest(), n - count, json);
    return Ok(messages);
  }

  lemma WholeStep(done: seq<Message>, b: bytes, n: int, json: Compactor)
    requires n != 0 && b != []
    ensures ReadMessage(b, json).Ok? ==>
              var (m, rest) := ReadMessage(b, json).value;
              After(done, Whole(b, n, json)) == After(done + [m], Whole(rest, n - 1, json))
    ensures ReadMessage(b, json).Err? ==> After(done, Whole(b, n, json)) == Err(ReadMessage(b, json).error)
  {
    hide ReadMessage;
    if ReadMessage(b, json).Ok? {
      AfterStep(done, b, n, json);
    }
  }

  lemma WholeDone(done: seq<Message>, b: bytes, n: int, json: Compactor)
    requires n == 0 || b == []
    ensures After(done, Whole(b, n, json)) == Ok(done)
  {
    assert done + [] == done;
  }

  // ----- The incremental reader -----

  /** Any reader that ends: read number i asks for at most 1 + sizes(i) bytes,
      and the end comes alone or together with the last bytes. */
  class Source {
    const data: bytes
    const sizes: nat -> nat
    const together: bool
    var offset: nat
    var readCount: nat

    ghost predicate Valid()
      reads this
    {
      offset <= |data|
    }

    ghost function Unread(): bytes
      requires Valid()
      reads this
    {
      data[offset..]
    }

    constructor (data: bytes, sizes: nat -> nat, together: bool)
      ensures Valid() && Unread() == data && this.data == data && this.sizes == sizes && this.together == together
      ensures offset == 0 && readCount == 0
    {
      this.data := data;
      this.sizes := sizes;
      this.together := together;
      offset := 0;
      readCount := 0;
    }

    method Read(max: nat) returns (chunk: bytes, eof: bool)
      requires Valid() && max > 0
      modifies this`offset, this`readCount
      ensures Valid() && chunk + Unread() == old(Unread()) && |chunk| <= max
      ensures chunk == [] <==> old(Unread()) == []
      ensures offset == Min(old(offset) + Min(1 + sizes(old(readCount)), max), |data|)
      ensures chunk != [] ==> readCount == old(readCount) + 1
      ensures eof <==> Unread() == [] && (chunk == [] || together)
    {
      if offset == |data| {
        return [], true;
      }
      var n := Min(Min(1 + sizes(readCount), max), |data| - offset);
      chunk := data[offset..offset + n];
      assert chunk + data[offset + n..] == data[offset..];
      offset := offset + n;
      readCount := readCount + 1;
      eof := together && offset == |data|;
    }
  }

  datatype Status = Appended | Ended | LimitHit

  const CHUNK := 4096

  /** Where the last chunk starts when nothing but the source limits a read: from
      read number i on, which starts at `at`. */
  function LastStart(sizes: nat -> nat, at: nat, i: nat, end: nat): (last: nat)
    requires at < end
    ensures at <= last < end
    decreases end - at
  {
    var next := at + Min(1 + sizes(i), CHUNK);
    if next >= end then at else LastStart(sizes, next, i + 1, end)
  }

  /** Appends what one read delivers, within the limit when there is one. */
  method ReadAndAppend(src: Source, buffer: bytes, limit: nat) returns (out: bytes, status: Status)
    requires src.Valid()
    modifies src
    ensures src.Valid() && out + src.Unread() == buffer + old(src.Unread())
    ensures status == LimitHit <==> limit > 0 && |buffer| >= limit
    ensures status == LimitHit ==> out == buffer
    ensures status == Appended ==> |out| > |buffer| && (limit > 0 ==> |out| <= limit)
    ensures status == Appended ==> old(src.Unread()) != [] && (src.together ==> src.Unread() != [])
    ensures status == Ended ==> src.Unread() == [] && (src.together || old(src.Unread()) == [])
    ensures limit == 0 ==> src.offset == Min(old(src.offset) + Min(1 + src.sizes(old(src.readCount)), CHUNK), |src.data|)
    ensures status == Appended ==> src.readCount == old(src.readCount) + 1
  {
    var readLimit := CHUNK;
    if limit > 0 {
      var available := limit - |buffer|;
      if available <= 0 {
        return buffer, LimitHit;
      }
      if available < readLimit {
        readLimit := available;
      }
    }
    ghost var before := src.Unread();
    var chunk, eof := src.Read(readLimit);
    Assoc(buffer, chunk, src.Unread());
    out := buffer + chunk;
    status := if eof then Ended else Appended;
  }

  datatype Drained = Filled | Emptied | Starved | Broken(error: Error)

  /** What the two sides of a step agree on: the result so far and whether
      everything read fits the limit. */
  ghost predicate SameOutcome(done: seq<Message>, b: bytes, n: int, next: seq<Message>, c: bytes, m: int,
                              limit: nat, json: Compactor)
  {
    && After(done, Whole(b, n, json)) == After(next, Whole(c, m, json))
    && (limit > 0 ==> Fits(b, n, limit, json) == Fits(c, m, limit, json))
  }

  lemma SameStart(done: seq<Message>, b: bytes, n: int, limit: nat, json: Compactor)
    ensures SameOutcome(done, b, n, done, b, n, limit, json)
  {
  }

  // ----- The stream -----

  /** The decoding of the whole stream, cut off exactly when there is a limit
      and a message longer than it. */
  ghost predicate Outcome(data: bytes, n: int, limit: nat, json: Compactor, r: Result<seq<Message>>)
  {
    && (limit == 0 ==> r == Whole(data, n, json))
    && (r != Err(StreamLimit) ==> r == Whole(data, n, json))
    && (limit > 0 && Whole(data, n, json).Ok? ==> (r == Err(StreamLimit) <==> !Fits(data, n, limit, json)))
  }

  /** How many bytes the messages take that are asked for. */
  function Taken(b: bytes, n: int, json: Compactor): (k: nat)
    requires Whole(b, n, json).Ok?
    ensures k <= |b|
    decreases |b|
  {
    if n == 0 || b == [] then 0 else
      var rest := ReadMessage(b, json).value.1;
      |b| - |rest| + Taken(rest, n - 1, json)
  }

  /** A prefix of the stream decodes to what the stream decodes to exactly if the
      messages asked for end in it. */
  lemma {:induction false} PrefixDecodes(b: bytes, later: bytes, n: int, limit: nat, json: Compactor)
    requires Whole(b + later, n, json).Ok?
    ensures Whole(b, n, json) == Whole(b + later, n, json) <==> Taken(b + later, n, json) <= |b|
    ensures Taken(b + later, n, json) <= |b| ==> Fits(b, n, limit, json) == Fits(b + later, n, limit, json)
    decreases |b + later|
  {
    hide ReadMessage;
    var all := b + later;
    if n == 0 || all == [] {
    } else if b == [] {
      assert Whole(all, n, json).value != [];
    } else {
      var rest := ReadMessage(all, json).value.1;
      if |all| - |rest| <= |b| {
        Within(b, later, rest, json);
        var left := ReadMessage(b, json).value.1;
        MessageLocal(b, json, left + later);
        Assoc(Front(b, left), left, later);
        assert rest == left + later;
        PrefixDecodes(left, later, n - 1, limit, json);
        OneMore(b, left, n, json);
        OneMore(all, rest, n, json);
        if Whole(left, n - 1, json).Ok? {
          PrependSame(ReadMessage(b, json).value.0, Whole(left, n - 1, json).value, Whole(rest, n - 1, json).value);
        }
      } else if ReadMessage(b, json).Ok? {
        var left := ReadMessage(b, json).value.1;
        MessageLocal(b, json, left + later);
        Assoc(Front(b, left), left, later);
        assert false;
      }
    }
  }

  lemma PrependSame(m: Message, x: seq<Message>, y: seq<Message>)
    ensures [m] + x == [m] + y <==> x == y
  {
    assert ([m] + x)[1..] == x && ([m] + y)[1..] == y;
  }

  lemma OneMore(b: bytes, rest: bytes, n: int, json: Compactor)
    requires n != 0 && b != [] && ReadMessage(b, json).Ok? && ReadMessage(b, json).value.1 == rest
    ensures var w := Whole(rest, n - 1, json);
            Whole(b, n, json) == if w.Ok? then Ok([ReadMessage(b, json).value.0] + w.value) else w
  {
    hide ReadMessage;
  }

  /** What is read in full is read before the last chunk, when the end of the
      stream comes with it. */
  lemma LossExact(data: bytes, last: nat, n: int, limit: nat, json: Compactor, r: Result<seq<Message>>)
    requires last <= |data| && Outcome(data[..last], n, limit, json, r) && Whole(data, n, json).Ok?
    ensures r == Whole(data, n, json) <==>
            Taken(data, n, json) <= last && (limit > 0 ==> Fits(data, n, limit, json))
  {
    hide Whole, Taken, Fits;
    assert data == data[..last] + data[last..];
    PrefixDecodes(data[..last], data[last..], n, limit, json);
  }

  /** `messages` are out, `buffer` is pending, `unread` has not arrived. */
  ghost predicate Progress(data: bytes, n: int, limit: nat, json: Compactor, messages: seq<Message>, buffer: bytes,
                           unread: bytes)
  {
    && (n < 0 || |messages| <= n)
    && (limit > 0 ==> |buffer| <= limit)
    && |buffer| + |unread| <= |data|
    && SameOutcome([], data, n, messages, buffer + unread, n - |messages|, limit, json)
  }

  /** Whatever arrives after the bytes received, progress is the same. */
  ghost predicate Advances(received: bytes, n: int, limit: nat, json: Compactor, messages: seq<Message>,
        buffer: bytes) {
    forall later: bytes :: Progress(received + later, n, limit, json, messages, buffer, later)
  }

  lemma AdvancesWith(received: bytes, n: int, limit: nat, json: Compactor, messages: seq<Message>, buffer: bytes,
        later: bytes)
    requires Advances(received, n, limit, json, messages, buffer)
    ensures Progress(received + later, n, limit, json, messages, buffer, later)
    ensures Progress(received, n, limit, json, messages, buffer, [])
  {
    hide Progress;
    assert received + [] == received;
    assert Progress(received + [], n, limit, json, messages, buffer, []);
  }

  lemma AdvancesFromStart(n: int, limit: nat, json: Compactor)
    requires n >= -1
    ensures Advances([], n, limit, json, [], [])
  {
    hide Progress;
    forall later: bytes
      ensures Progress([] + later, n, limit, json, [], [], later)
    {
      assert [] + later == later;
      Starts(later, n, limit, json);
    }
  }

  /** A chunk more. */
  lemma AdvancesBy(received: bytes, chunk: bytes, n: int, limit: nat, json: Compactor, messages: seq<Message>,
        buffer: bytes)
    requires Advances(received, n, limit, json, messages, buffer) && (limit > 0 ==> |buffer + chunk| <= limit)
    ensures Advances(received + chunk, n, limit, json, messages, buffer + chunk)
  {
    hide Progress;
    forall later: bytes
      ensures Progress(received + chunk + later, n, limit, json, messages, buffer + chunk, later)
    {
      AdvancesWith(received, n, limit, json, messages, buffer, chunk + later);
      Assoc(received, chunk, later);
      Assoc(buffer, chunk, later);
      Refills(received + chunk + later, n, limit, json, messages, buffer, chunk + later, buffer + chunk, later);
    }
  }

  /** A message more. */
  lemma AdvancesPast(received: bytes, n: int, limit: nat, json: Compactor, messages: seq<Message>, b: bytes)
    requires Advances(received, n, limit, json, messages, b) && |messages| != n && ReadMessage(b, json).Ok?
    ensures var (m, rest) := ReadMessage(b, json).value;
            Advances(received, n, limit, json, messages + [m], rest)
  {
    hide Progress, ReadMessage;
    var (m, rest) := ReadMessage(b, json).value;
    forall later: bytes
      ensures Progress(received + later, n, limit, json, messages + [m], rest, later)
    {
      AdvancesWith(received, n, limit, json, messages, b, later);
      Reads(received + later, n, limit, json, messages, b, later);
    }
  }

  /** The error is that of the whole stream, whatever arrives. */
  ghost predicate Breaks(received: bytes, n: int, limit: nat, json: Compactor, e: Error) {
    forall later: bytes :: Outcome(received + later, n, limit, json, Err(e))
  }

  lemma BreaksHere(received: bytes, n: int, limit: nat, json: Compactor, messages: seq<Message>, b: bytes)
    requires Advances(received, n, limit, json, messages, b) && |messages| != n && b != []
    requires ReadMessage(b, json).Err? && ReadMessage(b, json) != Err(UnexpectedEOF)
    ensures Breaks(received, n, limit, json, ReadMessage(b, json).error)
  {
    hide Progress, ReadMessage, Outcome;
    forall later: bytes
      ensures Outcome(received + later, n, limit, json, Err(ReadMessage(b, json).error))
    {
      AdvancesWith(received, n, limit, json, messages, b, later);
      Fails(received + later, n, limit, json, messages, b, later);
    }
  }

  lemma Starts(data: bytes, n: int, limit: nat, json: Compactor)
    requires n >= -1
    ensures Progress(data, n, limit, json, [], [], data)
  {
    hide Fits, Whole, After, ReadMessage;
    SameStart([], data, n, limit, json);
    assert [] + data == data;
  }

  lemma Refills(data: bytes, n: int, limit: nat, json: Compactor, messages: seq<Message>, left: bytes, later: bytes,
                buffer: bytes, unread: bytes)
    requires Progress(data, n, limit, json, messages, left, later)
    requires buffer + unread == left + later && (limit > 0 ==> |buffer| <= limit)
    ensures Progress(data, n, limit, json, messages, buffer, unread)
  {
    assert |buffer + unread| == |left + later|;
  }

  lemma Fills(data: bytes, n: int, limit: nat, json: Compactor, messages: seq<Message>, b: bytes, later: bytes)
    requires Progress(data, n, limit, json, messages, b, later) && |messages| == n
    ensures Outcome(data, n, limit, json, Ok(messages))
  {
    hide ReadMessage;
    AfterNothing(Whole(data, n, json));
    WholeDone(messages, b + later, 0, json);
  }

  lemma Ends(data: bytes, n: int, limit: nat, json: Compactor, messages: seq<Message>)
    requires Progress(data, n, limit, json, messages, [], []) && |messages| != n
    ensures Outcome(data, n, limit, json, Ok(messages))
  {
    hide ReadMessage;
    AfterNothing(Whole(data, n, json));
    WholeDone(messages, [], n - |messages|, json);
  }

  lemma Overruns(data: bytes, n: int, limit: nat, json: Compactor, messages: seq<Message>, b: bytes, later: bytes)
    requires Progress(data, n, limit, json, messages, b, later) && |messages| != n
    requires b != [] && ReadMessage(b, json) == Err(UnexpectedEOF) && |b| >= limit > 0
    ensures Outcome(data, n, limit, json, Err(StreamLimit))
  {
    hide ReadMessage, Whole, Fits;
    AfterNothing(Whole(data, n, json));
    if Whole(b + later, n - |messages|, json).Ok? {
      TooLong(b, later, n - |messages|, limit, json);
    }
  }

  lemma Starves(data: bytes, n: int, limit: nat, json: Compactor, messages: seq<Message>, b: bytes)
    requires Progress(data, n, limit, json, messages, b, []) && |messages| != n
    requires b != [] && ReadMessage(b, json) == Err(UnexpectedEOF)
    ensures Outcome(data, n, limit, json, Err(UnexpectedEOF))
  {
    hide ReadMessage;
    AfterNothing(Whole(data, n, json));
    assert b + [] == b;
  }

  lemma Reads(data: bytes, n: int, limit: nat, json: Compactor, messages: seq<Message>, b: bytes, later: bytes)
    requires Progress(data, n, limit, json, messages, b, later) && |messages| != n && ReadMessage(b, json).Ok?
    ensures var (m, rest) := ReadMessage(b, json).value;
            Progress(data, n, limit, json, messages + [m], rest, later)
  {
    hide ReadMessage, Whole, Fits, After;
    ReadStep(messages, b, later, n - |messages|, limit, json);
  }

  lemma Fails(data: bytes, n: int, limit: nat, json: Compactor, messages: seq<Message>, b: bytes, later: bytes)
    requires Progress(data, n, limit, json, messages, b, later) && |messages| != n && b != []
    requires ReadMessage(b, json).Err? && ReadMessage(b, json) != Err(UnexpectedEOF)
    ensures Outcome(data, n, limit, json, Err(ReadMessage(b, json).error))
  {
    hide ReadMessage, Whole, Fits, After;
    FailStep(messages, b, later, n - |messages|, json);
    AfterNothing(Whole(data, n, json));
  }

  // --- the ways out of the loop ---

  /** What has been received, and what has not. */
  ghost predicate Arrives(data: bytes, received: bytes, later: bytes) {
    data == received + later
  }

  lemma ArrivesFirst(data: bytes)
    ensures Arrives(data, [], data)
  {
    assert [] + data == data;
  }

  lemma ReceivedLength(data: bytes, received: bytes, later: bytes)
    ensures Arrives(data, received, later) ==> |received| + |later| == |data|
  {
  }

  /** The outcome of the first `last` bytes. */
  ghost predicate OutcomeTo(data: bytes, last: nat, n: int, limit: nat, json: Compactor, r: Result<seq<Message>>) {
    last <= |data| && Outcome(data[..last], n, limit, json, r)
  }

  /** What has been received is also the start of every longer prefix. */
  lemma PrefixArrives(data: bytes, received: bytes, later: bytes, last: nat)
    requires Arrives(data, received, later) && |received| <= last <= |data|
    ensures received + data[..last][|received|..] == data[..last]
  {
    assert data[..|received|] == received;
  }

  lemma ProgressAt(data: bytes, received: bytes, later: bytes, last: nat, n: int, limit: nat, json: Compactor,
        messages: seq<Message>, buffer: bytes)
    requires Arrives(data, received, later) && Advances(received, n, limit, json, messages, buffer)
    requires |received| <= last <= |data|
    ensures Progress(data[..last], n, limit, json, messages, buffer, data[..last][|received|..])
  {
    PrefixArrives(data, received, later, last);
    AdvancesWith(received, n, limit, json, messages, buffer, data[..last][|received|..]);
  }

  lemma FilledBy(data: bytes, received: bytes, later: bytes, last: nat, n: int, limit: nat, json: Compactor,
        messages: seq<Message>, buffer: bytes)
    requires Arrives(data, received, later) && Advances(received, n, limit, json, messages, buffer)
    requires |received| <= last <= |data| && |messages| == n
    ensures OutcomeTo(data, last, n, limit, json, Ok(messages))
  {
    hide Advances, Progress, Outcome, Arrives;
    ProgressAt(data, received, later, last, n, limit, json, messages, buffer);
    Fills(data[..last], n, limit, json, messages, buffer, data[..last][|received|..]);
  }

  lemma EndedBy(data: bytes, received: bytes, later: bytes, n: int, limit: nat, json: Compactor,
        messages: seq<Message>)
    requires Arrives(data, received, later) && Advances(received, n, limit, json, messages, [])
    requires |received| <= |data| && |messages| != n
    ensures OutcomeTo(data, |received|, n, limit, json, Ok(messages))
  {
    hide Advances, Progress, Outcome, Arrives;
    var last := |received|;
    ProgressAt(data, received, later, last, n, limit, json, messages, []);
    assert data[..last][last..] == [];
    Ends(data[..last], n, limit, json, messages);
  }

  lemma OverrunBy(data: bytes, received: bytes, later: bytes, last: nat, n: int, limit: nat, json: Compactor,
        messages: seq<Message>, buffer: bytes)
    requires Arrives(data, received, later) && Advances(received, n, limit, json, messages, buffer)
    requires |received| <= last <= |data| && |messages| != n
    requires buffer != [] && ReadMessage(buffer, json) == Err(UnexpectedEOF) && |buffer| >= limit > 0
    ensures OutcomeTo(data, last, n, limit, json, Err(StreamLimit))
  {
    hide Advances, Progress, Outcome, Arrives, ReadMessage;
    ProgressAt(data, received, later, last, n, limit, json, messages, buffer);
    Overruns(data[..last], n, limit, json, messages, buffer, data[..last][|received|..]);
  }

  lemma StarvedBy(data: bytes, received: bytes, later: bytes, n: int, limit: nat, json: Compactor,
        messages: seq<Message>, buffer: bytes)
    requires Arrives(data, received, later) && Advances(received, n, limit, json, messages, buffer)
    requires |received| <= |data| && |messages| != n
    requires buffer != [] && ReadMessage(buffer, json) == Err(UnexpectedEOF)
    ensures OutcomeTo(data, |received|, n, limit, json, Err(UnexpectedEOF))
  {
    hide Advances, Progress, Outcome, Arrives, ReadMessage;
    var last := |received|;
    ProgressAt(data, received, later, last, n, limit, json, messages, buffer);
    assert data[..last][last..] == [];
    Starves(data[..last], n, limit, json, messages, buffer);
  }

  lemma BrokenBy(data: bytes, received: bytes, later: bytes, last: nat, n: int, limit: nat, json: Compactor, e: Error)
    requires Arrives(data, received, later) && Breaks(received, n, limit, json, e) && |received| <= last <= |data|
    ensures OutcomeTo(data, last, n, limit, json, Err(e))
  {
    hide Outcome;
    PrefixArrives(data, received, later, last);
    assert Outcome(received + data[..last][|received|..], n, limit, json, Err(e));
  }

  /** The chunk that came, from what is buffered and what is left to come. */
  lemma Arrived(received: bytes, left: bytes, later: bytes, buffer: bytes, unread: bytes)
    requires buffer + unread == left + later && |buffer| >= |left|
    ensures |unread| <= |later|
    ensures var chunk := later[..|later| - |unread|];
            buffer == left + chunk && later == chunk + unread && received + later == received + chunk + unread
  {
    var k := |later| - |unread|;
    assert |buffer + unread| == |left + later|;
    assert (left + later)[..|left| + k] == left + later[..k];
    assert (buffer + unread)[..|buffer|] == buffer;
    assert (left + later)[|left| + k..] == later[k..];
    assert (buffer + unread)[|buffer|..] == unread;
  }

  lemma Refilled(data: bytes, received: bytes, n: int, limit: nat, json: Compactor, messages: seq<Message>,
        left: bytes, later: bytes,
                 buffer: bytes, unread: bytes)
    returns (more: bytes)
    requires Arrives(data, received, later) && Advances(received, n, limit, json, messages, left)
    requires buffer + unread == left + later && |buffer| >= |left| && (limit > 0 ==> |buffer| <= limit)
    ensures Arrives(data, more, unread) && Advances(more, n, limit, json, messages, buffer)
  {
    hide Advances;
    Arrived(received, left, later, buffer, unread);
    var chunk := later[..|later| - |unread|];
    AdvancesBy(received, chunk, n, limit, json, messages, left);
    more := received + chunk;
  }

  /** Reads every complete message of the buffer, n at most. */
  method Drain(buffer: bytes, done: seq<Message>, n: int, limit: nat, json: Compactor, ghost received: bytes)
    returns (messages: seq<Message>, left: bytes, why: Drained)
    requires Advances(received, n, limit, json, done, buffer) && (n < 0 || |done| <= n)
    ensures !why.Broken? ==> Advances(received, n, limit, json, messages, left) && (n < 0 || |messages| <= n)
    ensures !why.Broken? ==> |left| <= |buffer|
    ensures why.Filled? <==> !why.Broken? && |messages| == n
    ensures why.Emptied? ==> left == []
    ensures why.Starved? ==> left != [] && ReadMessage(left, json) == Err(UnexpectedEOF)
    ensures why.Broken? ==> Breaks(received, n, limit, json, why.error)
  {
    hide ReadMessage, Advances, Breaks;
    var reader := new Reader(buffer);
    messages := done;
    while n < 0 || |messages| < n
      invariant reader.Valid() && reader.data == buffer && (n < 0 || |messages| <= n)
      invariant Advances(received, n, limit, json, messages, reader.Rest())
      decreases |buffer| - reader.offset
    {
      if |reader.data| - reader.offset == 0 {
        break;
      }
      var start := reader.offset;
      ghost var rest := reader.Rest();
      var message := ReadProtocolMessage(reader, json);
      if message.Ok? {
        AdvancesPast(received, n, limit, json, messages, rest);
        messages := messages + [message.value];
      } else if message.error == UnexpectedEOF {
        return messages, buffer[start..], Starved;
      } else {
        BreaksHere(received, n, limit, json, messages, rest);
        return messages, [], Broken(message.error);
      }
    }
    left := buffer[reader.offset..];
    why := if |messages| == n then Filled else Emptied;
  }

  /** How far the stream counts: to its end, or to the start of its last chunk
      when the end comes together with that. */
  ghost predicate Counts(data: bytes, sizes: nat -> nat, together: bool, limit: nat, last: nat) {
    if together && data != [] then last < |data| && (limit == 0 ==> last == LastStart(sizes, 0, 0, |data|))
    else last == |data|
  }

  /** The last chunk still starts where it started from the beginning. */
  ghost predicate OnTheWay(data: bytes, sizes: nat -> nat, together: bool, limit: nat, at: nat, i: nat) {
    together && data != [] ==>
      at < |data| && (limit == 0 ==> LastStart(sizes, at, i, |data|) == LastStart(sizes, 0, 0, |data|))
  }

  lemma GoesOn(data: bytes, sizes: nat -> nat, together: bool, limit: nat, at: nat, i: nat, next: nat)
    requires OnTheWay(data, sizes, together, limit, at, i) && (together ==> next < |data|)
    requires limit == 0 ==> next == Min(at + Min(1 + sizes(i), CHUNK), |data|)
    ensures OnTheWay(data, sizes, together, limit, next, i + 1)
  {
  }

  lemma EndsThere(data: bytes, sizes: nat -> nat, together: bool, limit: nat, at: nat, i: nat, next: nat)
    requires at <= |data| && OnTheWay(data, sizes, together, limit, at, i) && next == |data|
    requires !together ==> at == |data|
    requires limit == 0 ==> next == Min(at + Min(1 + sizes(i), CHUNK), |data|)
    ensures Counts(data, sizes, together, limit, at)
  {
  }

  ghost predicate SourceOnTheWay(src: Source, limit: nat)
    reads src
  {
    OnTheWay(src.data, src.sizes, src.together, limit, src.offset, src.readCount)
  }

  ghost predicate SourceCounts(src: Source, limit: nat, last: nat) {
    Counts(src.data, src.sizes, src.together, limit, last)
  }

  /** A read of the source, on its way to the last chunk. */
  method ReadOn(src: Source, buffer: bytes, limit: nat) returns (out: bytes, status: Status)
    requires src.Valid() && (limit > 0 ==> |buffer| < limit) && SourceOnTheWay(src, limit)
    modifies src
    ensures src.Valid() && out + src.Unread() == buffer + old(src.Unread()) && status != LimitHit
    ensures status == Appended ==>
              |out| > |buffer| && (limit > 0 ==> |out| <= limit) && SourceOnTheWay(src, limit)
    ensures status == Ended ==> SourceCounts(src, limit, old(src.offset))
  {
    hide OnTheWay, Counts, LastStart;
    ghost var at, i := src.offset, src.readCount;
    out, status := ReadAndAppend(src, buffer, limit);
    if status == Ended {
      EndsThere(src.data, src.sizes, src.together, limit, at, i, src.offset);
    } else {
      GoesOn(src.data, src.sizes, src.together, limit, at, i, src.offset);
    }
  }

  /** An end of the count that suits a reader which stops before the end. */
  lemma StopsAt(src: Source, limit: nat) returns (last: nat)
    requires src.Valid() && SourceOnTheWay(src, limit)
    ensures src.offset <= last <= |src.data| && SourceCounts(src, limit, last)
  {
    last := if !src.together || src.data == [] then |src.data|
            else if limit == 0 then LastStart(src.sizes, src.offset, src.readCount, |src.data|)
            else src.offset;
  }

  method ReadChunks(src: Source, n: int, limit: nat, json: Compactor)
    returns (r: Result<seq<Message>>, ghost last: nat)
    requires n >= -1 && src.Valid() && src.offset == 0 && SourceOnTheWay(src, limit)
    modifies src
    ensures SourceCounts(src, limit, last) && OutcomeTo(src.data, last, n, limit, json, r)
  {
    hide ReadMessage, OutcomeTo, Progress, Advances, Breaks, Arrives, SourceOnTheWay, SourceCounts;
    ghost var data := src.data;
    assert src.Unread() == data;
    ArrivesFirst(data);
    var buffer: bytes := [];
    var messages: seq<Message> := [];
    ghost var received: bytes := [];
    AdvancesFromStart(n, limit, json);
    while true
      invariant src.Valid() && SourceOnTheWay(src, limit)
      invariant Arrives(data, received, src.Unread()) && |received| == src.offset
      invariant Advances(received, n, limit, json, messages, buffer) && (n < 0 || |messages| <= n)
      invariant limit > 0 ==> |buffer| <= limit
      decreases |src.Unread()|
    {
      ghost var later, at := src.Unread(), src.offset;
      last := StopsAt(src, limit);
      var why;
      messages, buffer, why := Drain(buffer, messages, n, limit, json, received);
      if why.Broken? {
        BrokenBy(data, received, later, last, n, limit, json, why.error);
        return Err(why.error), last;
      }
      if why.Filled? {
        FilledBy(data, received, later, last, n, limit, json, messages, buffer);
        return Ok(messages), last;
      }
      ghost var left := buffer;
      var status;
      if |buffer| == 0 {
        buffer, status := ReadOn(src, buffer, limit);
        if status == Ended {
          EndedBy(data, received, later, n, limit, json, messages);
          return Ok(messages), at;
        }
      } else {
        if |buffer| >= limit > 0 {
          OverrunBy(data, received, later, last, n, limit, json, messages, buffer);
          return Err(StreamLimit), last;
        }
        buffer, status := ReadOn(src, buffer, limit);
        if status == Ended {
          StarvedBy(data, received, later, n, limit, json, messages, left);
          return Err(UnexpectedEOF), at;
        }
      }
      received := Refilled(data, received, n, limit, json, messages, left, later, buffer, src.Unread());
      ReceivedLength(data, received, src.Unread());
    }
  }

  /** For every chunking the reader returns what the stream decodes to as far as
      it counts, unless a message is longer than the limit, when there is one. So
      it returns what the whole stream decodes to exactly if the messages asked
      for end there and fit the limit. */
  method ReadStream(data: bytes, sizes: nat -> nat, together: bool, n: int, limit: int, json: Compactor)
    returns (r: Result<seq<Message>>, ghost last: nat)
    ensures n < -1 || limit < 0 ==> r == Err(InvalidCount)
    ensures n >= -1 && limit >= 0 ==>
              && last <= |data| && Counts(data, sizes, together, limit, last)
              && Outcome(data[..last], n, limit, json, r)
    ensures n >= -1 && limit >= 0 && Whole(data, n, json).Ok? ==>
              (r == Whole(data, n, json) <==>
                 Taken(data, n, json) <= last && (limit > 0 ==> Fits(data, n, limit, json)))
  {
    last := 0;
    if n < -1 || limit < 0 {
      return Err(InvalidCount), 0;
    }
    var src := new Source(data, sizes, together);
    assert OnTheWay(data, sizes, together, limit, 0, 0);
    r, last := ReadChunks(src, n, limit, json);
    hide Counts, Outcome, Taken, Whole, Fits;
    if Whole(data, n, json).Ok? {
      LossExact(data, last, n, limit, json, r);
    }
  }
}
