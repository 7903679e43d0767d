/** Whole V2 updates as a grammar: nine columns and a rest stream that hold the
    words of any blocks in any order, then a delete set; every column is used up
    and nothing follows. */
module UpdateWordsV2 {
  import opened Prelude
  import opened Wire
  import opened Structs
  import opened IdSetObject
  import opened Updates
  import opened CodecV1
  import opened DeleteSets
  import opened Lib0
  import opened CodecV2
  import opened UpdateV2
  import opened GrammarV2
  import opened DeleteWords

  /** Consecutive structs from one identifier on. */
  datatype Block = Block(first: ID, words: seq<Word>)

  datatype Text = Text(blocks: seq<Block>, deletes: seq<DeleteEntry>)

  // ----- Words with the keys known before them -----

  predicate WordsOk(ws: seq<Word>, keys: seq<string>) {
    ws == [] || (WordOk(ws[0], keys) && WordsOk(ws[1..], WordKeys(ws[0], keys)))
  }

  function WordsKeys(ws: seq<Word>, keys: seq<string>): seq<string> {
    if ws == [] then keys else WordsKeys(ws[1..], WordKeys(ws[0], keys))
  }

  function PutWords(ws: seq<Word>, keys: seq<string>): Cols
    requires WordsOk(ws, keys)
  {
    if ws == [] then NOTHING else PutWord(ws[0], keys).Plus(PutWords(ws[1..], WordKeys(ws[0], keys)))
  }

  predicate BlocksOk(bs: seq<Block>, keys: seq<string>) {
    bs == [] || (|bs[0].words| <= MAX_U32 && WordsOk(bs[0].words, keys)
                 && BlocksOk(bs[1..], WordsKeys(bs[0].words, keys)))
  }

  /** The header: count and first clock in the rest stream, the client in the
      client column. */
  function PutHead(count: u32, first: ID): Cols {
    Rest(VarUint(count)).Plus(Client(first.client).Plus(Rest(VarUint(first.clock))))
  }

  function PutBlocksOf(bs: seq<Block>, keys: seq<string>): Cols
    requires BlocksOk(bs, keys)
  {
    if bs == [] then NOTHING
    else
      PutHead(AsU32(|bs[0].words|), bs[0].first).Plus(
        PutWords(bs[0].words, keys).Plus(PutBlocksOf(bs[1..], WordsKeys(bs[0].words, keys))))
  }

  predicate TextOk(t: Text) {
    |t.blocks| <= MAX_U32 && BlocksOk(t.blocks, []) && EntriesOk(t.deletes)
  }

  function PutText(t: Text): Cols
    requires TextOk(t)
  {
    Rest(VarUint(AsU32(|t.blocks|))).Plus(PutBlocksOf(t.blocks, []).Plus(Rest(SpellDeletes(t.deletes))))
  }

  // ----- Meaning -----

  function MeanWords(ws: seq<Word>, id: ID): Result<seq<Struct>> {
    if ws == [] then Ok([])
    else
      var s :- Checked(Mean(ws[0], id));
      var more :- MeanWords(ws[1..], ID(id.client, s.End()));
      Ok([s] + more)
  }

  function MeanBlocks(bs: seq<Block>): Result<seq<Struct>> {
    if bs == [] then Ok([])
    else
      var l :- MeanWords(bs[0].words, bs[0].first);
      var more :- MeanBlocks(bs[1..]);
      Ok(l + more)
  }

  function MeanText(t: Text): Result<Update> {
    var structs :- MeanBlocks(t.blocks);
    var named :- MeanEntries(t.deletes, Delta);
    Ok(Update(structs, Gather(map[], named)))
  }

  // ----- The reader takes the words -----

  lemma WordStep(w: Word, id: ID, d: Decoder, c: Cols)
    requires WordOk(w, d.keys) && Holds(d, PutWord(w, d.keys).Plus(c)) && Checked(Mean(w, id)).Ok?
    ensures Checked(Mean(w, id)).value == Mean(w, id) && Mean(w, id).End() <= MAX_U32
    ensures Gets(GetStruct(d, id), Mean(w, id), WordKeys(w, d.keys), c)
  {
    hide GetStruct, PutWord, WordOk, Mean, Holds, Cols.Plus, WordKeys;
    WordTaken(w, id, d, c);
  }

  lemma {:induction false} WordsTaken(ws: seq<Word>, id: ID, d: Decoder, c: Cols)
    requires WordsOk(ws, d.keys) && Holds(d, PutWords(ws, d.keys).Plus(c)) && MeanWords(ws, id).Ok?
    ensures Gets(GetStructs(d, |ws|, id), MeanWords(ws, id).value, WordsKeys(ws, d.keys), c)
    decreases |ws|
  {
    hide GetStruct, PutWord, WordOk, Mean, Checked, Holds, Cols.Plus, WordKeys;
    if ws == [] {
      NothingPlus(c);
    } else {
      var tail := PutWords(ws[1..], WordKeys(ws[0], d.keys));
      PlusAssoc(PutWord(ws[0], d.keys), tail, c);
      WordStep(ws[0], id, d, tail.Plus(c));
      var d1 := GetStruct(d, id).value.1;
      WordsTaken(ws[1..], ID(id.client, Mean(ws[0], id).End()), d1, c);
    }
  }

  lemma HeadTaken(count: u32, first: ID, d: Decoder, c: Cols)
    requires Holds(d, PutHead(count, first).Plus(c))
    ensures Gets(GetHeader(d), (count, first), d.keys, c)
  {
    hide Holds, GetHeader, Rest, Client, VarUint, Cols.Plus;
    PlusAssoc(Rest(VarUint(count)), Client(first.client).Plus(Rest(VarUint(first.clock))), c);
    PlusAssoc(Client(first.client), Rest(VarUint(first.clock)), c);
    HeaderRead(d, count, first, c);
  }

  lemma {:induction false} BlocksTaken(bs: seq<Block>, d: Decoder, c: Cols)
    requires BlocksOk(bs, d.keys) && Holds(d, PutBlocksOf(bs, d.keys).Plus(c)) && MeanBlocks(bs).Ok?
    ensures GetBlocks(d, |bs|).Ok? && GetBlocks(d, |bs|).value.0 == MeanBlocks(bs).value
    ensures Holds(GetBlocks(d, |bs|).value.1, c)
    decreases |bs|
  {
    hide GetHeader, GetStructs, PutHead, PutWords, WordsOk, MeanWords, Holds, Cols.Plus, WordsKeys;
    if bs == [] {
      NothingPlus(c);
    } else {
      var b, keys := bs[0], WordsKeys(bs[0].words, d.keys);
      var head, words, tail := PutHead(|b.words|, b.first), PutWords(b.words, d.keys), PutBlocksOf(bs[1..], keys);
      PlusAssoc(head, words.Plus(tail), c);
      PlusAssoc(words, tail, c);
      HeadTaken(|b.words|, b.first, d, words.Plus(tail.Plus(c)));
      var d1 := GetHeader(d).value.1;
      WordsTaken(b.words, b.first, d1, tail.Plus(c));
      var d2 := GetStructs(d1, |b.words|, b.first).value.1;
      BlocksTaken(bs[1..], d2, c);
    }
  }

  lemma TextTaken(b: bytes, t: Text)
    requires OpenDecoder(b).Ok? && TextOk(t) && Holds(OpenDecoder(b).value, PutText(t)) && MeanText(t).Ok?
    ensures DecodeTwo(b) == MeanText(t)
  {
    hide OpenDecoder, GetRestUint, GetBlocks, ReadDeletes, Drained, Holds, PutBlocksOf, BlocksOk, EntriesOk, Rest,
         VarUint, SpellDeletes, MeanBlocks, MeanEntries, Gather, Cols.Plus, DecodeTwo;
    var d := OpenDecoder(b).value;
    NoKeysYet(b);
    var blocks, deletes := PutBlocksOf(t.blocks, []), Rest(SpellDeletes(t.deletes));
    RestUintRead(d, |t.blocks|, blocks.Plus(deletes));
    var d1 := GetRestUint(d).value.1;
    BlocksTaken(t.blocks, d1, deletes);
    var d2 := GetBlocks(d1, |t.blocks|).value.1;
    NothingIsDrained(d2, SpellDeletes(t.deletes));
    DeletesSpelled(t.deletes, Delta, []);
    assert SpellDeletes(t.deletes) + [] == SpellDeletes(t.deletes);
    DecodeTwoSteps(b, d, |t.blocks|, d1, MeanBlocks(t.blocks).value, d2, Gather(map[], MeanEntries(t.deletes,
        Delta).value));
  }

  lemma NoKeysYet(b: bytes)
    requires OpenDecoder(b).Ok?
    ensures OpenDecoder(b).value.keys == []
  {
  }

  // ----- The reader takes nothing else -----

  lemma {:induction false} WordsGot(d: Decoder, n: nat, id: ID, c: Cols) returns (ws: seq<Word>)
    requires GetStructs(d, n, id).Ok? && Holds(GetStructs(d, n, id).value.1, c)
    ensures |ws| == n && WordsOk(ws, d.keys) && Holds(d, PutWords(ws, d.keys).Plus(c))
    ensures MeanWords(ws, id) == Ok(GetStructs(d, n, id).value.0)
    ensures GetStructs(d, n, id).value.1.keys == WordsKeys(ws, d.keys)
    decreases n
  {
    hide GetStruct, PutWord, WordOk, Mean, Holds, Cols.Plus, WordKeys;
    if n == 0 {
      ws := [];
      NothingPlus(c);
    } else {
      var (s, d1) := GetStruct(d, id).value;
      var more := WordsGot(d1, n - 1, ID(id.client, AsU32(s.End())), c);
      var tail := PutWords(more, d1.keys).Plus(c);
      var w := WordGot(d, id, tail);
      ws := [w] + more;
      assert ws[1..] == more;
      PlusAssoc(PutWord(w, d.keys), PutWords(more, d1.keys), c);
      ValidChecked(s);
    }
  }

  lemma ValidChecked(s: Struct)
    ensures s.Valid() ==> Checked(s) == Ok(s) && s.End() <= MAX_U32
  {
  }

  lemma HeadGot(d: Decoder, c: Cols)
    requires GetHeader(d).Ok? && Holds(GetHeader(d).value.1, c)
    ensures var ((count, first), d1) := GetHeader(d).value;
            Holds(d, PutHead(count, first).Plus(c)) && d1.keys == d.keys
  {
    hide Holds, GetRestUint, GetClient, Rest, Client, VarUint, Cols.Plus;
    var (count, d1) := GetRestUint(d).value;
    var (client, d2) := GetClient(d1).value;
    RestUintGot(d2, c);
    var clock := GetRestUint(d2).value.0;
    ClientGot(d1, Rest(VarUint(clock)).Plus(c));
    RestUintGot(d, Client(client).Plus(Rest(VarUint(clock)).Plus(c)));
    PlusAssoc(Rest(VarUint(count)), Client(client).Plus(Rest(VarUint(clock))), c);
    PlusAssoc(Client(client), Rest(VarUint(clock)), c);
  }

  lemma {:induction false} BlocksGot(d: Decoder, n: nat, c: Cols) returns (bs: seq<Block>)
    requires GetBlocks(d, n).Ok? && Holds(GetBlocks(d, n).value.1, c)
    ensures |bs| == n && BlocksOk(bs, d.keys) && Holds(d, PutBlocksOf(bs, d.keys).Plus(c))
    ensures MeanBlocks(bs) == Ok(GetBlocks(d, n).value.0)
    decreases n
  {
    hide GetHeader, GetStructs, PutHead, PutWords, WordsOk, MeanWords, Holds, Cols.Plus, WordsKeys;
    if n == 0 {
      bs := [];
      NothingPlus(c);
    } else {
      var ((count, first), d1) := GetHeader(d).value;
      var d2 := GetStructs(d1, count, first).value.1;
      var more := BlocksGot(d2, n - 1, c);
      var tail := PutBlocksOf(more, d2.keys);
      var words := WordsGot(d1, count, first, tail.Plus(c));
      bs := [Block(first, words)] + more;
      assert bs[1..] == more;
      var put := PutWords(words, d1.keys);
      HeadGot(d, put.Plus(tail.Plus(c)));
      PlusAssoc(put, tail, c);
      PlusAssoc(PutHead(count, first), put.Plus(tail), c);
    }
  }

  lemma ClosingHolds(d: Decoder) returns (es: seq<DeleteEntry>)
    requires Closing(d).Ok?
    ensures EntriesOk(es) && Holds(d, Rest(SpellDeletes(es)))
    ensures MeanEntries(es, Delta).Ok? && Closing(d) == Ok(Gather(map[], MeanEntries(es, Delta).value))
  {
    hide ReadDeletes, EntriesOk, SpellDeletes, MeanEntries, Gather;
    es := DeletesRead(d.rest, Delta);
    DeletesSpelled(es, Delta, []);
    assert SpellDeletes(es) + [] == SpellDeletes(es);
  }

  lemma TextGot(b: bytes) returns (t: Text)
    requires DecodeTwo(b).Ok?
    ensures OpenDecoder(b).Ok? && TextOk(t) && Holds(OpenDecoder(b).value, PutText(t))
    ensures MeanText(t) == DecodeTwo(b)
  {
    hide OpenDecoder, GetRestUint, GetBlocks, Closing, Holds, PutBlocksOf, BlocksOk, EntriesOk, Rest, VarUint,
         SpellDeletes, MeanBlocks, MeanEntries, Gather, Cols.Plus;
    var d := OpenDecoder(b).value;
    NoKeysYet(b);
    var (n, d1) := GetRestUint(d).value;
    var d2 := GetBlocks(d1, n).value.1;
    var deletes := ClosingHolds(d2);
    var blocks := BlocksGot(d1, n, Rest(SpellDeletes(deletes)));
    SameKeys(d);
    RestUintGot(d, PutBlocksOf(blocks, d1.keys).Plus(Rest(SpellDeletes(deletes))));
    t := Text(blocks, deletes);
  }

  lemma SameKeys(d: Decoder)
    requires GetRestUint(d).Ok?
    ensures GetRestUint(d).value.1.keys == d.keys
  {
  }

  /** The decoder accepts exactly the updates whose columns hold some text of the
      grammar, and decodes each to what the text means. */
  lemma DecodeTwoExact(b: bytes, u: Update)
    ensures DecodeTwo(b) == Ok(u) <==>
            exists t :: TextOk(t) && MeanText(t) == Ok(u) && OpenDecoder(b).Ok?
                        && Holds(OpenDecoder(b).value, PutText(t))
  {
    hide DecodeTwo, TextOk, PutText, MeanText, OpenDecoder, Holds;
    if DecodeTwo(b) == Ok(u) {
      var t := TextGot(b);
    }
    if t :| TextOk(t) && MeanText(t) == Ok(u) && OpenDecoder(b).Ok? && Holds(OpenDecoder(b).value, PutText(t)) {
      TextTaken(b, t);
    }
  }

  // ----- The layout -----

  lemma {:induction false} ArraysGot(b: bytes, n: nat)
    requires ReadArrays(b, n).Ok?
    ensures var (a, rest) := ReadArrays(b, n).value;
            |a| == n && FitArrays(a) && b == Arrays(a) + rest
    decreases n
  {
    hide ReadVarBytes, VarBytes;
    if n == 0 {
      assert [] + b == b;
    } else {
      VarBytesCanonical(b);
      var (first, b1) := ReadVarBytes(b).value;
      ArraysGot(b1, n - 1);
      var (more, rest) := ReadArrays(b1, n - 1).value;
      assert ([first] + more)[1..] == more;
      Assoc(VarBytes(first), Arrays(more), rest);
    }
  }

  /** Which column is which: keys, clients, left and right clocks, info, texts,
      parent kinds, type references, lengths. */
  function AtStart(a: seq<bytes>, strings: StringState, rest: bytes): Decoder
    requires |a| == 9
  {
    Decoder(keyClock := DiffState(a[0], 0, 0, 0), client := UintState(a[1], 0, 0), left := DiffState(a[2], 0, 0, 0),
            right := DiffState(a[3], 0, 0, 0), info := ByteState(a[4], 0, 0), strings := strings,
            parentInfo := ByteState(a[6], 0, 0), typeRef := UintState(a[7], 0, 0), lengths := UintState(a[8], 0, 0),
            rest := rest, keys := [])
  }

  /** The cursors open exactly on the feature flag 0, nine length-prefixed
      columns, of which the sixth starts with a text, and any rest. */
  lemma LayoutExact(b: bytes, d: Decoder)
    ensures OpenDecoder(b) == Ok(d) <==>
            exists a, rest :: && |a| == 9 && FitArrays(a) && b == VarUint(0) + (Arrays(a) + rest)
                              && OpenStrings(a[5]).Ok? && d == AtStart(a, OpenStrings(a[5]).value, rest)
  {
    hide ReadVarUint, VarUint, ReadArrays, Arrays, OpenStrings, FitArrays;
    if OpenDecoder(b) == Ok(d) {
      VarUintCanonical(b);
      var b1 := ReadVarUint(b).value.1;
      ArraysGot(b1, 9);
      var (a, rest) := ReadArrays(b1, 9).value;
      assert b == VarUint(0) + (Arrays(a) + rest);
    }
    if a: seq<bytes>, rest: bytes :|
      && |a| == 9 && FitArrays(a) && b == VarUint(0) + (Arrays(a) + rest)
      && OpenStrings(a[5]).Ok? && d == AtStart(a, OpenStrings(a[5]).value, rest)
    {
      VarUintRoundTrip(0, Arrays(a) + rest);
      ArraysRoundTrip(a, rest);
      OpenSteps(b, Arrays(a) + rest, a, rest);
    }
  }
}
