/** Whole V1 updates as a grammar: any blocks, several of one client and empty
    ones included, in any order, then a delete set and nothing after it. */
module UpdateWords {
  import opened Prelude
  import opened Wire
  import opened Structs
  import opened IdSetObject
  import opened Updates
  import opened CodecV1
  import opened DeleteSets
  import opened UpdateV1
  import opened GrammarV1
  import opened DeleteWords

  /** Consecutive structs from one identifier on. */
  datatype Block = Block(first: ID, words: seq<Word>)

  datatype Text = Text(blocks: seq<Block>, deletes: seq<DeleteEntry>)

  predicate WordsOk(ws: seq<Word>) {
    forall i :: 0 <= i < |ws| ==> WordOk(ws[i])
  }

  predicate BlocksOk(bs: seq<Block>) {
    forall i :: 0 <= i < |bs| ==> |bs[i].words| <= MAX_U32 && WordsOk(bs[i].words)
  }

  predicate TextOk(t: Text) {
    |t.blocks| <= MAX_U32 && BlocksOk(t.blocks) && EntriesOk(t.deletes)
  }

  // ----- Spelling -----

  function SpellWords(ws: seq<Word>): bytes
    requires WordsOk(ws)
  {
    if ws == [] then [] else Spell(ws[0]) + SpellWords(ws[1..])
  }

  function SpellBlock(b: Block): bytes
    requires WordsOk(b.words)
  {
    VarUint(AsU32(|b.words|)) + (EncId(b.first) + SpellWords(b.words))
  }

  function SpellBlocks(bs: seq<Block>): bytes
    requires BlocksOk(bs)
  {
    if bs == [] then [] else SpellBlock(bs[0]) + SpellBlocks(bs[1..])
  }

  function SpellText(t: Text): bytes
    requires TextOk(t)
  {
    VarUint(AsU32(|t.blocks|)) + (SpellBlocks(t.blocks) + SpellDeletes(t.deletes))
  }

  // ----- Meaning -----

  /** Each struct starts where the one before it ended. */
  function MeanWords(ws: seq<Word>, id: ID): Result<seq<Struct>> {
    if ws == [] then Ok([])
    else
      var s :- Checked(Mean(ws[0], id));
      var more :- MeanWords(ws[1..], ID(id.client, s.End()));
      Ok([s] + more)
  }

  function MeanBlocks(bs: seq<Block>): Result<seq<Struct>> {
    if bs == [] then Ok([])
    else
      var l :- MeanWords(bs[0].words, bs[0].first);
      var more :- MeanBlocks(bs[1..]);
      Ok(l + more)
  }

  function MeanText(t: Text): Result<Update> {
    var structs :- MeanBlocks(t.blocks);
    var named :- MeanEntries(t.deletes, Absolute);
    Ok(Update(structs, Gather(map[], named)))
  }

  // ----- The reader takes the words -----

  lemma WordStep(w: Word, id: ID, rest: bytes)
    requires WordOk(w)
    ensures ReadStruct(Spell(w) + rest, id) ==
            match Checked(Mean(w, id)) { case Ok(s) => Ok((s, rest)) case Err(e) => Err(e) }
    ensures Checked(Mean(w, id)).Ok? ==> Mean(w, id).End() <= MAX_U32
  {
    hide ReadStruct, Spell, WordOk, Mean;
    WordSpelled(w, id, rest);
  }

  lemma {:induction false} WordsSpelled(ws: seq<Word>, id: ID, rest: bytes)
    requires WordsOk(ws)
    ensures ReadStructs(SpellWords(ws) + rest, |ws|, id) ==
            match MeanWords(ws, id) { case Ok(l) => Ok((l, rest)) case Err(e) => Err(e) }
  {
    hide ReadStruct, Spell, WordOk, Mean, Checked;
    if ws == [] {
      assert SpellWords(ws) + rest == rest;
    } else {
      Assoc(Spell(ws[0]), SpellWords(ws[1..]), rest);
      WordStep(ws[0], id, SpellWords(ws[1..]) + rest);
      if Checked(Mean(ws[0], id)).Ok? {
        CheckedIs(Mean(ws[0], id));
        WordsSpelled(ws[1..], ID(id.client, Mean(ws[0], id).End()), rest);
      }
    }
  }

  lemma CheckedIs(s: Struct)
    ensures Checked(s).Ok? ==> Checked(s).value == s && s.End() <= MAX_U32
  {
  }

  lemma {:induction false} BlocksSpelled(bs: seq<Block>, rest: bytes)
    requires BlocksOk(bs)
    ensures ReadBlocks(SpellBlocks(bs) + rest, |bs|) ==
            match MeanBlocks(bs) { case Ok(l) => Ok((l, rest)) case Err(e) => Err(e) }
  {
    hide ReadVarUint, VarUint, ReadId, EncId, ReadStructs, SpellWords, MeanWords, WordsOk;
    if bs == [] {
      assert SpellBlocks(bs) + rest == rest;
    } else {
      var b, tail := bs[0], SpellBlocks(bs[1..]) + rest;
      Assoc(SpellBlock(b), SpellBlocks(bs[1..]), rest);
      Assoc(VarUint(AsU32(|b.words|)), EncId(b.first) + SpellWords(b.words), tail);
      Assoc(EncId(b.first), SpellWords(b.words), tail);
      VarUintRoundTrip(|b.words|, EncId(b.first) + (SpellWords(b.words) + tail));
      IdRoundTrip(b.first, SpellWords(b.words) + tail);
      WordsSpelled(b.words, b.first, tail);
      BlocksSpelled(bs[1..], rest);
    }
  }

  lemma TextSpelled(t: Text)
    requires TextOk(t)
    ensures Decode(SpellText(t)) == MeanText(t)
  {
    hide ReadVarUint, VarUint, ReadBlocks, ReadDeletes, SpellBlocks, SpellDeletes, MeanBlocks, MeanEntries, Gather,
         BlocksOk, EntriesOk;
    VarUintRoundTrip(|t.blocks|, SpellBlocks(t.blocks) + SpellDeletes(t.deletes));
    BlocksSpelled(t.blocks, SpellDeletes(t.deletes));
    DeletesSpelled(t.deletes, Absolute, []);
    assert SpellDeletes(t.deletes) + [] == SpellDeletes(t.deletes);
  }

  // ----- The reader takes nothing else -----

  lemma {:induction false} WordsRead(b: bytes, n: nat, id: ID) returns (ws: seq<Word>)
    requires ReadStructs(b, n, id).Ok?
    ensures |ws| == n && WordsOk(ws) && b == SpellWords(ws) + ReadStructs(b, n, id).value.1
    decreases n
  {
    hide ReadStruct, Spell, WordOk, Mean;
    if n == 0 {
      ws := [];
      assert [] + b == b;
    } else {
      var w := WordRead(b, id);
      var (s, b1) := ReadStruct(b, id).value;
      var more := WordsRead(b1, n - 1, ID(id.client, AsU32(s.End())));
      ws := [w] + more;
      assert ws[1..] == more;
      Assoc(Spell(w), SpellWords(more), ReadStructs(b, n, id).value.1);
    }
  }

  lemma {:induction false} BlocksRead(b: bytes, n: nat) returns (bs: seq<Block>)
    requires ReadBlocks(b, n).Ok?
    ensures |bs| == n && BlocksOk(bs) && b == SpellBlocks(bs) + ReadBlocks(b, n).value.1
    decreases n
  {
    hide ReadVarUint, VarUint, ReadId, EncId, ReadStructs, SpellWords, WordsOk;
    if n == 0 {
      bs := [];
      assert [] + b == b;
    } else {
      VarUintCanonical(b);
      var (count, b1) := ReadVarUint(b).value;
      IdRead(b1);
      var (id, b2) := ReadId(b1).value;
      var words := WordsRead(b2, count, id);
      var b3 := ReadStructs(b2, count, id).value.1;
      var more := BlocksRead(b3, n - 1);
      bs := [Block(id, words)] + more;
      assert bs[1..] == more;
      var rest := ReadBlocks(b, n).value.1;
      Assoc(EncId(id), SpellWords(words), SpellBlocks(more) + rest);
      Assoc(VarUint(count), EncId(id) + SpellWords(words), SpellBlocks(more) + rest);
      Assoc(SpellBlock(bs[0]), SpellBlocks(more), rest);
    }
  }

  lemma TextRead(b: bytes) returns (t: Text)
    requires Decode(b).Ok?
    ensures TextOk(t) && b == SpellText(t)
  {
    hide ReadVarUint, VarUint, ReadBlocks, ReadDeletes, SpellBlocks, SpellDeletes, BlocksOk, EntriesOk;
    VarUintCanonical(b);
    var (n, b1) := ReadVarUint(b).value;
    var blocks := BlocksRead(b1, n);
    var b2 := ReadBlocks(b1, n).value.1;
    var deletes := DeletesRead(b2, Absolute);
    t := Text(blocks, deletes);
    assert SpellDeletes(deletes) + [] == SpellDeletes(deletes);
  }

  /** The decoder accepts exactly the updates of the grammar, and decodes each to
      what it means; so bytes after an update are never accepted. */
  lemma DecodeExact(b: bytes, u: Update)
    ensures Decode(b) == Ok(u) <==> exists t :: TextOk(t) && b == SpellText(t) && MeanText(t) == Ok(u)
  {
    hide Decode, TextOk, SpellText, MeanText;
    if Decode(b) == Ok(u) {
      var t := TextRead(b);
      TextSpelled(t);
    }
    if t :| TextOk(t) && b == SpellText(t) && MeanText(t) == Ok(u) {
      TextSpelled(t);
    }
  }

  /** Nothing may follow an update. */
  lemma NothingFollows(b: bytes, more: bytes)
    requires Decode(b).Ok? && more != []
    ensures Decode(b + more) == Err(TrailingBytes)
  {
    hide ReadVarUint, VarUint, ReadBlocks, ReadDeletes, SpellBlocks, SpellDeletes, MeanBlocks, MeanEntries, Gather,
         BlocksOk, EntriesOk;
    var t := TextRead(b);
    TextSpelled(t);
    var body, tail := SpellBlocks(t.blocks), SpellDeletes(t.deletes);
    Assoc(VarUint(AsU32(|t.blocks|)), body + tail, more);
    Assoc(body, tail, more);
    VarUintRoundTrip(|t.blocks|, body + (tail + more));
    BlocksSpelled(t.blocks, tail + more);
    DeletesSpelled(t.deletes, Absolute, more);
  }
}
