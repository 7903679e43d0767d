# A verified model of the server-side Yjs

The repository is a server-side Yjs in Go. This project models its update
algebra, its wire codecs, its lease and log protocol, its rebalance planner, its
protocol stream and its awareness state in Dafny, and proves what they are for.

Check everything with `dafny verify dfyconfig.toml`.

## What is modelled

**Updates.** A client's list of structs denotes a partial map from clocks to
units (`Structs.At`, `Updates.UnitOf`): a GC gives collected units, a Skip gives
nothing, an item of length n gives n units. A unit has the right origin of its
item, one atom of content, and as origin the item's own for the first unit and
the clock before it for the rest; parent and parentSub belong to a unit only
when it has neither origin nor right origin, since that is all the wire carries.
Slicing, merging, diffing, intersecting, compaction and both codecs are stated
in these terms. Texts are counted in UTF-16 code units, and a cut through a
surrogate pair leaves U+FFFD on either side. So there are two views: `At` and
`UnitOf` take surrogates and U+FFFD for one and the same, and `FullAt` and
`FullUnitOf` tell every code unit apart. Slices, diffs, intersections and
compaction are exact in the second view: they say which half pairs are replaced,
and that nothing else is. Merges say from which input a unit comes and that only
an end of a struct inside a pair can change it; among updates that agree there
is no such end (`Exactness`), so they are merged, in any order, without a change
to a single code unit, and so is a sync step (`Sync.SyncConvergesExactly`).

`Merge`, `Updates`, `Diffs`, `Intersects` and `Collection` keep the loops of the
source; `MergeUpdates` takes the merge from bytes to bytes, and `Sync` puts
diff, state vector and merge together.

**Codecs.** `CodecV1`, `UpdateV1` and `LazyReaderV1` are the interleaved V1
stream; `Lib0`, `Columns`, `CodecV2`, `UpdateV2` and `EncoderV2` are the nine
run-length columns and the rest stream of V2. Encoders and decoders are classes
with the fields of the source, each proved against a function on values; the
round trips are proved of those functions. The varuint is unsigned LEB128
(section 7.6 of DWARF 5), limited to 32 bits and to its canonical form. A round
trip says nothing of what other writers send, so the readers also have grammars:
trees with a spelling and a meaning, and theorems that a reader accepts exactly
the spellings and yields their meanings. `GrammarV1`, `ValueWords`, `DeleteWords`
and `UpdateWords` are those of V1, `ColumnWords`, `GrammarV2` and `UpdateWordsV2`
those of V2, and `ProtocolWords` that of the message stream.

**Store, leases, rooms.** `Storage` is the in-memory store as a class over a
pure step function. `Fencing` proves safety over all runs of store operations,
`Leases` covers lookup, acquire, renew, hand-off and the lease manager.
`Provider` is a transition system of rooms on many nodes. A load takes a fence,
reads the checkpoint, lists the log page by page and opens a room; a persist
captures, saves and trims; these steps, appends, closes, crashes and lease
operations of others are interleaved freely, with any number of loads and
persists on their way. `Persists` says what happens out of turn, and
`LostUpdates` has two runs that lose an update. `Rooms` has the methods whose
steps these are. A document is a set of facts and merging is union: an
idempotent, commutative join, as `Updates.MergeIgnoresOrder` shows the update
merge to be.

**Planner, stream, awareness.** `Rebalance` is the two-phase allocator,
`Protocol` and `Stream` the message parser and the incremental reader over a
source of any chunk sizes, `Awareness` the clock lattice.

## Where the code does less than one might expect

Each of these has its exact condition; where that does not name an input by
itself, a lemma does.

- The V1 state vector counts a Skip at clock 0 when it is the very first struct
  of the update (`StateVectors.VectorExact`, `StateVectors.SkipFirstCounted`); a
  sync step then loses exactly the other side's units below it
  (`Sync.SyncExact`).
- An intersection drops a whole client when nothing has been written yet and the
  next range starts exactly at a struct's end (`Intersects.KeepExact`,
  `Intersects.BoundaryDrops`).
- Adding a range that fills the whole 32-bit line loses clock 0
  (`IdSets.InsertExact`, `IdSets.InsertWholeLine`), and slicing a stretch that a
  range up to the last clock reaches calls it absent (`IdSetObject.IdSet.Slice`,
  `IdSetObject.LastClockCalledAbsent`).
- V2 bytes are taken for V1 when what follows the flag is exactly one V1 delete
  set (`Formats.DetectsV2`), as it is for an update of two items
  (`Ambiguity.TakenForV1`).
- A JSON text of 116 to 127 bytes has a length byte that is an any tag, and is
  read as what it is only if the value that byte announces ends where the text
  does (`RawValues.JsonTextExact`). Otherwise the reader stops inside the text,
  takes bytes that follow it, or fails (`RawValues.JsonTextCut`,
  `RawValues.JsonTextPast`, `RawValues.ObjectSwallows`).
- Two persists of one room may overtake each other, and a persist may outlive its
  room while the next load reads first the checkpoint and then the log. A save of
  a capture older than what has been trimmed, a trim beyond the checkpoint, or a
  page listed after what the load lacks has been trimmed breaks the invariant of
  rooms and recovery, and no other step does (`Provider.EventKeeps`). Nothing
  reports it; what is lost is what lies between and is nowhere else
  (`Persists.OutOfTurn`, `Persists.LoadOutOfTurn`,
  `LostUpdates.OvertakingLoses`, `LostUpdates.OutlivingLoses`).
- The store tells by the start that a lease claims whether the present one has
  run out. A node whose clock is ahead takes over a lease that still runs
  (`Leases.TakeoverExact`, `Leases.EarlyTakeover`), and one whose clock is behind
  hands over a lease that has run out (`Leases.HandoffExact`,
  `Leases.LateHandoff`). Fencing holds all the same
  (`Fencing.EpochIdentifiesOwner`).
- Of two lists of one client that hold nothing but overlapping Skips an empty one
  is left, which the next merge of that client would index
  (`Updates.MergeClientLists`, `Updates.SkipsVanish`).
- Compaction turns a deleted Skip that nobody names into a GC, so that clocks gain
  a collected unit (`Collection.GainedUnits`).
- When a reader delivers EOF together with its last bytes, those bytes are lost:
  the result is that of the whole stream exactly if the messages asked for end
  before its last chunk (`Stream.ReadStream`).
- A local awareness clock wraps to 0 after the last one
  (`Awareness.SetLocalMovesDown`, `Awareness.ApplyMovesDown`).
- A lease manager that is due to renew fails, although the shard is free, when
  the lease it finds is another holder's expired one
  (`Leases.LeaseManager.Ensure`, `Leases.RenewalFails`).

## Model

| member | source | states |
|---|---|---|
| Wire.Reader.ReadByte | internal/binary/reader.go:33-41 | yields the next byte and moves by one; at the end the unexpected-EOF error and no move |
| Wire.Reader.Take | internal/binary/reader.go:45-57 | n bytes if that many are left; otherwise an error and the cursor stays |
| Wire.Append | internal/varint/varint.go:34-40 | the loop appends exactly the unsigned LEB128 form of the value |
| Wire.Read | internal/varint/varint.go:48-78 | the loop over at most five groups accepts exactly the canonical 32-bit form, with the error of each refusal |
| Wire.CanonicalTest | internal/varint/varint.go:69-74 | the length test of the loop is exactly the rule that the last group is not a redundant zero |
| Wire.VarUintRoundTrip | internal/varint/varint.go:34-78 | a written value is read back whatever bytes follow |
| Wire.VarUintCanonical | internal/varint/varint.go:48-78 | only the bytes written for a value are read as that value |
| Wire.VarUintStable | internal/varint/varint.go:48-78 | later bytes change neither a complete read nor a failure other than EOF |
| ColumnWords.VarUintGroups | internal/varint/varint.go:34-40 | the bytes written for a number are groups of seven bits, least significant first, whose weighted sum it is, with the high bit on all but the last |
| Text.WindowExact | internal/yupdate/content_v1.go:112-127 | a window of a text is the exact run of UTF-16 units if and only if neither end cuts a surrogate pair; its length is right in every case |
| Text.Utf8RoundTrip | internal/yupdate/decoder_v1.go:51-62 | text written as UTF-8 is read back |
| Text.GoodRune | internal/yupdate/decoder_v1.go:51-62 | a character's bytes in front are read as that character, whatever follows |
| Text.BadByte | internal/yupdate/decoder_v1.go:51-62 | where no character's UTF-8 stands in front, and only there, one byte is read as U+FFFD |
| Text.WindowShorter | internal/yupdate/content_v1.go:112-127 | a window never needs more bytes than the text it is cut from |
| RawValues.AnySizeStable | internal/yupdate/decoder_v1_raw.go:34-110 | the extent of a complete any value does not depend on what follows it |
| RawValues.AnyRoundTrip | internal/yupdate/decoder_v1_raw.go:24-110 | a raw any value is read back as the bytes it was written as |
| RawValues.AnySizePrefix | internal/yupdate/decoder_v1_raw.go:34-110 | the bytes an any value takes are that value when they are read alone |
| RawValues.ShortAnyReads | internal/yupdate/decoder_v1_raw.go:34-110 | in up to 2^20 bytes every any value of V1 is one of V2, of the same extent |
| ValueWords.ValueExact | internal/yupdate/decoder_v1_raw.go:34-110 | an any value takes the first n bytes if and only if they spell a value: tag by tag, strings, objects and arrays nested to any depth, integers within the length of the format and collections within its limit |
| RawValues.JsonTextExact | internal/yupdate/decoder_v1_raw.go:112-128 | a JSON text is one value for both readers if and only if its length byte is no any tag, or the value which that byte announces happens to end where the text does |
| RawValues.JsonTextCut | internal/yupdate/decoder_v1_raw.go:112-128 | with 120 to 127 bytes of text other than 125 the reader takes one, five or nine bytes and goes on inside the text |
| RawValues.JsonTextPast | internal/yupdate/decoder_v1_raw.go:112-128 | with 116 or 119 bytes the first byte of the text is taken for a length: a smaller one cuts the text short, a larger one swallows what follows it |
| RawValues.ObjectSwallows | internal/yupdate/decoder_v1_raw.go:112-128 | an object of 119 bytes takes five bytes with it that are not its own |
| IdSets.MergeRangesExact | internal/yidset/range.go:42-57 | two touching ranges merge into their union, unless the union is the whole 32-bit line |
| IdSets.InsertIsUnion | internal/yidset/slice.go:245-284 | insertion keeps a list sorted, disjoint and non-adjacent and denotes the union while some clock stays free |
| IdSets.InsertWholeLine | internal/yidset/range.go:42-57 | when the union is the whole line the merged length wraps and clock 0 is lost |
| IdSets.InsertExact | internal/yidset/slice.go:245-284 | insertion denotes the union if and only if the line is not filled |
| IdSets.NormalUnique | internal/yidset/idset.go:72-129 | a normalized list is determined by the clocks it covers |
| IdSets.IntersectIsIntersection | internal/yidset/slice.go:64-108 | the two-pointer result is normalized and denotes the intersection |
| IdSets.SubtractIsDifference | internal/yidset/slice.go:199-243 | what is left is normalized and denotes the difference |
| IdSetObject.MapUnique | internal/yidset/idset.go:72-163 | normalized maps with the same members are equal: the order of map iteration cannot show |
| IdSetObject.CommonIsIntersection | internal/yidset/slice.go:64-108 | the map of per-client intersections denotes the intersection of the sets |
| IdSetObject.IdSet.Add | internal/yidset/idset.go:72-129 | append, extend-last and general pass all leave the insertion of the range; other clients stay |
| IdSetObject.IdSet.Merge | internal/yidset/idset.go:140-163 | the set becomes the union, clients taken in any order; the argument stays |
| IdSetObject.RoomNeeded | internal/yidset/idset.go:140-163 | sets whose union fills the 32-bit line for some client have no normalized set that holds the union |
| IdSetObject.IdSet.Has | internal/yidset/idset.go:175-197 | binary search answers membership |
| IdSetObject.IdSet.Slice | internal/yidset/slice.go:12-61 | nothing for an empty stretch, one absent segment for one past the line; otherwise the segments split the stretch rightly if and only if no range up to the very last clock starts before its end |
| IdSetObject.SliceRanges | internal/yidset/slice.go:29-57 | the cursor loop yields alternating segments that follow each other and say of every clock whether it is covered, except where the end of a range wraps: then the last segment calls a covered clock absent |
| IdSetObject.LastClockCalledAbsent | internal/yidset/slice.go:12-61 | the very last clock, added to an empty set, is a member and yet sliced as absent |
| IdSetObject.IdSet.Subtract | internal/yidset/slice.go:136-173 | the set loses exactly the clocks of the other |
| IdSetObject.IntersectRanges | internal/yidset/slice.go:64-108 | the two indices compute the intersection of the lists |
| IdSetObject.SubtractRanges | internal/yidset/slice.go:199-243 | the single forward index computes the difference of the lists |
| IdSetObject.IntersectSets | internal/yidset/slice.go:64-108 | the new set holds exactly the common members |
| Structs.ChainBounds | internal/ytypes/structs.go:43-55 | units of a contiguous list lie between its first start and its last end |
| Structs.SliceContentKeepsAtoms | internal/yupdate/content_v1.go:22-69 | a content that cannot be cut has length one, so no cut reaches it; what is kept keeps its atoms, surrogates and U+FFFD counting as one |
| Structs.SliceKeepsUnits | internal/yupdate/merge.go:271-326 | a slice within bounds is defined, ends where it should, and keeps the unit of every clock it keeps, the origin of its first unit being the clock before it; surrogates and U+FFFD count as one |
| Structs.SliceKeepsExactly | internal/yupdate/merge.go:271-326 | to the last code unit: a unit kept is as it was, unless the slice cuts it off the other half of its surrogate pair, which leaves U+FFFD |
| Structs.HalvesInside | internal/yupdate/content_v1.go:112-127 | the halves of a surrogate pair are next to each other in one struct |
| Merge.DisjointAt | internal/yupdate/merge.go:135-154 | left, a Skip over the gap, right: exactly the units of both |
| Merge.MergeDisjoint | internal/yupdate/merge.go:135-154 | a Skip is put in exactly when there is a gap; the result is a well-formed union |
| Merge.Apply | internal/yupdate/merge.go:182-206 | one pass over a cursor: structs behind are passed, one that straddles is cut, those that follow on are taken; no unit of the side is lost or invented |
| Merge.Drain | internal/yupdate/merge.go:236-265 | the side that is left over is appended, behind a Skip where needed |
| Merge.MergeOverlapping | internal/yupdate/merge.go:156-265 | terminates; the result is contiguous, covers every clock of either side with a unit of that side, has Skips only over clocks neither has, and keeps whatever property of structs every cut at an end of a struct keeps; it is empty exactly when neither list has a unit |
| Updates.GroupByClient | internal/yupdate/encode_v1.go:114-144 | groups in input order, sorted at the end where disorder was seen: the stable grouping by clock |
| Updates.GroupOfFlatten | internal/yupdate/encode_v1.go:114-144 | grouping gives back any map of lists, whatever the order it was written in |
| Updates.MergeClientLists | internal/yupdate/merge.go:112-129 | two lists of one client, disjoint or overlapping in either order, merge into their union; every unit is that of one list to the last code unit, but for the half of a pair that an end of a struct in either list cuts off; nothing is left exactly of two lists of Skips that overlap |
| Updates.BlockSet.InsertInto | internal/yupdate/merge.go:99-133 | every client of the set holds the union of its lists, clients taken in any order; Skips alone leave Skips from the first start to the last end |
| Updates.MergeDecoded | internal/yupdate/merge.go:68-86 | folding entries: each unit comes from an input, to the last code unit but for halves of pairs cut off, no clock with a unit is lost, deletes are the union; whenever the deletions of all inputs leave each client some clock and no client is left with nothing on the way |
| Updates.MergeNeedsRoom | internal/yupdate/merge.go:68-86 | without such a clock there is no normalized delete set that is the union |
| Updates.UnitsStay | internal/yupdate/merge.go:99-133 | no client is left with nothing whose lists all have a unit |
| Updates.SkipsVanish | internal/yupdate/merge.go:99-133 | two overlapping Skips leave an empty list, and a third list of the client would be merged into that |
| Updates.MergeIgnoresOrder | internal/yupdate/merge.go:68-133 | two merges of the same consistent updates, in any order and with any repetition, hold the same units and the same delete set |
| Exactness.ConsistentPairsWhole | internal/yupdate/merge.go:156-265 | in updates that agree to the last code unit no end of a struct lies inside a surrogate pair of another |
| Exactness.MergeOfConsistent | internal/yupdate/merge.go:68-133 | updates that agree are merged without a change: every unit of every input is in the merge as it was, to the last code unit, and nothing else |
| Exactness.ExactInAnyOrder | internal/yupdate/merge.go:68-133 | so neither order nor repetition of such updates can change a code unit |
| MergeUpdates.DecodedReady | internal/yupdate/merge.go:44-54 | whatever decodes can be written again |
| MergeUpdates.CarriedClosed | internal/yupdate/merge.go:271-326 | that a struct can be written, and without loss, survives every cut and holds of every Skip |
| MergeUpdates.MergeReadBack | internal/yupdate/merge.go:22-33 | the bytes of a merge decode to lists and deletions that are a merge of the same inputs, to the last code unit |
| MergeUpdates.MergeUpdatesV1 | internal/yupdate/merge.go:22-86 | from bytes to bytes: fails exactly when an input does not decode, with the first one's error; otherwise the output is a merge of all inputs, each unit from one of them to the last code unit but for halves of pairs cut off, and for inputs written without loss or of moderate size it decodes to such a merge |
| Reread.StructWire | internal/yupdate/reader.go:110-243 | a struct the V1 reader yields can be written without loss as long as texts stay within 32 bits and raw collections within the V2 limit |
| MergeUpdates.ModerateIsLossless | internal/yupdate/merge.go:44-54 | so well-formed inputs within those limits are written without loss |
| MergeUpdates.ShortIsModerate | internal/yupdate/merge.go:44-54 | as is any input of up to 2^20 bytes |
| CodecV1.ItemRoundTrip | internal/yupdate/encode_v1.go:71-112 | an item in the form the wire can carry is read back from its bytes |
| CodecV1.StructRoundTrip | internal/yupdate/reader.go:110-243 | a struct in wire form is read back as it was and nothing after it is touched |
| CodecV1.ContentRoundTrip | internal/yupdate/content.go:51-167 | every kind of content is read back from what is written for it |
| CodecV1.ReadStructEncodable | internal/yupdate/reader.go:110-243 | a struct the reader yields is valid, starts at the expected clock and can be written again |
| GrammarV1.BodyRead | internal/yupdate/content.go:51-167 | a content that is read was spelled as the grammar has it for its reference, and means what was read |
| GrammarV1.WordSpelled | internal/yupdate/reader.go:110-243 | a struct as any writer may spell it, in front of anything, is read as what it means or refused for its length or its end, and nothing of what follows is read |
| GrammarV1.StructExact | internal/yupdate/reader.go:110-243 | the struct reader accepts exactly the words of the grammar that mean a valid struct: three free bits in the header of a GC, no parent where there is an origin, a key with an empty text |
| GrammarV1.SpareBit | internal/yupdate/reader.go:173-243 | next to an origin or a right origin the bit of parentSub changes nothing of what is read |
| CodecV1.NormalizedSame | internal/yupdate/encode_v1.go:90-109 | the parent fields the writer drops are no part of any unit |
| CodecV1.UnitsDetermine | internal/ytypes/item.go:39-98 | the units tell all there is to a struct: two over the same clocks with the same units are equal, but for the parent fields that the writer drops |
| CodecV1.SliceWritable | internal/yupdate/merge.go:271-315 | a slice of a writable struct is writable |
| DeleteSets.DeletesRoundTrip | internal/yupdate/delete_set_v1.go:19-74 | a delete set is read back exactly, with absolute clocks (V1) and with clock differences (V2) |
| DeleteSets.NormalIsWire | internal/yupdate/delete_set_v1.go:19-30 | every normalized map of fewer than 2^32 clients can be written |
| DeleteSets.AppendDeletes | internal/yupdate/delete_set_v1.go:19-30 | the loops write the clients largest first, whatever order the map gives them in |
| DeleteWords.DeletesExact | internal/yupdate/delete_set_v1.go:38-74 | the reader of a delete set, in either form, accepts exactly the lists of clients and ranges whose ranges are ranges, with clients and ranges in any order and any number of times |
| DeleteWords.GatherIsUnion | internal/yupdate/delete_set_v1.go:38-74 | what it holds is normalized and is the union of all ranges named, unless that is the whole line of a client |
| UpdateV1.LazyWriter.Write | internal/yupdate/lazy_writer_v1.go:17-38 | appends the trimmed struct to the open fragment or opens one for a new client; a refused struct is reported |
| UpdateV1.LazyWriter.Flush | internal/yupdate/lazy_writer_v1.go:49-58 | the open fragment gets its count, client and clock in front |
| UpdateV1.LazyWriter.Finish | internal/yupdate/lazy_writer_v1.go:40-47 | the bytes are those of the maximal runs of what was written |
| UpdateV1.WriteGroups | internal/yupdate/encode_v1.go:25-54 | the groups go out by descending client; refused exactly when some struct cannot be written |
| UpdateV1.EncodeV1 | internal/yupdate/encode_v1.go:12-23 | the canonical bytes of the grouped update, or an error exactly when some struct cannot be written |
| UpdateV1.CanonicalReadBack | internal/yupdate/reader.go:75-94 | the canonical bytes of wire-normal lists give exactly those lists and the delete set back |
| UpdateV1.WrittenRoundTrip | internal/yupdate/lazy_writer_v1.go:17-78 | lists written in any client order are read back with the same units, structs and order |
| UpdateV1.RoundTrip | internal/yupdate/encode_v1.go:12-144 | decode after encode: the structs by descending client, every unit as it was to the last code unit, the same delete set; the identity on wire-normal updates |
| UpdateV1.CanonicalMembers | internal/yupdate/encode_v1.go:114-144 | grouping and ordering lose no struct and add none |
| LazyReaderV1.LazyReader.NextStruct | internal/yupdate/reader.go:110-170 | opens blocks until one has a struct and reconstructs its clock from the block; which bytes are a struct, and which struct, is `GrammarV1.StructExact` |
| LazyReaderV1.LazyReader.Advance | internal/yupdate/reader.go:96-108 | moves to the next struct shown, passing Skips when asked to |
| LazyReaderV1.LazyReader.ReadDeleteSet | internal/yupdate/reader.go:54-72 | answers only behind the last struct, and refuses trailing bytes |
| LazyReaderV1.Open | internal/yupdate/reader.go:25-41 | the reader stands on the first struct shown, or reports what decoding reports |
| LazyReaderV1.DecodeV1 | internal/yupdate/reader.go:75-94 | the lazy loop computes the decoding of the whole byte string, errors included; what that accepts, and means, is `UpdateWords.DecodeExact` |
| UpdateWords.DecodeExact | internal/yupdate/reader.go:75-94 | an update decodes if and only if it is spelled by some blocks, several of one client and empty ones included, each struct where the one before it ends, and a delete set; and then to what these mean |
| UpdateWords.NothingFollows | internal/yupdate/reader.go:54-72 | whatever follows an update that decodes, it is refused for its trailing bytes |
| StateVectors.FromUpdate | internal/yupdate/state_vector.go:19-65 | the loop computes the counting function over the structs in the order of the wire |
| StateVectors.GapFreeExact | internal/yupdate/state_vector.go:19-65 | the gap-free prefix ends at the first clock without a unit and reaches the end of the list exactly when it starts at 0 with no Skip |
| StateVectors.VectorExact | internal/yupdate/state_vector.go:19-65 | each client has the length of its gap-free prefix if and only if it is not the first client with a Skip at clock 0, whose end is then counted |
| StateVectors.SkipFirstCounted | internal/yupdate/state_vector.go:30-35 | the smallest update on which the first Skip is counted |
| StateVectors.FromStructs | internal/yupdate/state_vector_api.go:49-62 | per client the largest end among its structs |
| StateVectors.PrefixWithinEnds | internal/yupdate/state_vector_api.go:49-81 | the V1 vector is at most the largest ends, equal for a client exactly when its list starts at 0 with no Skip or is nothing but the counted first Skip |
| StateVectors.AppendVector | internal/yupdate/state_vector_api.go:136-155 | the entries go out by ascending client |
| StateVectors.ParseVector | internal/yupdate/state_vector.go:68-89 | the loop reads the counted entries into a map, a later entry of a client replacing an earlier one; what follows the entries is not looked at |
| StateVectors.VectorRoundTrip | internal/yupdate/state_vector_api.go:136-155 | a state vector is read back exactly, whatever follows it |
| StateVectors.VectorBytesExact | internal/yupdate/state_vector.go:68-89 | bytes are a state vector if and only if they start with a count and as many clients with their clocks, in any order; of a client listed twice the last clock counts |
| Diffs.DiffUpdate | internal/yupdate/diff.go:17-99 | reader and writer loops produce exactly the bytes of the per-client tails, or the reader's error |
| Sync.DiffExact | internal/yupdate/diff.go:33-98 | a diff holds exactly the units at or above the vector, to the last code unit; only a surrogate pair the vector cuts in two leaves U+FFFD |
| Sync.DiffReadBack | internal/yupdate/diff.go:33-98 | the bytes of a diff decode to one well-formed list per client with exactly those units, and the delete set as it was |
| Sync.SyncExact | internal/yupdate/diff.go:33-98 | merging an update with the diff against its own V1 vector gives the union if and only if the other side has no unit below a miscounted first Skip |
| Sync.SyncConverges | internal/yupdate/merge.go:99-133 | a sync step over the wire, vector out and diff back, leaves the union of both updates and of their deletions |
| Sync.VectorCutsNoPair | internal/yupdate/diff.go:33-98 | an update's own V1 vector never cuts a surrogate pair of an update that agrees with it, unless a first Skip is miscounted |
| Sync.SyncWithoutLoss | internal/yupdate/diff.go:33-98 | a sync step between updates that agree changes no code unit of either |
| Sync.SyncConvergesExactly | internal/yupdate/merge.go:99-133 | the same over the wire, from vector and diff bytes to the merge |
| PerClient.MappedRoundTrip | internal/yupdate/lazy_writer_v1.go:17-78 | results written client by client are read back, one list per client |
| Contents.FromDecoded | internal/yupdate/content_ids.go:133-192 | the loop over pending runs collects exactly the clocks of non-Skip structs, and the delete set |
| Contents.InsertsAreUnits | internal/yupdate/content_ids.go:133-192 | on a grouped update the inserted ids are those with a unit |
| Contents.ExtractedIds | internal/yupdate/content_ids.go:133-192 | what is extracted from a grouped update names exactly its units and deletions |
| Contents.IdsOfMerge | internal/yupdate/content_ids.go:133-222 | the content ids of a merge are the union of the content ids of its inputs |
| Contents.MergeIds | internal/yupdate/content_ids.go:378-392 | both sets become the union over all payloads, whenever these leave each client some clock |
| Contents.IdsNeedRoom | internal/yupdate/content_ids.go:378-392 | without such clocks no pair of normalized sets is the union |
| Contents.Intersection | internal/yupdate/content_ids.go:285-294 | both sets hold exactly the common ids |
| Contents.Difference | internal/yupdate/content_ids.go:301-316 | both sets hold exactly the ids of the first without the second |
| Contents.IsSubset | internal/yupdate/content_ids.go:322-330 | answers inclusion of both sets, in both directions |
| Intersects.IntersectUpdate | internal/yupdate/intersect.go:18-140 | the loops produce exactly the bytes of the specified selection, or the reader's error |
| Intersects.KeepExact | internal/yupdate/intersect.go:60-120 | one client: a well-formed list with exactly the units asked for, or nothing when the boundary rule drops the client |
| Intersects.KeepExactly | internal/yupdate/intersect.go:60-120 | the same to the last code unit: a pair of which only one half is asked for leaves U+FFFD |
| Intersects.BoundaryDrops | internal/yupdate/intersect.go:60-120 | of two structs the second is asked for from its start, and nothing at all is kept |
| Intersects.IntersectExact | internal/yupdate/intersect.go:18-140 | the output holds exactly the units asked for of every client that is not dropped, to the last code unit but for halves of pairs, and none of a dropped one |
| Intersects.IntersectReadBack | internal/yupdate/intersect.go:18-162 | the bytes decode to those lists and to a delete set of exactly the clocks both deleted and asked for |
| Collection.CollectStruct | internal/yupdate/gc.go:36-94 | the cursor loop computes the pieces of one struct |
| Collection.ReferencedClocks | internal/yupdate/gc.go:111-126 | exactly the clocks named as origin or right origin by some item |
| Collection.HasReferenced | internal/yupdate/gc.go:128-138 | whether a clock of the range is named |
| Collection.GarbageCollect | internal/yupdate/gc.go:7-34 | the loop replaces every struct by its pieces, in order |
| Collection.PiecesExact | internal/yupdate/gc.go:36-94 | sweeping splits a struct without a hole; a deleted stretch is collected whole exactly if it is not kept and none of its clocks is named, and every other unit is kept, short of a pair at the end of a deleted range |
| Collection.SweptAtExact | internal/yupdate/gc.go:36-138 | in a list a clock is collected exactly if it lies in such a stretch of its struct; any other keeps its unit to the last code unit, short of a pair at the end of a deleted range |
| Collection.CollectionExact | internal/yupdate/gc.go:7-138 | a clock of the compacted update is collected if and only if the deleted stretch around it, within its struct, is not marked to be kept and holds no origin or right origin of any item; any other keeps its unit to the last code unit, short of a pair at the end of a deleted range |
| Collection.GainedUnits | internal/yupdate/gc.go:96-110 | compaction takes no unit away; a clock gains one exactly where it lies in a Skip that is collected |
| Collection.SweptExtent | internal/yupdate/gc.go:36-94 | compaction keeps every list well formed and its extent as it was |
| Collection.NeededStays | internal/yupdate/gc.go:36-138 | a clock not deleted, or named as origin or right origin, or marked to be kept, is not collected |
| Collection.SweepFlatten | internal/yupdate/gc.go:7-34 | compaction works list by list, whatever the order of the clients |
| Lib0.VarIntRoundTrip | internal/yupdate/lib0_v2_encode.go:116-143 | magnitude and sign come back, a negative zero included |
| Lib0.UintsRoundTrip | internal/yupdate/lib0_v2_encode.go:11-35 | every sequence comes back from the optional RLE column, runs of zero too, and the column is then drained |
| Lib0.DiffsRoundTrip | internal/yupdate/lib0_v2_encode.go:44-76 | every sequence comes back from the difference column, negative differences through floor division, and the column is then drained |
| Lib0.BytesRoundTrip | internal/yupdate/lib0_v2_encode.go:84-99 | every sequence comes back from the byte column, its last run open-ended |
| Lib0.StringsRoundTrip | internal/yupdate/lib0_v2.go:162-203 | every list of texts comes back from the joined text and the lengths |
| Lib0.SliceByUnits | internal/yupdate/lib0_v2.go:184-203 | the ASCII shortcut reads what the general path reads |
| Columns.UintOptRleEncoder.Write | internal/yupdate/lib0_v2_encode.go:11-19 | the fields hold the open run of everything written so far |
| Columns.UintOptRleEncoder.Bytes | internal/yupdate/lib0_v2_encode.go:21-24 | the bytes are the column of everything written |
| Columns.IntDiffOptRleEncoder.Write | internal/yupdate/lib0_v2_encode.go:44-56 | the fields hold the open run of equal differences |
| Columns.IntDiffOptRleEncoder.Bytes | internal/yupdate/lib0_v2_encode.go:58-61 | the bytes are the column of everything written |
| Columns.RleByteEncoder.Write | internal/yupdate/lib0_v2_encode.go:84-95 | a run gets its count only when the next one starts |
| Columns.StringEncoder.Bytes | internal/yupdate/lib0_v2_encode.go:111-114 | the joined text, then the lengths |
| Columns.ReadSigned | internal/yupdate/lib0_v2.go:261-301 | the loop reads magnitude and sign from the cursor |
| Columns.UintOptRleDecoder.Read | internal/yupdate/lib0_v2.go:24-50 | one value of the column, or its error |
| Columns.UintOptRleDecoder.EnsureDrained | internal/yupdate/lib0_v2.go:52-60 | accepts exactly a column with nothing left |
| Columns.IntDiffOptRleDecoder.Read | internal/yupdate/lib0_v2.go:74-99 | one value of the column, or its error |
| Columns.RleByteDecoder.Read | internal/yupdate/lib0_v2.go:122-142 | one byte of the column, the last run repeating without end |
| Columns.StringDecoder.Read | internal/yupdate/lib0_v2.go:184-203 | the next text, cut by code units |
| ColumnWords.IntExact | internal/yupdate/lib0_v2.go:261-301 | a signed integer is read if and only if it is spelled in at most nine groups and 63 bits, redundant groups included |
| ColumnWords.UintsExact | internal/yupdate/lib0_v2.go:24-60 | a column of unsigned values yields a list and is then used up if and only if its bytes spell runs of that list, whatever runs the writer chose |
| ColumnWords.DiffsExact | internal/yupdate/lib0_v2.go:74-109 | the same for a column of differences: half the number is the difference, a count follows an odd one |
| ColumnWords.BytesExact | internal/yupdate/lib0_v2.go:122-160 | the same for a column of bytes, a last byte without a count standing for any number of values |
| ColumnWords.StringsExact | internal/yupdate/lib0_v2.go:162-216 | a column of texts yields a list if and only if its lengths cut the table into these windows of code units, from its start to its end |
| ColumnWords.OpenExact | internal/yupdate/lib0_v2.go:162-182 | a column of texts opens on its table, read as text, and the column of lengths behind it |
| CodecV2.StructRead | internal/yupdate/reader_v2.go:67-269 | the columns written for a struct, in front of any others, are read as that struct and leave the others |
| CodecV2.ItemRead | internal/yupdate/reader_v2.go:88-151 | origins, place and content come out of the columns they went into, although three kinds of ids share the client column |
| CodecV2.KeyRead | internal/yupdate/decoder_v2.go:199-214 | a fresh key number takes its text from the string column |
| GrammarV2.KeyTaken | internal/yupdate/decoder_v2.go:199-214 | a number below the count of known keys is the key read then, with no text in the string column; any other takes its text from there and becomes the next known key |
| GrammarV2.WordTaken | internal/yupdate/reader_v2.go:67-280 | the columns of a struct as any writer may put them, with key numbers of its choice, are read as what they mean or refused for the length or the end, and leave what follows |
| GrammarV2.WordGot | internal/yupdate/reader_v2.go:67-280 | a struct that is read out of columns which end with others was put there as a word of the grammar that means it |
| GrammarV2.SpareBit | internal/yupdate/reader_v2.go:88-151 | next to an origin or a right origin the bit of parentSub changes nothing of what is read |
| GrammarV2.BodyColumns | internal/yupdate/reader_v2.go:153-280 | which column each part of each content is in |
| GrammarV2.HeadColumns | internal/yupdate/decoder_v2.go:175-197 | the clients of origin, right origin and parent id share one column in this order; origins and parent ids share the left clocks, right origins have their own |
| GrammarV2.GapColumns | internal/yupdate/reader_v2.go:67-86 | a Skip's length is in the rest stream, a GC's in the column of lengths |
| UpdateV2.ArraysRoundTrip | internal/yupdate/decoder_v2.go:27-95 | the length-prefixed columns and the rest are split where they were joined |
| UpdateV2.LayoutRoundTrip | internal/yupdate/encode_v2.go:45-231 | what V2 writes of wire-normal lists it reads back with every column and the rest stream used up |
| UpdateV2.RoundTripTwo | internal/yupdate/reader_v2.go:12-316 | decode after encode: the structs by descending client, every unit as it was to the last code unit, the same delete set |
| UpdateV2.ThroughV2 | internal/yupdate/encode_v2.go:25-35 | canonical V1 bytes survive V1 to V2 to V1 |
| UpdateV2.ReadBlock | internal/yupdate/reader_v2.go:33-52 | the structs of one block with their clocks counted up |
| UpdateV2.DecodeV2 | internal/yupdate/reader_v2.go:12-65 | the nested loops compute the decoding of the whole byte string, errors included, and leave nothing in any column |
| UpdateWordsV2.DecodeTwoExact | internal/yupdate/reader_v2.go:12-65 | V2 bytes decode if and only if their columns hold some blocks and a delete set, with nothing more in any column, and then to what these mean |
| UpdateWordsV2.LayoutExact | internal/yupdate/decoder_v2.go:27-95 | the columns open if and only if the bytes are the feature flag 0, nine length-prefixed columns, the sixth starting with a text, and the rest stream |
| EncoderV2.UpdateEncoderV2.WriteItem | internal/yupdate/encode_v2.go:96-137 | appends exactly the item's columns to those written so far |
| EncoderV2.UpdateEncoderV2.WriteContent | internal/yupdate/encode_v2.go:155-203 | appends exactly the content's columns, for every kind |
| EncoderV2.UpdateEncoderV2.WriteKey | internal/yupdate/encode_v2.go:149-153 | always a fresh key number and the text |
| EncoderV2.UpdateEncoderV2.WriteStruct | internal/yupdate/encode_v2.go:79-94 | appends exactly the struct's columns or refuses it |
| EncoderV2.UpdateEncoderV2.Bytes | internal/yupdate/encode_v2.go:219-231 | flag, nine columns, rest, in the fixed order |
| EncoderV2.WriteStructGroups | internal/yupdate/encode_v2.go:45-77 | all clients, largest first; refused exactly when some struct cannot be written |
| EncoderV2.EncodeV2 | internal/yupdate/encode_v2.go:25-35 | the canonical layout of the grouped update, or an error exactly when some struct cannot be written |
| Formats.DetectsV1 | internal/yupdate/format.go:77-115 | every canonical V1 byte string is detected as V1 |
| Formats.DetectExact | internal/yupdate/format.go:77-163 | V1 is whatever starts with a number other than 0, and a 0 with exactly one delete set behind it; V2 is any other 0 in front of nine length-prefixed arrays; nothing else is taken for an update, and only the empty bytes are unknown |
| Formats.DetectsV2 | internal/yupdate/format.go:77-179 | V2 bytes are detected as V2 unless what follows the flag is exactly one V1 delete set, and then as V1 |
| Ambiguity.TakenForV1 | internal/yupdate/format.go:77-115 | an update of two items and two deleted ranges that V2 writes and reads back, and that detection takes for V1 |
| Formats.DetectsV2WithoutKeys | internal/yupdate/format.go:77-115 | with an empty key-clock column V2 is always detected |
| Formats.DetectsKeyless | internal/yupdate/format.go:77-115 | so an update without format contents and named types is detected in V2 |
| Formats.NeverAmbiguous | internal/yupdate/format.go:77-163 | a delete set that cannot be read is malformed, so no single update is ever reported as ambiguous |
| Formats.MergeFormats | internal/yupdate/format.go:124-152 | the one format of all known ones; errors exactly for none known and for two different ones |
| Storage.UpToSplits | pkg/storage/memory/distributed.go:292-296 | on rising offsets the count splits the log exactly at the offset |
| Storage.FirstIndexAfter | pkg/storage/memory/distributed.go:292-296 | binary search for the first later offset |
| Storage.PageExact | pkg/storage/memory/distributed.go:171-206 | a page is the run of records from the first later offset on; it ends early only at a positive limit, and then has as many records as that |
| Storage.LeaseInOrder | pkg/storage/distributed.go:153-170 | a lease is in order if and only if shard, node and token are not blank, the epoch is not 0 and it ends after its start |
| Storage.Store.CheckWrite | pkg/storage/memory/distributed.go:593-631 | a fenced write is let through exactly when the placement names its shard and the shard's unexpired lease is the fence's; whose write that is, is `Leases.FencedWriteExact` |
| Storage.Store.AppendUpdate | pkg/storage/memory/distributed.go:62-152 | the record gets the next offset and the fence's epoch; no payload, and a refused write, change nothing; under which fence it is accepted is `Leases.FencedAppend` |
| Storage.Store.SaveCheckpoint | pkg/storage/memory/store.go:64-141 | a checkpoint under a fence has the fence's epoch, one without the epoch given; a refused save changes nothing |
| Storage.Store.ListUpdates | pkg/storage/memory/distributed.go:171-206 | the records after an offset, in order, at most the limit |
| Storage.Store.TrimUpdates | pkg/storage/memory/distributed.go:209-290 | exactly the records up to the offset go; the offset counter stays |
| Storage.Store.SavePlacement | pkg/storage/memory/distributed.go:315-337 | places a valid document on a valid shard |
| Storage.Store.SaveLeaseRecord | pkg/storage/memory/distributed.go:397-458 | grants, renews with the first start time, takes over with a higher epoch a lease that ends no later than the start claimed, or refuses |
| Storage.Store.HandoffLeaseRecord | pkg/storage/memory/distributed.go:462-522 | hands over by its token, to exactly the next epoch, a lease that ends after the start claimed |
| Storage.Store.ReleaseLeaseRecord | pkg/storage/memory/distributed.go:547-575 | removes the lease by its token and remembers its epoch |
| Fencing.GrantedRises | pkg/storage/memory/distributed.go:397-458 | a granted lease renews the current one or has an epoch above all the shard has seen |
| Fencing.GenerationsRise | pkg/storage/memory/distributed.go:397-575 | over every run the generations of a shard have strictly rising epochs |
| Fencing.EpochIdentifiesOwner | pkg/storage/memory/distributed.go:397-575 | over every run shard and epoch determine node and token |
| Fencing.DeadForever | pkg/storage/memory/distributed.go:593-631 | a superseded or released fence never validates again, after any operations, for any document, at any time |
| Fencing.LosingKills | pkg/storage/memory/distributed.go:397-575 | whatever ends the current generation leaves its fence dead |
| Fencing.CurrentOrDead | pkg/storage/memory/distributed.go:397-575 | at any point of any run every generation is the current one or dead |
| Fencing.OneBlockPerOwner | pkg/storage/memory/distributed.go:62-152 | the fenced log of a document that stays on its shard has one block per owner, in rising epoch order |
| Replay.ReplayJoins | pkg/storage/replay.go:609-643 | a successful replay is the join of the base and all records, with the last offset; which epoch it ends with is `Replay.ReplayEndsWith` |
| Replay.ReplayEndsWith | pkg/storage/replay.go:609-643 | it ends with the epoch of the last record whose epoch is not 0, or with the initial one |
| Replay.ReplayExact | pkg/storage/replay.go:609-663 | it succeeds if and only if offsets rise and no epoch other than 0 is below the greatest before it, the initial one included; the first record at fault decides between the two errors |
| Replay.ReplaySucceeds | pkg/storage/replay.go:609-663 | rising offsets and epochs that never fall are all a replay asks for |
| Replay.ReplayBatch | pkg/storage/replay.go:609-643 | the loop over one page computes the replay of the page |
| Replay.ReplayLog | pkg/storage/replay.go:163-221 | for every page size the result is that of all records at once |
| Replay.ListTail | pkg/storage/replay.go:559-607 | all pages collected under the same checks |
| Replay.RecoverState | pkg/storage/replay.go:324-390 | checkpoint and paged replay give the recovery function of the store |
| Replay.RecoverByList | pkg/storage/replay.go:229-304 | list first and merge once gives the same recovery |
| Replay.RecoveredAfter | pkg/storage/replay.go:324-390 | a caller may start from 0 or from the offset of the checkpoint, to the same result, and gets a mismatch otherwise; without a checkpoint recovery is the join, last offset and last epoch of what lies behind the offset named |
| Replay.BuiltLogReplays | pkg/storage/replay.go:609-663 | a log built by this store under fences with a fixed placement never fails a replay that starts at epoch 0, from any offset |
| Provider.RecoversAll | pkg/storage/replay.go:324-390 | in a safe state recovery succeeds and yields the join of everything ever appended |
| Provider.EventKeeps | pkg/yprotocol/provider.go:439-701 | an event, each single step of a load, persist or compaction among them, keeps the system safe if and only if it comes in its turn: under a fence that holds no page is listed after what the load lacks has been trimmed, no capture is saved that is older than what has been trimmed, and nothing is trimmed beyond the checkpoint |
| Provider.ListedIs | pkg/storage/replay.go:163-221 | a page never fails to replay, gap or not; after it a load is as it should be exactly if nothing it lacks has gone from the log, or its fence no longer holds |
| Provider.AlwaysSafe | pkg/yprotocol/provider.go:137-181 | every run from the empty store whose steps come in their turn stays safe |
| Provider.CrashSafe | pkg/yprotocol/provider.go:438-701 | after any such run, with any number of loads, persists and compactions on their way and appends, closes and crashes between their steps, recovery yields the join of all updates ever appended |
| Persists.OneAtATimeSafe | pkg/yprotocol/provider.go:439-592 | with one persist of a room at a time, and no room closed over one, every step comes in its turn, pages of loads among them, so such runs are safe without condition |
| Persists.OutOfTurn | pkg/yprotocol/provider.go:439-519 | after a save or trim out of its turn recovery still succeeds, and finds everything if and only if what lies between checkpoint and log is contained in the rest |
| Persists.LoadOutOfTurn | pkg/yprotocol/provider.go:593-701 | a load that goes on after a page out of its turn does not fail, and has everything if and only if what lies between it and the log is contained in the rest |
| Persists.PageByPage | pkg/storage/replay.go:163-221 | undisturbed, the pages of a load lead where the whole log behind it leads at once |
| LostUpdates.OvertakingLoses | pkg/yprotocol/provider.go:439-519 | a run of eleven steps in which two persists of one room overtake each other and an update is gone from the store |
| LostUpdates.OutlivingLoses | pkg/yprotocol/provider.go:439-701 | a run of sixteen steps in which a persist outlives its room: the next load skips the trimmed update without an error, and the next checkpoint covers it |
| Provider.RoomIsCheckpointAndLog | pkg/yprotocol/provider.go:640-673 | every gapless room is the checkpoint joined with the records up to its last offset, as long as the checkpoint has not passed it |
| Provider.RoomsShowPrefixes | pkg/yprotocol/provider.go:873-965 | every room whose load found as many records as offsets shows the join of the updates up to its last offset; an open room whose fence holds is such a room and shows everything, and there is at most one |
| Rooms.ProviderRoom.Apply | pkg/yprotocol/provider.go:873-965 | appends first and merges after; a refused append leaves the room and marks a lost authority, and a closed room refuses |
| Rooms.ProviderRoom.Close | pkg/yprotocol/provider.go:521-570 | the room takes part no more, but its persists on their way stay |
| Rooms.ProviderRoom.CaptureState | pkg/yprotocol/provider.go:439-475 | what is saved is the room at its last offset, for each of the persists on their way |
| Rooms.ProviderRoom.SaveCaptured | pkg/yprotocol/provider.go:757-768 | the captured state becomes the checkpoint under the room's epoch, or the authority is lost |
| Rooms.ProviderRoom.TrimCaptured | pkg/yprotocol/provider.go:770-779 | the records the capture covers go |
| Rooms.ProviderRoom.Persist | pkg/yprotocol/provider.go:439-519 | with nobody in between: on success the checkpoint is the room under its epoch, the log loses what it covers if there was anything new, and other persists on their way stay; the error and the lost authority of each refusal; other documents stay |
| Rooms.ProviderRoom.Revalidate | pkg/yprotocol/provider.go:229-291 | a fence that is gone or has changed is lost, for good |
| Rooms.CompactLog | pkg/storage/replay.go:474-536 | the replayed tail becomes the checkpoint, then leaves the log |
| Leases.StoredStays | pkg/storage/memory/distributed.go:397-575 | every store operation keeps the leases valid and at the last epoch of their shard |
| Leases.TrimmedExact | pkg/ycluster/storage_adapter.go:317-320 | a token loses the white space at both its ends, all of it and nothing else |
| Leases.TakeoverExact | pkg/storage/memory/distributed.go:397-458 | a save replaces another's lease that still has time left if and only if, all else in order, the start it claims is not before that lease's end |
| Leases.NoTheft | pkg/storage/memory/distributed.go:397-458 | nobody replaces another's lease before it has run out, as long as the start is left to the store or does not lie in its future |
| Leases.EarlyTakeover | pkg/storage/memory/distributed.go:397-458 | a node whose clock is ahead takes over a lease with half its time left, and the holder is refused from then on |
| Leases.HandoffExact | pkg/storage/memory/distributed.go:462-522 | a lease that has run out is handed over if and only if, all else in order, the start claimed is before its end |
| Leases.LateHandoff | pkg/storage/memory/distributed.go:462-522 | a lease that ended at 101 is handed over at 150 |
| Leases.LookupOwner | pkg/ycluster/storage_adapter.go:142-230 | the active lease of the document's shard, or which of placement, shard, owner and time is at fault |
| Leases.LookUpFails | pkg/ycluster/storage_adapter.go:142-230 | each error of the lookup if and only if what it names is at fault, and the lease if and only if nothing is |
| Leases.LookupIsAuthority | pkg/ycluster/storage_adapter.go:142-230 | the owner looked up is exactly the one whose fenced writes the store accepts |
| Leases.FencedWriteExact | pkg/storage/memory/distributed.go:593-631 | a write under a fence is let through if and only if the lookup, at that instant, names the fence's own lease as the owner of the document; a valid fence that is refused has lost its authority |
| Leases.FencedAppend | pkg/storage/memory/distributed.go:62-152 | an append under a fence adds its record, with the next offset and the fence's epoch, if and only if the lookup names the fence's lease; otherwise nothing changes |
| Leases.FencedSave | pkg/storage/memory/store.go:104-141 | so does the save of a checkpoint |
| Leases.FencedTrim | pkg/storage/memory/distributed.go:245-290 | so does a trim |
| Leases.ExpiredChangesNothing | pkg/storage/memory/distributed.go:593-631 | from the end of its lease on, no append, save or trim of the holder changes the store |
| Leases.AcquireLease | pkg/ycluster/storage_adapter.go:297-377 | succeeds if and only if no lease of the shard is active by the node's clock, always with the epoch after the last one, by its retry also after a release |
| Leases.RacingAcquire | pkg/ycluster/storage_adapter.go:341-377 | whatever others did since the load, a granted save outruns every epoch or repeats the lease that holds |
| Leases.RacersExclude | pkg/ycluster/storage_adapter.go:341-377 | of nodes that race for a shard, one that saves second with an epoch no higher never gets it, whatever happens after |
| Leases.RenewLease | pkg/ycluster/storage_adapter.go:381-439 | moves the expiry of the holder's active lease and nothing else, or says why not |
| Leases.RenewalKeepsFence | pkg/ycluster/storage_adapter.go:381-439 | a renewal keeps fence and start of the generation |
| Leases.RenewalOfLeased | pkg/ycluster/storage_adapter.go:381-439 | a lease that has not run out is renewed, from now for the time to live, if and only if holder and trimmed token are its own and the new end is after its start; else the error says which is not |
| Leases.WhenDue | pkg/ycluster/lease_manager.go:250-254 | a cached lease is due for renewal if and only if it is active and ends within the window |
| Leases.HandOff | pkg/ycluster/storage_adapter.go:444-503 | succeeds if and only if the given lease is still the active one, and then installs the next epoch from now for the time to live; the new fence holds and the old one is dead; the error of each refusal |
| Leases.LeaseManager.TryAdopt | pkg/ycluster/lease_manager.go:184-207 | caches the active lease when it is this holder's |
| Leases.LeaseManager.Acquire | pkg/ycluster/lease_manager.go:144-178 | adopts the active lease as it is, or installs one of the next epoch that starts now, ends after the time to live and has the manager's trimmed token, or the generated one if that is blank; what it returns holds in the store; it fails exactly as the adoption does |
| Leases.LeaseManager.Ensure | pkg/ycluster/lease_manager.go:218-281 | answers from the cache outside the renewal window; without an active cached lease it is an acquire; in the window it renews the stored lease, same fence and start, end now plus the time to live, if and only if that is the holder's with the cached token, and acquires a free shard unless the lease that ran out is another's; result, cache and store in each case, errors included; what it returns holds, unless it came from the cache and has died |
| Leases.RenewalFails | pkg/ycluster/lease_manager.go:218-281 | three store operations after which a due renewal of a cached lease fails although the shard is free |
| Leases.LeaseManager.Release | pkg/ycluster/lease_manager.go:285-312 | gives back exactly a lease whose token is still the stored one; its fence is then dead; a failure changes nothing |
| Rebalance.NormalizeTargets | pkg/ycluster/rebalance_plan.go:234-254 | the distinct targets in ascending order; refused exactly for none or a blank one |
| Rebalance.AscendingUnique | pkg/ycluster/rebalance_plan.go:234-254 | ascending lists with the same members are equal: order and repetition of the targets cannot change a plan |
| Rebalance.LeastLoaded | pkg/ycluster/rebalance_plan.go:260-268 | the first target of least load |
| Rebalance.MostLoaded | pkg/ycluster/rebalance_plan.go:270-278 | the first target of greatest load |
| Rebalance.NextMovable | pkg/ycluster/rebalance_plan.go:280-287 | the first document not moved yet |
| Rebalance.Plan | pkg/ycluster/rebalance_plan.go:73-185 | both loops terminate and compute the two-phase plan; refused exactly for a negative limit or bad targets |
| Rebalance.NeverStalls | pkg/ycluster/rebalance_plan.go:157-175 | while loads differ by two or more the heaviest target has a document to move |
| Rebalance.PlanBalances | pkg/ycluster/rebalance_plan.go:73-185 | over distinct documents the documents held after the moves differ by at most one between targets unless the limit is used up; no document moves twice and no target both gives and receives |
| Rebalance.PlanAccounts | pkg/ycluster/rebalance_plan.go:73-185 | for any documents every move is justified and every skip excused by a document, none is lost, and a limit is never exceeded; a skip for the limit only once that is used up |
| Protocol.ReadProtocolMessage | internal/yprotocol/dispatch.go:42-78 | the cursor reads exactly the specified message, or its error |
| Protocol.ReadAwarenessMessage | internal/yprotocol/dispatch.go:110-130 | the framed payload is decoded on its own cursor and nothing may be left of it |
| Protocol.ReadAwarenessPayload | internal/yprotocol/dispatch.go:132-165 | the loop reads the counted entries with their compacted states |
| Protocol.ReadKindedMessage | internal/yprotocol/sync.go:142-159 | a known type and its length-prefixed payload |
| Protocol.MessageRoundTrip | internal/yprotocol/dispatch.go:25-78 | a written message is read back with its awareness states compacted, whatever follows |
| ProtocolWords.MessageExact | internal/yprotocol/dispatch.go:42-165 | the reader accepts exactly the four kinds of messages as any writer may spell them, states empty or not compact included, and reads each as what it means |
| ProtocolWords.MessageWritten | internal/yprotocol/dispatch.go:25-40 | a message is written if and only if its type is known and its states are JSON, and then as its word with the states compacted |
| Protocol.MessageLocal | internal/yprotocol/dispatch.go:42-78 | the bytes a message took are read as the same message whatever follows them |
| Protocol.FailureStable | internal/yprotocol/dispatch.go:42-78 | a failure other than EOF stays whatever follows |
| Protocol.ProperPrefix | internal/yprotocol/dispatch.go:42-78 | every proper prefix of a message fails with the recoverable EOF |
| Stream.ReadMessages | internal/yprotocol/stream.go:259-279 | at most n messages of a buffer, or the first error |
| Stream.ReadAndAppend | internal/yprotocol/stream.go:143-175 | one read, never past the byte limit |
| Stream.Drain | internal/yprotocol/stream.go:82-105 | takes every complete message of the buffer and keeps the rest of it |
| Stream.ReadStream | internal/yprotocol/stream.go:55-141 | for every chunking the result is that of decoding the whole stream, errors included; with a byte limit it is cut off if and only if a message is longer than the limit; when EOF comes with the last bytes, it is the result of the stream up to where its last chunk starts, and that of the whole stream if and only if the messages asked for end there |
| Awareness.StateManager.ApplyOne | internal/yawareness/state.go:411-451 | one entry applied to states and clocks, with the kind of change |
| Awareness.StateManager.Apply | internal/yawareness/state.go:82-96 | the entries in order, with the collected change |
| Awareness.StateManager.SetLocalState | internal/yawareness/state.go:190-225 | the local clock moves by one, or starts at 0; what is then seen of it, here and elsewhere, is `Awareness.SetLocalSeen` and `Awareness.BroadcastLands` |
| Awareness.StateManager.ExpireStale | internal/yawareness/state.go:319-341 | exactly the stale remote clients go, in whatever order they are visited; they are reported in ascending order |
| Awareness.StateManager.UpdateForClients | internal/yawareness/state.go:129-151 | the known clients asked for, tombstones as null |
| Awareness.RemoteJoin | internal/yawareness/state.go:411-451 | a remote entry moves its client to the higher of two positions in the order of clock and tombstone, takes the state exactly on a rise, and touches nobody else |
| Awareness.EntryExact | internal/yawareness/state.go:411-451 | an entry, the receiver's own client included, is accepted if and only if it claims a higher position; it is then taken as it stands and the client's last update is now, except that a tombstone of the present local client keeps its state one clock on; nobody else changes |
| Awareness.ExpiresAfterTimeout | internal/yawareness/state.go:319-341 | a remote client that an entry made present expires from the timeout after that entry on, and not before |
| Awareness.OrderAndRepetition | internal/yawareness/state.go:82-96 | with one state per clock of a client, entries, whoever else they are about, give the same result for it in any order and with any repetition, unless it is the receiver's own |
| Awareness.Absorb | internal/yawareness/state.go:129-151 | applying what another manager knows gives the higher position of the two for every client asked for that is not the receiver's own |
| Awareness.Exchange | internal/yawareness/state.go:82-151 | two managers that exchange what they know agree on every client but their own two, also when they know each other already |
| Awareness.OwnerAhead | internal/yawareness/state.go:411-451 | a present owner stays present and ends at or above all that others say of it, short of the last clock |
| Awareness.SetLocalSeen | internal/yawareness/state.go:190-225 | setting the local state succeeds exactly with a local client and a JSON text; then the compacted text or the absence is seen of the client under the next clock, updated now, and nobody else changes |
| Awareness.TellsExactly | internal/yawareness/state.go:129-151 | what a manager says of a client to one that has it at a lower position is known there exactly, and nothing else changes |
| Awareness.BroadcastLands | internal/yawareness/state.go:82-225 | so the state that was set is what everybody sees who has the client at a lower position and applies what is said of it |
| Awareness.ApplyMovesDown | internal/yawareness/state.go:411-451 | an entry moves a client down if and only if it is a tombstone of the present local client at the last clock |
| Awareness.SetLocalMovesDown | internal/yawareness/state.go:190-225 | setting the local state moves it down if and only if its clock wraps |
| Awareness.ExpireMovesUp | internal/yawareness/state.go:319-341 | expiry only turns stale remote clients into tombstones of their clock |
| Awareness.LocalStays | internal/yawareness/state.go:430-437 | neither entries nor expiry take the local presence away |
| Awareness.RunMovesUp | internal/yawareness/state.go:190-451 | over every run that meets no last clock no client moves down |
| Awareness.ReportsTruth | internal/yawareness/state.go:363-409 | the change names a client at most once, by what it has become, and leaves out only clients whose state is as it was |
| Awareness.ReportsExactly | internal/yawareness/state.go:363-409 | added are the clients present at the end that were absent at some moment, removed those absent at the end that were present at some moment; an updated one has been present throughout |

## Left out

- CodecV1.StructRoundTrip: of the item flags only `keep` is modelled, and it is not part of the wire; redone links and other runtime fields are not modelled.
- CodecV1.ContentRoundTrip: Embed and Format values are values both readers take whole, kept as raw bytes; of JSON texts these are the ones `RawValues.JsonTextExact` names. Floats and encoding/json are not modelled.
- Text.WindowExact: strings are sequences of Unicode scalar values; byte strings that are not UTF-8 are read as Go reads them, one U+FFFD for each bad byte, and their bytes are not kept.
- IdSetObject.IdSet.Add: at the end of the 32-bit line the union clause is conditional, because the code wraps there.
- IdSetObject.IdSet.Merge: requires that the union leaves one clock free for every client; beyond it no normalized set holds the union (`IdSetObject.RoomNeeded`), and what the code then leaves, after its merged length has wrapped, is not described beyond `IdSets.InsertWholeLine`.
- MergeUpdates.MergeUpdatesV1: inputs are contiguous lists where they decode, their deletions leave each client some clock and no client is left with nothing on the way; the clause about reading the output back is for fewer than 2^32 clients; the parallel aggregation of internal/yupdate/aggregate.go is taken one by one, so of several failing inputs the first is reported.
- Updates.MergeDecoded: requires that the deletions leave each client some clock, for the same reason (`Updates.MergeNeedsRoom`), and that no client is left with nothing (`Updates.NoneVanish`); where that happens with the last of its lists, the code keeps an empty one.
- Updates.MergeIgnoresOrder: compares units with surrogates and U+FFFD taken for one; `Exactness.ExactInAnyOrder` is the form that tells them apart. Of updates that agree in the first view only, it stays open which half of a cut pair a merge keeps.
- Contents.MergeIds: requires room in both sets, like the merge of updates.
- Intersects.IntersectUpdate: requires the decoded delete set to be normalized, which only ranges that fill the line of a client prevent.
- UpdateV1.RoundTrip: for lists whose structs can be written; sizes are below 2^32, beyond which the source truncates lengths.
- UpdateV2.LayoutRoundTrip: for columns and counts below 2^32, beyond which the source truncates lengths.
- UpdateV2.DecodeV2: uses the column decoders as values; the decoder objects with their cursors are proved in `Columns`.
- Contents.FromDecoded: the lazy V1 twin of this loop (internal/yupdate/content_ids.go:61-131) and the wire form of content ids have no member of their own.
- Collection.CollectionExact: says nothing about the references of the output, which may name a clock that was just collected, and claims no idempotence.
- Storage.Store.SaveLeaseRecord: times are natural numbers with 0 as the zero time; epochs do not wrap at 64 bits.
- Provider.CrashSafe: there is one open room or load per authority, so an Open that finds a room just as its last connection closes is left out; the replay inside a compaction is one step; the recovery path after a failed merge and the epoch kept by an unfenced compaction are not modelled.
- Rooms.ProviderRoom.Persist: states the whole call with nobody in between; other orders are the events of `Provider`.
- Leases.LookupOwner: the shard of a document is a parameter, and shards keep the store's text form instead of being parsed as decimals.
- Leases.AcquireLease: the generated token is a parameter, and the load and the saves happen without others in between; `Leases.RacingAcquire` and `Leases.RacersExclude` cover what others may do.
- Rebalance.PlanBalances: is about distinct documents, since one listed twice is counted twice by the planner; the answers of the owner lookup are part of the input.
- Protocol.MessageRoundTrip: compaction of JSON is a parameter with two laws, keep `null` and leave compact texts alone.
- Stream.ReadStream: a reader that returns no bytes and no error is not modelled.
- Contexts, cancellation, locks, goroutines, metrics, error texts and offsets within errors are left out everywhere; each public call is one step, except that a load, a persist, a compaction and a lease acquire are split into the steps between which the source lets others act.
- The Postgres store, HTTP and WebSocket transport, authentication, quotas, node-to-node messages, sharding and membership are not modelled.
- The ownership runtime of pkg/ycluster is not modelled; it is mostly the life cycle of goroutines.
