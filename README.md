# RIFF chunk codec (campoy/riff), modelled in Dafny

A model of the core of the Go package `riff`: the four-octet identifier `ID`
and `NewID`, `ID.ReadFrom`, the recursive decoder `ReadChunk`, the `writer`
wrapper with its sticky error and byte count, and the recursive encoder
`Chunk.WriteTo`, together with proofs of what they do.

Modules, one concept each:

- `Bytes` (`bytes.dfy`): octets, Go's `uint32` subtraction (wrap-around modulo
  2^32) and the little-endian layout of the `Len` field.
- `Riff` (`riff.dfy`): the data model (`ID` as four octets held by value,
  `Chunk`, the codec's errors), the in-memory reader as a function of the input
  and a cursor (`ReadAt`, `ReadFullAt`), the decoder as the function
  `DecodeChunk`/`DecodeChildren`, the encoder as the octets it emits
  (`Encode`/`EncodeAll`), and the state change a write makes along a chain of
  `writer` wrappers in front of a sink (`ChainWrite`).
- `RiffProofs` (`riff_proofs.dfy`): lemmas about those functions, among them the
  header, leaf, pad and budget-loop behaviour of the decoder, the two round
  trips, and the writer chain's laws.
- `RiffIO` (`riff_io.dfy`): the program as it runs, as classes and methods: a
  `Reader` whose cursor moves, `ReadID`, `ReadFull` (a loop, as `io.ReadFull`),
  `ReadLen`, the recursive `ReadChunk` with its `for l > 0` loop, a bounded
  `Sink`, the `Writer` class whose `err` and `n` fields change on every write,
  and `WriteTo`, which makes a fresh wrapper around its destination. Each method
  is proved against the corresponding function of `Riff`.
- `RiffExamples` (`riff_examples.dfy`): concrete inputs and what the decoder and
  the encoder are proved to make of them.

Two behaviours of the code are modelled as written, because they are what
`riff.go` does:

- The budget of a RIFF/LIST chunk starts at `Len - 4` and is lowered by
  `8 + child.Len` per sub-chunk (riff.go:53-60), with `uint32` wrap-around and
  without the pad octet that an odd-length child consumed (riff.go:76-80). A
  container written with the conventional `Len`, which counts the pad octet of
  every odd-length child, the last one included, leaves one budget octet per
  odd child unspent after its real children, so the loop goes on reading
  after them. When nothing follows the container, that read fails with
  `io.EOF` (`RiffExamples.PadNotCounted`, `RiffExamples.PadCountedLast`).
  When chunks follow, the loop reads them as further children: if their
  charges use up exactly what is left, it stops at zero and returns the
  container with those siblings taken in as extra children, without any
  error (`RiffExamples.PadSwallowsSibling`); otherwise the budget wraps and
  the loop keeps reading until a read fails or the budget happens to reach
  zero again. The `Len` without the pads decodes as
  intended (`RiffExamples.PadLeftOut`). The loop stops only when the budget is exactly
  zero. A budget that passes zero wraps to a large value and the loop keeps
  reading (`RiffExamples.WaveFileShortLen`). The RIFF format itself counts
  the pad octets in a container's Len; the code does not, and this model
  follows the code.
- The encoder's pad octet is ASCII `'0'` (0x30), and it is written to the
  destination `w` itself, not to the counting wrapper (riff.go:116-118). So the
  count and error `WriteTo` returns never include it. A decoded odd leaf whose
  pad was some other octet re-encodes with `'0'` there
  (`RiffExamples.PadRewritten`).

The reader is an in-memory reader with the behaviour of Go's `bytes.Reader`. A
`Read` at the end of the input reports `io.EOF`, even with an empty buffer.
Otherwise it returns as many octets as both the buffer and the rest allow.
The length field goes through `binary.Read`, that is `io.ReadFull`, which
reports `io.EOF` when nothing was read and `io.ErrUnexpectedEOF` after a partial
read. One consequence of that end-of-input rule is that a zero-length leaf,
read as the last thing in the input, fails with `io.EOF`. `EncodeThenDecode`
therefore asks for input after the image, or for a tree that does not end
with an empty leaf.

The writer side ends in a `Sink` that accepts at most `limit` octets in all and
reports a short write for the rest. The chain of wrappers in front of it is
described by `ChainState`: for each wrapper its `err` and `n`, then what the
sink holds.

A small WAVE file ("RIFF", Len, "WAVE", then "data" with Len 4 and four
octets) is 24 octets, so its RIFF Len is 16; with `Len = 12` the code's
budget wraps after the leaf and the decode fails with `io.EOF`
(`RiffExamples.WaveFileShortLen`). With `Len = 16` it decodes and re-encodes
exactly (`RiffExamples.WaveFile`, `RiffExamples.WaveFileEncodes`).

## Model

| member | source | states |
|---|---|---|
| Bytes.Sub32 | riff.go:53-60 | `uint32` subtraction: the plain difference when no borrow, the difference plus 2^32 otherwise; zero exactly when the operands are equal |
| Bytes.LeBytesThenU32 | riff.go:105 | reading back the four little-endian octets written for a `uint32` gives the value |
| Bytes.LeU32ThenBytes | riff.go:42 | four octets read as a little-endian `uint32` and written again are the same four octets |
| Bytes.LeU32 | riff.go:42 | the value `binary.Read` decodes from the four Len octets, least significant first (a definition without a contract; LeU32ThenBytes and LeBytesThenU32 are its laws) |
| Bytes.LeBytes | riff.go:105 | `binary.Write` of a `uint32` emits exactly four octets, least significant first |
| Riff.Octets | riff.go:104 | `c.ID[:]` and `c.ListID[:]`: the four octets of an identifier, in order |
| Riff.IsContainer | riff.go:48 | the test that the ID is `riff` or `list`, which ReadChunk and WriteTo (riff.go:107) share (a definition without a contract) |
| Riff.NewID | riff.go:125-131 | the identifier of a four-octet string holds its octets in order; other lengths are excluded (Go panics) |
| Riff.ReadAt | riff.go:68 | one `Read` with a k-octet buffer: `io.EOF` exactly at the end of the input (cursor unchanged), otherwise min(k, remaining) octets, the next ones of the input |
| Riff.ReadFullAt | riff.go:42 | `io.ReadFull` of k octets: succeeds exactly when k octets remain and returns them; otherwise `io.EOF` if none remained, `io.ErrUnexpectedEOF` if some did, with the input used up |
| Riff.ReadIDAt | riff.go:139-147 | `ID.ReadFrom` succeeds exactly when four octets remain, returning NewID of them; `io.EOF` at the end; a short-identifier error with the count read when one to three remain |
| Riff.ReadLenAt | riff.go:42-45 | `binary.Read` of the Len field: the little-endian value of the next four octets, or `io.EOF` / `io.ErrUnexpectedEOF` as `io.ReadFull` reports |
| Riff.DecodeChunk | riff.go:34-83 | ReadChunk never moves the cursor back or past the input, and a successful decode consumes at least the eight header octets |
| Riff.DecodeChildren | riff.go:53-61 | the sub-chunk loop keeps the chunks already appended as a prefix of its result and never moves the cursor back or past the input |
| Riff.PadLen | riff.go:116 | WriteTo emits one pad octet exactly for a leaf with odd Len |
| Riff.Encode | riff.go:101-119 | the image of every chunk holds at least its eight header octets |
| Riff.EncodeAll | riff.go:109-111 | the images of n sub-chunks hold at least 8n octets |
| Riff.SinkWrite | riff.go:95 | the destination writer takes min(|p|, room) octets, appends exactly those, and reports a short write exactly when it took fewer than |p| |
| Riff.ChainWrite | riff.go:91-98 | a write through a chain of wrappers keeps the chain's shape and never reports more octets than it was given |
| RiffProofs.ReservedTags | riff.go:12-15 | the reserved identifiers are NewID("RIFF") and NewID("LIST") and are distinct |
| RiffProofs.IDOctets | riff.go:123-131 | an identifier is its four octets: NewID and Octets are inverse to each other |
| RiffProofs.NewIDEquality | riff.go:48 | identifiers compare equal exactly when all four octets are equal, one by one |
| RiffProofs.DecodeHeader | riff.go:37-45 | a decoded chunk's ID is NewID of the first four octets and its Len the little-endian value of the next four; with fewer than eight octets left, the decode fails with HeaderError: `io.EOF` with none, the short-identifier error with one to three, `io.EOF` with four, `io.ErrUnexpectedEOF` with five to seven |
| RiffProofs.DecodeLeaf | riff.go:66-82 | a leaf decodes exactly when Len octets follow the header and at least one octet does; Data is those Len octets, ListID is zero, Chunks is empty; an odd Len consumes one more octet if there is one; otherwise `io.EOF` or the short-data error with the count read |
| RiffProofs.EvenLeafNoPad | riff.go:77 | an even-length leaf ends the cursor right after its data |
| RiffProofs.PadValueIgnored | riff.go:76-80 | overwriting the pad octet of an odd leaf changes neither the decoded chunk nor the cursor afterwards |
| RiffProofs.DecodeChildrenShape | riff.go:53-61 | the sub-chunks the loop appends are decoded one after another from the cursor, and the budget reaches zero exactly after the last of them |
| RiffProofs.DecodeContainer | riff.go:48-63 | a RIFF/LIST chunk reads ListID from the next four octets, has no data, and its sub-chunks are decoded in stream order until the budget Len-4, lowered by 8+Len per sub-chunk with wrap-around and no pad, is zero; a missing ListID fails with `io.EOF` or the short-identifier error |
| RiffProofs.ChildrenStep | riff.go:54-61 | one turn of the loop: a sub-chunk decodes, is appended, and the loop continues after it with the budget lowered |
| RiffProofs.ChildFails | riff.go:55-58 | a sub-chunk that fails while the budget is non-zero fails the loop with its error, at its cursor |
| RiffProofs.ChildrenAbort | riff.go:54-58 | after any run of decoded sub-chunks with the budget still non-zero, a failing next sub-chunk fails the loop with that error |
| RiffProofs.ChildFailureAborts | riff.go:55-58 | an error in any sub-chunk aborts the whole RIFF/LIST decode with that error |
| RiffProofs.ChildrenOfSequence | riff.go:53-63 | chunks that decode one after another, and after which the budget is exactly zero, are exactly what the loop appends |
| RiffProofs.ContainerStep | riff.go:48-63 | once header and ListID are read, a RIFF/LIST decode returns what its sub-chunk loop returns |
| RiffProofs.LeafStep | riff.go:66-82 | a leaf whose header and data are present decodes to that chunk, ending after the pad octet when Len is odd |
| RiffProofs.DecodeWellFormed | riff.go:34-83 | every tree ReadChunk returns is well-formed: leaves hold exactly Len octets and no list part; containers hold no data and a budget that stops exactly after their last sub-chunk |
| RiffProofs.DecodeChildrenWellFormed | riff.go:53-61 | every sub-chunk the loop appends is well-formed |
| RiffProofs.EncodeAllAppend | riff.go:109-111 | the image of two runs of sub-chunks is the first image followed by the second |
| RiffProofs.HeaderBytes | riff.go:104-105 | the encoder writes back the eight header octets the decoder read |
| RiffProofs.DecodeThenEncode | riff_test.go:77-93 | a tree decoded from any input, with no odd-length leaf, encodes to exactly the octets the decoder consumed |
| RiffProofs.DecodeThenEncodeLeaf | riff.go:115-119 | a decoded even-length leaf encodes to the octets it was read from |
| RiffProofs.DecodeThenEncodeContainer | riff.go:104-112 | a decoded RIFF/LIST chunk with no odd leaf below it encodes to the octets it was read from |
| RiffProofs.SequenceThenEncode | riff.go:109-111 | sub-chunks decoded one after another, with no odd leaf, encode to the octets they were read from |
| RiffProofs.EncodeThenDecode | riff.go:101-119 | encode then decode: the image of any well-formed tree, followed by more input or not ending in an empty leaf, decodes back to the same tree and ends the cursor right after the image |
| RiffProofs.EncodeThenDecodeAt | riff.go:34-83 | EncodeThenDecode with the end of the image named |
| RiffProofs.EncodeThenDecodeLeaf | riff.go:115-119 | the image of a well-formed leaf decodes back to it, pad octet included |
| RiffProofs.EncodeThenDecodeContainer | riff.go:107-112 | the image of a well-formed RIFF/LIST chunk decodes back to it |
| RiffProofs.EncodeThenDecodeAll | riff.go:109-111 | the images of well-formed sub-chunks, one after another, decode back to them in order |
| RiffProofs.StickyError | riff.go:92-94 | a wrapper whose error is set writes nothing, changes nothing, and returns 0 and that error |
| RiffProofs.WrapperWrite | riff.go:95-97 | a wrapper with no error forwards the octets and adds to its count exactly what the writer below reports, taking over that writer's error |
| RiffProofs.OpenChainWrite | riff.go:91-98 | through a chain with no error, the sink takes min(|p|, room) octets, every wrapper's count grows by exactly that, and every wrapper takes the short-write error exactly when the sink took fewer than |p| |
| RiffProofs.StoppedChain | riff.go:92-94 | a chain whose first wrapper has failed, or a full sink, does not change |
| RiffProofs.ChainWriteSplit | riff.go:104-111 | writing p1 and then p2 through a chain with no error leaves it as writing p1 + p2 at once, short writes included |
| RiffProofs.WrappedOpen | riff.go:102 | a fresh wrapper has no error |
| RiffProofs.StillOpen | riff.go:109 | after writes through a chain with no error, the chain has no error anywhere if its first wrapper has none: the loop guard `wr.err == nil` speaks for the whole chain |
| RiffProofs.LeafImage | riff.go:115-118 | a leaf's image is ID, Len and Data, then `'0'` exactly when Len is odd |
| RiffProofs.ListImage | riff.go:104-111 | a RIFF/LIST chunk's image is ID, Len, ListID and the sub-chunks' images |
| RiffProofs.WrapperOutcome | riff.go:102-119 | what a fresh wrapper reports after p went through it: the chain below is as if p had been written to it, the count is what the sink took, the error is set exactly when that was less than all of p |
| RiffProofs.ListOutcome | riff.go:107-112 | a RIFF/LIST chunk's whole image goes through the wrapper |
| RiffProofs.LeafOutcome | riff.go:115-119 | a leaf's image less the pad goes through the wrapper, and the pad written straight below completes it |
| RiffProofs.StoppedRest | riff.go:109 | once the first wrapper has failed, what the remaining iterations would write changes nothing |
| RiffProofs.RestOfList | riff.go:109-111 | at the end of the sub-chunk loop the chain is as if the whole image had been written, whether the loop ran out of sub-chunks or stopped on an error |
| RiffIO.Reader.constructor | riff.go:34 | a reader over given contents, positioned at the start |
| RiffIO.Reader.Read | riff.go:68 | Read moves the cursor and returns octets and error as ReadAt says |
| RiffIO.ReadID | riff.go:139-147 | `ID.ReadFrom` on the reader returns and moves as ReadIDAt says |
| RiffIO.ReadFull | riff.go:42 | the `io.ReadFull` loop returns and moves as ReadFullAt says |
| RiffIO.ReadLen | riff.go:42-45 | `binary.Read` of Len returns and moves as ReadLenAt says |
| RiffIO.ReadChunk | riff.go:34-83 | ReadChunk, with its sub-chunk loop, returns the chunk or error DecodeChunk gives and leaves the cursor where DecodeChunk does |
| RiffIO.Sink.constructor | riff_test.go:77 | an empty destination of a given capacity |
| RiffIO.Sink.Write | riff.go:95 | the destination's Write changes its contents and reports as SinkWrite says |
| RiffIO.Writer.Chain | riff.go:85-89 | the chain state starts with this wrapper's `err` and `n` and holds the sink's contents |
| RiffIO.Writer.constructor | riff.go:102 | `&writer{w: w}`: no error, count zero, in front of the chain of w |
| RiffIO.Writer.Write | riff.go:91-98 | writer.Write changes the chain and reports as ChainWrite says |
| RiffIO.DestChain | riff.go:101 | the destination's chain state holds the sink's contents |
| RiffIO.DestWrite | riff.go:117 | a Write on the destination, sink or wrapper, changes the chain as ChainWrite says |
| RiffIO.WriteTo | riff.go:101-120 | WriteTo leaves its destination's chain as writing the chunk's whole image would; it returns as count the octets of the image less the pad that fit in the sink, and the short-write error exactly when that is not all of them |
| RiffIO.WriteList | riff.go:107-112 | the RIFF/LIST part of WriteTo leaves the wrapper's chain as writing the whole image would, the loop stopping at the wrapper's first error |
| RiffExamples.WaveHeaders | riff.go:37-49 | the headers of the WAVE sample read as RIFF, the stored Len, WAVE |
| RiffExamples.WaveLeaf | riff.go:66-82 | the "data" leaf of the WAVE sample decodes to its four octets and ends the input |
| RiffExamples.WaveFile | riff.go:48-63 | the WAVE sample with Len 16 decodes to a RIFF chunk holding one four-octet "data" leaf and consumes all 24 octets |
| RiffExamples.WaveFileEncodes | riff.go:101-119 | that tree encodes back to the same 24 octets |
| RiffExamples.WaveFileShortLen | riff.go:53-60 | with Len 12 the budget wraps after the leaf and the decode fails with `io.EOF` |
| RiffExamples.ListHeaders | riff.go:37-49 | the headers of the LIST sample read as LIST, the stored Len, INFO |
| RiffExamples.ListOddLeaf | riff.go:76-80 | the odd leaf of the LIST sample decodes and consumes its pad octet |
| RiffExamples.ListEvenLeaf | riff.go:66-74 | the even leaf of the LIST sample decodes and ends the input |
| RiffExamples.PadNotCounted | riff.go:60 | the LIST sample with the Len counting the pad octet fails with `io.EOF` |
| RiffExamples.PadCountedLast | riff.go:53-60 | a LIST whose only, odd-length child is last, with the Len counting its pad octet, fails with `io.EOF` |
| RiffExamples.PadSwallowsSibling | riff.go:53-60 | a LIST of k one-octet leaves whose Len 4 + 10k counts their pads, followed by a leaf of Len k - 8, decodes without error to a LIST that holds that following leaf as one more child, consuming the whole input |
| RiffExamples.FixtureBudget | riff_test.go:43-56 | the Len values of the tree the reader test expects make the budget loop stop exactly after the last sub-chunk, at both levels |
| RiffExamples.PadLeftOut | riff.go:60 | the LIST sample with the Len leaving out the pad octet decodes to both leaves |
| RiffExamples.LeafImages | riff.go:115-118 | the images of the two leaves of the LIST sample, the odd one ending in `'0'` |
| RiffExamples.PadRewritten | riff.go:117 | re-encoding the decoded LIST sample gives its input with the pad octet replaced by `'0'` |

## Left out

- The `String` methods of `Chunk` and `ID` (riff.go:26-31, 134-136): formatting only.
- `NewDecoder`, `Decode` and `Map`, which the tests call: they are defined outside riff.go, and the file that defines them is not among the modelled sources.
- Go's `io.Reader` and `io.Writer` interfaces: the reader is an in-memory reader over a sequence, with the behaviour of `bytes.Reader`; the writer at the end of every chain is a buffer bounded by a fixed capacity. Other readers (files, pipes) that return data and an error together, or fewer octets than are available, are not modelled.
- Opening, seeking and reading the `data/hand.wav` fixture in the tests: file I/O.
- The error texts built with `fmt.Errorf`: errors are the datatype `Error`, whose cases keep the numbers the messages print.
- `writer.n` is Go's `int64`: the model's count is an unbounded integer, since an image long enough to overflow it cannot be held in memory.
- Riff.NewID: a string of any length other than four is excluded by a precondition, since Go panics on it.
- Allocation: riff.go:67 allocates a buffer of the full Len before reading, so a header claiming close to 4 GiB can exhaust memory; the model goes straight to the short-data error.
- Sharing: `Chunks` is a slice of pointers (riff.go:23), so a tree built by hand can share sub-chunks or contain a cycle, on which WriteTo never returns; the model's chunks are values, which rules both out.
- Recursion depth: Go's stack bounds how deeply RIFF/LIST chunks may nest; the model has no such bound.
- RiffIO.WriteTo: the pad octet is written to the destination without looking at the wrapper's error (riff.go:116-117), and the body does the same; but the bounded sink accepts nothing after its first short write, so a destination that fails once and then accepts more, and would receive the `'0'` after a truncated image, is not modelled, and the postcondition is stated for sinks of this kind only.
- RiffIO.WriteTo: requires a destination chain with no error set. A caller outside the package passes a plain writer, which has none; the recursive call is made only while the enclosing wrapper has none, and RiffProofs.StillOpen shows that the whole chain then has none.
- RiffProofs.EncodeThenDecode: requires input after the image, or a tree whose last leaf is not empty, because the reader reports `io.EOF` on an empty read at the end of its input.
- RiffProofs.DecodeThenEncode: stated for trees without an odd-length leaf, because the encoder writes `'0'` where the input may have had any pad octet, and an odd leaf at the end of the input may have no pad octet at all.
