/**
 * The RIFF chunk codec of riff.go as values: identifiers, the chunk tree, the
 * decoder as a function of the input bytes and a cursor, the encoder as the byte
 * image it emits, and the "sticky error" writer wrapper as a function on the
 * state of a chain of wrappers in front of a sink.
 */
module Riff {
  import opened Bytes

  // ---------------------------------------------------------------- identifiers

  /** A RIFF identifier: four octets held by value, as Go's `[4]byte`; `==` is octet-wise. */
  datatype ID = ID(b0: byte, b1: byte, b2: byte, b3: byte)

  /** The four octets of an identifier, in order. */
  function Octets(id: ID): (s: seq<byte>)
    ensures |s| == 4
    ensures s[0] == id.b0 && s[1] == id.b1 && s[2] == id.b2 && s[3] == id.b3
  {
    [id.b0, id.b1, id.b2, id.b3]
  }

  /** The identifier Go zero-initialises: the ListID of every leaf chunk. */
  const ZeroID: ID := ID(0, 0, 0, 0)

  /** The octets of an ASCII text, as Go stores a string literal. */
  function Ascii(s: string): (b: seq<byte>)
    requires forall i | 0 <= i < |s| :: s[i] as int < 128
    ensures |b| == |s|
    ensures forall i | 0 <= i < |s| :: b[i] == s[i] as int
  {
    if s == [] then [] else [s[0] as int] + Ascii(s[1..])
  }

  /**
   * NewID: the identifier holding the four octets of a Go string, in order.
   * Any other length is a programmer error (Go panics), hence the precondition.
   */
  function NewID(s: seq<byte>): (id: ID)
    requires |s| == 4
    ensures Octets(id) == s
  {
    ID(s[0], s[1], s[2], s[3])
  }

  /** The reserved identifiers `riff` ("RIFF") and `list` ("LIST"). */
  const RiffTag: ID := ID(0x52, 0x49, 0x46, 0x46)
  const ListTag: ID := ID(0x4C, 0x49, 0x53, 0x54)

  /** True of the identifiers whose chunks hold a list identifier and sub-chunks. */
  predicate IsContainer(id: ID) {
    id == RiffTag || id == ListTag
  }

  // ---------------------------------------------------------------- chunks, errors

  /**
   * A chunk as the decoder builds it: a leaf has `data` (and ZeroID, no chunks);
   * a RIFF or LIST chunk has `listID` and `chunks` (and no data).
   */
  datatype Chunk = Chunk(id: ID, len: u32, data: seq<byte>, listID: ID, chunks: seq<Chunk>)

  /** The errors the codec returns. */
  datatype Error =
    | EOF                              // io.EOF: the reader has no octet left
    | UnexpectedEOF                    // io.ErrUnexpectedEOF: the length field ended early
    | ShortID(got: nat)                // "couldn't read identifier, read %v bytes"
    | ShortData(got: nat, want: u32)   // "couldn't read all data, read %v bytes of %v"
    | ShortWrite                       // the sink accepted fewer octets than it was given

  datatype Option<T> = None | Some(value: T)

  datatype Result<T> = Success(value: T) | Failure(error: Error)

  // ---------------------------------------------------------------- reading

  /**
   * One call of `Read` with a k-octet buffer on an in-memory reader whose next
   * octet is data[pos]: at the end it reports io.EOF (even for an empty buffer),
   * otherwise it returns as many octets as both the buffer and the rest allow.
   * Result: the octets, the error, the new cursor.
   */
  function ReadAt(data: seq<byte>, pos: nat, k: nat): (r: (seq<byte>, Option<Error>, nat))
    requires pos <= |data|
    ensures pos <= r.2 <= |data| && r.0 == data[pos..r.2] && |r.0| <= k
    ensures r.1 == None <==> pos < |data|
    ensures r.1 == None ==> |r.0| == Min(k, |data| - pos)
    ensures r.1 != None ==> r.1 == Some(EOF) && r.2 == pos
  {
    if pos == |data| then ([], Some(EOF), pos)
    else
      var m := Min(k, |data| - pos);
      (data[pos..pos + m], None, pos + m)
  }

  /**
   * io.ReadFull on that reader, as binary.Read uses it for the length field:
   * a shortage with nothing read is io.EOF, a shortage after some octets is
   * io.ErrUnexpectedEOF.
   */
  function ReadFullAt(data: seq<byte>, pos: nat, k: nat): (r: (Result<seq<byte>>, nat))
    requires pos <= |data|
    requires k > 0
    ensures pos <= r.1 <= |data|
    ensures r.0.Success? <==> k <= |data| - pos
    ensures r.0.Success? ==> r.0.value == data[pos..pos + k] && r.1 == pos + k
    ensures r.0.Failure? ==> r.1 == |data|
    ensures r.0.Failure? ==> r.0.error == if pos == |data| then EOF else UnexpectedEOF
  {
    if k <= |data| - pos then (Success(data[pos..pos + k]), pos + k)
    else if pos == |data| then (Failure(EOF), pos)
    else (Failure(UnexpectedEOF), |data|)
  }

  /** ID.ReadFrom: one `Read` of four octets; an error or a short read fails. */
  function ReadIDAt(data: seq<byte>, pos: nat): (r: (Result<ID>, nat))
    requires pos <= |data|
    ensures pos <= r.1 <= |data|
    ensures r.0.Success? <==> pos + 4 <= |data|
    ensures r.0.Success? ==> r.0.value == NewID(data[pos..pos + 4]) && r.1 == pos + 4
    ensures pos == |data| ==> r == (Failure(EOF), pos)
    ensures pos < |data| < pos + 4 ==> r == (Failure(ShortID(|data| - pos)), |data|)
  {
    var (got, err, p) := ReadAt(data, pos, 4);
    if err.Some? then (Failure(err.value), p)
    else if |got| != 4 then (Failure(ShortID(|got|)), p)
    else (Success(NewID(got)), p)
  }

  /** binary.Read of a little-endian uint32. */
  function ReadLenAt(data: seq<byte>, pos: nat): (r: (Result<u32>, nat))
    requires pos <= |data|
    ensures pos <= r.1 <= |data|
    ensures r.0.Success? <==> pos + 4 <= |data|
    ensures r.0.Success? ==> r.0.value == LeU32(data[pos..pos + 4]) && r.1 == pos + 4
    ensures r.0.Failure? ==> r.0.error == if pos == |data| then EOF else UnexpectedEOF
  {
    var (rb, p) := ReadFullAt(data, pos, 4);
    if rb.Failure? then (Failure(rb.error), p) else (Success(LeU32(rb.value)), p)
  }

  // ---------------------------------------------------------------- decoding

  /**
   * ReadChunk on a reader positioned at data[pos]: the decoded chunk (or the
   * error) and the cursor afterwards. A successful decode consumes at least the
   * eight header octets.
   */
  function DecodeChunk(data: seq<byte>, pos: nat): (r: (Result<Chunk>, nat))
    requires pos <= |data|
    ensures pos <= r.1 <= |data|
    ensures r.0.Success? ==> pos + 8 <= r.1
    decreases |data| - pos, 0
  {
    var (rid, p1) := ReadIDAt(data, pos);
    if rid.Failure? then (Failure(rid.error), p1)
    else
      var (rlen, p2) := ReadLenAt(data, p1);
      if rlen.Failure? then (Failure(rlen.error), p2)
      else
        var id, len := rid.value, rlen.value;
        if IsContainer(id) then
          var (rlist, p3) := ReadIDAt(data, p2);
          if rlist.Failure? then (Failure(rlist.error), p3)
          else
            var (rch, p4) := DecodeChildren(data, p3, Sub32(len, 4), []);
            if rch.Failure? then (Failure(rch.error), p4)
            else (Success(Chunk(id, len, [], rlist.value, rch.value)), p4)
        else
          var (got, err, p3) := ReadAt(data, p2, len);
          if err.Some? then (Failure(err.value), p3)
          else if |got| != len then (Failure(ShortData(|got|, len)), p3)
          else
            // the pad octet of an odd-length leaf: read, value and error ignored
            var p4 := if len % 2 != 0 then ReadAt(data, p3, 1).2 else p3;
            (Success(Chunk(id, len, got, ZeroID, [])), p4)
  }

  /**
   * The `for l > 0` loop of ReadChunk from budget `l`, with the sub-chunks `acc`
   * already appended: each sub-chunk lowers the budget by 8 + its Len, wrapping
   * as uint32 does; the first failing sub-chunk fails the whole loop.
   */
  function DecodeChildren(data: seq<byte>, pos: nat, l: u32, acc: seq<Chunk>): (r: (Result<seq<Chunk>>, nat))
    requires pos <= |data|
    ensures pos <= r.1 <= |data|
    ensures r.0.Success? ==> |acc| <= |r.0.value| && r.0.value[..|acc|] == acc
    decreases |data| - pos, 1
  {
    if l == 0 then (Success(acc), pos)
    else
      var (rc, p) := DecodeChunk(data, pos);
      if rc.Failure? then (Failure(rc.error), p)
      else DecodeChildren(data, p, Sub32(Sub32(l, 8), rc.value.len), acc + [rc.value])
  }

  // ---------------------------------------------------------------- encoding

  /** The pad octet Chunk.WriteTo emits after an odd-length leaf: ASCII '0'. */
  const PadByte: byte := 0x30

  /** Whether WriteTo emits a pad octet after this chunk's own data. */
  function PadLen(c: Chunk): (n: nat)
    ensures n <= 1
    ensures n == 1 <==> !IsContainer(c.id) && c.len % 2 != 0
  {
    if !IsContainer(c.id) && c.len % 2 != 0 then 1 else 0
  }

  /**
   * The octets Chunk.WriteTo emits for `c`, in order: ID, Len as little-endian,
   * then ListID and each sub-chunk (RIFF/LIST), or Data and a pad octet when Len
   * is odd (leaf). Len is written as stored, never recomputed.
   */
  function Encode(c: Chunk): (b: seq<byte>)
    ensures |b| >= 8
    decreases c, 1
  {
    Octets(c.id) + LeBytes(c.len) +
    if IsContainer(c.id) then Octets(c.listID) + EncodeAll(c.chunks)
    else c.data + (if c.len % 2 != 0 then [PadByte] else [])
  }

  /** The encodings of a sequence of chunks, one after the other. */
  function EncodeAll(cs: seq<Chunk>): (b: seq<byte>)
    ensures cs != [] ==> |b| >= 8 * |cs|
    decreases cs, 0
  {
    if cs == [] then [] else Encode(cs[0]) + EncodeAll(cs[1..])
  }

  // ---------------------------------------------------------------- the writer wrapper

  /**
   * The state a write can change along a chain of `writer` wrappers: for each
   * wrapper, from the one written to towards the sink, its `err` and its `n`;
   * and what the sink holds.
   */
  datatype ChainState = ChainState(errs: seq<Option<Error>>, counts: seq<int>, out: seq<byte>)

  /** How many more octets a sink bounded by `limit` accepts. */
  function Room(out: seq<byte>, limit: nat): (k: nat)
    ensures |out| + k >= limit
    ensures |out| <= limit ==> |out| + k == limit
  {
    if |out| < limit then limit - |out| else 0
  }

  /**
   * The sink: it takes what fits and reports a short write when the rest does
   * not; it returns the new contents, the count written and the error.
   */
  function SinkWrite(out: seq<byte>, limit: nat, p: seq<byte>): (r: (seq<byte>, nat, Option<Error>))
    ensures r.1 == Min(|p|, Room(out, limit)) && r.0 == out + p[..r.1]
    ensures r.2 == None <==> r.1 == |p|
    ensures r.2 != None ==> r.2 == Some(ShortWrite)
  {
    var k := Min(|p|, Room(out, limit));
    (out + p[..k], k, if k < |p| then Some(ShortWrite) else None)
  }

  /**
   * writer.Write(p) on the first wrapper of a chain: a wrapper whose error is set
   * returns it and writes nothing; otherwise it forwards p and adds to its count
   * exactly what the next writer reports, keeping that writer's error. The empty
   * chain is the sink itself. Result: the new state, the count, the error.
   */
  function ChainWrite(s: ChainState, limit: nat, p: seq<byte>): (r: (ChainState, nat, Option<Error>))
    requires |s.errs| == |s.counts|
    ensures |r.0.errs| == |r.0.counts| == |s.errs|
    ensures r.1 <= |p|
    decreases |s.errs|
  {
    if s.errs == [] then
      var (out, k, e) := SinkWrite(s.out, limit, p);
      (ChainState([], [], out), k, e)
    else if s.errs[0].Some? then (s, 0, s.errs[0])
    else
      var (below, k, e) := ChainWrite(ChainState(s.errs[1..], s.counts[1..], s.out), limit, p);
      (ChainState([e] + below.errs, [s.counts[0] + k] + below.counts, below.out), k, e)
  }

  /** No wrapper of the chain has an error set. */
  predicate Open(s: ChainState) {
    forall i | 0 <= i < |s.errs| :: s.errs[i] == None
  }

  /** Every wrapper of the chain holds the same error `e`. */
  predicate AllErr(errs: seq<Option<Error>>, e: Option<Error>) {
    forall i | 0 <= i < |errs| :: errs[i] == e
  }

  /** Every count of `cs` raised by `k`. */
  function AddAll(cs: seq<int>, k: int): (r: seq<int>)
    ensures |r| == |cs|
    ensures forall i | 0 <= i < |cs| :: r[i] == cs[i] + k
  {
    seq(|cs|, i requires 0 <= i < |cs| => cs[i] + k)
  }
}
