/**
 * What the decoder and encoder of riff.go promise, proved about the functions of
 * module Riff: the header and leaf layouts, the pad octet, the budget loop of
 * RIFF/LIST chunks, the two round trips, and the sticky error of the writer chain.
 */
module RiffProofs {
  import opened Bytes
  import opened Riff

  // ---------------------------------------------------------------- identifiers

  /** The reserved identifiers are NewID("RIFF") and NewID("LIST"), and differ. */
  lemma {:induction false} ReservedTags()
    ensures RiffTag == NewID(Ascii("RIFF"))
    ensures ListTag == NewID(Ascii("LIST"))
    ensures RiffTag != ListTag
  {
    var r, l := Ascii("RIFF"), Ascii("LIST");
    assert r == [0x52, 0x49, 0x46, 0x46];
    assert l == [0x4C, 0x49, 0x53, 0x54];
  }

  /** An identifier is its four octets: NewID and Octets are inverse to each other. */
  lemma {:induction false} IDOctets(id: ID, s: seq<byte>)
    requires |s| == 4
    ensures NewID(Octets(id)) == id
    ensures Octets(NewID(s)) == s
  {
  }

  /** Two identifiers built by NewID are equal exactly when their four octets are, one by one. */
  lemma {:induction false} NewIDEquality(s: seq<byte>, t: seq<byte>)
    requires |s| == 4 && |t| == 4
    ensures NewID(s) == NewID(t) <==> forall i | 0 <= i < 4 :: s[i] == t[i]
  {
    if forall i | 0 <= i < 4 :: s[i] == t[i] {
      assert s == t;
    }
  }

  // ---------------------------------------------------------------- helpers on slices

  /** A window of `data` that equals `e` also agrees with `e` on every sub-window. */
  lemma {:induction false} Window(data: seq<byte>, pos: nat, e: seq<byte>, i: nat, j: nat)
    requires pos + |e| <= |data| && data[pos..pos + |e|] == e
    requires i <= j <= |e|
    ensures data[pos + i..pos + j] == e[i..j]
  {
    forall k | 0 <= k < |e| ensures data[pos + k] == e[k] {
      assert data[pos..pos + |e|][k] == data[pos + k];
    }
    assert data[pos + i..pos + j] == e[i..j];
  }

  lemma {:induction false} ConsAppend<T>(acc: seq<T>, cs: seq<T>)
    requires cs != []
    ensures acc + [cs[0]] + cs[1..] == acc + cs
  {
  }

  lemma {:induction false} Split2(data: seq<byte>, a: nat, b: nat, c: nat)
    requires a <= b <= c <= |data|
    ensures data[a..c] == data[a..b] + data[b..c]
  {
  }

  lemma {:induction false} Split3(data: seq<byte>, a: nat, b: nat, c: nat, d: nat)
    requires a <= b <= c <= d <= |data|
    ensures data[a..d] == data[a..b] + data[b..c] + data[c..d]
  {
  }

  // ---------------------------------------------------------------- the header

  /**
   * The error ReadChunk returns when fewer than eight octets remain: io.EOF with
   * nothing left, a short identifier with one to three, io.EOF from the length
   * field with exactly four, io.ErrUnexpectedEOF with five to seven.
   */
  function HeaderError(rem: nat): Error
    requires rem < 8
  {
    if rem == 0 then EOF else if rem < 4 then ShortID(rem) else if rem == 4 then EOF else UnexpectedEOF
  }

  /**
   * ReadChunk reads the ID from the first four octets and Len, little-endian,
   * from the next four; when either read fails no chunk is returned.
   */
  lemma {:induction false} DecodeHeader(data: seq<byte>, pos: nat)
    requires pos <= |data|
    ensures var (r, q) := DecodeChunk(data, pos);
      && (r.Success? ==> r.value.id == NewID(data[pos..pos + 4]) && r.value.len == LeU32(data[pos + 4..pos + 8]))
      && (|data| - pos < 8 ==> r == Failure(HeaderError(|data| - pos)))
  {
  }

  // ---------------------------------------------------------------- leaf chunks

  /**
   * A chunk whose ID is neither RIFF nor LIST: it decodes exactly when Len data
   * octets follow the header and at least one octet follows it (a read at the end
   * of the input reports io.EOF); Data is those Len octets, ListID and Chunks stay
   * empty, and an odd Len consumes one more octet when there is one.
   */
  lemma {:induction false} DecodeLeaf(data: seq<byte>, pos: nat)
    requires pos + 8 <= |data| && !IsContainer(NewID(data[pos..pos + 4]))
    ensures var (r, q) := DecodeChunk(data, pos);
      var len := LeU32(data[pos + 4..pos + 8]);
      var avail := |data| - (pos + 8);
      && (r.Success? <==> len <= avail && 0 < avail)
      && (r.Success? ==>
            && r.value == Chunk(NewID(data[pos..pos + 4]), len, data[pos + 8..pos + 8 + len], ZeroID, [])
            && |r.value.data| == len
            && q == pos + 8 + len + (if len % 2 != 0 && len < avail then 1 else 0))
      && (r.Failure? ==> r.error == if avail == 0 then EOF else ShortData(avail, len))
  {
  }

  /** An even-length leaf consumes no pad octet. */
  lemma {:induction false} EvenLeafNoPad(data: seq<byte>, pos: nat)
    requires pos + 8 <= |data| && !IsContainer(NewID(data[pos..pos + 4]))
    requires LeU32(data[pos + 4..pos + 8]) % 2 == 0
    ensures var (r, q) := DecodeChunk(data, pos);
      r.Success? ==> q == pos + 8 + r.value.len
  {
    DecodeLeaf(data, pos);
  }

  /**
   * The pad octet after an odd-length leaf is consumed but its value plays no
   * part: overwriting it changes neither the chunk nor the cursor afterwards.
   */
  lemma {:induction false} PadValueIgnored(data: seq<byte>, pos: nat, v: byte)
    requires pos + 8 <= |data| && !IsContainer(NewID(data[pos..pos + 4]))
    requires LeU32(data[pos + 4..pos + 8]) % 2 != 0
    requires pos + 8 + LeU32(data[pos + 4..pos + 8]) < |data|
    ensures DecodeChunk(data[pos + 8 + LeU32(data[pos + 4..pos + 8]) := v], pos) == DecodeChunk(data, pos)
  {
    var len := LeU32(data[pos + 4..pos + 8]);
    var padAt := pos + 8 + len;
    var data' := data[padAt := v];
    assert data'[pos..padAt] == data[pos..padAt];
    assert data'[pos..pos + 4] == data[pos..pos + 4];
    assert data'[pos + 4..pos + 8] == data[pos + 4..pos + 8];
    assert data'[pos + 8..padAt] == data[pos + 8..padAt];
    DecodeLeaf(data, pos);
    DecodeLeaf(data', pos);
  }

  // ---------------------------------------------------------------- RIFF and LIST chunks

  /** The budget loop started at `l` runs once per chunk of `cs` and stops right after the last. */
  ghost predicate BudgetStops(l: u32, cs: seq<Chunk>)
    decreases cs
  {
    if cs == [] then l == 0 else l != 0 && BudgetStops(Sub32(Sub32(l, 8), cs[0].len), cs[1..])
  }

  /** The budget loop started at `l` is still running after every chunk of `cs`. */
  ghost predicate BudgetRuns(l: u32, cs: seq<Chunk>)
    decreases cs
  {
    l != 0 && (cs != [] ==> BudgetRuns(Sub32(Sub32(l, 8), cs[0].len), cs[1..]))
  }

  /** Successive ReadChunk calls from data[p] return the chunks `cs` in order and leave the cursor at q. */
  ghost predicate DecodesInSequence(data: seq<byte>, p: nat, cs: seq<Chunk>, q: nat)
    requires p <= |data|
    decreases cs
  {
    if cs == [] then p == q
    else
      var (r, p') := DecodeChunk(data, p);
      r == Success(cs[0]) && DecodesInSequence(data, p', cs[1..], q)
  }

  /** What the loop appends: the chunks decoded one after another, exactly as many as the budget allows. */
  lemma {:induction false} DecodeChildrenShape(data: seq<byte>, pos: nat, l: u32, acc: seq<Chunk>)
    requires pos <= |data|
    ensures var (r, q) := DecodeChildren(data, pos, l, acc);
      r.Success? ==> BudgetStops(l, r.value[|acc|..]) && DecodesInSequence(data, pos, r.value[|acc|..], q)
    decreases |data| - pos
  {
    if l != 0 {
      var (rc, p) := DecodeChunk(data, pos);
      if rc.Success? {
        var l' := Sub32(Sub32(l, 8), rc.value.len);
        DecodeChildrenShape(data, p, l', acc + [rc.value]);
        var (r, q) := DecodeChildren(data, pos, l, acc);
        if r.Success? {
          var cs := r.value[|acc|..];
          assert r.value[|acc + [rc.value]|..] == cs[1..];
          assert cs[0] == rc.value;
        }
      }
    }
  }

  /**
   * A RIFF or LIST chunk: ListID is read from the four octets after the header,
   * then the sub-chunks are decoded in stream order, and the loop stops exactly
   * when the budget Len-4, lowered by 8 + Len per sub-chunk with uint32 wrap-around
   * and with no regard to pad octets, reaches zero.
   */
  lemma {:induction false} DecodeContainer(data: seq<byte>, pos: nat)
    requires pos + 8 <= |data| && IsContainer(NewID(data[pos..pos + 4]))
    ensures var (r, q) := DecodeChunk(data, pos);
      && (r.Success? ==>
            && pos + 12 <= |data|
            && r.value.listID == NewID(data[pos + 8..pos + 12])
            && r.value.data == []
            && BudgetStops(Sub32(r.value.len, 4), r.value.chunks)
            && DecodesInSequence(data, pos + 12, r.value.chunks, q))
      && (|data| < pos + 12 ==> r == Failure(if |data| == pos + 8 then EOF else ShortID(|data| - (pos + 8))))
  {
    var len := LeU32(data[pos + 4..pos + 8]);
    if pos + 12 <= |data| {
      DecodeChildrenShape(data, pos + 12, Sub32(len, 4), []);
    }
  }

  /** Once the loop has read `cs` and the budget still runs, a failing next sub-chunk fails the loop with its error. */
  lemma {:induction false} ChildrenAbort(data: seq<byte>, pos: nat, l: u32, acc: seq<Chunk>, cs: seq<Chunk>, p: nat)
    requires pos <= |data| && DecodesInSequence(data, pos, cs, p) && BudgetRuns(l, cs)
    requires p <= |data| && DecodeChunk(data, p).0.Failure?
    ensures DecodeChildren(data, pos, l, acc) == (Failure(DecodeChunk(data, p).0.error), DecodeChunk(data, p).1)
    decreases cs
  {
    if cs != [] {
      var (rc, p') := DecodeChunk(data, pos);
      ChildrenAbort(data, p', Sub32(Sub32(l, 8), cs[0].len), acc + [cs[0]], cs[1..], p);
    }
  }

  /** An error in any sub-chunk aborts the whole RIFF/LIST decode, with that error. */
  lemma {:induction false} ChildFailureAborts(data: seq<byte>, pos: nat, cs: seq<Chunk>, p: nat)
    requires pos + 12 <= |data| && IsContainer(NewID(data[pos..pos + 4]))
    requires DecodesInSequence(data, pos + 12, cs, p)
    requires BudgetRuns(Sub32(LeU32(data[pos + 4..pos + 8]), 4), cs)
    requires p <= |data| && DecodeChunk(data, p).0.Failure?
    ensures DecodeChunk(data, pos) == (Failure(DecodeChunk(data, p).0.error), DecodeChunk(data, p).1)
  {
    ChildrenAbort(data, pos + 12, Sub32(LeU32(data[pos + 4..pos + 8]), 4), [], cs, p);
  }

  /** One turn of the budget loop: a sub-chunk decodes and the loop goes on from after it. */
  lemma {:induction false} ChildrenStep(data: seq<byte>, pos: nat, l: u32, acc: seq<Chunk>, c: Chunk, p: nat, r: Result<seq<Chunk>>, q: nat)
    requires pos <= p <= q <= |data| && l != 0
    requires DecodeChunk(data, pos) == (Success(c), p)
    requires DecodeChildren(data, p, Sub32(Sub32(l, 8), c.len), acc + [c]) == (r, q)
    ensures DecodeChildren(data, pos, l, acc) == (r, q)
  {
  }

  /** One turn of the budget loop whose sub-chunk fails: the loop fails with that error, there. */
  lemma {:induction false} ChildFails(data: seq<byte>, pos: nat, l: u32, acc: seq<Chunk>)
    requires pos <= |data| && l != 0 && DecodeChunk(data, pos).0.Failure?
    ensures DecodeChildren(data, pos, l, acc) == (Failure(DecodeChunk(data, pos).0.error), DecodeChunk(data, pos).1)
  {
  }

  /** A decoded sequence ends inside the input, and after where it starts. */
  lemma {:induction false} SequenceEnds(data: seq<byte>, pos: nat, cs: seq<Chunk>, q: nat)
    requires pos <= |data| && DecodesInSequence(data, pos, cs, q)
    ensures pos <= q <= |data|
    decreases cs
  {
    if cs != [] {
      var (r, p) := DecodeChunk(data, pos);
      SequenceEnds(data, p, cs[1..], q);
    }
  }

  /**
   * The converse of DecodeChildrenShape: chunks that decode one after another,
   * with a budget that stops right after the last, are what the loop returns.
   */
  lemma {:induction false} ChildrenOfSequence(data: seq<byte>, pos: nat, l: u32, acc: seq<Chunk>, cs: seq<Chunk>, q: nat)
    requires pos <= |data| && DecodesInSequence(data, pos, cs, q) && BudgetStops(l, cs)
    ensures DecodeChildren(data, pos, l, acc) == (Success(acc + cs), q)
    decreases cs
  {
    if cs == [] {
      assert acc + cs == acc;
    } else {
      var (r, p) := DecodeChunk(data, pos);
      ChildrenOfSequence(data, p, Sub32(Sub32(l, 8), cs[0].len), acc + [cs[0]], cs[1..], q);
      SequenceEnds(data, p, cs[1..], q);
      ConsAppend(acc, cs);
      ChildrenStep(data, pos, l, acc, cs[0], p, Success(acc + cs), q);
    }
  }

  // ---------------------------------------------------------------- well-formed trees

  /**
   * The trees ReadChunk can return: a leaf holds exactly Len data octets and no
   * list part; a RIFF/LIST chunk has no data, well-formed sub-chunks, and Len
   * such that the budget loop stops exactly after the last sub-chunk.
   */
  ghost predicate WellFormed(c: Chunk)
    decreases c
  {
    if IsContainer(c.id) then
      && c.data == []
      && BudgetStops(Sub32(c.len, 4), c.chunks)
      && forall i | 0 <= i < |c.chunks| :: WellFormed(c.chunks[i])
    else
      |c.data| == c.len && c.listID == ZeroID && c.chunks == []
  }

  /** Every tree ReadChunk returns is well-formed. */
  lemma {:induction false} DecodeWellFormed(data: seq<byte>, pos: nat)
    requires pos <= |data|
    ensures var (r, q) := DecodeChunk(data, pos); r.Success? ==> WellFormed(r.value)
    decreases |data| - pos, 0
  {
    var (r, q) := DecodeChunk(data, pos);
    if r.Success? && pos + 8 <= |data| {
      if IsContainer(NewID(data[pos..pos + 4])) {
        DecodeContainer(data, pos);
        DecodeChildrenWellFormed(data, pos + 12, Sub32(r.value.len, 4), []);
      } else {
        DecodeLeaf(data, pos);
      }
    }
  }

  lemma {:induction false} DecodeChildrenWellFormed(data: seq<byte>, pos: nat, l: u32, acc: seq<Chunk>)
    requires pos <= |data|
    ensures var (r, q) := DecodeChildren(data, pos, l, acc);
      r.Success? ==> forall i | |acc| <= i < |r.value| :: WellFormed(r.value[i])
    decreases |data| - pos, 1
  {
    if l != 0 {
      var (rc, p) := DecodeChunk(data, pos);
      if rc.Success? {
        DecodeWellFormed(data, pos);
        DecodeChildrenWellFormed(data, p, Sub32(Sub32(l, 8), rc.value.len), acc + [rc.value]);
      }
    }
  }

  // ---------------------------------------------------------------- round trips

  /** No leaf of the tree has an odd Len. */
  ghost predicate EvenLeaves(c: Chunk)
    decreases c
  {
    if IsContainer(c.id) then forall i | 0 <= i < |c.chunks| :: EvenLeaves(c.chunks[i])
    else c.len % 2 == 0
  }

  lemma {:induction false} EncodeAllAppend(a: seq<Chunk>, b: seq<Chunk>)
    ensures EncodeAll(a + b) == EncodeAll(a) + EncodeAll(b)
    decreases a
  {
    if a != [] {
      assert (a + b)[0] == a[0];
      assert (a + b)[1..] == a[1..] + b;
      EncodeAllAppend(a[1..], b);
      calc {
        EncodeAll(a + b);
        Encode(a[0]) + EncodeAll(a[1..] + b);
        Encode(a[0]) + (EncodeAll(a[1..]) + EncodeAll(b));
        (Encode(a[0]) + EncodeAll(a[1..])) + EncodeAll(b);
      }
    } else {
      assert a + b == b;
    }
  }

  /** Encoding one more chunk of a sequence appends its encoding. */
  lemma {:induction false} EncodeAllSnoc(head: seq<byte>, cs: seq<Chunk>, i: nat)
    requires i < |cs|
    ensures head + EncodeAll(cs[..i]) + Encode(cs[i]) == head + EncodeAll(cs[..i + 1])
  {
    assert cs[..i + 1] == cs[..i] + [cs[i]];
    EncodeAllAppend(cs[..i], [cs[i]]);
    assert EncodeAll([cs[i]]) == Encode(cs[i]) + EncodeAll([]);
  }

  /**
   * Decode then encode: a tree decoded from any input, none of whose leaves has
   * an odd Len, encodes to exactly the octets the decoder consumed.
   */
  lemma {:induction false} DecodeThenEncode(data: seq<byte>, pos: nat)
    requires pos <= |data|
    ensures var (r, q) := DecodeChunk(data, pos);
      r.Success? && EvenLeaves(r.value) ==> Encode(r.value) == data[pos..q]
    decreases |data| - pos, 1
  {
    var (r, q) := DecodeChunk(data, pos);
    if r.Success? && EvenLeaves(r.value) {
      if IsContainer(NewID(data[pos..pos + 4])) {
        DecodeThenEncodeContainer(data, pos);
      } else {
        DecodeThenEncodeLeaf(data, pos);
      }
    }
  }

  /** The header octets are the encoding of the decoded ID and Len. */
  lemma {:induction false} HeaderBytes(data: seq<byte>, pos: nat)
    requires pos + 8 <= |data|
    ensures Octets(NewID(data[pos..pos + 4])) + LeBytes(LeU32(data[pos + 4..pos + 8])) == data[pos..pos + 8]
  {
    LeU32ThenBytes(data[pos + 4..pos + 8]);
  }

  lemma {:induction false} DecodeThenEncodeLeaf(data: seq<byte>, pos: nat)
    requires pos + 8 <= |data| && !IsContainer(NewID(data[pos..pos + 4]))
    ensures var (r, q) := DecodeChunk(data, pos);
      r.Success? && r.value.len % 2 == 0 ==> Encode(r.value) == data[pos..q]
  {
    DecodeLeaf(data, pos);
    var (r, q) := DecodeChunk(data, pos);
    if r.Success? && r.value.len % 2 == 0 {
      var c := r.value;
      HeaderBytes(data, pos);
      assert Encode(c) == data[pos..pos + 8] + data[pos + 8..q];
      Split2(data, pos, pos + 8, q);
    }
  }

  lemma {:induction false} DecodeThenEncodeContainer(data: seq<byte>, pos: nat)
    requires pos + 8 <= |data| && IsContainer(NewID(data[pos..pos + 4]))
    ensures var (r, q) := DecodeChunk(data, pos);
      r.Success? && EvenLeaves(r.value) ==> Encode(r.value) == data[pos..q]
    decreases |data| - pos, 0
  {
    DecodeContainer(data, pos);
    var (r, q) := DecodeChunk(data, pos);
    if r.Success? && EvenLeaves(r.value) {
      var c := r.value;
      SequenceThenEncode(data, pos + 12, c.chunks, q);
      HeaderBytes(data, pos);
      assert Encode(c) == data[pos..pos + 8] + data[pos + 8..pos + 12] + data[pos + 12..q];
      Split3(data, pos, pos + 8, pos + 12, q);
    }
  }

  /** Chunks decoded one after another, none with an odd leaf, encode to the octets they were read from. */
  lemma {:induction false} SequenceThenEncode(data: seq<byte>, pos: nat, cs: seq<Chunk>, q: nat)
    requires pos <= |data| && DecodesInSequence(data, pos, cs, q)
    requires forall i | 0 <= i < |cs| :: EvenLeaves(cs[i])
    ensures pos <= q <= |data| && EncodeAll(cs) == data[pos..q]
    decreases |data| - pos, 2
  {
    SequenceEnds(data, pos, cs, q);
    if cs != [] {
      var (r, p) := DecodeChunk(data, pos);
      assert cs[0] in cs;
      DecodeThenEncode(data, pos);
      assert forall i | 0 <= i < |cs[1..]| :: cs[1..][i] == cs[i + 1];
      SequenceThenEncode(data, p, cs[1..], q);
      Split2(data, pos, p, q);
    }
  }

  /** The stream's last read is not a zero-length data read: the tree does not end with an empty leaf. */
  ghost predicate EndsNonEmpty(c: Chunk)
    decreases c
  {
    if IsContainer(c.id) then c.chunks == [] || EndsNonEmpty(c.chunks[|c.chunks| - 1])
    else c.len > 0
  }

  /**
   * Encode then decode: reading a well-formed tree's encoding gives the tree back
   * and consumes exactly the encoding, provided the input does not end right
   * after a zero-length leaf (the reader reports io.EOF for that empty read).
   */
  lemma {:induction false} EncodeThenDecode(c: Chunk, data: seq<byte>, pos: nat)
    requires WellFormed(c)
    requires pos + |Encode(c)| <= |data| && data[pos..pos + |Encode(c)|] == Encode(c)
    requires pos + |Encode(c)| < |data| || EndsNonEmpty(c)
    ensures DecodeChunk(data, pos) == (Success(c), pos + |Encode(c)|)
  {
    EncodeThenDecodeAt(c, data, pos, pos + |Encode(c)|);
  }

  /** EncodeThenDecode with the end of the encoding, q, named. */
  lemma {:induction false} EncodeThenDecodeAt(c: Chunk, data: seq<byte>, pos: nat, q: nat)
    requires WellFormed(c)
    requires q == pos + |Encode(c)| && q <= |data| && data[pos..q] == Encode(c)
    requires q < |data| || EndsNonEmpty(c)
    ensures DecodeChunk(data, pos) == (Success(c), q)
    decreases c, 1
  {
    var e := Encode(c);
    assert e[0..4] == Octets(c.id) && e[4..8] == LeBytes(c.len);
    Window(data, pos, e, 0, 4);
    Window(data, pos, e, 4, 8);
    LeBytesThenU32(c.len);
    assert ReadIDAt(data, pos) == (Success(c.id), pos + 4);
    assert ReadLenAt(data, pos + 4) == (Success(c.len), pos + 8);
    if IsContainer(c.id) {
      EncodeThenDecodeContainer(c, data, pos, q);
    } else {
      EncodeThenDecodeLeaf(c, data, pos, q);
    }
  }

  /** The leaf case of EncodeThenDecode, once the header is read. */
  lemma {:induction false} EncodeThenDecodeLeaf(c: Chunk, data: seq<byte>, pos: nat, q: nat)
    requires WellFormed(c) && !IsContainer(c.id)
    requires q == pos + |Encode(c)| && q <= |data| && data[pos..q] == Encode(c)
    requires q < |data| || EndsNonEmpty(c)
    requires ReadIDAt(data, pos) == (Success(c.id), pos + 4)
    requires ReadLenAt(data, pos + 4) == (Success(c.len), pos + 8)
    ensures DecodeChunk(data, pos) == (Success(c), q)
  {
    var e := Encode(c);
    var pad: seq<byte> := if c.len % 2 != 0 then [PadByte] else [];
    assert e == (Octets(c.id) + LeBytes(c.len)) + (c.data + pad);
    assert q == pos + 8 + c.len + PadLen(c);
    Window(data, pos, e, 8, 8 + c.len);
    assert e[8..8 + c.len] == c.data;
    assert EndsNonEmpty(c) ==> c.len > 0;
    assert pos + 8 < |data|;
    var (got, err, p3) := ReadAt(data, pos + 8, c.len);
    assert got == c.data && err == None && p3 == pos + 8 + c.len;
    if c.len % 2 != 0 {
      assert pos + 8 + c.len < |data|;
      assert ReadAt(data, p3, 1).2 == q;
    }
    LeafStep(data, pos, c, q);
  }

  /** A leaf whose header and data are read: it is the chunk, and the cursor ends after any pad. */
  lemma {:induction false} LeafStep(data: seq<byte>, pos: nat, c: Chunk, q: nat)
    requires pos + 8 + c.len <= |data| && !IsContainer(c.id) && c.listID == ZeroID && c.chunks == []
    requires ReadIDAt(data, pos) == (Success(c.id), pos + 4)
    requires ReadLenAt(data, pos + 4) == (Success(c.len), pos + 8)
    requires pos + 8 < |data| && data[pos + 8..pos + 8 + c.len] == c.data
    requires q == if c.len % 2 != 0 then ReadAt(data, pos + 8 + c.len, 1).2 else pos + 8 + c.len
    ensures DecodeChunk(data, pos) == (Success(c), q)
  {
  }

  /** The RIFF/LIST case of EncodeThenDecode, once the header is read. */
  lemma {:induction false} EncodeThenDecodeContainer(c: Chunk, data: seq<byte>, pos: nat, q: nat)
    requires WellFormed(c) && IsContainer(c.id)
    requires q == pos + |Encode(c)| && q <= |data| && data[pos..q] == Encode(c)
    requires q < |data| || EndsNonEmpty(c)
    requires ReadIDAt(data, pos) == (Success(c.id), pos + 4)
    requires ReadLenAt(data, pos + 4) == (Success(c.len), pos + 8)
    ensures DecodeChunk(data, pos) == (Success(c), q)
    decreases c, 0
  {
    var e := Encode(c);
    var ea := EncodeAll(c.chunks);
    assert e == Octets(c.id) + LeBytes(c.len) + Octets(c.listID) + ea;
    Window(data, pos, e, 8, 12);
    Window(data, pos, e, 12, |e|);
    assert e[12..] == ea;
    assert ReadIDAt(data, pos + 8) == (Success(c.listID), pos + 12);
    assert c.chunks != [] ==> c.chunks[|c.chunks| - 1] in c.chunks;
    EncodeThenDecodeAll(c.chunks, data, pos + 12, q);
    ChildrenOfSequence(data, pos + 12, Sub32(c.len, 4), [], c.chunks, q);
    assert [] + c.chunks == c.chunks;
    ContainerStep(data, pos, c.id, c.len, c.listID);
  }

  /** The encodings of `cs` side by side, ending at q, read back chunk by chunk, give `cs` in order. */
  lemma {:induction false} EncodeThenDecodeAll(cs: seq<Chunk>, data: seq<byte>, pos: nat, q: nat)
    requires forall i | 0 <= i < |cs| :: WellFormed(cs[i])
    requires q == pos + |EncodeAll(cs)| && q <= |data| && data[pos..q] == EncodeAll(cs)
    requires q < |data| || cs == [] || EndsNonEmpty(cs[|cs| - 1])
    ensures DecodesInSequence(data, pos, cs, q)
    decreases cs, 0
  {
    if cs != [] {
      var p := pos + |Encode(cs[0])|;
      HeadAndTail(cs, data, pos, p, q);
      EncodeThenDecodeAt(cs[0], data, pos, p);
      EncodeThenDecodeAll(cs[1..], data, p, q);
      SequenceCons(data, pos, cs, p, q);
    }
  }

  /** The requirements of EncodeThenDecodeAll, split between the first chunk and the others. */
  lemma {:induction false} HeadAndTail(cs: seq<Chunk>, data: seq<byte>, pos: nat, p: nat, q: nat)
    requires cs != [] && p == pos + |Encode(cs[0])|
    requires forall i | 0 <= i < |cs| :: WellFormed(cs[i])
    requires q == pos + |EncodeAll(cs)| && q <= |data| && data[pos..q] == EncodeAll(cs)
    requires q < |data| || EndsNonEmpty(cs[|cs| - 1])
    ensures var t := cs[1..];
      && WellFormed(cs[0])
      && p <= |data| && data[pos..p] == Encode(cs[0])
      && (p < |data| || EndsNonEmpty(cs[0]))
      && (forall i | 0 <= i < |t| :: WellFormed(t[i]))
      && q == p + |EncodeAll(t)| && data[p..q] == EncodeAll(t)
      && (q < |data| || t == [] || EndsNonEmpty(t[|t| - 1]))
  {
    EncodeAllWindows(cs, data, pos);
    assert cs[0] in cs;
    assert cs[1..] != [] ==> cs[1..][|cs[1..]| - 1] == cs[|cs| - 1];
    assert forall i | 0 <= i < |cs[1..]| :: cs[1..][i] == cs[i + 1];
  }

  /** A chunk decoded at `pos`, followed by a sequence decoded from where it ends. */
  lemma {:induction false} SequenceCons(data: seq<byte>, pos: nat, cs: seq<Chunk>, p: nat, q: nat)
    requires cs != [] && pos <= p <= |data|
    requires DecodeChunk(data, pos) == (Success(cs[0]), p)
    requires DecodesInSequence(data, p, cs[1..], q)
    ensures DecodesInSequence(data, pos, cs, q)
  {
  }

  lemma {:induction false} EncodeAllWindows(cs: seq<Chunk>, data: seq<byte>, pos: nat)
    requires cs != []
    requires pos + |EncodeAll(cs)| <= |data| && data[pos..pos + |EncodeAll(cs)|] == EncodeAll(cs)
    ensures var p := pos + |Encode(cs[0])|;
      && p + |EncodeAll(cs[1..])| == pos + |EncodeAll(cs)|
      && data[pos..p] == Encode(cs[0])
      && data[p..p + |EncodeAll(cs[1..])|] == EncodeAll(cs[1..])
  {
    var ea := EncodeAll(cs);
    var e0 := Encode(cs[0]);
    assert ea == e0 + EncodeAll(cs[1..]);
    Window(data, pos, ea, 0, |e0|);
    Window(data, pos, ea, |e0|, |ea|);
  }

  /** A RIFF/LIST chunk whose header and ListID are read: its result is the budget loop's. */
  lemma {:induction false} ContainerStep(data: seq<byte>, pos: nat, id: ID, len: u32, listID: ID)
    requires pos + 12 <= |data| && IsContainer(id)
    requires ReadIDAt(data, pos) == (Success(id), pos + 4)
    requires ReadLenAt(data, pos + 4) == (Success(len), pos + 8)
    requires ReadIDAt(data, pos + 8) == (Success(listID), pos + 12)
    ensures var (rch, p4) := DecodeChildren(data, pos + 12, Sub32(len, 4), []);
      DecodeChunk(data, pos) ==
        if rch.Failure? then (Failure(rch.error), p4) else (Success(Chunk(id, len, [], listID, rch.value)), p4)
  {
  }

  // ---------------------------------------------------------------- the writer chain

  /** A write through a wrapper with no error: the wrapper adds the count and keeps the error of the chain below. */
  lemma {:induction false} WrapperWrite(below: ChainState, limit: nat, n: int, p: seq<byte>)
    requires |below.errs| == |below.counts|
    ensures var (b, k, e) := ChainWrite(below, limit, p);
      ChainWrite(ChainState([None] + below.errs, [n] + below.counts, below.out), limit, p) ==
        (ChainState([e] + b.errs, [n + k] + b.counts, b.out), k, e)
  {
    var s := ChainState([None] + below.errs, [n] + below.counts, below.out);
    assert s.errs[1..] == below.errs && s.counts[1..] == below.counts;
  }

  /** The image of a leaf: the octets that go through WriteTo's wrapper, then the pad octet if Len is odd. */
  lemma {:induction false} LeafImage(c: Chunk)
    requires !IsContainer(c.id)
    ensures var written := Octets(c.id) + LeBytes(c.len) + c.data;
      && |Encode(c)| - PadLen(c) == |written|
      && Encode(c) == if c.len % 2 != 0 then written + [PadByte] else written
  {
  }

  /** The image of a RIFF/LIST chunk: header and ListID, then the sub-chunks' images; no pad. */
  lemma {:induction false} ListImage(c: Chunk)
    requires IsContainer(c.id)
    ensures Encode(c) == Octets(c.id) + LeBytes(c.len) + Octets(c.listID) + EncodeAll(c.chunks)
  {
  }

  /** A fresh wrapper in front of a chain that has not failed leaves it not failed. */
  lemma {:induction false} WrappedOpen(below: ChainState)
    requires Open(below)
    ensures Open(ChainState([None] + below.errs, [0] + below.counts, below.out))
  {
    var errs := [None] + below.errs;
    forall i | 0 <= i < |errs| ensures errs[i] == None {
      if i > 0 {
        assert errs[i] == below.errs[i - 1];
      }
    }
  }

  /** After writes through a chain that had not failed, the chain has not failed if its first wrapper has not. */
  lemma {:induction false} StillOpen(s: ChainState, limit: nat, p: seq<byte>)
    requires |s.errs| == |s.counts| && Open(s)
    ensures var s' := ChainWrite(s, limit, p).0;
      s'.errs != [] && s'.errs[0] == None ==> Open(s')
  {
    OpenChainWrite(s, limit, p);
  }

  /**
   * What a fresh wrapper in front of a chain that had not failed reports after
   * `p` went through it: the chain below is as if `p` had been written to it,
   * the count is what the sink took, and the error is set exactly when that
   * was less than all of `p`.
   */
  lemma {:induction false} WrapperOutcome(d0: ChainState, limit: nat, p: seq<byte>, whole: ChainState,
                                          below: ChainState, n: int, e: Option<Error>)
    requires |d0.errs| == |d0.counts| && Open(d0)
    requires whole == ChainWrite(ChainState([None] + d0.errs, [0] + d0.counts, d0.out), limit, p).0
    requires whole == ChainState([e] + below.errs, [n] + below.counts, below.out)
    ensures below == ChainWrite(d0, limit, p).0
    ensures n == Min(|p|, Room(d0.out, limit)) && e == (if n < |p| then Some(ShortWrite) else None)
  {
    WrapperWrite(d0, limit, 0, p);
    OpenChainWrite(d0, limit, p);
    var (b, k, e') := ChainWrite(d0, limit, p);
    assert below.errs == whole.errs[1..] == b.errs;
    assert below.counts == whole.counts[1..] == b.counts;
  }

  /** Once the first wrapper of a chain has failed, whatever else would have been written changes nothing. */
  lemma {:induction false} StoppedRest(w0: ChainState, limit: nat, pre: seq<byte>, rest: seq<byte>, now: ChainState)
    requires |w0.errs| == |w0.counts| && Open(w0)
    requires now == ChainWrite(w0, limit, pre).0 && now.errs != [] && now.errs[0].Some?
    ensures now == ChainWrite(w0, limit, pre + rest).0
  {
    StoppedChain(now, limit, rest);
    ChainWriteSplit(w0, limit, pre, rest);
  }

  /** The encodings of a prefix and of the rest of a sequence of chunks make up the encoding of all of it. */
  lemma {:induction false} EncodeAllSplitAt(head: seq<byte>, cs: seq<Chunk>, i: nat)
    requires i <= |cs|
    ensures head + EncodeAll(cs[..i]) + EncodeAll(cs[i..]) == head + EncodeAll(cs)
  {
    EncodeAllAppend(cs[..i], cs[i..]);
    assert cs[..i] + cs[i..] == cs;
  }

  /** WrapperOutcome for a RIFF/LIST chunk, all of whose octets go through the wrapper. */
  lemma {:induction false} ListOutcome(d0: ChainState, limit: nat, c: Chunk, whole: ChainState,
                                       below: ChainState, n: int, e: Option<Error>)
    requires IsContainer(c.id) && |d0.errs| == |d0.counts| && Open(d0)
    requires whole == ChainWrite(ChainState([None] + d0.errs, [0] + d0.counts, d0.out), limit, Encode(c)).0
    requires whole == ChainState([e] + below.errs, [n] + below.counts, below.out)
    ensures below == ChainWrite(d0, limit, Encode(c)).0
    ensures n == Min(|Encode(c)| - PadLen(c), Room(d0.out, limit))
    ensures e == if n < |Encode(c)| - PadLen(c) then Some(ShortWrite) else None
  {
    WrapperOutcome(d0, limit, Encode(c), whole, below, n, e);
  }

  /**
   * WrapperOutcome for a leaf, whose ID, Len and Data go through the wrapper:
   * the pad octet, written straight to the chain below, completes the image.
   */
  lemma {:induction false} LeafOutcome(d0: ChainState, limit: nat, c: Chunk, whole: ChainState,
                                       below: ChainState, n: int, e: Option<Error>)
    requires !IsContainer(c.id) && |d0.errs| == |d0.counts| && Open(d0)
    requires whole == ChainWrite(ChainState([None] + d0.errs, [0] + d0.counts, d0.out), limit,
                                 Octets(c.id) + LeBytes(c.len) + c.data).0
    requires whole == ChainState([e] + below.errs, [n] + below.counts, below.out)
    ensures |below.errs| == |below.counts|
    ensures c.len % 2 != 0 ==> ChainWrite(below, limit, [PadByte]).0 == ChainWrite(d0, limit, Encode(c)).0
    ensures c.len % 2 == 0 ==> below == ChainWrite(d0, limit, Encode(c)).0
    ensures n == Min(|Encode(c)| - PadLen(c), Room(d0.out, limit))
    ensures e == if n < |Encode(c)| - PadLen(c) then Some(ShortWrite) else None
  {
    var written := Octets(c.id) + LeBytes(c.len) + c.data;
    LeafImage(c);
    WrapperOutcome(d0, limit, written, whole, below, n, e);
    if c.len % 2 != 0 {
      ChainWriteSplit(d0, limit, written, [PadByte]);
    }
  }

  /**
   * The end of WriteTo's sub-chunk loop: either every sub-chunk was written, or
   * the chain has failed and the ones left would have changed nothing.
   */
  lemma {:induction false} RestOfList(w0: ChainState, limit: nat, head: seq<byte>, cs: seq<Chunk>, i: nat, now: ChainState)
    requires |w0.errs| == |w0.counts| && Open(w0) && i <= |cs|
    requires now == ChainWrite(w0, limit, head + EncodeAll(cs[..i])).0
    requires i < |cs| ==> now.errs != [] && now.errs[0].Some?
    ensures now == ChainWrite(w0, limit, head + EncodeAll(cs)).0
  {
    if i < |cs| {
      StoppedRest(w0, limit, head + EncodeAll(cs[..i]), EncodeAll(cs[i..]), now);
      EncodeAllSplitAt(head, cs, i);
    } else {
      assert cs[..i] == cs;
    }
  }

  /** A wrapper whose error is set writes nothing, changes nothing and returns its error. */
  lemma {:induction false} StickyError(s: ChainState, limit: nat, p: seq<byte>)
    requires |s.errs| == |s.counts| && s.errs != [] && s.errs[0].Some?
    ensures ChainWrite(s, limit, p) == (s, 0, s.errs[0])
  {
  }

  /**
   * A write through a chain none of whose wrappers has failed: the sink takes what
   * fits, every wrapper's count grows by exactly the number of octets the sink
   * reports, and every wrapper keeps the sink's error.
   */
  lemma {:induction false} OpenChainWrite(s: ChainState, limit: nat, p: seq<byte>)
    requires |s.errs| == |s.counts| && Open(s)
    ensures var (s', k, e) := ChainWrite(s, limit, p);
      && k == Min(|p|, Room(s.out, limit))
      && e == (if k < |p| then Some(ShortWrite) else None)
      && s' == ChainState(s'.errs, AddAll(s.counts, k), s.out + p[..k])
      && AllErr(s'.errs, e)
    decreases |s.errs|
  {
    if s.errs != [] {
      var t := ChainState(s.errs[1..], s.counts[1..], s.out);
      OpenChainWrite(t, limit, p);
      var (t', k, e) := ChainWrite(t, limit, p);
      var (s', k2, e2) := ChainWrite(s, limit, p);
      assert s'.counts == [s.counts[0] + k] + t'.counts;
      assert AddAll(s.counts, k) == [s.counts[0] + k] + AddAll(s.counts[1..], k);
    }
  }

  /** Two chains of the same depth whose wrappers all hold the same error have the same errors. */
  lemma {:induction false} SameErrors(a: seq<Option<Error>>, b: seq<Option<Error>>, e: Option<Error>)
    requires |a| == |b| && AllErr(a, e) && AllErr(b, e)
    ensures a == b
  {
  }

  /** A chain whose first wrapper has failed, or a sink with no room left, takes nothing and does not change. */
  lemma {:induction false} StoppedChain(s: ChainState, limit: nat, p: seq<byte>)
    requires |s.errs| == |s.counts|
    requires s.errs == [] ==> Room(s.out, limit) == 0
    requires s.errs != [] ==> s.errs[0].Some?
    ensures ChainWrite(s, limit, p).0 == s
  {
    if s.errs == [] {
      assert s.out + p[..0] == s.out;
    }
  }

  /** Writing p1 and then p2 through a chain that has not failed leaves it as writing p1 + p2 at once. */
  lemma {:induction false} ChainWriteSplit(s: ChainState, limit: nat, p1: seq<byte>, p2: seq<byte>)
    requires |s.errs| == |s.counts| && Open(s)
    ensures ChainWrite(ChainWrite(s, limit, p1).0, limit, p2).0 == ChainWrite(s, limit, p1 + p2).0
  {
    var (s1, k1, e1) := ChainWrite(s, limit, p1);
    OpenChainWrite(s, limit, p1);
    OpenChainWrite(s, limit, p1 + p2);
    var (s12, k12, e12) := ChainWrite(s, limit, p1 + p2);
    if k1 < |p1| {
      ShortThenAny(s, limit, p1, p2, s1, k1, e1, s12, k12, e12);
    } else {
      FullThenRest(s, limit, p1, p2, s1, k1, e1, s12, k12, e12);
    }
  }

  /** The short-write case of ChainWriteSplit: the first write stops the chain. */
  lemma {:induction false} ShortThenAny(s: ChainState, limit: nat, p1: seq<byte>, p2: seq<byte>,
                                          s1: ChainState, k1: nat, e1: Option<Error>,
                                          s12: ChainState, k12: nat, e12: Option<Error>)
    requires |s.errs| == |s.counts| && |s1.errs| == |s1.counts| == |s12.errs| == |s.errs|
    requires k1 == Min(|p1|, Room(s.out, limit)) && k1 < |p1|
    requires e1 == Some(ShortWrite) && AllErr(s1.errs, e1)
    requires s1 == ChainState(s1.errs, AddAll(s.counts, k1), s.out + p1[..k1])
    requires k12 == Min(|p1 + p2|, Room(s.out, limit)) && e12 == (if k12 < |p1 + p2| then Some(ShortWrite) else None)
    requires s12 == ChainState(s12.errs, AddAll(s.counts, k12), s.out + (p1 + p2)[..k12]) && AllErr(s12.errs, e12)
    ensures ChainWrite(s1, limit, p2).0 == s12
  {
    assert k12 == k1;
    assert (p1 + p2)[..k12] == p1[..k1];
    SameErrors(s1.errs, s12.errs, e1);
    if s1.errs != [] {
      assert s1.errs[0] == e1;
    }
    StoppedChain(s1, limit, p2);
  }

  /** The full-write case of ChainWriteSplit: the second write continues where the first ended. */
  lemma {:induction false} FullThenRest(s: ChainState, limit: nat, p1: seq<byte>, p2: seq<byte>,
                                          s1: ChainState, k1: nat, e1: Option<Error>,
                                          s12: ChainState, k12: nat, e12: Option<Error>)
    requires |s.errs| == |s.counts| && |s1.errs| == |s1.counts| == |s12.errs| == |s.errs|
    requires k1 == Min(|p1|, Room(s.out, limit)) && k1 == |p1|
    requires e1 == None && AllErr(s1.errs, e1)
    requires s1 == ChainState(s1.errs, AddAll(s.counts, k1), s.out + p1[..k1])
    requires k12 == Min(|p1 + p2|, Room(s.out, limit)) && e12 == (if k12 < |p1 + p2| then Some(ShortWrite) else None)
    requires s12 == ChainState(s12.errs, AddAll(s.counts, k12), s.out + (p1 + p2)[..k12]) && AllErr(s12.errs, e12)
    ensures ChainWrite(s1, limit, p2).0 == s12
  {
    assert Open(s1);
    OpenChainWrite(s1, limit, p2);
    var (s2, k2, e2) := ChainWrite(s1, limit, p2);
    assert p1[..k1] == p1;
    assert k12 == k1 + k2;
    assert (p1 + p2)[..k12] == p1 + p2[..k2];
    assert e12 == e2;
    assert AddAll(AddAll(s.counts, k1), k2) == AddAll(s.counts, k12);
    SameErrors(s2.errs, s12.errs, e2);
  }
}
