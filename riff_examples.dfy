/**
 * Concrete inputs and what the decoder and the encoder are proved to make of
 * them: a minimal RIFF/WAVE file, the same file with a Len that leaves the
 * budget loop short, LISTs whose odd-length children show that the budget
 * ignores pad octets, and the Len values of the reader test's expected tree.
 */
module RiffExamples {
  import opened Bytes
  import opened Riff
  import opened RiffProofs

  const WaveID: ID := ID(0x57, 0x41, 0x56, 0x45)   // "WAVE"
  const DataID: ID := ID(0x64, 0x61, 0x74, 0x61)   // "data"
  const InfoID: ID := ID(0x49, 0x4E, 0x46, 0x4F)   // "INFO"
  const AbcdID: ID := ID(0x61, 0x62, 0x63, 0x64)   // "abcd"
  const EfghID: ID := ID(0x65, 0x66, 0x67, 0x68)   // "efgh"

  /** An identifier stored at `pos` is read back by ReadIDAt. */
  lemma {:induction false} IDAt(data: seq<byte>, pos: nat, id: ID)
    requires pos + 4 <= |data| && data[pos..pos + 4] == Octets(id)
    ensures ReadIDAt(data, pos) == (Success(id), pos + 4)
  {
    IDOctets(id, data[pos..pos + 4]);
  }

  /** A header stored at `pos` is read back by ReadIDAt and ReadLenAt. */
  lemma {:induction false} HeaderAt(data: seq<byte>, pos: nat, id: ID, len: u32)
    requires pos + 8 <= |data| && data[pos..pos + 4] == Octets(id) && data[pos + 4..pos + 8] == LeBytes(len)
    ensures ReadIDAt(data, pos) == (Success(id), pos + 4)
    ensures ReadLenAt(data, pos + 4) == (Success(len), pos + 8)
  {
    IDAt(data, pos, id);
    LeBytesThenU32(len);
  }

  /** Four stored octets, read as a slice. */
  lemma {:induction false} Slice4(data: seq<byte>, pos: nat, a: byte, b: byte, c: byte, d: byte)
    requires pos + 4 <= |data| && data[pos] == a && data[pos + 1] == b && data[pos + 2] == c && data[pos + 3] == d
    ensures data[pos..pos + 4] == [a, b, c, d]
  {
  }

  /** The three fields of a container header stored at the start of `data`, as slices. */
  lemma {:induction false} HeadSlices(data: seq<byte>, a0: byte, a1: byte, a2: byte, a3: byte, len: byte,
                                      b0: byte, b1: byte, b2: byte, b3: byte)
    requires |data| >= 12 && data[..12] == [a0, a1, a2, a3, len, 0, 0, 0, b0, b1, b2, b3]
    ensures data[0..4] == [a0, a1, a2, a3] && data[4..8] == [len, 0, 0, 0] && data[8..12] == [b0, b1, b2, b3]
  {
    assert data[0..4] == data[..12][0..4];
    assert data[4..8] == data[..12][4..8];
    assert data[8..12] == data[..12][8..12];
  }

  /** "RIFF" <len> "WAVE" "data" <4> 01 02 03 04: twenty-four octets. */
  function WaveBytes(len: byte): (b: seq<byte>)
    ensures |b| == 24
  {
    [0x52, 0x49, 0x46, 0x46, len, 0, 0, 0, 0x57, 0x41, 0x56, 0x45,
     0x64, 0x61, 0x74, 0x61, 4, 0, 0, 0, 1, 2, 3, 4]
  }

  const DataLeaf: Chunk := Chunk(DataID, 4, [1, 2, 3, 4], ZeroID, [])

  /** The headers of WaveBytes, as the decoder reads them. */
  lemma {:induction false} WaveHeaders(data: seq<byte>, len: byte)
    requires data == WaveBytes(len)
    ensures ReadIDAt(data, 0) == (Success(RiffTag), 4) && ReadLenAt(data, 4) == (Success(len as u32), 8)
    ensures ReadIDAt(data, 8) == (Success(WaveID), 12)
  {
    var head := data[..12];
    assert head == [0x52, 0x49, 0x46, 0x46, len, 0, 0, 0, 0x57, 0x41, 0x56, 0x45];
    HeadSlices(data, 0x52, 0x49, 0x46, 0x46, len, 0x57, 0x41, 0x56, 0x45);
    HeaderAt(data, 0, RiffTag, len as u32);
    IDAt(data, 8, WaveID);
  }

  /** The leaf of WaveBytes decodes to DataLeaf and ends the input. */
  lemma {:induction false} WaveLeaf(data: seq<byte>, len: byte)
    requires data == WaveBytes(len)
    ensures DecodeChunk(data, 12) == (Success(DataLeaf), 24)
  {
    Slice4(data, 12, 0x64, 0x61, 0x74, 0x61);
    Slice4(data, 16, 4, 0, 0, 0);
    Slice4(data, 20, 1, 2, 3, 4);
    HeaderAt(data, 12, DataID, 4);
    LeafStep(data, 12, DataLeaf, 24);
  }

  /**
   * With Len 16 (four for "WAVE", eight for the header of "data", four for its
   * data) the file decodes to one RIFF chunk holding the leaf and consumes all
   * 24 octets.
   */
  lemma {:induction false} WaveFile(data: seq<byte>)
    requires data == WaveBytes(16)
    ensures DecodeChunk(data, 0) == (Success(Chunk(RiffTag, 16, [], WaveID, [DataLeaf])), 24)
  {
    WaveHeaders(data, 16);
    WaveLeaf(data, 16);
    assert [] + [DataLeaf] == [DataLeaf];
    assert DecodeChildren(data, 24, Sub32(Sub32(12, 8), 4), [DataLeaf]) == (Success([DataLeaf]), 24);
    ChildrenStep(data, 12, 12, [], DataLeaf, 24, Success([DataLeaf]), 24);
    ContainerStep(data, 0, RiffTag, 16, WaveID);
  }

  /** Encoding the tree WaveFile decodes gives back the 24 octets. */
  lemma {:induction false} WaveFileEncodes()
    ensures Encode(Chunk(RiffTag, 16, [], WaveID, [DataLeaf])) == WaveBytes(16)
  {
    assert EncodeAll([DataLeaf]) == Encode(DataLeaf);
  }

  /**
   * With Len 12 the budget after the leaf is 12 - 4 - 8 - 4, which wraps to
   * 2^32 - 4 instead of reaching zero: the loop reads another sub-chunk past
   * the end of the file and the whole decode fails with EOF.
   */
  lemma {:induction false} WaveFileShortLen(data: seq<byte>)
    requires data == WaveBytes(12)
    ensures DecodeChunk(data, 0) == (Failure(EOF), 24)
  {
    WaveHeaders(data, 12);
    WaveLeaf(data, 12);
    var l := Sub32(Sub32(8, 8), 4);
    assert l == TwoTo32 - 4;
    assert DecodeChunk(data, 24) == (Failure(EOF), 24);
    assert [] + [DataLeaf] == [DataLeaf];
    ChildFails(data, 24, l, [DataLeaf]);
    ChildrenStep(data, 12, 8, [], DataLeaf, 24, Failure(EOF), 24);
    ContainerStep(data, 0, RiffTag, 12, WaveID);
  }

  /**
   * "LIST" <len> "INFO", then "abcd" <3> AA BB CC and a zero pad octet, then
   * "efgh" <2> 11 22: thirty-four octets.
   */
  function ListBytes(len: byte): (b: seq<byte>)
    ensures |b| == 34
  {
    [0x4C, 0x49, 0x53, 0x54, len, 0, 0, 0, 0x49, 0x4E, 0x46, 0x4F,
     0x61, 0x62, 0x63, 0x64, 3, 0, 0, 0, 0xAA, 0xBB, 0xCC, 0x00,
     0x65, 0x66, 0x67, 0x68, 2, 0, 0, 0, 0x11, 0x22]
  }

  const OddLeaf: Chunk := Chunk(AbcdID, 3, [0xAA, 0xBB, 0xCC], ZeroID, [])
  const EvenLeaf: Chunk := Chunk(EfghID, 2, [0x11, 0x22], ZeroID, [])

  /** The headers of ListBytes, as the decoder reads them. */
  lemma {:induction false} ListHeaders(data: seq<byte>, len: byte)
    requires data == ListBytes(len)
    ensures ReadIDAt(data, 0) == (Success(ListTag), 4) && ReadLenAt(data, 4) == (Success(len as u32), 8)
    ensures ReadIDAt(data, 8) == (Success(InfoID), 12)
  {
    var head := data[..12];
    assert head == [0x4C, 0x49, 0x53, 0x54, len, 0, 0, 0, 0x49, 0x4E, 0x46, 0x4F];
    HeadSlices(data, 0x4C, 0x49, 0x53, 0x54, len, 0x49, 0x4E, 0x46, 0x4F);
    HeaderAt(data, 0, ListTag, len as u32);
    IDAt(data, 8, InfoID);
  }

  /** The odd leaf of ListBytes decodes to OddLeaf and consumes its pad octet. */
  lemma {:induction false} ListOddLeaf(data: seq<byte>, len: byte)
    requires data == ListBytes(len)
    ensures DecodeChunk(data, 12) == (Success(OddLeaf), 24)
  {
    Slice4(data, 12, 0x61, 0x62, 0x63, 0x64);
    Slice4(data, 16, 3, 0, 0, 0);
    assert data[20..23] == [0xAA, 0xBB, 0xCC];
    HeaderAt(data, 12, AbcdID, 3);
    assert ReadAt(data, 23, 1).2 == 24;
    LeafStep(data, 12, OddLeaf, 24);
  }

  /** The even leaf of ListBytes decodes to EvenLeaf and ends the input. */
  lemma {:induction false} ListEvenLeaf(data: seq<byte>, len: byte)
    requires data == ListBytes(len)
    ensures DecodeChunk(data, 24) == (Success(EvenLeaf), 34)
  {
    Slice4(data, 24, 0x65, 0x66, 0x67, 0x68);
    Slice4(data, 28, 2, 0, 0, 0);
    assert data[32..34] == [0x11, 0x22];
    HeaderAt(data, 24, EfghID, 2);
    LeafStep(data, 24, EvenLeaf, 34);
  }

  /**
   * The pad octet is not charged to the budget. With the Len a RIFF writer
   * would store (26: everything after the Len field) the budget goes 22, 11,
   * 1 and the decoder reads past the end: EOF.
   */
  lemma {:induction false} PadNotCounted(data: seq<byte>)
    requires data == ListBytes(26)
    ensures DecodeChunk(data, 0) == (Failure(EOF), 34)
  {
    ListHeaders(data, 26);
    ListOddLeaf(data, 26);
    ListEvenLeaf(data, 26);
    assert DecodeChunk(data, 34) == (Failure(EOF), 34);
    ChildFails(data, 34, 1, [OddLeaf, EvenLeaf]);
    assert [OddLeaf] + [EvenLeaf] == [OddLeaf, EvenLeaf];
    ChildrenStep(data, 24, 11, [OddLeaf], EvenLeaf, 34, Failure(EOF), 34);
    assert [] + [OddLeaf] == [OddLeaf];
    ChildrenStep(data, 12, 22, [], OddLeaf, 24, Failure(EOF), 34);
    ContainerStep(data, 0, ListTag, 26, InfoID);
  }

  /** "LIST" <len> "INFO", then only "abcd" <3> AA BB CC and its zero pad octet: twenty-four octets. */
  function OddLastBytes(len: byte): (b: seq<byte>)
    ensures |b| == 24
  {
    [0x4C, 0x49, 0x53, 0x54, len, 0, 0, 0, 0x49, 0x4E, 0x46, 0x4F,
     0x61, 0x62, 0x63, 0x64, 3, 0, 0, 0, 0xAA, 0xBB, 0xCC, 0x00]
  }

  /**
   * The pad octet of the last child is not charged either. With Len 16, which
   * counts it, the budget goes 12, 1 and the decoder reads past the end: EOF.
   */
  lemma {:induction false} PadCountedLast(data: seq<byte>)
    requires data == OddLastBytes(16)
    ensures DecodeChunk(data, 0) == (Failure(EOF), 24)
  {
    assert data[..12] == [0x4C, 0x49, 0x53, 0x54, 16, 0, 0, 0, 0x49, 0x4E, 0x46, 0x4F];
    HeadSlices(data, 0x4C, 0x49, 0x53, 0x54, 16, 0x49, 0x4E, 0x46, 0x4F);
    HeaderAt(data, 0, ListTag, 16);
    IDAt(data, 8, InfoID);
    Slice4(data, 12, 0x61, 0x62, 0x63, 0x64);
    Slice4(data, 16, 3, 0, 0, 0);
    assert data[20..23] == [0xAA, 0xBB, 0xCC];
    HeaderAt(data, 12, AbcdID, 3);
    assert ReadAt(data, 23, 1).2 == 24;
    LeafStep(data, 12, OddLeaf, 24);
    assert DecodeChunk(data, 24) == (Failure(EOF), 24);
    ChildFails(data, 24, 1, [OddLeaf]);
    assert [] + [OddLeaf] == [OddLeaf];
    ChildrenStep(data, 12, 12, [], OddLeaf, 24, Failure(EOF), 24);
    ContainerStep(data, 0, ListTag, 16, InfoID);
  }

  /** A leaf holding one octet, so that its image carries a pad octet: ten octets in all. */
  const OneLeaf: Chunk := Chunk(AbcdID, 1, [0xAA], ZeroID, [])

  /** `k` copies of OneLeaf. */
  function Ones(k: nat): (cs: seq<Chunk>)
    ensures |cs| == k && forall i | 0 <= i < k :: cs[i] == OneLeaf
  {
    seq(k, _ => OneLeaf)
  }

  /** A budget of 9k + r is used up exactly by k one-octet leaves and then `t`, when `t` takes the last r. */
  lemma {:induction false} OnesThen(k: nat, r: u32, t: Chunk)
    requires 9 * k + r < TwoTo32 && r != 0 && Sub32(Sub32(r, 8), t.len) == 0
    ensures BudgetStops(9 * k + r, Ones(k) + [t])
  {
    if k == 0 {
      assert (Ones(0) + [t])[1..] == [];
    } else {
      OnesThen(k - 1, r, t);
      assert (Ones(k) + [t])[1..] == Ones(k - 1) + [t];
      assert Sub32(Sub32(9 * k + r, 8), 1) == 9 * (k - 1) + r;
    }
  }

  /** The image of a RIFF/LIST chunk with one more sub-chunk `t` is its image followed by that of `t`. */
  lemma {:induction false} ImageWithSibling(c: Chunk, t: Chunk)
    requires IsContainer(c.id)
    ensures Encode(c.(chunks := c.chunks + [t])) == Encode(c) + Encode(t)
  {
    ListImage(c);
    ListImage(c.(chunks := c.chunks + [t]));
    EncodeAllAppend(c.chunks, [t]);
    assert EncodeAll([t]) == Encode(t) by {
      assert [t][1..] == [];
    }
  }

  /**
   * A LIST of k one-octet leaves whose Len, 4 + 10k, counts their pad octets,
   * followed by a sibling leaf of Len k - 8. The leaves leave the budget at k,
   * which is what the sibling is charged, so the loop stops at zero after it:
   * the decode succeeds, with the sibling taken in as one more child of the
   * LIST. (With k = 10 the sibling can be EvenLeaf.)
   */
  lemma {:induction false} PadSwallowsSibling(k: nat, t: Chunk, data: seq<byte>)
    requires 8 < k && 10 * k + 4 < TwoTo32
    requires !IsContainer(t.id) && t.len == k - 8 && |t.data| == t.len && t.listID == ZeroID && t.chunks == []
    requires data == Encode(Chunk(ListTag, 10 * k + 4, [], InfoID, Ones(k))) + Encode(t)
    ensures DecodeChunk(data, 0) == (Success(Chunk(ListTag, 10 * k + 4, [], InfoID, Ones(k) + [t])), |data|)
  {
    var c := Chunk(ListTag, 10 * k + 4, [], InfoID, Ones(k) + [t]);
    ImageWithSibling(Chunk(ListTag, 10 * k + 4, [], InfoID, Ones(k)), t);
    assert Encode(c) == data;
    OnesThen(k, k, t);
    assert Sub32(10 * k + 4, 4) == 9 * k + k;
    forall i | 0 <= i < |c.chunks|
      ensures WellFormed(c.chunks[i])
    {
      if i < k {
        assert c.chunks[i] == OneLeaf;
      } else {
        assert c.chunks[i] == t;
      }
    }
    assert WellFormed(c);
    assert c.chunks[|c.chunks| - 1] == t;
    assert EndsNonEmpty(c);
    assert data[0..|data|] == data;
    EncodeThenDecode(c, data, 0);
  }

  /** Only Len 25, which leaves the pad octet out, decodes the list: the budget goes 21, 10, 0. */
  lemma {:induction false} PadLeftOut(data: seq<byte>)
    requires data == ListBytes(25)
    ensures DecodeChunk(data, 0) == (Success(Chunk(ListTag, 25, [], InfoID, [OddLeaf, EvenLeaf])), 34)
  {
    ListHeaders(data, 25);
    ListOddLeaf(data, 25);
    ListEvenLeaf(data, 25);
    assert [OddLeaf] + [EvenLeaf] == [OddLeaf, EvenLeaf];
    assert DecodeChildren(data, 34, 0, [OddLeaf, EvenLeaf]) == (Success([OddLeaf, EvenLeaf]), 34);
    ChildrenStep(data, 24, 10, [OddLeaf], EvenLeaf, 34, Success([OddLeaf, EvenLeaf]), 34);
    assert [] + [OddLeaf] == [OddLeaf];
    ChildrenStep(data, 12, 21, [], OddLeaf, 24, Success([OddLeaf, EvenLeaf]), 34);
    ContainerStep(data, 0, ListTag, 25, InfoID);
  }

  /** The images of the two leaves of ListBytes; the odd one ends in '0'. */
  lemma {:induction false} LeafImages()
    ensures Encode(OddLeaf) == [0x61, 0x62, 0x63, 0x64, 3, 0, 0, 0, 0xAA, 0xBB, 0xCC, PadByte]
    ensures Encode(EvenLeaf) == [0x65, 0x66, 0x67, 0x68, 2, 0, 0, 0, 0x11, 0x22]
  {
  }

  /** Encoding the list PadLeftOut decodes gives back its input, except that the pad octet becomes '0'. */
  lemma {:induction false} PadRewritten()
    ensures Encode(Chunk(ListTag, 25, [], InfoID, [OddLeaf, EvenLeaf])) == ListBytes(25)[23 := PadByte]
  {
    LeafImages();
    assert EncodeAll([OddLeaf, EvenLeaf]) == Encode(OddLeaf) + Encode(EvenLeaf) by {
      assert [OddLeaf, EvenLeaf][1..] == [EvenLeaf];
      assert EncodeAll([EvenLeaf]) == Encode(EvenLeaf);
    }
  }

  const FmtID: ID := ID(0x66, 0x6D, 0x74, 0x20)    // "fmt "
  const FactID: ID := ID(0x66, 0x61, 0x63, 0x74)   // "fact"
  const IsftID: ID := ID(0x49, 0x53, 0x46, 0x54)   // "ISFT"

  /** The sub-chunks, with their Len, of the RIFF/WAVE tree the reader test expects. */
  const FixtureInfo: Chunk := Chunk(ListTag, 74, [], InfoID, [Chunk(IsftID, 62, [], ZeroID, [])])
  const FixtureChunks: seq<Chunk> :=
    [Chunk(FmtID, 30, [], ZeroID, []), Chunk(FactID, 4, [], ZeroID, []),
     Chunk(DataID, 7800, [], ZeroID, []), FixtureInfo]

  /**
   * The Len values of that tree agree with the budget loop: RIFF 7944 leaves
   * 7940 = 38 + 12 + 7808 + 82, and LIST 74 leaves 70 = 8 + 62, each stopping
   * exactly at zero. Every Len is even, so no pad octet is at stake.
   */
  lemma {:induction false} FixtureBudget()
    ensures BudgetStops(Sub32(7944, 4), FixtureChunks)
    ensures BudgetStops(Sub32(74, 4), FixtureInfo.chunks)
  {
    assert BudgetStops(0, FixtureChunks[4..]);
    assert BudgetStops(82, FixtureChunks[3..]);
    assert BudgetStops(7890, FixtureChunks[2..]);
    assert BudgetStops(7902, FixtureChunks[1..]);
    assert BudgetStops(0, FixtureInfo.chunks[1..]);
  }
}
