/**
 * The codec of riff.go as the program runs it: a reader object whose cursor
 * moves as octets are read, the recursive ReadChunk with its sub-chunk loop, the
 * `writer` wrapper whose `err` and `n` fields change on every write, and
 * Chunk.WriteTo, which builds a fresh wrapper around its destination and writes
 * through it. Each method is proved against the functions of module Riff.
 */
module RiffIO {
  import opened Bytes
  import opened Riff
  import opened RiffProofs

  // ---------------------------------------------------------------- reading

  /** An in-memory reader (Go's bytes.Reader): fixed contents and a cursor. */
  class Reader {
    const data: seq<byte>
    var pos: nat

    predicate Valid()
      reads this
    {
      pos <= |data|
    }

    constructor (data: seq<byte>)
      ensures Valid() && this.data == data && pos == 0
    {
      this.data := data;
      pos := 0;
    }

    /** Read with a k-octet buffer: the octets delivered and the error, as ReadAt says. */
    method Read(k: nat) returns (got: seq<byte>, err: Option<Error>)
      requires Valid()
      modifies this
      ensures Valid() && (got, err, pos) == ReadAt(data, old(pos), k)
    {
      if pos == |data| {
        return [], Some(EOF);
      }
      var m := Min(k, |data| - pos);
      got := data[pos..pos + m];
      err := None;
      pos := pos + m;
    }
  }

  /** ID.ReadFrom: a single Read of four octets. */
  method ReadID(r: Reader) returns (res: Result<ID>)
    requires r.Valid()
    modifies r
    ensures r.Valid() && (res, r.pos) == ReadIDAt(r.data, old(r.pos))
  {
    var got, err := r.Read(4);
    if err.Some? {
      return Failure(err.value);
    }
    if |got| != 4 {
      return Failure(ShortID(|got|));
    }
    return Success(NewID(got));
  }

  /** io.ReadFull: Read until k octets have arrived or the reader reports an error. */
  method ReadFull(r: Reader, k: nat) returns (res: Result<seq<byte>>)
    requires r.Valid() && k > 0
    modifies r
    ensures r.Valid() && (res, r.pos) == ReadFullAt(r.data, old(r.pos), k)
  {
    var buf: seq<byte> := [];
    while |buf| < k
      invariant r.Valid() && |buf| <= k
      invariant r.pos == old(r.pos) + |buf| && buf == r.data[old(r.pos)..r.pos]
      decreases k - |buf|
    {
      var got, err := r.Read(k - |buf|);
      if err.Some? {
        // the reader is at its end: nothing read at all is EOF, a part is UnexpectedEOF
        return Failure(if buf == [] then EOF else UnexpectedEOF);
      }
      buf := buf + got;
    }
    return Success(buf);
  }

  /** binary.Read of the little-endian uint32 Len field. */
  method ReadLen(r: Reader) returns (res: Result<u32>)
    requires r.Valid()
    modifies r
    ensures r.Valid() && (res, r.pos) == ReadLenAt(r.data, old(r.pos))
  {
    var rb := ReadFull(r, 4);
    if rb.Failure? {
      return Failure(rb.error);
    }
    return Success(LeU32(rb.value));
  }

  /**
   * ReadChunk: the chunk at the reader's cursor, or the first error met; the
   * cursor ends where DecodeChunk says.
   */
  method ReadChunk(r: Reader) returns (res: Result<Chunk>)
    requires r.Valid()
    modifies r
    ensures r.Valid() && (res, r.pos) == DecodeChunk(r.data, old(r.pos))
    decreases |r.data| - r.pos
  {
    ghost var start := r.pos;
    var rid := ReadID(r);
    if rid.Failure? {
      return Failure(rid.error);
    }
    var rlen := ReadLen(r);
    if rlen.Failure? {
      return Failure(rlen.error);
    }
    var id, len := rid.value, rlen.value;
    if IsContainer(id) {
      var rlist := ReadID(r);
      if rlist.Failure? {
        return Failure(rlist.error);
      }
      ContainerStep(r.data, start, id, len, rlist.value);
      var chunks: seq<Chunk> := [];
      var l := Sub32(len, 4);
      while l > 0
        invariant r.Valid() && start + 12 <= r.pos
        invariant DecodeChildren(r.data, r.pos, l, chunks) == DecodeChildren(r.data, start + 12, Sub32(len, 4), [])
        decreases |r.data| - r.pos
      {
        ghost var p := r.pos;
        var sc := ReadChunk(r);
        if sc.Failure? {
          ChildFails(r.data, p, l, chunks);
          return Failure(sc.error);
        }
        var rest := DecodeChildren(r.data, r.pos, Sub32(Sub32(l, 8), sc.value.len), chunks + [sc.value]);
        ChildrenStep(r.data, p, l, chunks, sc.value, r.pos, rest.0, rest.1);
        chunks := chunks + [sc.value];
        l := Sub32(Sub32(l, 8), sc.value.len);
      }
      return Success(Chunk(id, len, [], rlist.value, chunks));
    }
    var got, err := r.Read(len);
    if err.Some? {
      return Failure(err.value);
    }
    if |got| != len {
      return Failure(ShortData(|got|, len));
    }
    if len % 2 != 0 {
      // the pad octet: its value and any error are dropped
      var _, _ := r.Read(1);
    }
    return Success(Chunk(id, len, got, ZeroID, []));
  }

  // ---------------------------------------------------------------- writing

  /**
   * The io.Writer at the end of every chain: a buffer that accepts at most
   * `limit` octets in all and reports a short write for the rest.
   */
  class Sink {
    var out: seq<byte>
    const limit: nat

    constructor (limit: nat)
      ensures out == [] && this.limit == limit
    {
      out := [];
      this.limit := limit;
    }

    method Write(p: seq<byte>) returns (k: nat, err: Option<Error>)
      modifies this
      ensures (out, k, err) == SinkWrite(old(out), limit, p)
    {
      k := Min(|p|, Room(out, limit));
      out := out + p[..k];
      err := if k < |p| then Some(ShortWrite) else None;
    }
  }

  /** What a `writer` wraps, and what WriteTo is given: the sink, or another wrapper. */
  datatype Dest = ToSink(sink: Sink) | ToWriter(writer: Writer)

  /** The `writer` wrapper: it remembers the first error and counts what was written through it. */
  class Writer {
    const w: Dest
    var err: Option<Error>
    var n: int
    ghost const sink: Sink
    ghost const depth: nat
    ghost const Repr: set<object>

    ghost predicate Valid()
      reads Repr - {this}
      decreases depth
    {
      this in Repr && sink in Repr &&
      match w
      case ToSink(s) => s == sink && Repr == {this, s}
      case ToWriter(v) =>
        v in Repr && v.Repr <= Repr && this !in v.Repr && Repr == {this} + v.Repr &&
        v.sink == sink && v.depth < depth && v.Valid()
    }

    /** The state of the chain from this wrapper down to the sink. */
    ghost function Chain(): (s: ChainState)
      requires Valid()
      reads Repr
      ensures |s.errs| == |s.counts| && s.errs != [] && s.errs[0] == err && s.counts[0] == n
      ensures s.out == sink.out
      decreases depth, 1
    {
      var below := DestChain(w);
      ChainState([err] + below.errs, [n] + below.counts, below.out)
    }

    /** `&writer{w: w}`: no error and nothing counted yet. */
    constructor (w: Dest)
      requires DestValid(w)
      ensures Valid() && this.w == w && sink == DestSink(w) && Repr == {this} + DestRepr(w)
      ensures Chain() == ChainState([None] + DestChain(w).errs, [0] + DestChain(w).counts, DestChain(w).out)
    {
      this.w := w;
      err := None;
      n := 0;
      sink := DestSink(w);
      depth := match w case ToSink(_) => 0 case ToWriter(v) => v.depth + 1;
      Repr := {this} + DestRepr(w);
    }

    /** writer.Write: returns the stored error untouched, or forwards p and records the outcome. */
    method Write(p: seq<byte>) returns (k: nat, e: Option<Error>)
      requires Valid()
      modifies Repr
      ensures Valid()
      ensures (Chain(), k, e) == ChainWrite(old(Chain()), sink.limit, p)
      decreases depth, 1
    {
      if err.Some? {
        return 0, err;
      }
      ghost var below := DestChain(w);
      ghost var before := Chain();
      assert before == ChainState([None] + below.errs, [n] + below.counts, below.out);
      WrapperWrite(below, sink.limit, n, p);
      k, e := DestWrite(w, p);
      n, err := n + k, e;
    }
  }

  ghost function DestRepr(d: Dest): set<object> {
    match d
    case ToSink(s) => {s}
    case ToWriter(v) => {v} + v.Repr
  }

  ghost function DestSink(d: Dest): Sink {
    match d
    case ToSink(s) => s
    case ToWriter(v) => v.sink
  }

  ghost function DestDepth(d: Dest): nat {
    match d
    case ToSink(_) => 0
    case ToWriter(v) => v.depth + 1
  }

  ghost predicate DestValid(d: Dest)
    reads DestRepr(d)
  {
    match d
    case ToSink(_) => true
    case ToWriter(v) => v.Valid()
  }

  /** The state of the chain a destination heads; the sink alone has no wrappers. */
  ghost function DestChain(d: Dest): (s: ChainState)
    requires DestValid(d)
    reads DestRepr(d)
    ensures |s.errs| == |s.counts| && s.out == DestSink(d).out
    decreases DestDepth(d), 0
  {
    match d
    case ToSink(s) => ChainState([], [], s.out)
    case ToWriter(v) => v.Chain()
  }

  /** A Write on an io.Writer that is either the sink or a wrapper. */
  method DestWrite(d: Dest, p: seq<byte>) returns (k: nat, e: Option<Error>)
    requires DestValid(d)
    modifies DestRepr(d)
    ensures DestValid(d)
    ensures (DestChain(d), k, e) == ChainWrite(old(DestChain(d)), DestSink(d).limit, p)
    decreases DestDepth(d), 0
  {
    match d
    case ToSink(s) => k, e := s.Write(p);
    case ToWriter(v) => k, e := v.Write(p);
  }

  /**
   * Chunk.WriteTo: writes the encoding of `c` into `dest` through a fresh
   * wrapper, all but the pad octet of an odd leaf, which goes to `dest` itself.
   * Returns the wrapper's count and error, which therefore never include the
   * pad octet.
   */
  method WriteTo(c: Chunk, dest: Dest) returns (count: int, err: Option<Error>)
    requires DestValid(dest) && Open(DestChain(dest))
    modifies DestRepr(dest)
    ensures DestValid(dest)
    ensures DestChain(dest) == ChainWrite(old(DestChain(dest)), DestSink(dest).limit, Encode(c)).0
    ensures var body := |Encode(c)| - PadLen(c);
      count == Min(body, Room(old(DestSink(dest).out), DestSink(dest).limit)) &&
      err == if count < body then Some(ShortWrite) else None
    decreases c, 1
  {
    ghost var d0 := DestChain(dest);
    ghost var limit := DestSink(dest).limit;
    var wr := new Writer(dest);
    ghost var w0 := wr.Chain();
    WrappedOpen(d0);
    var _, _ := wr.Write(Octets(c.id));
    var _, _ := wr.Write(LeBytes(c.len));
    ChainWriteSplit(w0, limit, Octets(c.id), LeBytes(c.len));
    assert d0.out == old(DestSink(dest).out);
    if IsContainer(c.id) {
      WriteList(c, wr, w0);
      ListOutcome(d0, limit, c, wr.Chain(), DestChain(dest), wr.n, wr.err);
      return wr.n, wr.err;
    }
    var _, _ := wr.Write(c.data);
    ChainWriteSplit(w0, limit, Octets(c.id) + LeBytes(c.len), c.data);
    LeafOutcome(d0, limit, c, wr.Chain(), DestChain(dest), wr.n, wr.err);
    count, err := wr.n, wr.err;
    if c.len % 2 != 0 {
      var _, _ := DestWrite(dest, [PadByte]);
    }
  }

  /**
   * The RIFF/LIST part of WriteTo, once ID and Len are through the wrapper `wr`:
   * ListID, then each sub-chunk written to `wr` for as long as `wr` holds no
   * error. `w0` is the chain as it was when `wr` was made.
   */
  method WriteList(c: Chunk, wr: Writer, ghost w0: ChainState)
    requires IsContainer(c.id) && wr.Valid() && |w0.errs| == |w0.counts| && Open(w0)
    requires wr.Chain() == ChainWrite(w0, wr.sink.limit, Octets(c.id) + LeBytes(c.len)).0
    modifies wr.Repr
    ensures wr.Valid()
    ensures wr.Chain() == ChainWrite(w0, wr.sink.limit, Encode(c)).0
    decreases c, 0
  {
    ghost var limit := wr.sink.limit;
    var _, _ := wr.Write(Octets(c.listID));
    ChainWriteSplit(w0, limit, Octets(c.id) + LeBytes(c.len), Octets(c.listID));
    ghost var head := Octets(c.id) + LeBytes(c.len) + Octets(c.listID);
    assert head + EncodeAll(c.chunks[..0]) == head;
    var i := 0;
    while wr.err == None && i < |c.chunks|
      invariant wr.Valid() && i <= |c.chunks|
      invariant wr.Chain() == ChainWrite(w0, limit, head + EncodeAll(c.chunks[..i])).0
      decreases |c.chunks| - i
    {
      ghost var pre := head + EncodeAll(c.chunks[..i]);
      ghost var before := wr.Chain();
      StillOpen(w0, limit, pre);
      assert Open(DestChain(ToWriter(wr)));
      var _, _ := WriteTo(c.chunks[i], ToWriter(wr));
      assert wr.Chain() == ChainWrite(before, limit, Encode(c.chunks[i])).0;
      ChainWriteSplit(w0, limit, pre, Encode(c.chunks[i]));
      EncodeAllSnoc(head, c.chunks, i);
      i := i + 1;
    }
    RestOfList(w0, limit, head, c.chunks, i, wr.Chain());
    ListImage(c);
  }
}
