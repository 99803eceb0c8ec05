/** Chunked transfer of one data array through a named pipe. */
module Pipes {
  import opened ByteCoding

  const SIZE_BYTES: nat := 8

  // The chunks

  /** How many elements the next call of `write` or `read` moves. */
  function Chunk(left: nat, buffer: nat): (r: nat)
    ensures r <= left && r <= buffer && (r == left || r == buffer)
  {
    if left > buffer then buffer else left
  }

  /** The bytes of one transfer: the size and then the elements. */
  function Message(data: seq<Byte>, count: nat): seq<Byte> {
    Encode(count, SIZE_BYTES) + data
  }

  /** The first eight bytes are the size, and the data follows. */
  lemma SizeFirst(data: seq<Byte>, count: nat)
    requires count < Power(8)
    ensures var m := Message(data, count); |m| == 8 + |data| && Decode(m[..8]) == count && m[8..] == data
  {
    DecodeEncoded(count, 8);
    assert Message(data, count)[..8] == Encode(count, 8);
  }

  /** Data of `count` elements of `width` bytes, countable in 64 bits. */
  predicate DataOk(data: seq<Byte>, width: nat, count: nat) {
    width > 0 && |data| == count * width && count < Power(SIZE_BYTES)
  }

  lemma ChunkInside(done: nat, chunk: nat, count: nat, width: nat)
    requires done + chunk <= count
    ensures done * width + chunk * width == (done + chunk) * width <= count * width
  {
    assert count * width - (done + chunk) * width == (count - done - chunk) * width;
  }

  /** The first-in first-out queue of the operating system. */
  class Pipe {
    var fifo: seq<Byte>

    constructor ()
      ensures fifo == []
    {
      fifo := [];
    }

    method Write(data: seq<Byte>, width: nat, count: nat, bufferSize: nat)
      requires DataOk(data, width, count) && bufferSize >= width
      modifies this
      ensures fifo == old(fifo) + Message(data, count)
    {
      var written := 0;
      fifo := fifo + Encode(count, SIZE_BYTES);
      ghost var start := fifo;
      var buffer := bufferSize / width;
      BufferHoldsOne(bufferSize, width);
      while written < count
        invariant written <= count && written * width <= |data|
        invariant fifo == start + data[..written * width]
      {
        var chunk := Chunk(count - written, buffer);
        ChunkInside(written, chunk, count, width);
        var from, to := written * width, (written + chunk) * width;
        fifo := fifo + data[from..to];
        assert data[..from] + data[from..to] == data[..to];
        written := written + chunk;
      }
      assert data[..written * width] == data;
    }

    /** `sent` is what the partner wrote and `rest` whatever follows it. */
    method Read(width: nat, bufferSize: nat, ghost sent: seq<Byte>, ghost count: nat, ghost rest: seq<Byte>)
        returns (data: seq<Byte>)
      requires DataOk(sent, width, count) && bufferSize >= width && fifo == Message(sent, count) + rest
      modifies this
      ensures data == sent && fifo == rest
    {
      DecodeEncoded(count, SIZE_BYTES);
      assert fifo[..SIZE_BYTES] == Encode(count, SIZE_BYTES);
      assert fifo[SIZE_BYTES..] == sent + rest;
      var size := Decode(fifo[..SIZE_BYTES]);
      fifo := fifo[SIZE_BYTES..];
      var read := 0;
      data := [];
      var buffer := bufferSize / width;
      BufferHoldsOne(bufferSize, width);
      while read < size
        invariant read <= size && read * width <= |sent|
        invariant data == sent[..read * width] && fifo == sent[read * width..] + rest
      {
        var chunk := Chunk(size - read, buffer);
        ChunkInside(read, chunk, count, width);
        ghost var from, to := read * width, (read + chunk) * width;
        assert fifo[..chunk * width] == sent[from..to];
        assert fifo[chunk * width..] == sent[to..] + rest;
        data := data + fifo[..chunk * width];
        fifo := fifo[chunk * width..];
        assert sent[..from] + sent[from..to] == sent[..to];
        read := read + chunk;
      }
    }
  }

  lemma BufferHoldsOne(bufferSize: nat, width: nat)
    requires 0 < width <= bufferSize
    ensures bufferSize / width >= 1
  {
  }

  // The two processes

  /** Where the writer is: `left` are the bytes its current call of `write` has not moved yet. */
  datatype Writer = SendingSize(left: seq<Byte>) | AtWrite | Writing(left: seq<Byte>, chunk: nat) | Written

  /** Where the reader is: `left` is the number of bytes its current call of `read` still waits for. */
  datatype Reader = ReceivingSize(got: seq<Byte>) | AtRead | Reading(left: nat, chunk: nat) | HasRead

  datatype Setup = Setup(data: seq<Byte>, width: nat, count: nat, writeBuffer: nat, readBuffer: nat, capacity: nat) {
    predicate Ok() {
      DataOk(data, width, count) && capacity > 0
    }

    /** There is nothing to transfer or each buffer holds at least one element. */
    predicate Fits() {
      count == 0 || (writeBuffer >= width && readBuffer >= width)
    }
  }

  datatype State = State(w: Writer, written: nat, fifo: seq<Byte>, r: Reader, size: nat, read: nat, received: seq<Byte>)

  function Start(p: Setup): State {
    State(SendingSize(Encode(p.count, SIZE_BYTES)), 0, [], ReceivingSize([]), 0, 0, [])
  }

  /** The calls of the writer wait while the pipe is full. */
  predicate WriterCanStep(p: Setup, s: State) {
    match s.w
    case SendingSize(left) => left == [] || |s.fifo| < p.capacity
    case AtWrite => true
    case Writing(left, chunk) => left == [] || |s.fifo| < p.capacity
    case Written => false
  }

  function WriterStep(p: Setup, s: State): State
    requires p.Ok() && WriterCanStep(p, s)
  {
    match s.w
    case SendingSize(left) =>
      if left == [] then s.(w := AtWrite)
      else s.(w := SendingSize(left[1..]), fifo := s.fifo + [left[0]])
    case AtWrite =>
      if s.written < p.count then
        var chunk := Chunk(p.count - s.written, p.writeBuffer / p.width);
        ChunkInside(s.written, chunk, p.count, p.width);
        s.(w := Writing(p.data[s.written * p.width..(s.written + chunk) * p.width], chunk))
      else s.(w := Written)
    case Writing(left, chunk) =>
      if left == [] then s.(w := AtWrite, written := s.written + chunk)
      else s.(w := Writing(left[1..], chunk), fifo := s.fifo + [left[0]])
  }

  /** The calls of the reader wait while the pipe is empty. */
  predicate ReaderCanStep(s: State) {
    match s.r
    case ReceivingSize(got) => |got| >= SIZE_BYTES || s.fifo != []
    case AtRead => true
    case Reading(left, chunk) => left == 0 || s.fifo != []
    case HasRead => false
  }

  function ReaderStep(p: Setup, s: State): State
    requires p.Ok() && ReaderCanStep(s)
  {
    match s.r
    case ReceivingSize(got) =>
      if |got| >= SIZE_BYTES then s.(r := AtRead, size := Decode(got))
      else s.(r := ReceivingSize(got + [s.fifo[0]]), fifo := s.fifo[1..])
    case AtRead =>
      if s.read < s.size then
        var chunk := Chunk(s.size - s.read, p.readBuffer / p.width);
        s.(r := Reading(chunk * p.width, chunk))
      else s.(r := HasRead)
    case Reading(left, chunk) =>
      if left == 0 then s.(r := AtRead, read := s.read + chunk)
      else s.(r := Reading(left - 1, chunk), fifo := s.fifo[1..], received := s.received + [s.fifo[0]])
  }

  /** An interleaving: at each state one of the two processes moves. */
  ghost predicate Step(p: Setup, s: State, t: State)
    requires p.Ok()
  {
    (WriterCanStep(p, s) && t == WriterStep(p, s)) || (ReaderCanStep(s) && t == ReaderStep(p, s))
  }

  ghost predicate Run(p: Setup, run: seq<State>)
    requires p.Ok()
  {
    |run| > 0 && run[0] == Start(p) && forall i :: 0 < i < |run| ==> Follows(p, run, i)
  }

  ghost predicate Follows(p: Setup, run: seq<State>, i: nat)
    requires p.Ok() && 0 < i < |run|
  {
    Step(p, run[i - 1], run[i])
  }

  // The invariant

  /** The number of bytes of the message already in the pipe. */
  function Sent(p: Setup, s: State): int {
    match s.w
    case SendingSize(left) => SIZE_BYTES - |left|
    case AtWrite => SIZE_BYTES + s.written * p.width
    case Writing(left, chunk) => SIZE_BYTES + (s.written + chunk) * p.width - |left|
    case Written => SIZE_BYTES + |p.data|
  }

  /** The number of bytes of the message already taken out. */
  function Taken(p: Setup, s: State): int {
    match s.r
    case ReceivingSize(got) => |got|
    case AtRead => SIZE_BYTES + s.read * p.width
    case Reading(left, chunk) => SIZE_BYTES + (s.read + chunk) * p.width - left
    case HasRead => SIZE_BYTES + |p.data|
  }

  /** The bytes of the current call of `write` come next in the message. */
  ghost predicate WriterOk(p: Setup, s: State)
    requires p.Ok()
  {
    var m := Message(p.data, p.count);
    match s.w
    case SendingSize(left) => s.written == 0 && |left| <= SIZE_BYTES && left == m[SIZE_BYTES - |left|..SIZE_BYTES]
    case AtWrite => s.written <= p.count
    case Writing(left, chunk) =>
      var to := SIZE_BYTES + (s.written + chunk) * p.width;
      && s.written < p.count && chunk == Chunk(p.count - s.written, p.writeBuffer / p.width)
      && |left| <= chunk * p.width && |left| <= to <= |m| && left == m[to - |left|..to]
    case Written => s.written == p.count
  }

  ghost predicate ReaderOk(p: Setup, s: State)
    requires p.Ok()
  {
    match s.r
    case ReceivingSize(got) =>
      |got| <= SIZE_BYTES && got == Message(p.data, p.count)[..|got|] && s.read == 0 && s.received == []
    case AtRead => s.size == p.count && s.read <= p.count
    case Reading(left, chunk) =>
      && s.size == p.count && s.read < p.count && chunk == Chunk(p.count - s.read, p.readBuffer / p.width)
      && left <= chunk * p.width
    case HasRead => s.size == p.count && s.read == p.count
  }

  /** What is in the pipe is what was sent and not yet taken; what was taken is what was received. */
  ghost predicate Conserved(p: Setup, s: State) {
    var m, sent, taken := Message(p.data, p.count), Sent(p, s), Taken(p, s);
    && 0 <= taken <= sent <= |m|
    && s.fifo == m[taken..sent]
    && (SIZE_BYTES <= taken ==> s.received == m[SIZE_BYTES..taken])
  }

  ghost predicate Inv(p: Setup, s: State)
    requires p.Ok()
  {
    WriterOk(p, s) && ReaderOk(p, s) && Conserved(p, s)
  }

  lemma StartInv(p: Setup)
    requires p.Ok()
    ensures Inv(p, Start(p))
  {
    assert Message(p.data, p.count)[..SIZE_BYTES] == Encode(p.count, SIZE_BYTES);
  }

  lemma Pushed(m: seq<Byte>, taken: nat, sent: nat, end: nat)
    requires taken <= sent < end <= |m|
    ensures m[taken..sent] + [m[sent..end][0]] == m[taken..sent + 1]
    ensures m[sent..end][1..] == m[sent + 1..end]
  {
  }

  lemma Popped(m: seq<Byte>, taken: nat, sent: nat)
    requires taken < sent <= |m|
    ensures m[taken..sent][0] == m[taken] && m[taken..sent][1..] == m[taken + 1..sent]
    ensures forall from: nat :: from <= taken ==> m[from..taken] + [m[taken]] == m[from..taken + 1]
  {
  }

  lemma MessageSize(p: Setup)
    requires p.Ok()
    ensures |Message(p.data, p.count)| == SIZE_BYTES + p.count * p.width
    ensures Message(p.data, p.count)[..SIZE_BYTES] == Encode(p.count, SIZE_BYTES)
    ensures Message(p.data, p.count)[SIZE_BYTES..] == p.data
  {
  }

  lemma SendingSizeKeepsInv(p: Setup, s: State)
    requires p.Ok() && Inv(p, s) && WriterCanStep(p, s) && s.w.SendingSize?
    ensures Inv(p, WriterStep(p, s))
  {
    var m := Message(p.data, p.count);
    if s.w.left != [] {
      Pushed(m, Taken(p, s), Sent(p, s), SIZE_BYTES);
    }
  }

  lemma AtWriteKeepsInv(p: Setup, s: State)
    requires p.Ok() && Inv(p, s) && s.w.AtWrite?
    ensures Inv(p, WriterStep(p, s))
  {
    var t := WriterStep(p, s);
    AtWriteKeepsWriter(p, s);
    assert t.r == s.r && t.read == s.read && t.size == s.size && t.received == s.received && t.fifo == s.fifo;
  }

  lemma AtWriteKeepsWriter(p: Setup, s: State)
    requires p.Ok() && WriterOk(p, s) && s.w.AtWrite?
    ensures WriterOk(p, WriterStep(p, s)) && Sent(p, WriterStep(p, s)) == Sent(p, s)
  {
    MessageSize(p);
    if s.written < p.count {
      var chunk := WriterStep(p, s).w.chunk;
      ChunkInside(s.written, chunk, p.count, p.width);
      SameInMessage(p, s.written * p.width, (s.written + chunk) * p.width);
    }
  }

  lemma SameInMessage(p: Setup, from: nat, to: nat)
    requires p.Ok() && from <= to <= |p.data|
    ensures p.data[from..to] == Message(p.data, p.count)[SIZE_BYTES + from..SIZE_BYTES + to]
  {
  }

  lemma WritingKeepsInv(p: Setup, s: State)
    requires p.Ok() && Inv(p, s) && WriterCanStep(p, s) && s.w.Writing?
    ensures Inv(p, WriterStep(p, s))
  {
    var m, t := Message(p.data, p.count), WriterStep(p, s);
    WritingKeepsWriter(p, s);
    if s.w.left != [] {
      Pushed(m, Taken(p, s), Sent(p, s), SIZE_BYTES + (s.written + s.w.chunk) * p.width);
    }
    assert t.r == s.r && t.read == s.read && t.size == s.size && t.received == s.received;
  }

  lemma WritingKeepsWriter(p: Setup, s: State)
    requires p.Ok() && WriterOk(p, s) && WriterCanStep(p, s) && s.w.Writing?
    ensures WriterOk(p, WriterStep(p, s))
    ensures Sent(p, WriterStep(p, s)) == Sent(p, s) + (if s.w.left == [] then 0 else 1)
  {
  }

  lemma SizeByteKeepsInv(p: Setup, s: State)
    requires p.Ok() && Inv(p, s) && ReaderCanStep(s) && s.r.ReceivingSize? && |s.r.got| < SIZE_BYTES
    ensures Inv(p, ReaderStep(p, s))
  {
    MessageSize(p);
    Popped(Message(p.data, p.count), Taken(p, s), Sent(p, s));
  }

  lemma SizeKeepsInv(p: Setup, s: State)
    requires p.Ok() && Inv(p, s) && s.r.ReceivingSize? && |s.r.got| >= SIZE_BYTES
    ensures Inv(p, ReaderStep(p, s))
  {
    MessageSize(p);
    DecodeEncoded(p.count, SIZE_BYTES);
  }

  lemma AtReadKeepsInv(p: Setup, s: State)
    requires p.Ok() && Inv(p, s) && s.r.AtRead?
    ensures Inv(p, ReaderStep(p, s))
  {
    var t := ReaderStep(p, s);
    MessageSize(p);
    if s.read < s.size {
      ChunkInside(s.read, t.r.chunk, p.count, p.width);
    }
  }

  lemma ReadingKeepsInv(p: Setup, s: State)
    requires p.Ok() && Inv(p, s) && ReaderCanStep(s) && s.r.Reading?
    ensures Inv(p, ReaderStep(p, s))
  {
    var t := ReaderStep(p, s);
    ReadingKeepsReader(p, s);
    if s.r.left > 0 {
      Popped(Message(p.data, p.count), Taken(p, s), Sent(p, s));
    }
    assert t.w == s.w && t.written == s.written;
    assert Conserved(p, t);
  }

  lemma ReadingKeepsReader(p: Setup, s: State)
    requires p.Ok() && ReaderOk(p, s) && ReaderCanStep(s) && s.r.Reading?
    ensures ReaderOk(p, ReaderStep(p, s)) && SIZE_BYTES <= Taken(p, s)
    ensures Taken(p, ReaderStep(p, s)) == Taken(p, s) + (if s.r.left > 0 then 1 else 0)
  {
    var t := ReaderStep(p, s);
    ChunkInside(s.read, s.r.chunk, p.count, p.width);
    if s.r.left > 0 {
      assert t.r == Reading(s.r.left - 1, s.r.chunk) && t.read == s.read;
    } else {
      assert t.r == AtRead && t.read == s.read + s.r.chunk;
    }
  }

  lemma KeepsInv(p: Setup, s: State, t: State)
    requires p.Ok() && Inv(p, s) && Step(p, s, t)
    ensures Inv(p, t)
  {
    if WriterCanStep(p, s) && t == WriterStep(p, s) {
      match s.w
      case SendingSize(_) => SendingSizeKeepsInv(p, s);
      case AtWrite => AtWriteKeepsInv(p, s);
      case Writing(_, _) => WritingKeepsInv(p, s);
    } else {
      match s.r
      case ReceivingSize(got) => if |got| < SIZE_BYTES { SizeByteKeepsInv(p, s); } else { SizeKeepsInv(p, s); }
      case AtRead => AtReadKeepsInv(p, s);
      case Reading(_, _) => ReadingKeepsInv(p, s);
    }
  }

  lemma {:induction false} RunInv(p: Setup, run: seq<State>, i: nat)
    requires p.Ok() && Run(p, run) && i < |run|
    ensures Inv(p, run[i])
  {
    if i == 0 {
      StartInv(p);
    } else {
      RunInv(p, run, i - 1);
      assert Follows(p, run, i);
      KeepsInv(p, run[i - 1], run[i]);
    }
  }

  /** The pipe never holds more than it can. */
  lemma {:induction false} PipeHasRoom(p: Setup, run: seq<State>, i: nat)
    requires p.Ok() && Run(p, run) && i < |run|
    ensures |run[i].fifo| <= p.capacity
  {
    if i > 0 {
      PipeHasRoom(p, run, i - 1);
      assert Follows(p, run, i);
      StepHasRoom(p, run[i - 1], run[i]);
    }
  }

  lemma StepHasRoom(p: Setup, s: State, t: State)
    requires p.Ok() && |s.fifo| <= p.capacity && Step(p, s, t)
    ensures |t.fifo| <= p.capacity
  {
  }

  /** No call of `write` or `read` is for more bytes than the buffer of its side has. */
  lemma CallsFitBuffers(p: Setup, run: seq<State>, i: nat)
    requires p.Ok() && Run(p, run) && i < |run|
    ensures run[i].w.Writing? ==> |run[i].w.left| <= p.writeBuffer
    ensures run[i].r.Reading? ==> run[i].r.left <= p.readBuffer
  {
    RunInv(p, run, i);
    if run[i].w.Writing? { ChunkFits(p.count - run[i].written, p.writeBuffer, p.width); }
    if run[i].r.Reading? { ChunkFits(p.count - run[i].read, p.readBuffer, p.width); }
  }

  lemma ChunkFits(left: nat, bufferSize: nat, width: nat)
    requires width > 0
    ensures Chunk(left, bufferSize / width) * width <= bufferSize
  {
    var chunk, buffer := Chunk(left, bufferSize / width), bufferSize / width;
    assert buffer * width - chunk * width == (buffer - chunk) * width;
  }

  /** Main result: in every interleaving the bytes received are a prefix of the bytes written. */
  lemma ReceivedIsPrefix(p: Setup, run: seq<State>, i: nat)
    requires p.Ok() && Run(p, run) && i < |run|
    ensures run[i].received <= p.data
    ensures run[i].r.HasRead? ==> run[i].received == p.data && run[i].fifo == []
  {
    RunInv(p, run, i);
    PrefixReceived(p, run[i]);
  }

  lemma TakenAfterSize(p: Setup, s: State)
    requires p.Ok() && ReaderOk(p, s) && !s.r.ReceivingSize?
    ensures SIZE_BYTES <= Taken(p, s)
  {
    if s.r.Reading? {
      ChunkInside(s.read, s.r.chunk, p.count, p.width);
    }
  }

  lemma PrefixReceived(p: Setup, s: State)
    requires p.Ok() && Inv(p, s)
    ensures s.received <= p.data
    ensures s.r.HasRead? ==> s.received == p.data && s.fifo == []
  {
    MessageSize(p);
    if !s.r.ReceivingSize? {
      TakenAfterSize(p, s);
      var n := Taken(p, s) - SIZE_BYTES;
      assert s.received == Message(p.data, p.count)[SIZE_BYTES..][..n];
    }
  }

  // Termination

  function Rank(p: Setup, elements: nat, bytes: nat): nat {
    elements * (p.count * p.width + 2) + bytes
  }

  /** A bound on the steps the writer still makes. */
  ghost function WriterRank(p: Setup, s: State): nat
    requires p.Ok() && WriterOk(p, s)
  {
    match s.w
    case SendingSize(left) => Rank(p, p.count + 1, |left|)
    case AtWrite => Rank(p, p.count - s.written, p.count * p.width + 1)
    case Writing(left, chunk) => Rank(p, p.count - s.written, |left|)
    case Written => 0
  }

  /** A bound on the steps the reader still makes. */
  ghost function ReaderRank(p: Setup, s: State): nat
    requires p.Ok() && ReaderOk(p, s)
  {
    match s.r
    case ReceivingSize(got) => Rank(p, p.count + 1, SIZE_BYTES - |got|)
    case AtRead => Rank(p, p.count - s.read, p.count * p.width + 1)
    case Reading(left, chunk) => Rank(p, p.count - s.read, left)
    case HasRead => 0
  }

  lemma RankLess(p: Setup, elements: nat, bytes: nat, before: nat, rest: nat)
    requires p.Ok() && elements < before && bytes <= p.count * p.width + 1
    ensures Rank(p, elements, bytes) < Rank(p, before, rest)
  {
    LexicographicLess(elements, bytes, before, p.count * p.width + 2);
  }

  lemma LexicographicLess(a: nat, x: nat, b: nat, k: nat)
    requires a < b && x < k
    ensures a * k + x < b * k
  {
    assert b * k - a * k == (b - a) * k;
    assert (b - a) * k == k + (b - a - 1) * k;
  }

  lemma WriterAdvances(p: Setup, s: State)
    requires p.Ok() && p.Fits() && WriterOk(p, s) && WriterCanStep(p, s) && WriterOk(p, WriterStep(p, s))
    ensures WriterRank(p, WriterStep(p, s)) < WriterRank(p, s)
  {
    match s.w
    case SendingSize(left) =>
      if left == [] { RankLess(p, p.count, p.count * p.width + 1, p.count + 1, 0); }
    case AtWrite =>
      if s.written < p.count { ChunkInside(0, WriterStep(p, s).w.chunk, p.count, p.width); }
    case Writing(left, chunk) => WritingAdvances(p, s);
  }

  lemma WritingAdvances(p: Setup, s: State)
    requires p.Ok() && p.Fits() && WriterOk(p, s) && WriterCanStep(p, s) && s.w.Writing?
    requires WriterOk(p, WriterStep(p, s))
    ensures WriterRank(p, WriterStep(p, s)) < WriterRank(p, s)
  {
    if s.w.left == [] {
      BufferHoldsOne(p.writeBuffer, p.width);
      RankLess(p, p.count - s.written - s.w.chunk, p.count * p.width + 1, p.count - s.written, 0);
    }
  }

  lemma ReaderAdvances(p: Setup, s: State)
    requires p.Ok() && p.Fits() && ReaderOk(p, s) && ReaderCanStep(s) && ReaderOk(p, ReaderStep(p, s))
    ensures ReaderRank(p, ReaderStep(p, s)) < ReaderRank(p, s)
  {
    match s.r
    case ReceivingSize(got) =>
      if |got| >= SIZE_BYTES { RankLess(p, p.count, p.count * p.width + 1, p.count + 1, 0); }
    case AtRead =>
      if s.read < p.count { ChunkInside(0, ReaderStep(p, s).r.chunk, p.count, p.width); }
    case Reading(left, chunk) => ReadingAdvances(p, s);
  }

  lemma ReadingAdvances(p: Setup, s: State)
    requires p.Ok() && p.Fits() && ReaderOk(p, s) && ReaderCanStep(s) && ReaderOk(p, ReaderStep(p, s)) && s.r.Reading?
    ensures ReaderRank(p, ReaderStep(p, s)) < ReaderRank(p, s)
  {
    if s.r.left == 0 {
      BufferHoldsOne(p.readBuffer, p.width);
      RankLess(p, p.count - s.read - s.r.chunk, p.count * p.width + 1, p.count - s.read, 0);
    }
  }

  ghost function Remaining(p: Setup, s: State): nat
    requires p.Ok() && Inv(p, s)
  {
    WriterRank(p, s) + ReaderRank(p, s)
  }

  /** Main result: whatever the schedule, both loops end after a bounded number of steps. */
  lemma {:induction false} RunIsBounded(p: Setup, run: seq<State>, i: nat)
    requires p.Ok() && p.Fits() && Run(p, run) && i < |run|
    ensures Inv(p, Start(p)) && Inv(p, run[i])
    ensures i + Remaining(p, run[i]) <= Remaining(p, Start(p))
  {
    StartInv(p);
    if i > 0 {
      RunIsBounded(p, run, i - 1);
      assert Follows(p, run, i);
      KeepsInv(p, run[i - 1], run[i]);
      StepAdvances(p, run[i - 1], run[i]);
    }
  }

  lemma StepAdvances(p: Setup, s: State, t: State)
    requires p.Ok() && p.Fits() && Inv(p, s) && Step(p, s, t) && Inv(p, t)
    ensures Remaining(p, t) < Remaining(p, s)
  {
    if WriterCanStep(p, s) && t == WriterStep(p, s) {
      WriterStepAdvances(p, s);
    } else {
      ReaderStepAdvances(p, s);
    }
  }

  lemma WriterStepAdvances(p: Setup, s: State)
    requires p.Ok() && p.Fits() && Inv(p, s) && WriterCanStep(p, s) && Inv(p, WriterStep(p, s))
    ensures Remaining(p, WriterStep(p, s)) < Remaining(p, s)
  {
    var t := WriterStep(p, s);
    assert t.r == s.r && t.read == s.read && t.size == s.size;
    WriterAdvances(p, s);
    assert ReaderRank(p, t) == ReaderRank(p, s);
  }

  lemma ReaderStepAdvances(p: Setup, s: State)
    requires p.Ok() && p.Fits() && Inv(p, s) && ReaderCanStep(s) && Inv(p, ReaderStep(p, s))
    ensures Remaining(p, ReaderStep(p, s)) < Remaining(p, s)
  {
    var t := ReaderStep(p, s);
    assert t.w == s.w && t.written == s.written;
    ReaderAdvances(p, s);
    assert WriterRank(p, t) == WriterRank(p, s);
  }

  /** Main result: the two processes never wait for each other, also when their buffers differ. */
  lemma NeverStuck(p: Setup, run: seq<State>, i: nat)
    requires p.Ok() && Run(p, run) && i < |run|
    ensures WriterCanStep(p, run[i]) || ReaderCanStep(run[i]) || (run[i].w.Written? && run[i].r.HasRead?)
  {
    var s := run[i];
    RunInv(p, run, i);
    MessageSize(p);
    if s.r.Reading? && s.r.left > 0 {
      ChunkInside(s.read, s.r.chunk, p.count, p.width);
    }
  }

  /** A run that cannot go on has transferred everything. */
  lemma TransferCompletes(p: Setup, run: seq<State>)
    requires p.Ok() && Run(p, run)
    requires var s := run[|run| - 1]; !WriterCanStep(p, s) && !ReaderCanStep(s)
    ensures run[|run| - 1].received == p.data && run[|run| - 1].fifo == []
  {
    NeverStuck(p, run, |run| - 1);
    ReceivedIsPrefix(p, run, |run| - 1);
  }

  /** With a buffer smaller than one element the loop goes on for ever without moving a byte. */
  lemma {:induction false} SmallBufferNeverEnds(p: Setup, run: seq<State>, i: nat)
    requires p.Ok() && !p.Fits() && Run(p, run) && i < |run|
    ensures WriterCanStep(p, run[i]) || ReaderCanStep(run[i])
  {
    NeverStuck(p, run, i);
    NoProgress(p, run, i);
  }

  /** So there are runs of any length. */
  lemma {:induction false} EndlessRun(p: Setup, n: nat) returns (run: seq<State>)
    requires p.Ok() && !p.Fits()
    ensures Run(p, run) && |run| == n + 1
  {
    run := [Start(p)];
    if n > 0 {
      var before := EndlessRun(p, n - 1);
      var s := before[n - 1];
      SmallBufferNeverEnds(p, before, n - 1);
      run := before + [if WriterCanStep(p, s) then WriterStep(p, s) else ReaderStep(p, s)];
      forall i | 0 < i < |run| ensures Follows(p, run, i) {
        if i < n { assert Follows(p, before, i); }
      }
    }
  }

  /** One element of eight bytes, a writer with a buffer of four, a reader with a buffer of eight. */
  const SMALL_BUFFER: Setup := Setup([0, 0, 0, 0, 0, 0, 0, 0], 8, 1, 4, 8, 16)

  /** The writer never gets past its first element. */
  lemma SmallBufferExample(n: nat) returns (run: seq<State>)
    ensures SMALL_BUFFER.Ok() && Run(SMALL_BUFFER, run) && |run| == n + 1
    ensures forall i :: 0 <= i < |run| ==> run[i].written == 0 && !run[i].w.Written?
  {
    var p := SMALL_BUFFER;
    assert Power(8) == 256 * Power(7);
    run := EndlessRun(p, n);
    forall i | 0 <= i < |run| ensures run[i].written == 0 && !run[i].w.Written? {
      NoProgress(p, run, i);
    }
  }

  lemma {:induction false} NoProgress(p: Setup, run: seq<State>, i: nat)
    requires p.Ok() && !p.Fits() && Run(p, run) && i < |run|
    ensures p.writeBuffer < p.width ==> run[i].written == 0 && !run[i].w.Written?
    ensures p.readBuffer < p.width ==> run[i].read == 0 && !run[i].r.HasRead?
  {
    if i > 0 {
      NoProgress(p, run, i - 1);
      RunInv(p, run, i - 1);
      assert Follows(p, run, i);
      StepWithoutProgress(p, run[i - 1], run[i]);
    }
  }

  lemma StepWithoutProgress(p: Setup, s: State, t: State)
    requires p.Ok() && p.count > 0 && Inv(p, s) && Step(p, s, t)
    ensures p.writeBuffer < p.width && s.written == 0 && !s.w.Written? ==> t.written == 0 && !t.w.Written?
    ensures p.readBuffer < p.width && s.read == 0 && !s.r.HasRead? ==> t.read == 0 && !t.r.HasRead?
  {
    if p.writeBuffer < p.width { SmallBuffer(p.writeBuffer, p.width); }
    if p.readBuffer < p.width { SmallBuffer(p.readBuffer, p.width); }
    if WriterCanStep(p, s) && t == WriterStep(p, s) {
      WriterWithoutProgress(p, s);
    } else {
      ReaderWithoutProgress(p, s);
    }
  }

  lemma SmallBuffer(buffer: nat, width: nat)
    requires buffer < width
    ensures buffer / width == 0
  {
  }

  lemma WriterWithoutProgress(p: Setup, s: State)
    requires p.Ok() && p.count > 0 && WriterOk(p, s) && WriterCanStep(p, s)
    requires p.writeBuffer < p.width ==> p.writeBuffer / p.width == 0
    ensures var t := WriterStep(p, s);
            && t.read == s.read && t.r == s.r
            && (p.writeBuffer < p.width && s.written == 0 ==> t.written == 0 && !t.w.Written?)
  {
  }

  lemma ReaderWithoutProgress(p: Setup, s: State)
    requires p.Ok() && p.count > 0 && ReaderOk(p, s) && ReaderCanStep(s)
    requires p.readBuffer < p.width ==> p.readBuffer / p.width == 0
    ensures var t := ReaderStep(p, s);
            && t.written == s.written && t.w == s.w
            && (p.readBuffer < p.width && s.read == 0 ==> t.read == 0 && !t.r.HasRead?)
  {
  }
}
