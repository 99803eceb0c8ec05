/** Broadcasting an object from one rank of a program to the others: its size, then its serialized form. */
module Broadcasts {
  import opened ObjectGraph
  import opened StreamFormat
  import opened LoadWalk
  import opened Isomorphism
  import opened ReadFacts
  import opened RoundTrip
  import opened SerializerClass

  const TWO31: nat := 0x8000_0000
  const TWO32: nat := 0x1_0000_0000

  /** A size as `unsigned int`, which is how it is announced. */
  function Announced(n: nat): (r: nat)
    ensures r <= n
  {
    n % TWO32
  }

  /** A size as `int`, which is how MPI counts. */
  function Count(n: nat): (r: int)
    ensures r <= n
  {
    if Announced(n) < TWO31 then Announced(n) else Announced(n) - TWO32
  }

  /**
   * `MPI_Bcast`: the first characters of the source's buffer are copied to all others. It is an
   * error if the counts of the ranks differ or are negative.
   */
  function Bcast(buffers: seq<string>, source: nat): (r: Option<seq<string>>)
    requires source < |buffers|
    ensures r.Some? ==> |r.value| == |buffers|
  {
    var n := Count(|buffers[source]|);
    if n < 0 || exists r :: 0 <= r < |buffers| && Count(|buffers[r]|) != n then None
    else Some(seq(|buffers|, r requires 0 <= r < |buffers| => buffers[source][..n] + buffers[r][n..]))
  }

  /** What the ranks pass: the source its message, the others a buffer of the announced size. */
  function Prepared(message: string, ranks: nat, source: nat): (r: seq<string>)
    requires source < ranks
    ensures |r| == ranks
  {
    seq(ranks, r requires 0 <= r < ranks => if r == source then message else seq(Announced(|message|), _ => '\0'))
  }

  /** The buffers of all ranks have the same length exactly for messages below 2^32 bytes. */
  lemma SameLengths(message: string, ranks: nat, source: nat)
    requires source < ranks && ranks >= 2
    ensures (forall r :: 0 <= r < ranks ==> |Prepared(message, ranks, source)[r]| == |message|)
            <==> |message| < 0x1_0000_0000
  {
    var other := if source == 0 then 1 else 0;
    assert |Prepared(message, ranks, source)[other]| == Announced(|message|);
  }

  /** All ranks get the message exactly if it is below 2^31 bytes, so that the count of MPI can hold its size. */
  lemma DeliveredExactly(message: string, ranks: nat, source: nat)
    requires source < ranks && ranks >= 2
    ensures |message| < 0x8000_0000 <==>
            var r := Bcast(Prepared(message, ranks, source), source);
            r.Some? && forall k :: 0 <= k < ranks ==> r.value[k] == message
  {
    if |message| < TWO31 {
      SmallDelivered(message, ranks, source);
    } else {
      var other := if source == 0 then 1 else 0;
      LargeCutOff(message, ranks, source, other);
    }
  }

  lemma CountSmall(n: nat)
    requires n < TWO31
    ensures Announced(n) == n && Count(n) == n
  {
  }

  lemma SmallDelivered(message: string, ranks: nat, source: nat)
    requires source < ranks && |message| < TWO31
    ensures var r := Bcast(Prepared(message, ranks, source), source);
            r.Some? && forall k :: 0 <= k < ranks ==> r.value[k] == message
  {
    var buffers, n := Prepared(message, ranks, source), |message|;
    CountSmall(n);
    forall k | 0 <= k < ranks
      ensures |buffers[k]| == n
    {
    }
    forall k | 0 <= k < ranks
      ensures buffers[source][..n] + buffers[k][n..] == message
    {
    }
  }

  /** Of a larger message another rank gets nothing, or what fits a buffer that is far too small. */
  lemma LargeCutOff(message: string, ranks: nat, source: nat, k: nat)
    requires source < ranks && |message| >= TWO31 && k < ranks && k != source
    ensures var r := Bcast(Prepared(message, ranks, source), source);
            r.Some? ==> |r.value[k]| + 1 < |message|
  {
    var buffers := Prepared(message, ranks, source);
    if Bcast(buffers, source).Some? {
      assert Count(|message|) >= 0;
      assert |message| >= TWO32;
      assert |buffers[k]| == Announced(|message|) < TWO31;
    }
  }

  /** In binary mode a value is read from as many characters as it is written to. */
  lemma NextConsumes(env: Env, s: Stream, t: Token, s1: Stream)
    requires env.Binary() && CodeOk(env) && Next(env, WantOf(t), s) == Some((t, s1))
    ensures |s.chars| == |Written(env, t)| + |s1.chars|
  {
  }

  lemma {:induction false} AfterConsumes(env: Env, s: Stream, toks: seq<Token>)
    requires env.Binary() && CodeOk(env) && After(env, s, toks).Some?
    ensures |s.chars| == |WrittenAll(env, toks)| + |After(env, s, toks).value.chars|
    decreases |toks|
  {
    if toks != [] {
      var s1 := Next(env, WantOf(toks[0]), s).value.1;
      NextConsumes(env, s, toks[0], s1);
      AfterConsumes(env, s1, toks[1..]);
    }
  }

  // The broadcast

  /** What rank `k` loads; its serializer ends the stream with a line break. */
  function LoadedAt(env: Env, sh: seq<FieldShape>, buffers: Option<seq<string>>, k: nat, mem: Memory): Load
    requires buffers.Some? ==> k < |buffers.value|
  {
    if buffers.None? then Error else LoadInto(env, sh, Stream(buffers.value[k] + "\n", []), mem)
  }

  /**
   * The broadcast of the value with fields `vs` by rank `source` to ranks with the memories `mems`,
   * seen at rank `k`.
   */
  function BroadcastAt(env: Env, sh: seq<FieldShape>, out: seq<Token>, source: nat, mems: seq<Memory>, k: nat): Load
    requires source < |mems| && k < |mems|
  {
    LoadedAt(env, sh, Bcast(Prepared(WrittenAll(env, out), |mems|, source), source), k, mems[k])
  }

  /** All ranks in lockstep: save, two collectives, load. */
  method Broadcast(env: Env, h: Heap, sh: seq<FieldShape>, vs: seq<Value>, source: nat, mems: seq<Memory>)
      returns (saved: bool, oks: seq<bool>, results: seq<Memory>)
    requires HeapOk(env, h) && FieldsOk(h, sh, vs) && source < |mems|
    ensures saved == Save(env, h, sh, vs).Walk? && |oks| == |results| == |mems|
    ensures saved ==> forall k :: 0 <= k < |mems| && k != source ==>
              var r := BroadcastAt(env, sh, Save(env, h, sh, vs).out, source, mems, k);
              oks[k] == r.Loaded? && (oks[k] ==> results[k] == r.mem)
  {
    oks, results := seq(|mems|, _ => false), mems;
    var sender := new Serializer(env, "", []);
    saved := sender.SaveObject(h, sh, vs);
    if !saved { return; }
    ghost var out := Save(env, h, sh, vs).out;
    assert [] + out == out;
    var buffers := Bcast(Prepared(sender.buffer, |mems|, source), source);
    if buffers.None? { return; }
    for k := 0 to |mems|
      invariant |oks| == |results| == |mems|
      invariant forall j :: k <= j < |mems| ==> results[j] == mems[j]
      invariant forall j :: 0 <= j < k && j != source ==>
                  var r := LoadedAt(env, sh, buffers, j, mems[j]);
                  oks[j] == r.Loaded? && (oks[j] ==> results[j] == r.mem)
    {
      if k != source {
        var receiver := new Serializer(env, buffers.value[k] + "\n", mems[k]);
        var ok := receiver.LoadObject(sh, 0);
        oks, results := oks[k := ok], results[k := receiver.mem];
      }
    }
  }

  ghost predicate AllFaithful(env: Env, sh: seq<FieldShape>, out: seq<Token>, source: nat, mems: seq<Memory>)
    requires source < |mems|
  {
    forall k :: 0 <= k < |mems| && k != source ==> Faithful(BroadcastAt(env, sh, out, source, mems, k), out)
  }

  ghost predicate Arrives(h: Heap, vs: seq<Value>, reach: set<Addr>, mem: Memory) {
    exists iso: Iso :: Isomorphic(h, vs, reach, mem, iso)
  }

  /**
   * Main result: with two or more ranks the broadcast is faithful on all of them exactly if the graph
   * can be read back and its message is below 2^31 bytes; then every rank has an isomorphic graph.
   */
  lemma BroadcastExactly(env: Env, h: Heap, sh: seq<FieldShape>, vs: seq<Value>, source: nat, mems: seq<Memory>)
    requires Ready(env, h) && CodeOk(env) && env.Binary() && FieldsOk(h, sh, vs) && Save(env, h, sh, vs).Walk?
    requires |mems| >= 2 && source < |mems|
    requires forall k :: 0 <= k < |mems| && k != source ==> Receiver(env, h, sh, vs, mems[k])
    ensures var w := Save(env, h, sh, vs);
            && (AllFaithful(env, sh, w.out, source, mems) <==>
                 w.safe && AllReadable(env, w.out) && |WrittenAll(env, w.out)| < 0x8000_0000)
            && (AllFaithful(env, sh, w.out, source, mems) ==>
                 forall k :: 0 <= k < |mems| && k != source ==>
                   Arrives(h, vs, w.done, BroadcastAt(env, sh, w.out, source, mems, k).mem))
  {
    var w := Save(env, h, sh, vs);
    var good := w.safe && AllReadable(env, w.out) && |WrittenAll(env, w.out)| < TWO31;
    forall k | 0 <= k < |mems| && k != source
      ensures var r := BroadcastAt(env, sh, w.out, source, mems, k);
              (Faithful(r, w.out) <==> good) && (Faithful(r, w.out) ==> Arrives(h, vs, w.done, r.mem))
    {
      OneRank(env, h, sh, vs, source, mems, k);
    }
    var other := if source == 0 then 1 else 0;
    assert 0 <= other < |mems| && other != source;
    assert Faithful(BroadcastAt(env, sh, w.out, source, mems, other), w.out) <==> good;
  }

  lemma OneRank(env: Env, h: Heap, sh: seq<FieldShape>, vs: seq<Value>, source: nat, mems: seq<Memory>, k: nat)
    requires Ready(env, h) && CodeOk(env) && env.Binary() && FieldsOk(h, sh, vs) && Save(env, h, sh, vs).Walk?
    requires source < |mems| && k < |mems| && k != source && Receiver(env, h, sh, vs, mems[k])
    ensures var w := Save(env, h, sh, vs);
            var r := BroadcastAt(env, sh, w.out, source, mems, k);
            && (Faithful(r, w.out) <==> w.safe && AllReadable(env, w.out) && |WrittenAll(env, w.out)| < TWO31)
            && (Faithful(r, w.out) ==> Arrives(h, vs, w.done, r.mem))
  {
    var w := Save(env, h, sh, vs);
    var message := WrittenAll(env, w.out);
    if |message| < TWO31 {
      SmallDelivered(message, |mems|, source);
      var iso := SaveThenLoad(env, h, sh, vs, mems[k], "\n");
    } else {
      LargeCutOff(message, |mems|, source, k);
      CutOffUnfaithful(env, sh, w.out, Bcast(Prepared(message, |mems|, source), source), k, mems[k]);
    }
  }

  /** A shorter stream cannot hold all values. */
  lemma CutOffUnfaithful(env: Env, sh: seq<FieldShape>, out: seq<Token>, buffers: Option<seq<string>>, k: nat,
                         mem: Memory)
    requires env.Binary() && CodeOk(env)
    requires buffers.Some? ==> k < |buffers.value| && |buffers.value[k]| + 1 < |WrittenAll(env, out)|
    ensures !Faithful(LoadedAt(env, sh, buffers, k, mem), out)
  {
    if buffers.Some? {
      var s := Stream(buffers.value[k] + "\n", []);
      var r := LoadInto(env, sh, s, mem);
      FieldsHonest(env, sh, 0, 0, s, mem, map[]);
      if Faithful(r, out) {
        assert ReadBetween(s, r.rest) == out;
        AfterConsumes(env, s, out);
        assert false;
      }
    }
  }
}
