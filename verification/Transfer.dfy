/** Sending an object from one process to another: one serializer writes, a second one reads. */
module Transfers {
  import opened ObjectGraph
  import opened StreamFormat
  import opened LoadWalk
  import opened Isomorphism
  import opened RoundTrip
  import opened SerializerClass

  /** The value at address 0 of the receiver's memory is loaded from what was saved elsewhere. */
  method Transfer(env: Env, h: Heap, sh: seq<FieldShape>, vs: seq<Value>, mem: Memory)
    returns (ok: bool, loaded: Memory)
    requires Ready(env, h) && CodeOk(env) && FieldsOk(h, sh, vs) && Receiver(env, h, sh, vs, mem)
    ensures var w := Save(env, h, sh, vs);
            && (w.Failed? ==> !ok)
            && (w.Walk? && AllReadable(env, w.out) ==>
                 && (ok <==> w.safe)
                 && (ok ==> IsReach(h, vs, w.done) && exists iso: Iso :: Isomorphic(h, vs, w.done, loaded, iso)))
  {
    loaded := mem;
    var sender := new Serializer(env, "", []);
    ok := sender.SaveObject(h, sh, vs);
    if ok {
      ghost var w := Save(env, h, sh, vs);
      var receiver := new Serializer(env, sender.buffer + "\n", mem);
      assert [] + w.out == w.out;
      assert receiver.Rest() == Wire(env, w.out, "\n");
      ghost var iso := SaveThenLoad(env, h, sh, vs, mem, "\n");
      ok := receiver.LoadObject(sh, 0);
      loaded := receiver.mem;
    }
  }
}
