/** Vectors of objects with an index from ids to positions. */
module IndexedVectors {
  import opened ObjectGraph

  /** The index that inserting the ids one after the other gives: a later position overwrites an earlier one. */
  function AccessMap(ids: seq<int>): map<int, nat> {
    if ids == [] then map[] else AccessMap(ids[..|ids| - 1])[ids[|ids| - 1] := |ids| - 1]
  }

  /** An id is in the index exactly when it is in the vector, and leads to its last position. */
  lemma {:induction false} AccessMapFinds(ids: seq<int>, id: int)
    ensures id in AccessMap(ids) <==> id in ids
    ensures id in AccessMap(ids) ==>
      var k := AccessMap(ids)[id]; k < |ids| && ids[k] == id && id !in ids[k + 1..]
  {
    if ids != [] {
      var init := ids[..|ids| - 1];
      AccessMapFinds(init, id);
      assert ids == init + [ids[|ids| - 1]];
      if id in AccessMap(ids) && id != ids[|ids| - 1] {
        var k := AccessMap(ids)[id];
        assert ids[k + 1..] == init[k + 1..] + [ids[|ids| - 1]];
      }
    }
  }

  datatype IndexedVector<T> = IndexedVector(data: seq<T>, access: map<int, nat>) {
    predicate Contains(id: int) {
      id in access
    }

    function Find(id: int): Option<nat> {
      if id in access then Some(access[id]) else None
    }

    function PushBack(x: T, id: int): IndexedVector<T> {
      IndexedVector(data + [x], access[id := |data|])
    }
  }

  /** `ComputeAccessMap`, which `load` runs, rebuilds the index that `push_back` had kept. */
  method ComputeAccessMap(ids: seq<int>) returns (access: map<int, nat>)
    ensures access == AccessMap(ids)
  {
    access := map[];
    var i := 0;
    while i < |ids|
      invariant i <= |ids| && access == AccessMap(ids[..i])
    {
      assert ids[..i + 1][..i] == ids[..i];
      access := access[ids[i] := i];
      i := i + 1;
    }
    assert ids[..i] == ids;
  }
}
