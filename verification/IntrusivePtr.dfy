/**
 * Reference-counted handles used by several threads. A handle operation is a sequence of
 * atomic actions, and the actions of different threads interleave in any order.
 */
module IntrusivePointers {
  type Addr = nat
  type Handle = nat

  /**
   * Where a handle under construction got its pointer: from `new`, or from a handle or raw pointer
   * that has a reference.
   */
  datatype Source = Created | CopyOf(h: Handle)

  /**
   * The field `px` of a handle, with the progress of its constructor or destructor, or a raw
   * pointer that `detach` returned, which still stands for a counted reference.
   */
  datatype Slot =
    | Null
    | Owns(a: Addr)
    | Raw(a: Addr)
    | Building(a: Addr, source: Source)  // px is set, the count not yet increased
    | Deleting(a: Addr)                  // the count was decreased to zero, delete follows

  /** `count` has a reference counter for every object ever created, `deletes` one entry per `delete`. */
  datatype World = World(px: map<Handle, Slot>, count: map<Addr, int>, deletes: multiset<Addr>)

  datatype Action =
    | Default(h: Handle)
    | Create(h: Handle, a: Addr)
    | Begin(h: Handle, s: Handle)
    | Acquire(h: Handle)
    | Steal(h: Handle, s: Handle)
    | Swap(h: Handle, k: Handle)
    | Release(h: Handle)
    | Free(h: Handle)
    | Detach(h: Handle, r: Handle)
    | Adopt(h: Handle, r: Handle)

  predicate OwnsAt(w: World, h: Handle, a: Addr) {
    h in w.px && w.px[h] == Owns(a)
  }

  /** A handle or a raw pointer that stands for a reference. */
  predicate RefersTo(w: World, h: Handle, a: Addr) {
    h in w.px && (w.px[h] == Owns(a) || w.px[h] == Raw(a))
  }

  ghost function Owners(w: World, a: Addr): set<Handle> {
    set h | h in w.px && RefersTo(w, h, a)
  }

  function CountOf(w: World, a: Addr): int {
    if a in w.count then w.count[a] else 0
  }

  /** A handle that no constructor or destructor is working on. */
  predicate Settled(w: World, h: Handle) {
    h in w.px && (w.px[h].Null? || w.px[h].Owns?)
  }

  /** A settled handle or a raw pointer. */
  predicate Complete(w: World, h: Handle) {
    Settled(w, h) || (h in w.px && w.px[h].Raw?)
  }

  /** No constructor that got its pointer from `h` still has to count it. */
  ghost predicate Unread(w: World, h: Handle) {
    forall k :: k in w.px && w.px[k].Building? ==> w.px[k].source != CopyOf(h)
  }

  ghost predicate Changeable(w: World, h: Handle) {
    Settled(w, h) && Unread(w, h)
  }

  /**
   * When an action may happen. Changing a handle that another thread reads is a data race, and giving
   * up the reference that keeps an object alive for a constructor frees it too early: both are excluded.
   */
  ghost predicate Enabled(w: World, act: Action) {
    match act
    case Default(h) => h !in w.px
    case Create(h, a) => h !in w.px && a !in w.count
    case Begin(h, s) => h !in w.px && Complete(w, s)
    case Acquire(h) => h in w.px && w.px[h].Building?
    case Steal(h, s) => h !in w.px && Changeable(w, s)
    case Swap(h, k) => Changeable(w, h) && Changeable(w, k)
    case Release(h) => Changeable(w, h)
    case Free(h) => h in w.px && w.px[h].Deleting?
    case Detach(h, r) => Changeable(w, h) && r !in w.px
    case Adopt(h, r) => h !in w.px && r in w.px && w.px[r].Raw? && Unread(w, r)
  }

  function Apply(w: World, act: Action): World
    requires Enabled(w, act)
  {
    match act
    case Default(h) => w.(px := w.px[h := Null])
    case Create(h, a) => w.(px := w.px[h := Building(a, Created)], count := w.count[a := 0])
    case Begin(h, s) => w.(px := w.px[h := if w.px[s].Null? then Null else Building(w.px[s].a, CopyOf(s))])
    case Acquire(h) =>
      var a := w.px[h].a;
      w.(px := w.px[h := Owns(a)], count := w.count[a := CountOf(w, a) + 1])
    case Steal(h, s) => w.(px := w.px[h := w.px[s]][s := Null])
    case Swap(h, k) => w.(px := w.px[h := w.px[k]][k := w.px[h]])
    case Release(h) =>
      if w.px[h].Null? then w.(px := w.px - {h})
      else
        var a := w.px[h].a;
        var before := CountOf(w, a);
        w.(px := if before == 1 then w.px[h := Deleting(a)] else w.px - {h}, count := w.count[a := before - 1])
    case Free(h) => w.(px := w.px - {h}, deletes := w.deletes + multiset{w.px[h].a})
    case Detach(h, r) => if w.px[h].Null? then w else w.(px := w.px[h := Null][r := Raw(w.px[h].a)])
    case Adopt(h, r) => w.(px := (w.px - {r})[h := Owns(w.px[r].a)])
  }

  // The invariant

  /** The stored count is the number of owning handles and detached references. */
  ghost predicate Counted(w: World) {
    forall a :: a in w.count ==> w.count[a] == |Owners(w, a)|
  }

  /** Every pointer leads to a created object, and a copy is made from what has a reference to it. */
  ghost predicate Anchored(w: World) {
    && (forall h :: h in w.px && !w.px[h].Null? ==> w.px[h].a in w.count)
    && (forall h :: h in w.px && w.px[h].Building? && w.px[h].source.CopyOf? ==>
          RefersTo(w, w.px[h].source.h, w.px[h].a))
    && (forall a :: a in w.deletes ==> a in w.count)
  }

  /** The one handle that is about to count a new object or to delete a dead one. */
  predicate Last(w: World, h: Handle, a: Addr) {
    h in w.px && (w.px[h] == Building(a, Created) || w.px[h] == Deleting(a))
  }

  /** An object without references is new, about to be deleted or deleted, and only one of these, once. */
  ghost predicate Unreferenced(w: World, a: Addr)
    requires a in w.count
  {
    && (w.count[a] > 0 ==> w.deletes[a] == 0 && forall h :: !Last(w, h, a))
    && (w.count[a] == 0 ==> w.deletes[a] == 1 || exists h :: Last(w, h, a))
    && (w.deletes[a] > 0 ==> w.deletes[a] == 1 && forall h :: !Last(w, h, a))
    && (forall h, k :: Last(w, h, a) && Last(w, k, a) ==> h == k)
  }

  ghost predicate Inv(w: World) {
    Counted(w) && Anchored(w) && forall a :: a in w.count ==> Unreferenced(w, a)
  }

  const START: World := World(map[], map[], multiset{})

  lemma StartInv()
    ensures Inv(START)
  {
  }

  // Every action keeps the invariant

  ghost predicate SameSlot(w: World, v: World, h: Handle) {
    (h in v.px <==> h in w.px) && (h in w.px ==> v.px[h] == w.px[h])
  }

  /** One handle changed. */
  lemma OneChanged(w: World, v: World, h: Handle, a: Addr)
    requires forall k :: k != h ==> SameSlot(w, v, k)
    ensures |Owners(v, a)| - |Owners(w, a)|
            == (if RefersTo(v, h, a) then 1 else 0) - (if RefersTo(w, h, a) then 1 else 0)
  {
    var x, y := Owners(w, a), Owners(v, a);
    forall k | k != h ensures k in x <==> k in y {
      assert SameSlot(w, v, k);
    }
    assert x - {h} == y - {h};
    assert |x - {h}| == |x| - (if h in x then 1 else 0);
    assert |y - {h}| == |y| - (if h in y then 1 else 0);
  }

  /** Two handles changed places. */
  lemma TwoChanged(w: World, v: World, h: Handle, k: Handle, a: Addr)
    requires forall j :: j != h && j != k ==> SameSlot(w, v, j)
    requires h != k && RefersTo(v, h, a) == RefersTo(w, k, a) && RefersTo(v, k, a) == RefersTo(w, h, a)
    ensures |Owners(v, a)| == |Owners(w, a)|
  {
    var x, y := Owners(w, a), Owners(v, a);
    forall j | j != h && j != k ensures j in x <==> j in y {
      assert SameSlot(w, v, j);
    }
    assert x - {h} - {k} == y - {h} - {k};
    TwoRemoved(x, h, k);
    TwoRemoved(y, h, k);
  }

  lemma TwoRemoved(x: set<Handle>, h: Handle, k: Handle)
    requires h != k
    ensures |x - {h} - {k}| == |x| - (if h in x then 1 else 0) - (if k in x then 1 else 0)
  {
    assert |x - {h}| == |x| - (if h in x then 1 else 0);
  }

  /** How the number of references to `a` changes. */
  function Gain(w: World, act: Action, a: Addr): int {
    match act
    case Acquire(h) => if h in w.px && w.px[h].Building? && w.px[h].a == a then 1 else 0
    case Release(h) => if OwnsAt(w, h, a) then -1 else 0
    case _ => 0
  }

  /** The same action changes the counter and the number of references by the same amount. */
  lemma ReferencesAfter(w: World, act: Action, a: Addr)
    requires Enabled(w, act)
    ensures var v := Apply(w, act);
            |Owners(v, a)| == |Owners(w, a)| + Gain(w, act, a)
  {
    var v := Apply(w, act);
    match act
    case Steal(h, s) => TwoChanged(w, v, h, s, a);
    case Swap(h, k) => if h != k { TwoChanged(w, v, h, k, a); } else { assert v.px == w.px; }
    case Default(h) => OneChanged(w, v, h, a);
    case Create(h, b) => OneChanged(w, v, h, a);
    case Begin(h, s) => OneChanged(w, v, h, a);
    case Acquire(h) => OneChanged(w, v, h, a);
    case Release(h) => OneChanged(w, v, h, a);
    case Free(h) => OneChanged(w, v, h, a);
    case Detach(h, r) => if w.px[h].Owns? { TwoChanged(w, v, h, r, a); }
    case Adopt(h, r) => TwoChanged(w, v, h, r, a);
  }

  lemma KeepsCounted(w: World, act: Action)
    requires Inv(w) && Enabled(w, act)
    ensures Counted(Apply(w, act))
  {
    var v := Apply(w, act);
    forall a | a in v.count ensures v.count[a] == |Owners(v, a)| {
      ReferencesAfter(w, act, a);
      if a !in w.count {
        assert Owners(w, a) == {};
      }
    }
  }

  /** An owned object is referenced. */
  lemma OwnedIsReferenced(w: World, h: Handle)
    requires Inv(w) && h in w.px && (w.px[h].Owns? || w.px[h].Raw? || (w.px[h].Building? && w.px[h].source.CopyOf?))
    ensures w.px[h].a in w.count && w.count[w.px[h].a] > 0
  {
    var s := if w.px[h].Building? then w.px[h].source.h else h;
    assert s in Owners(w, w.px[h].a);
  }

  /** The part of the invariant about one handle. */
  ghost predicate AnchoredSlot(w: World, h: Handle)
    requires h in w.px
  {
    && (!w.px[h].Null? ==> w.px[h].a in w.count)
    && (w.px[h].Building? && w.px[h].source.CopyOf? ==> RefersTo(w, w.px[h].source.h, w.px[h].a))
  }

  lemma KeepsAnchored(w: World, act: Action)
    requires Inv(w) && Enabled(w, act)
    ensures Anchored(Apply(w, act))
  {
    var v := Apply(w, act);
    forall h | h in v.px ensures AnchoredSlot(v, h) {
      KeepsAnchoredSlot(w, act, h);
    }
  }

  lemma KeepsAnchoredSlot(w: World, act: Action, h: Handle)
    requires Anchored(w) && Enabled(w, act) && h in Apply(w, act).px
    ensures AnchoredSlot(Apply(w, act), h)
  {
    var v := Apply(w, act);
    assert h in w.px ==> AnchoredSlot(w, h);
    if h in w.px && v.px[h] == w.px[h] {
      if w.px[h].Building? && w.px[h].source.CopyOf? {
        CopiedUnchanged(w, act, w.px[h].source.h, h);
      }
    } else {
      ChangedSlot(w, act, h);
    }
  }

  /** What is being copied does not change. */
  lemma CopiedUnchanged(w: World, act: Action, s: Handle, h: Handle)
    requires Enabled(w, act) && Complete(w, s)
    requires h in w.px && w.px[h].Building? && w.px[h].source == CopyOf(s)
    ensures SameSlot(w, Apply(w, act), s)
  {
    assert !Unread(w, s);
  }

  lemma ChangedSlot(w: World, act: Action, h: Handle)
    requires Anchored(w) && Enabled(w, act) && h in Apply(w, act).px
    requires h in w.px ==> Apply(w, act).px[h] != w.px[h]
    ensures AnchoredSlot(Apply(w, act), h)
  {
    if act.Begin? {
      BegunSlot(w, act.h, act.s);
    } else {
      ChangedAddress(w, act, h);
      NotBegun(w, act, h);
    }
  }

  lemma BegunSlot(w: World, h: Handle, s: Handle)
    requires Anchored(w) && Enabled(w, Begin(h, s))
    ensures AnchoredSlot(Apply(w, Begin(h, s)), h)
  {
    assert AnchoredSlot(w, s);
  }

  lemma ChangedAddress(w: World, act: Action, h: Handle)
    requires Anchored(w) && Enabled(w, act) && h in Apply(w, act).px && !act.Begin?
    ensures !Apply(w, act).px[h].Null? ==> Apply(w, act).px[h].a in Apply(w, act).count
  {
    if act.Steal? {
      StolenAddress(w, act.h, act.s, h);
    } else if act.Swap? {
      SwappedAddress(w, act.h, act.k, h);
    } else if act.Detach? {
      assert AnchoredSlot(w, act.h);
      assert h in w.px ==> AnchoredSlot(w, h);
    } else if act.Adopt? {
      assert AnchoredSlot(w, act.r);
      assert h in w.px ==> AnchoredSlot(w, h);
    } else {
      assert h in w.px ==> AnchoredSlot(w, h);
    }
  }

  lemma StolenAddress(w: World, k: Handle, s: Handle, h: Handle)
    requires Anchored(w) && Enabled(w, Steal(k, s)) && h in Apply(w, Steal(k, s)).px
    ensures !Apply(w, Steal(k, s)).px[h].Null? ==> Apply(w, Steal(k, s)).px[h].a in w.count
  {
    assert AnchoredSlot(w, if h == k then s else h);
  }

  lemma SwappedAddress(w: World, k: Handle, s: Handle, h: Handle)
    requires Anchored(w) && Enabled(w, Swap(k, s)) && h in w.px
    ensures !Apply(w, Swap(k, s)).px[h].Null? ==> Apply(w, Swap(k, s)).px[h].a in w.count
  {
    assert AnchoredSlot(w, if h == k then s else if h == s then k else h);
  }

  lemma NotBegun(w: World, act: Action, h: Handle)
    requires Enabled(w, act) && h in Apply(w, act).px && !act.Begin?
    requires h in w.px ==> Apply(w, act).px[h] != w.px[h]
    ensures Apply(w, act).px[h].Building? ==> Apply(w, act).px[h].source == Created
  {
  }

  /** Nothing changed for `a`. */
  lemma SameUnreferenced(w: World, v: World, a: Addr)
    requires a in w.count && Unreferenced(w, a) && a in v.count
    requires v.count[a] == w.count[a] && v.deletes[a] == w.deletes[a]
    requires forall h :: Last(v, h, a) <==> Last(w, h, a)
    ensures Unreferenced(v, a)
  {
    if h :| Last(w, h, a) {
      assert Last(v, h, a);
    }
  }

  lemma AcquireUnreferenced(w: World, h: Handle, a: Addr)
    requires Inv(w) && Enabled(w, Acquire(h)) && w.px[h].a == a
    ensures Unreferenced(Apply(w, Acquire(h)), a)
  {
    var v := Apply(w, Acquire(h));
    if w.px[h].source.Created? {
      assert Last(w, h, a);
    } else {
      OwnedIsReferenced(w, h);
    }
    forall k ensures !Last(v, k, a) {
      assert Last(v, k, a) ==> Last(w, k, a) && k != h;
    }
  }

  lemma ReleaseUnreferenced(w: World, h: Handle, a: Addr)
    requires Inv(w) && Enabled(w, Release(h)) && w.px[h] == Owns(a)
    ensures Unreferenced(Apply(w, Release(h)), a)
  {
    var v := Apply(w, Release(h));
    OwnedIsReferenced(w, h);
    assert forall k :: k != h && Last(v, k, a) ==> Last(w, k, a);
    assert v.count[a] == 0 ==> Last(v, h, a);
  }

  lemma FreeUnreferenced(w: World, h: Handle, a: Addr)
    requires Inv(w) && Enabled(w, Free(h)) && w.px[h].a == a
    ensures Unreferenced(Apply(w, Free(h)), a)
  {
    var v := Apply(w, Free(h));
    assert Last(w, h, a);
    assert forall k :: Last(v, k, a) ==> Last(w, k, a) && k != h;
  }

  lemma CreateUnreferenced(w: World, h: Handle, a: Addr)
    requires Inv(w) && Enabled(w, Create(h, a))
    ensures Unreferenced(Apply(w, Create(h, a)), a)
  {
    assert Last(Apply(w, Create(h, a)), h, a);
  }

  lemma KeepsUnreferenced(w: World, act: Action, a: Addr)
    requires Inv(w) && Enabled(w, act) && a in Apply(w, act).count
    ensures Unreferenced(Apply(w, act), a)
  {
    var v := Apply(w, act);
    if act.Acquire? && w.px[act.h].a == a {
      AcquireUnreferenced(w, act.h, a);
    } else if act.Release? && w.px[act.h] == Owns(a) {
      ReleaseUnreferenced(w, act.h, a);
    } else if act.Free? && w.px[act.h].a == a {
      FreeUnreferenced(w, act.h, a);
    } else if act.Create? && act.a == a {
      CreateUnreferenced(w, act.h, a);
    } else {
      LastUnchanged(w, act, a);
      SameUnreferenced(w, v, a);
    }
  }

  lemma LastUnchanged(w: World, act: Action, a: Addr)
    requires Enabled(w, act)
    requires (act.Acquire? || act.Free?) ==> w.px[act.h].a != a
    requires act.Release? ==> w.px[act.h] != Owns(a)
    requires act.Create? ==> act.a != a
    ensures forall h :: Last(Apply(w, act), h, a) <==> Last(w, h, a)
  {
  }

  /** Every action of every thread keeps the invariant. */
  lemma KeepsInv(w: World, act: Action)
    requires Inv(w) && Enabled(w, act)
    ensures Inv(Apply(w, act))
  {
    KeepsCounted(w, act);
    KeepsAnchored(w, act);
    forall a | a in Apply(w, act).count ensures Unreferenced(Apply(w, act), a) {
      KeepsUnreferenced(w, act, a);
    }
  }

  // Runs

  /** A run of any threads: the worlds between the actions. */
  ghost predicate Run(ws: seq<World>) {
    |ws| > 0 && Inv(ws[0]) && forall i :: 0 < i < |ws| ==> Follows(ws, i)
  }

  ghost predicate Follows(ws: seq<World>, i: nat)
    requires 0 < i < |ws|
  {
    Step(ws[i - 1], ws[i])
  }

  ghost predicate Step(w: World, v: World) {
    exists act :: Enabled(w, act) && v == Apply(w, act)
  }

  lemma StepKeepsInv(w: World, v: World)
    requires Inv(w) && Step(w, v)
    ensures Inv(v)
  {
    var act :| Enabled(w, act) && v == Apply(w, act);
    KeepsInv(w, act);
  }

  lemma {:induction false} RunInv(ws: seq<World>, i: nat)
    requires Run(ws) && i < |ws|
    ensures Inv(ws[i])
  {
    if i > 0 {
      RunInv(ws, i - 1);
      assert Follows(ws, i);
      StepKeepsInv(ws[i - 1], ws[i]);
    }
  }

  lemma RunStep(ws: seq<World>, i: nat)
    requires Run(ws) && 0 < i < |ws|
    ensures Inv(ws[i - 1]) && Step(ws[i - 1], ws[i])
  {
    RunInv(ws, i - 1);
    assert Follows(ws, i);
  }

  /**
   * Main result: the stored count is the number of owning handles and detached references, and
   * counts stay non-negative.
   */
  lemma CountIsOwners(ws: seq<World>, i: nat, a: Addr)
    requires Run(ws) && i < |ws| && a in ws[i].count
    ensures ws[i].count[a] == |Owners(ws[i], a)|
  {
    RunInv(ws, i);
  }

  /** Main result: no action reads, counts or deletes an object that was deleted. */
  lemma NothingDeletedIsTouched(ws: seq<World>, i: nat, h: Handle)
    requires Run(ws) && i < |ws| && h in ws[i].px && !ws[i].px[h].Null?
    ensures ws[i].px[h].a in ws[i].count && ws[i].deletes[ws[i].px[h].a] == 0
  {
    var w := ws[i];
    RunInv(ws, i);
    var a := w.px[h].a;
    if w.px[h].Owns? || w.px[h].Raw? || (w.px[h].Building? && w.px[h].source.CopyOf?) {
      OwnedIsReferenced(w, h);
    } else {
      assert Last(w, h, a);
    }
  }

  /** Main result: every object is deleted at most once, and exactly once when its last reference is gone. */
  lemma DeletedExactlyOnce(ws: seq<World>, i: nat, a: Addr)
    requires Run(ws) && i < |ws| && a in ws[i].count
    ensures ws[i].deletes[a] <= 1
    ensures (forall h :: !Last(ws[i], h, a)) ==>
              (ws[i].deletes[a] == 1 <==> Owners(ws[i], a) == {})
  {
    RunInv(ws, i);
    assert |Owners(ws[i], a)| == 0 <==> Owners(ws[i], a) == {};
  }

  /** The object lost its last reference. */
  ghost predicate Dead(w: World, a: Addr) {
    a in w.count && w.count[a] == 0 && forall h :: h in w.px ==> w.px[h] != Building(a, Created)
  }

  lemma DeadStep(w: World, act: Action, a: Addr)
    requires Inv(w) && Enabled(w, act) && Dead(w, a)
    ensures Dead(Apply(w, act), a)
  {
    match act
    case Acquire(h) => if w.px[h].a == a { OwnedIsReferenced(w, h); }
    case Release(h) => if w.px[h] == Owns(a) { OwnedIsReferenced(w, h); }
    case _ =>
  }

  lemma {:induction false} StaysDead(ws: seq<World>, i: nat, j: nat, a: Addr)
    requires Run(ws) && i <= j < |ws| && Dead(ws[i], a)
    ensures Dead(ws[j], a)
  {
    if i < j {
      StaysDead(ws, i, j - 1, a);
      RunStep(ws, j);
      DeadNext(ws[j - 1], ws[j], a);
    }
  }

  /** Main result: after the last release no thread gets a reference again. */
  lemma DeadForever(ws: seq<World>, i: nat, j: nat, a: Addr)
    requires Run(ws) && i <= j < |ws| && Dead(ws[i], a)
    ensures Owners(ws[j], a) == {}
  {
    StaysDead(ws, i, j, a);
    RunInv(ws, j);
    DeadUnreferenced(ws[j], a);
  }

  lemma DeadNext(w: World, v: World, a: Addr)
    requires Inv(w) && Step(w, v) && Dead(w, a)
    ensures Dead(v, a)
  {
    var act :| Enabled(w, act) && v == Apply(w, act);
    DeadStep(w, act, a);
  }

  lemma DeadUnreferenced(w: World, a: Addr)
    requires Inv(w) && Dead(w, a)
    ensures Owners(w, a) == {}
  {
    assert |Owners(w, a)| == 0;
  }

  /** The release that takes the count to zero is the one that makes the object dead. */
  lemma LastRelease(w: World, act: Action, a: Addr)
    requires Inv(w) && Enabled(w, act) && a in w.count
    ensures w.count[a] > 0 && Dead(Apply(w, act), a) <==>
            act.Release? && OwnsAt(w, act.h, a) && Owners(w, a) == {act.h}
  {
    var v := Apply(w, act);
    KeepsInv(w, act);
    ReferencesAfter(w, act, a);
    if act.Release? && OwnsAt(w, act.h, a) {
      assert act.h in Owners(w, a);
      OnlyOwner(w, act.h, a);
      assert Dead(v, a) <==> v.count[a] == 0 by {
        OwnedIsReferenced(w, act.h);
        assert forall h :: !Last(w, h, a);
        assert forall h :: h in w.px && w.px[h] == Building(a, Created) ==> Last(w, h, a);
      }
    }
  }

  lemma OnlyOwner(w: World, h: Handle, a: Addr)
    requires h in Owners(w, a)
    ensures |Owners(w, a)| == 1 <==> Owners(w, a) == {h}
  {
    if |Owners(w, a)| == 1 {
      assert |Owners(w, a) - {h}| == 0;
    }
  }

  // The operations of one thread among others

  /** No other thread copies from a handle in `mine`. */
  ghost predicate Private(w: World, mine: set<Handle>) {
    forall k :: k in w.px && w.px[k].Building? && w.px[k].source.CopyOf? && w.px[k].source.h in mine ==> k in mine
  }

  /** Between its operations, a thread has no handle half built. */
  ghost predicate Idle(w: World, mine: set<Handle>) {
    Inv(w) && Private(w, mine) && forall h :: h in mine && h in w.px ==> Complete(w, h)
  }

  /** Whatever the other threads did, the handles of this thread are as they were, and no `delete` is undone. */
  ghost predicate Undisturbed(w: World, v: World, mine: set<Handle>) {
    Inv(v) && Private(v, mine) && Same(w, v, mine, {}) && w.deletes <= v.deletes
  }

  ghost predicate Same(w: World, v: World, mine: set<Handle>, but: set<Handle>) {
    forall h :: h in mine && h !in but ==> SameSlot(w, v, h)
  }

  /** The handles an action changes or reads. */
  function Uses(act: Action): set<Handle> {
    match act
    case Begin(h, s) => {h, s}
    case Steal(h, s) => {h, s}
    case Swap(h, k) => {h, k}
    case Detach(h, r) => {h, r}
    case Adopt(h, r) => {h, r}
    case _ => {act.h}
  }

  /** An action on other handles leaves this thread undisturbed. */
  lemma OthersLeaveUndisturbed(w: World, act: Action, mine: set<Handle>)
    requires Inv(w) && Private(w, mine) && Enabled(w, act) && Uses(act) !! mine
    ensures Undisturbed(w, Apply(w, act), mine)
  {
    KeepsInv(w, act);
    OthersKeepSlots(w, act, mine);
    OthersKeepPrivate(w, act, mine);
  }

  lemma OthersKeepSlots(w: World, act: Action, mine: set<Handle>)
    requires Enabled(w, act) && Uses(act) !! mine
    ensures Same(w, Apply(w, act), mine, {})
  {
  }

  lemma OthersKeepPrivate(w: World, act: Action, mine: set<Handle>)
    requires Private(w, mine) && Enabled(w, act) && Uses(act) !! mine
    ensures Private(Apply(w, act), mine)
  {
  }

  lemma MineKeepsPrivate(w: World, act: Action, mine: set<Handle>)
    requires Private(w, mine) && Enabled(w, act) && Uses(act) <= mine
    ensures Private(Apply(w, act), mine)
  {
  }

  lemma UndisturbedTransitive(u: World, v: World, w: World, mine: set<Handle>)
    requires Undisturbed(u, v, mine) && Undisturbed(v, w, mine)
    ensures Undisturbed(u, w, mine)
  {
    forall h | h in mine
      ensures SameSlot(u, w, h)
    {
      assert SameSlot(u, v, h) && SameSlot(v, w, h);
    }
  }

  ghost predicate ForeignStep(w: World, v: World, mine: set<Handle>) {
    exists act :: Enabled(w, act) && Uses(act) !! mine && v == Apply(w, act)
  }

  ghost predicate ForeignAt(ws: seq<World>, i: nat, mine: set<Handle>)
    requires 0 < i < |ws|
  {
    ForeignStep(ws[i - 1], ws[i], mine)
  }

  /** The worlds between any number of actions on the handles of other threads. */
  ghost predicate ForeignRun(ws: seq<World>, mine: set<Handle>) {
    |ws| > 0 && Inv(ws[0]) && Private(ws[0], mine) && forall i :: 0 < i < |ws| ==> ForeignAt(ws, i, mine)
  }

  lemma ForeignStepLeaves(w: World, v: World, mine: set<Handle>)
    requires Inv(w) && Private(w, mine) && ForeignStep(w, v, mine)
    ensures Undisturbed(w, v, mine)
  {
    var act :| Enabled(w, act) && Uses(act) !! mine && v == Apply(w, act);
    OthersLeaveUndisturbed(w, act, mine);
  }

  /** Any number of foreign actions leave this thread undisturbed: that is what `Others` below assumes. */
  lemma {:induction false} RunLeavesUndisturbed(ws: seq<World>, i: nat, mine: set<Handle>)
    requires ForeignRun(ws, mine) && i < |ws|
    ensures Undisturbed(ws[0], ws[i], mine)
  {
    if i > 0 {
      RunLeavesUndisturbed(ws, i - 1, mine);
      assert ForeignAt(ws, i, mine);
      ForeignStepLeaves(ws[i - 1], ws[i], mine);
      UndisturbedTransitive(ws[0], ws[i - 1], ws[i], mine);
    }
  }

  lemma IdleUnread(w: World, mine: set<Handle>, h: Handle)
    requires Idle(w, mine) && h in mine
    ensures Unread(w, h)
  {
  }

  /** A thread between its operations may change any of its handles. */
  lemma IdleChangeable(w: World, mine: set<Handle>, h: Handle)
    requires Idle(w, mine) && h in mine && h in w.px && !w.px[h].Raw?
    ensures Changeable(w, h)
  {
  }

  /** After an action that leaves no constructor or destructor under way, the thread is idle again. */
  lemma StaysIdle(w: World, act: Action, v: World, mine: set<Handle>)
    requires Idle(w, mine) && Enabled(w, act) && Uses(act) <= mine
    requires act.Steal? || act.Swap? || act.Detach? || act.Adopt?
    requires Undisturbed(Apply(w, act), v, mine)
    ensures Idle(v, mine)
  {
    forall h | h in mine && h in v.px ensures Complete(v, h) {
      assert SameSlot(Apply(w, act), v, h);
      MineSettled(w, act, mine, h);
    }
  }

  lemma MineSettled(w: World, act: Action, mine: set<Handle>, h: Handle)
    requires Idle(w, mine) && Enabled(w, act) && Uses(act) <= mine
    requires act.Steal? || act.Swap? || act.Detach? || act.Adopt?
    requires h in mine && h in Apply(w, act).px
    ensures Complete(Apply(w, act), h)
  {
    assert h in w.px ==> Complete(w, h);
    match act
    case Steal(k, s) =>
    case Swap(k, j) =>
    case Detach(k, r) =>
    case Adopt(k, r) =>
    case _ =>
  }

  /** The world once handle `h` is gone: a reference less, and its object deleted if that was the last one. */
  function Dropped(w: World, h: Handle): World
    requires Settled(w, h)
  {
    if w.px[h].Null? then w.(px := w.px - {h})
    else
      var a := w.px[h].a;
      var before := CountOf(w, a);
      w.(px := w.px - {h}, count := w.count[a := before - 1],
         deletes := if before == 1 then w.deletes + multiset{a} else w.deletes)
  }

  /** It is deleted exactly if `h` was its only owner. */
  lemma DroppedDeletes(w: World, h: Handle)
    requires Inv(w) && Settled(w, h) && w.px[h].Owns?
    ensures var a := w.px[h].a; w.deletes[a] == 0 && Dropped(w, h).deletes[a] == if Owners(w, a) == {h} then 1 else 0
  {
    OwnedIsReferenced(w, h);
    assert h in Owners(w, w.px[h].a);
    OnlyOwner(w, h, w.px[h].a);
  }

  /** Without a delete the handle is gone after the release. */
  lemma ReleaseDrops(w: World, h: Handle)
    requires Changeable(w, h) && h !in Apply(w, Release(h)).px
    ensures Apply(w, Release(h)) == Dropped(w, h)
  {
  }

  /** Otherwise `v`, after the release, is followed by the delete and `u`. */
  lemma FreeDrops(w: World, v: World, u: World, h: Handle, mine: set<Handle>)
    requires Changeable(w, h) && h in mine && h in v.px && v.px[h].Deleting?
    requires Undisturbed(Apply(w, Release(h)), v, mine) && Undisturbed(Apply(v, Free(h)), u, mine)
    ensures Undisturbed(Dropped(w, h), u, mine)
  {
    var released := Apply(w, Release(h));
    assert SameSlot(released, v, h);
    forall k | k in mine
      ensures SameSlot(Dropped(w, h), u, k)
    {
      assert SameSlot(released, v, k) && SameSlot(Apply(v, Free(h)), u, k);
    }
  }

  class Pointers {
    var world: World

    constructor ()
      ensures world == START
    {
      world := START;
    }

    /** Any number of actions of the other threads; callers only know that their handles are left alone. */
    method Others(ghost mine: set<Handle>)
      requires Inv(world) && Private(world, mine)
      modifies this
      ensures Undisturbed(old(world), world, mine)
    {
    }

    method Do(act: Action, ghost mine: set<Handle>)
      requires Inv(world) && Enabled(world, act) && Private(world, mine) && Uses(act) <= mine
      modifies this
      ensures Undisturbed(Apply(old(world), act), world, mine)
    {
      KeepsInv(world, act);
      MineKeepsPrivate(world, act, mine);
      world := Apply(world, act);
      Others(mine);
    }

    method DefaultConstruct(h: Handle, ghost mine: set<Handle>)
      requires Idle(world, mine) && h in mine && h !in world.px
      modifies this
      ensures Idle(world, mine) && Same(old(world), world, mine, {h})
      ensures h in world.px && world.px[h] == Null
    {
      Do(Default(h), mine);
    }

    /** `intrusive_ptr(new T)`. */
    method ConstructFromNew(h: Handle, a: Addr, ghost mine: set<Handle>)
      requires Idle(world, mine) && h in mine && h !in world.px && a !in world.count
      modifies this
      ensures Idle(world, mine) && Same(old(world), world, mine, {h})
      ensures OwnsAt(world, h, a)
    {
      Do(Create(h, a), mine);
      Do(Acquire(h), mine);
    }

    /** `intrusive_ptr(s)`. */
    method CopyConstruct(h: Handle, s: Handle, ghost mine: set<Handle>)
      requires Idle(world, mine) && h in mine && h !in world.px && s in mine && Settled(world, s)
      modifies this
      ensures Idle(world, mine) && Same(old(world), world, mine, {h})
      ensures h in world.px && world.px[h] == old(world.px[s])
    {
      ConstructFromPointer(h, s, mine);
    }

    /** `intrusive_ptr(p)` with the pointer of `s`, a handle or a detached pointer: the object is counted already. */
    method ConstructFromPointer(h: Handle, s: Handle, ghost mine: set<Handle>)
      requires Idle(world, mine) && h in mine && h !in world.px && s in mine && s in world.px
      modifies this
      ensures Idle(world, mine) && Same(old(world), world, mine, {h})
      ensures h in world.px && world.px[h] == if old(world.px[s]).Null? then Null else Owns(old(world.px[s]).a)
    {
      ghost var begun := Apply(world, Begin(h, s));
      Do(Begin(h, s), mine);
      assert SameSlot(begun, world, h) && SameSlot(begun, world, s);
      if world.px[h].Building? {
        Do(Acquire(h), mine);
      }
    }

    /** `intrusive_ptr(std::move(s))`. */
    method MoveConstruct(h: Handle, s: Handle, ghost mine: set<Handle>)
      requires Idle(world, mine) && h in mine && h !in world.px && s in mine && Settled(world, s)
      modifies this
      ensures Idle(world, mine) && Same(old(world), world, mine, {h, s})
      ensures h in world.px && world.px[h] == old(world.px[s])
      ensures s in world.px && world.px[s] == Null
    {
      IdleChangeable(world, mine, s);
      Do(Steal(h, s), mine);
      StaysIdle(old(world), Steal(h, s), world, mine);
    }

    /** `intrusive_ptr(p, false)`: takes over the reference of the raw pointer `r`. */
    method Adopt(h: Handle, r: Handle, ghost mine: set<Handle>)
      requires Idle(world, mine) && h in mine && h !in world.px && r in mine && r in world.px && world.px[r].Raw?
      modifies this
      ensures Idle(world, mine) && Same(old(world), world, mine, {h, r})
      ensures OwnsAt(world, h, old(world.px[r].a)) && r !in world.px
    {
      IdleUnread(world, mine, r);
      Do(Action.Adopt(h, r), mine);
      StaysIdle(old(world), Action.Adopt(h, r), world, mine);
    }

    /** The destructor: one atomic decrement, and `delete` if that took the count to zero. */
    method Destroy(h: Handle, ghost mine: set<Handle>)
      requires Idle(world, mine) && h in mine && Settled(world, h)
      modifies this
      ensures Idle(world, mine) && Same(old(world), world, mine, {h})
      ensures h !in world.px && Undisturbed(Dropped(old(world), h), world, mine)
    {
      IdleChangeable(world, mine, h);
      ghost var released := Apply(world, Release(h));
      Do(Release(h), mine);
      assert SameSlot(released, world, h);
      if h in world.px {
        ghost var v := world;
        Do(Free(h), mine);
        FreeDrops(old(world), v, world, h, mine);
      } else {
        ReleaseDrops(old(world), h);
      }
    }

    method Swap(h: Handle, k: Handle, ghost mine: set<Handle>)
      requires Idle(world, mine) && h in mine && Settled(world, h) && k in mine && Settled(world, k)
      modifies this
      ensures Idle(world, mine) && Same(old(world), world, mine, {h, k})
      ensures h in world.px && world.px[h] == old(world.px[k])
      ensures k in world.px && world.px[k] == old(world.px[h])
    {
      IdleChangeable(world, mine, h);
      IdleChangeable(world, mine, k);
      Do(Action.Swap(h, k), mine);
      StaysIdle(old(world), Action.Swap(h, k), world, mine);
    }

    /** `x = y`, also when they are the same handle. */
    method CopyAssign(x: Handle, y: Handle, tmp: Handle, ghost mine: set<Handle>)
      requires Idle(world, mine) && x in mine && Settled(world, x) && y in mine && Settled(world, y)
      requires tmp in mine && tmp !in world.px
      modifies this
      ensures Idle(world, mine) && Same(old(world), world, mine, {x})
      ensures x in world.px && world.px[x] == old(world.px[y])
    {
      CopyConstruct(tmp, y, mine);
      Swap(tmp, x, mine);
      Destroy(tmp, mine);
    }

    /** `x = std::move(y)`; moving a handle to itself keeps it. */
    method MoveAssign(x: Handle, y: Handle, tmp: Handle, ghost mine: set<Handle>)
      requires Idle(world, mine) && x in mine && Settled(world, x) && y in mine && Settled(world, y)
      requires tmp in mine && tmp !in world.px
      modifies this
      ensures Idle(world, mine) && Same(old(world), world, mine, {x, y})
      ensures x in world.px && world.px[x] == old(world.px[y])
      ensures y in world.px && (x != y ==> world.px[y] == Null)
    {
      MoveConstruct(tmp, y, mine);
      assert x != y ==> SameSlot(old(world), world, x);
      label Moved:
      Swap(tmp, x, mine);
      assert x != y ==> SameSlot(old@Moved(world), world, y);
      label Swapped:
      Destroy(tmp, mine);
      assert SameSlot(old@Swapped(world), world, x) && SameSlot(old@Swapped(world), world, y);
    }

    method Reset(x: Handle, tmp: Handle, ghost mine: set<Handle>)
      requires Idle(world, mine) && x in mine && Settled(world, x) && tmp in mine && tmp !in world.px
      modifies this
      ensures Idle(world, mine) && Same(old(world), world, mine, {x})
      ensures x in world.px && world.px[x] == Null
    {
      DefaultConstruct(tmp, mine);
      Swap(tmp, x, mine);
      Destroy(tmp, mine);
    }

    /** `x.reset(new T)` and `x = new T`. */
    method ResetToNew(x: Handle, a: Addr, tmp: Handle, ghost mine: set<Handle>)
      requires Idle(world, mine) && x in mine && Settled(world, x) && tmp in mine && tmp !in world.px
      requires a !in world.count
      modifies this
      ensures Idle(world, mine) && Same(old(world), world, mine, {x})
      ensures OwnsAt(world, x, a)
    {
      ConstructFromNew(tmp, a, mine);
      Swap(tmp, x, mine);
      Destroy(tmp, mine);
    }

    /** `x.reset(p)` and `x = p` with the pointer of `s`, which may be `x` itself. */
    method ResetToPointer(x: Handle, s: Handle, tmp: Handle, ghost mine: set<Handle>)
      requires Idle(world, mine) && x in mine && Settled(world, x) && s in mine && s in world.px
      requires tmp in mine && tmp !in world.px
      modifies this
      ensures Idle(world, mine) && Same(old(world), world, mine, {x})
      ensures x in world.px && world.px[x] == if old(world.px[s]).Null? then Null else Owns(old(world.px[s]).a)
    {
      ConstructFromPointer(tmp, s, mine);
      Swap(tmp, x, mine);
      Destroy(tmp, mine);
    }

    /** `x.reset(p, false)`: takes over the reference of the raw pointer `r`. */
    method ResetAdopting(x: Handle, r: Handle, tmp: Handle, ghost mine: set<Handle>)
      requires Idle(world, mine) && x in mine && Settled(world, x) && r in mine && r in world.px && world.px[r].Raw?
      requires tmp in mine && tmp !in world.px
      modifies this
      ensures Idle(world, mine) && Same(old(world), world, mine, {x, r})
      ensures OwnsAt(world, x, old(world.px[r].a)) && r !in world.px
    {
      Adopt(tmp, r, mine);
      label Adopted:
      Swap(tmp, x, mine);
      assert SameSlot(old@Adopted(world), world, r);
      label Swapped:
      Destroy(tmp, mine);
      assert SameSlot(old@Swapped(world), world, r) && SameSlot(old@Swapped(world), world, x);
    }

    /** The reference of `h` passes to the raw pointer `r`; nothing is counted. */
    method Detach(h: Handle, r: Handle, ghost mine: set<Handle>)
      requires Idle(world, mine) && h in mine && Settled(world, h) && r in mine && r !in world.px
      modifies this
      ensures Idle(world, mine) && Same(old(world), world, mine, {h, r})
      ensures h in world.px && world.px[h] == Null
      ensures if old(world.px[h]).Owns? then r in world.px && world.px[r] == Raw(old(world.px[h]).a) else r !in world.px
    {
      IdleChangeable(world, mine, h);
      Do(Action.Detach(h, r), mine);
      StaysIdle(old(world), Action.Detach(h, r), world, mine);
    }
  }
}
