/** Phantom epochs while leaves split and are deleted side by side (kvrow.hh:190-206 and 237-262,
    masstree_remove.hh:183-210, masstree_split.hh:197, btree_leaflink.hh). The leaf list is the one of
    `LeafLink`, step for step; the loads and stores of phantom epochs are steps of their own. A leaf's
    epoch is raised by the deletion of its successor without its lock, so an operation that holds the
    lock may have read the epoch before and use it after. */
module PhantomEpochs {
  import NodeStore
  import Timestamps
  import opened LeafLink

  type Ptr = NodeStore.Ptr
  type Key = Timestamps.Key
  type Tid = Timestamps.Tid

  /** What the holder of a leaf's lock does besides linking: it removes a row, or it runs the loop of
      `remove_leaf` that hands the epoch to the predecessor. */
  datatype Op =
    | NoOp
    | Erasing(t: Tid, k: Key, ts: int, seen: int)
    | LoadPrev
    | LoadEpoch(p: Ptr)
    | Cas(p: Ptr, seen: int)
    | Recheck(p: Ptr)
    | Raised

  /** `last` (history): the timestamp of the last write of each key. */
  datatype World = World(list: State, epoch: map<Ptr, int>, op: map<Ptr, Op>, rows: map<Key, int>, clock: map<Tid, int>,
                         last: map<Key, int>)

  datatype Event =
    | Write(t: Tid, x: Ptr, k: Key)
    | BeginErase(t: Tid, x: Ptr, k: Key)
    | EndErase(x: Ptr)
    | BeginSplit(x: Ptr, nr: Ptr, bound: int)
    | BeginDelete(x: Ptr)
    | Raise(x: Ptr)
    | Relink(x: Ptr)

  /** A leaf of the logical list is responsible for the keys from its own to its successor's. */
  ghost predicate Owns(s: State, x: Ptr, k: Key) {
    && Domains(s) && x in s.live && (x == s.head || s.key[x] <= k)
    && (s.succ[x] in s.key ==> k < s.key[s.succ[x]])
  }

  ghost predicate WorldWf(w: World) {
    Inv(w.list) && w.epoch.Keys == w.list.pc.Keys && w.op.Keys == w.list.pc.Keys
  }

  /** Nobody holds the lock of `x`. */
  predicate Unlocked(w: World, x: Ptr) {
    x in w.list.live && x in w.list.pc && x in w.op && w.list.pc[x] == Idle && w.op[x] == NoOp
  }

  /** An operation on the leaf has read the leaf's epoch and will still use what it read. */
  datatype Window = InErase | InSplit | InDelete

  ghost predicate Within(w: World, x: Ptr, v: Window)
    requires WorldWf(w) && x in w.op
  {
    match v
    case InErase => w.op[x].Erasing?
    case InSplit => var p := w.list.pc[x]; p.SplitLoad? || p.SplitCas? || p.SplitSet? || p.SplitPrev?
    case InDelete => (w.op[x].Recheck? || w.op[x].Raised?) && !Gone(w.list, x)
  }

  /** The compare-and-exchange of the deletion of `x` stores into the epoch of `p`. */
  predicate Stores(w: World, x: Ptr, p: Ptr, seen: int)
    requires x in w.epoch && p in w.epoch
  {
    seen < w.epoch[x] && w.epoch[p] == seen
  }

  /** `run_put` and `run_replace`. */
  ghost predicate WriteStep(w: World, t: Tid, x: Ptr, k: Key, w': World) {
    Unlocked(w, x) && Owns(w.list, x, k) && x in w.epoch && t in w.clock && w.clock[t] % 2 == 0
    && var ts := if k in w.rows then Timestamps.NextTimestamp(w.clock[t], w.rows[k])
      else Timestamps.Observed(w.clock[t], w.epoch[x]);
       w' == w.(rows := w.rows[k := ts], clock := w.clock[t := ts], last := w.last[k := ts])
  }

  /** `run_remove` up to the load of the leaf's epoch, */
  ghost predicate BeginEraseStep(w: World, t: Tid, x: Ptr, k: Key, w': World) {
    Unlocked(w, x) && Owns(w.list, x, k) && x in w.epoch && t in w.clock && w.clock[t] % 2 == 0 && k in w.rows
    && var ts := Timestamps.NextTimestamp(w.clock[t], w.rows[k]);
       w' == w.(op := w.op[x := Erasing(t, k, ts, w.epoch[x])], clock := w.clock[t := ts])
  }

  /** and from the store of it on. */
  ghost predicate EndEraseStep(w: World, x: Ptr, w': World) {
    x in w.op && w.op[x].Erasing?
    && var Erasing(t, k, ts, seen) := w.op[x];
       w' == w.(op := w.op[x := NoOp], rows := w.rows - {k}, last := w.last[k := ts],
                epoch := if seen <= ts then w.epoch[x := ts + 2] else w.epoch)
  }

  /** A new leaf copies the epoch of the leaf that it is split from. */
  ghost predicate SplitStep(w: World, x: Ptr, nr: Ptr, bound: int, w': World) {
    Domains(w.list) && Unlocked(w, x) && x in w.epoch && SplitBegins(w.list, x, nr, bound, w'.list)
    && w' == w.(list := w'.list, epoch := w.epoch[nr := w.epoch[x]], op := w.op[nr := NoOp])
  }

  /** `remove_leaf` of a leaf with no rows. */
  ghost predicate DeleteStep(w: World, x: Ptr, w': World) {
    Unlocked(w, x) && x != w.list.head && (forall k :: k in w.rows ==> !Owns(w.list, x, k))
    && w' == w.(op := w.op[x := LoadPrev])
  }

  /** The operation on `x` goes on in the list. */
  ghost predicate RelinkStep(w: World, x: Ptr, w': World)
    requires WorldWf(w)
  {
    x in w.op && (w.list.pc[x] == Idle ==> w.op[x] == Raised && w'.list == To(w.list, x, UnlinkLoad))
    && Step(w.list, x, w'.list) && w' == w.(list := w'.list)
  }

  /** The loop of `remove_leaf`. */
  ghost predicate RaiseStep(w: World, x: Ptr, w': World, allowed: set<Window>)
    requires WorldWf(w) && x in w.op
  {
    match w.op[x]
    case LoadPrev => w' == w.(op := w.op[x := LoadEpoch(w.list.prev[x])])
    case LoadEpoch(p) => p in w.epoch && w' == w.(op := w.op[x := Cas(p, w.epoch[p])])
    case Cas(p, seen) =>
      p in w.epoch
      && if Stores(w, x, p, seen) then
           && (forall v :: Within(w, p, v) ==> v in allowed)
           && w' == w.(op := w.op[x := Recheck(p)], epoch := w.epoch[p := w.epoch[x]])
         else w' == w.(op := w.op[x := if seen < w.epoch[x] then LoadEpoch(p) else Recheck(p)])
    case Recheck(p) => w' == w.(op := w.op[x := if w.list.prev[x] == p then Raised else LoadPrev])
    case _ => false
  }

  /** One step; `allowed` are the windows in which a leaf's epoch may be raised. */
  ghost predicate Next(w: World, e: Event, w': World, allowed: set<Window>)
    requires WorldWf(w)
  {
    match e
    case Write(t, x, k) => WriteStep(w, t, x, k, w')
    case BeginErase(t, x, k) => BeginEraseStep(w, t, x, k, w')
    case EndErase(x) => EndEraseStep(w, x, w')
    case BeginSplit(x, nr, bound) => SplitStep(w, x, nr, bound, w')
    case BeginDelete(x) => DeleteStep(w, x, w')
    case Raise(x) => x in w.op && w.list.pc[x] == Idle && Deleting(w.op[x]) && RaiseStep(w, x, w', allowed)
    case Relink(x) => RelinkStep(w, x, w')
  }

  // ----- what holds if no epoch is raised in a window -----

  ghost predicate KeyOk(w: World, k: Key) {
    && (k in w.rows ==> k in w.last && w.rows[k] == w.last[k])
    && (k !in w.rows && k in w.last ==> forall x :: Owns(w.list, x, k) && x in w.epoch ==> w.last[k] < w.epoch[x])
  }

  /** The two parts of an operation fit together. */
  predicate Shape(pc: Pc, op: Op) {
    if pc.Idle? then true
    else if pc.UnlinkLoad? || pc.UnlinkCas? || pc.UnlinkRead? || pc.UnlinkMark? || pc.UnlinkPrev? then op == Raised
    else if pc.UnlinkLink? || pc.Dead? then op == Raised
    else op == NoOp
  }

  predicate Deleting(op: Op) {
    op.LoadPrev? || op.LoadEpoch? || op.Cas? || op.Recheck? || op.Raised?
  }

  /** What the operation on `x` read is still so. */
  ghost predicate OpOk(w: World, x: Ptr)
    requires WorldWf(w) && x in w.op
  {
    var op, pc := w.op[x], w.list.pc[x];
    && Shape(pc, op) && (Deleting(op) ==> x != w.list.head)
    && (Within(w, x, InSplit) ==> pc.nr in w.epoch && w.epoch[pc.nr] >= w.epoch[x])
    && (op.Erasing? ==>
        w.epoch[x] == op.seen && op.k in w.rows && w.rows[op.k] < op.ts && Owns(w.list, x, op.k) && op.ts % 2 == 0)
    && (op.Cas? ==> op.p in w.epoch && op.seen <= w.epoch[op.p])
    && (Within(w, x, InDelete) ==>
          var p := if op.Recheck? then op.p else w.list.prev[x]; p in w.epoch && w.epoch[p] >= w.epoch[x])
  }

  ghost predicate Valid(w: World) {
    && WorldWf(w)
    && (forall k {:trigger KeyOk(w, k)} :: KeyOk(w, k))
    && (forall x {:trigger OpOk(w, x)} :: x in w.op ==> OpOk(w, x))
    && (forall x :: x in w.epoch ==> w.epoch[x] % 2 == 0)
    && (forall t :: t in w.clock ==> w.clock[t] % 2 == 0)
  }

  // ----- responsibility -----

  lemma OneOwner(s: State, x: Ptr, y: Ptr, k: Key)
    requires Inv(s) && Owns(s, x, k) && Owns(s, y, k)
    ensures x == y
  {
    assert ListOk(s, x) && ListOk(s, y);
  }

  /** The same list has the same owners. */
  ghost predicate SameOwners(s: State, s': State) {
    && Domains(s) && Domains(s') && s'.live == s.live && s'.succ == s.succ && s'.head == s.head
    && (forall m :: m in s.key ==> m in s'.key && s'.key[m] == s.key[m])
    && (forall m :: m in s'.key && m !in s.key ==> forall x :: x in s.live ==> s.succ[x] != m)
  }

  lemma OwnsSame(s: State, s': State)
    requires SameOwners(s, s')
    ensures forall x, k :: Owns(s', x, k) <==> Owns(s, x, k)
  {
  }

  /** A new leaf takes the upper keys of the leaf it came from. */
  lemma OwnsEntered(s: State, n: Ptr, nr: Ptr, nx: Ptr, x: Ptr, k: Key)
    requires Inv(s) && Domains(Entered(s, n, nr, nx)) && n in s.pc && s.pc[n] == SplitPrev(nr, nx)
    requires Owns(Entered(s, n, nr, nx), x, k)
    ensures Owns(s, if x == nr then n else x, k)
  {
    assert PcOk(s, n) && ListOk(s, n) && (x != nr ==> ListOk(s, x));
    hide Inv;
  }

  /** A removed leaf's keys go to its predecessor. */
  lemma OwnsLeft(s: State, n: Ptr, nx: Ptr, pv: Ptr, x: Ptr, k: Key)
    requires Inv(s) && n in s.pc && s.pc[n] == UnlinkPrev(nx, pv) && pv in s.pc && Domains(Left(s, n, nx, pv))
    requires Owns(Left(s, n, nx, pv), x, k)
    ensures Owns(s, x, k) || (x == pv && Owns(s, n, k))
  {
    assert PcOk(s, n) && ListOk(s, n) && ListOk(s, pv);
  }

  // ----- steps outside the list -----

  /** The epoch of `y` is the same, and no other has gone down. */
  predicate NotLess(w: World, w': World, y: Ptr) {
    && w'.list == w.list && w'.epoch.Keys == w.epoch.Keys && (y in w.epoch ==> w'.epoch[y] == w.epoch[y])
    && (forall p :: p in w.epoch ==> w.epoch[p] <= w'.epoch[p])
  }

  lemma OpKept(w: World, w': World, y: Ptr)
    requires WorldWf(w) && WorldWf(w') && y in w.op && y in w'.op && w'.op[y] == w.op[y] && NotLess(w, w', y)
    requires OpOk(w, y)
    requires w.op[y].Erasing? ==> w.op[y].k in w'.rows && w'.rows[w.op[y].k] < w.op[y].ts
    ensures OpOk(w', y)
  {
    hide Inv, Owns;
  }

  lemma KeyKept(w: World, w': World, j: Key)
    requires KeyOk(w, j) && w'.list == w.list && w'.epoch.Keys == w.epoch.Keys
    requires forall p :: p in w.epoch ==> w.epoch[p] <= w'.epoch[p]
    requires j in w'.rows <==> j in w.rows
    requires j in w.rows ==> w'.rows[j] == w.rows[j]
    requires j in w'.last <==> j in w.last
    requires j in w.last ==> w'.last[j] == w.last[j]
    ensures KeyOk(w', j)
  {
    hide Owns;
  }

  /** A row removal elsewhere is of another key. */
  lemma OtherKey(w: World, x: Ptr, y: Ptr, k: Key)
    requires WorldWf(w) && y in w.op && OpOk(w, y) && w.op[y].Erasing? && Owns(w.list, x, k) && y != x
    ensures w.op[y].k != k
  {
    if w.op[y].k == k { OneOwner(w.list, x, y, k); }
  }

  lemma WriteKeeps(w: World, t: Tid, x: Ptr, k: Key, w': World)
    requires Valid(w) && WriteStep(w, t, x, k, w')
    ensures Valid(w') && k in w'.last && (k in w.last ==> w.last[k] < w'.last[k])
  {
    assert KeyOk(w, k);
    hide Inv, OpOk, Owns;
    forall j ensures KeyOk(w', j) {
      if j != k {
        assert KeyOk(w, j);
        KeyKept(w, w', j);
      }
    }
    forall y | y in w'.op ensures OpOk(w', y) {
      assert OpOk(w, y);
      if w.op[y].Erasing? {
        OtherKey(w, x, y, k);
        ErasingHas(w, y);
      }
      OpKept(w, w', y);
    }
  }

  lemma ErasingHas(w: World, y: Ptr)
    requires WorldWf(w) && y in w.op && OpOk(w, y) && w.op[y].Erasing?
    ensures w.op[y].k in w.rows && w.rows[w.op[y].k] < w.op[y].ts && w.op[y].ts % 2 == 0
    ensures Owns(w.list, y, w.op[y].k) && w.epoch[y] == w.op[y].seen && w.list.pc[y].Idle?
  {
  }

  lemma BeginEraseOp(w: World, t: Tid, x: Ptr, k: Key, w': World)
    requires Valid(w) && BeginEraseStep(w, t, x, k, w')
    ensures OpOk(w', x)
  {
    assert OpOk(w, x);
    hide Inv, KeyOk, Valid;
  }

  lemma BeginEraseKeeps(w: World, t: Tid, x: Ptr, k: Key, w': World)
    requires Valid(w) && BeginEraseStep(w, t, x, k, w')
    ensures Valid(w')
  {
    BeginEraseOp(w, t, x, k, w');
    hide Inv, OpOk, Owns, KeyOk;
    forall j ensures KeyOk(w', j) {
      assert KeyOk(w, j);
      KeyKept(w, w', j);
    }
    forall y | y in w'.op && y != x ensures OpOk(w', y) {
      assert OpOk(w, y);
      if w.op[y].Erasing? { ErasingHas(w, y); }
      OpKept(w, w', y);
    }
  }

  lemma EndEraseKey(w: World, x: Ptr, w': World, j: Key)
    requires Valid(w) && EndEraseStep(w, x, w')
    ensures KeyOk(w', j)
  {
    assert OpOk(w, x) && KeyOk(w, j);
    ErasingHas(w, x);
    hide Valid, Inv, OpOk, Owns;
    if j == w.op[x].k {
      forall y | Owns(w.list, y, j) ensures y == x {
        OneOwner(w.list, x, y, j);
      }
    } else {
      KeyKept(w, w', j);
    }
  }

  lemma EndEraseOp(w: World, x: Ptr, w': World, y: Ptr)
    requires Valid(w) && EndEraseStep(w, x, w') && y in w'.op
    ensures OpOk(w', y)
  {
    assert OpOk(w, x) && OpOk(w, y);
    ErasingHas(w, x);
    if y == x {
      Rests(w', x);
    } else {
      hide Valid, Inv, KeyOk, OpOk, Owns;
      if w.op[y].Erasing? {
        OtherKey(w, x, y, w.op[x].k);
        ErasingHas(w, y);
      }
      OpKept(w, w', y);
    }
  }

  lemma Rests(w: World, x: Ptr)
    requires WorldWf(w) && x in w.op && w.op[x] == NoOp && w.list.pc[x] == Idle
    ensures OpOk(w, x)
  {
  }

  lemma EndEraseKeeps(w: World, x: Ptr, w': World)
    requires Valid(w) && EndEraseStep(w, x, w')
    ensures Valid(w') && w.op[x].k in w.last && w.op[x].k in w'.last && w.last[w.op[x].k] < w'.last[w.op[x].k]
  {
    assert OpOk(w, x) && KeyOk(w, w.op[x].k);
    ErasingHas(w, x);
    hide Inv, OpOk, Owns;
    forall j ensures KeyOk(w', j) {
      EndEraseKey(w, x, w', j);
    }
    forall y | y in w'.op ensures OpOk(w', y) {
      EndEraseOp(w, x, w', y);
    }
  }

  lemma BeginDeleteKeeps(w: World, x: Ptr, w': World)
    requires Valid(w) && DeleteStep(w, x, w')
    ensures Valid(w')
  {
    hide Inv, KeyOk, Owns;
    forall j ensures KeyOk(w', j) {
      assert KeyOk(w, j);
      KeyKept(w, w', j);
    }
    forall y | y in w'.op ensures OpOk(w', y) {
      assert OpOk(w, y);
    }
  }

  /** The loop loads. */
  lemma LoadOp(w: World, x: Ptr, w': World)
    requires WorldWf(w) && WorldWf(w') && x in w.op && OpOk(w, x) && w.list.pc[x] == Idle
    requires RaiseStep(w, x, w', {}) && w'.epoch == w.epoch && x in w.list.prev && w.list.prev[x] in w.epoch
    ensures OpOk(w', x)
  {
    hide Inv, Owns;
    match w.op[x]
    case LoadPrev =>
    case LoadEpoch(p) =>
    case Cas(p, seen) =>
    case Recheck(p) =>
    case _ =>
  }

  /** The loop stores, while no operation on `p` is in a window. */
  lemma StoreOp(w: World, x: Ptr, p: Ptr, seen: int, w': World, y: Ptr)
    requires WorldWf(w) && WorldWf(w') && x in w.op && OpOk(w, x) && y in w.op && OpOk(w, y) && w.list.pc[x] == Idle
    requires RaiseStep(w, x, w', {}) && w.op[x] == Cas(p, seen) && p in w.epoch && Stores(w, x, p, seen)
    ensures OpOk(w', y)
  {
    assert !Within(w, p, InErase) && !Within(w, p, InSplit) && !Within(w, p, InDelete);
    hide Inv, KeyOk, Owns;
  }

  lemma RaiseFrame(w: World, x: Ptr, w': World)
    requires WorldWf(w) && x in w.op && RaiseStep(w, x, w', {})
    ensures w'.list == w.list && w'.rows == w.rows && w'.last == w.last && w'.clock == w.clock
    ensures w'.op.Keys == w.op.Keys && w'.epoch.Keys == w.epoch.Keys
  {
    hide Inv, Within, Stores;
  }

  lemma RaiseOther(w: World, x: Ptr, w': World, y: Ptr)
    requires WorldWf(w) && x in w.op && RaiseStep(w, x, w', {}) && y in w.op && y != x
    ensures y in w'.op && w'.op[y] == w.op[y]
  {
    hide Inv, Within, Stores;
  }

  lemma RaiseEpoch(w: World, x: Ptr, w': World)
    requires WorldWf(w) && x in w.op && RaiseStep(w, x, w', {})
    ensures if w.op[x].Cas? && w.op[x].p in w.epoch && Stores(w, x, w.op[x].p, w.op[x].seen)
      then w'.epoch == w.epoch[w.op[x].p := w.epoch[x]] else w'.epoch == w.epoch
  {
    hide Inv, Within, Stores;
  }

  lemma PrevIn(s: State, x: Ptr)
    requires Inv(s) && x in s.pc && s.pc[x] == Idle && x != s.head
    ensures x in s.prev && s.prev[x] in s.pc
  {
    assert PcOk(s, x) && ListOk(s, x);
  }

  lemma RaiseKeeps(w: World, x: Ptr, w': World)
    requires Valid(w) && x in w.op && w.list.pc[x] == Idle && Deleting(w.op[x]) && RaiseStep(w, x, w', {})
    ensures Valid(w')
  {
    RaiseFrame(w, x, w');
    RaiseEpoch(w, x, w');
    RaisePrev(w, x);
    hide Inv, Owns, OpOk, KeyOk, RaiseStep;
    forall j ensures KeyOk(w', j) {
      RaiseKey(w, x, w', j);
    }
    forall y | y in w'.op ensures OpOk(w', y) {
      RaiseOp(w, x, w', y);
    }
  }

  lemma RaiseKey(w: World, x: Ptr, w': World, j: Key)
    requires Valid(w) && x in w.op && w.list.pc[x] == Idle && Deleting(w.op[x]) && RaiseStep(w, x, w', {})
    ensures KeyOk(w', j)
  {
    RaiseFrame(w, x, w');
    RaiseEpoch(w, x, w');
    RaisePrev(w, x);
    hide Inv, Owns, OpOk, KeyOk, RaiseStep;
    assert KeyOk(w, j);
    KeyKept(w, w', j);
  }

  lemma RaiseOp(w: World, x: Ptr, w': World, y: Ptr)
    requires Valid(w) && x in w.op && w.list.pc[x] == Idle && Deleting(w.op[x]) && RaiseStep(w, x, w', {})
    requires y in w'.op && WorldWf(w')
    ensures OpOk(w', y)
  {
    RaiseFrame(w, x, w');
    RaiseEpoch(w, x, w');
    RaisePrev(w, x);
    hide Inv, Owns, OpOk, KeyOk, RaiseStep;
    assert OpOk(w, y) && OpOk(w, x);
    if w.op[x].Cas? && w.op[x].p in w.epoch && Stores(w, x, w.op[x].p, w.op[x].seen) {
      StoreOp(w, x, w.op[x].p, w.op[x].seen, w', y);
    } else if y == x {
      LoadOp(w, x, w');
    } else {
      RaiseOther(w, x, w', y);
      if w.op[y].Erasing? { ErasingHas(w, y); }
      OpKept(w, w', y);
    }
  }

  lemma RaisePrev(w: World, x: Ptr)
    requires Valid(w) && x in w.op && w.list.pc[x] == Idle && Deleting(w.op[x])
    ensures x in w.list.prev && w.list.prev[x] in w.epoch
  {
    assert OpOk(w, x);
    PrevIn(w.list, x);
  }

  // ----- steps of the list -----

  predicate Copied(p: Pc) {
    p.SplitLoad? || p.SplitCas? || p.SplitSet? || p.SplitPrev?
  }

  /** A step of the operation on `x` that moves no keys. */
  ghost predicate KeysStay(s: State, x: Ptr, s': State) {
    && Inv(s) && Inv(s') && x in s.pc && Step(s, x, s') && !s.pc[x].SplitPrev? && !s.pc[x].UnlinkPrev?
    && (s.pc[x] == Idle ==> s' == To(s, x, UnlinkLoad))
  }

  lemma StayFrame(s: State, x: Ptr, s': State)
    requires KeysStay(s, x, s')
    ensures SameOwners(s, s') && s'.prev == s.prev && s'.pc.Keys == s.pc.Keys
  {
    hide PcOk, NextOk, ListOk;
  }

  lemma StayPc(s: State, x: Ptr, s': State, y: Ptr)
    requires KeysStay(s, x, s') && y in s.pc && y in s'.pc
    ensures y != x ==> s'.pc[y] == s.pc[y] || (s.pc[y].New? && s'.pc[y].Idle?)
    ensures y == x && Copied(s'.pc[x]) ==> Copied(s.pc[x]) && s'.pc[x].nr == s.pc[x].nr
    ensures y == x ==> (forall op :: Shape(s.pc[x], op) && (s.pc[x].Idle? ==> op == Raised) ==> Shape(s'.pc[x], op))
    ensures Gone(s, y) ==> Gone(s', y)
  {
    assert PcOk(s, x);
    hide NextOk, ListOk, PcOk, Inv;
  }

  /** What the operation on `y` read is as it was, or better. */
  ghost predicate Carried(w: World, w': World, y: Ptr)
    requires WorldWf(w) && WorldWf(w') && y in w.op && y in w'.op
  {
    && w'.op[y] == w.op[y] && w'.rows == w.rows && w'.list.head == w.list.head
    && (forall p :: p in w.epoch ==> p in w'.epoch && w'.epoch[p] == w.epoch[p])
    && Shape(w'.list.pc[y], w.op[y]) && (Gone(w.list, y) ==> Gone(w'.list, y))
    && (Copied(w'.list.pc[y]) ==> Copied(w.list.pc[y]) && w'.list.pc[y].nr == w.list.pc[y].nr)
    && (w.op[y].Raised? && !Gone(w.list, y) && w.list.prev[y] in w.epoch ==>
          w'.list.prev[y] in w.epoch && w.epoch[w.list.prev[y]] <= w.epoch[w'.list.prev[y]])
    && (w.op[y].Erasing? ==> Owns(w'.list, y, w.op[y].k))
  }

  lemma CarriedOk(w: World, w': World, y: Ptr)
    requires WorldWf(w) && WorldWf(w') && y in w.op && y in w'.op && Carried(w, w', y) && OpOk(w, y)
    ensures OpOk(w', y)
  {
    hide Inv, Owns;
  }

  lemma ShapeOf(w: World, y: Ptr)
    requires WorldWf(w) && y in w.op && OpOk(w, y)
    ensures Shape(w.list.pc[y], w.op[y]) && (w.op[y].Erasing? ==> Owns(w.list, y, w.op[y].k) && w.list.pc[y].Idle?)
  {
  }

  lemma StayOp(w: World, x: Ptr, w': World, y: Ptr)
    requires Valid(w) && RelinkStep(w, x, w') && KeysStay(w.list, x, w'.list) && WorldWf(w') && y in w'.op
    ensures OpOk(w', y)
  {
    assert OpOk(w, y);
    StayFrame(w.list, x, w'.list);
    StayPc(w.list, x, w'.list, y);
    OwnsSame(w.list, w'.list);
    ShapeOf(w, y);
    hide Inv, Step, KeyOk, Valid, Owns, KeysStay, OpOk;
    CarriedOk(w, w', y);
  }

  /** What entering a new leaf stores. */
  lemma EnteredFrame(s: State, n: Ptr, nr: Ptr, nx: Ptr, y: Ptr)
    requires Inv(s) && n in s.pc && s.pc[n] == SplitPrev(nr, nx) && Domains(Entered(s, n, nr, nx)) && y in s.pc
    ensures var s' := Entered(s, n, nr, nx);
      && s'.head == s.head && s'.pc.Keys == s.pc.Keys
      && (if y == n then s'.pc[y] == SplitLink(nr, nx, [nx]) else s'.pc[y] == s.pc[y])
      && (if y == nx then s.prev[y] == n && s'.prev[y] == nr else s'.prev[y] == s.prev[y])
  {
    assert PcOk(s, n) && ListOk(s, n);
    hide Inv;
  }

  /** What the removal of a leaf stores when it leaves. */
  lemma LeftFrame(s: State, n: Ptr, nx: Ptr, pv: Ptr, y: Ptr)
    requires Inv(s) && n in s.pc && s.pc[n] == UnlinkPrev(nx, pv) && pv in s.pc && Domains(Left(s, n, nx, pv))
    requires y in s.pc
    ensures var s' := Left(s, n, nx, pv);
      && s'.head == s.head && s'.pc.Keys == s.pc.Keys && s.prev[n] == pv
      && (if y == n then s'.pc[y] == UnlinkLink(nx, pv)
          else s'.pc[y] == s.pc[y] || (s.pc[y].SplitLink? && s'.pc[y].SplitLink?))
      && (if y == nx then s.prev[y] == n && s'.prev[y] == pv else s'.prev[y] == s.prev[y])
  {
    assert PcOk(s, n) && ListOk(s, n);
    hide Inv;
  }

  /** A splitter that copied its epoch, and a removal that handed its epoch on. */
  lemma HandsDown(w: World, x: Ptr)
    requires WorldWf(w) && x in w.op && OpOk(w, x)
    ensures w.list.pc[x].SplitPrev?
      ==> w.list.pc[x].nr in w.epoch && w.epoch[x] <= w.epoch[w.list.pc[x].nr] && w.op[x] == NoOp
    ensures w.list.pc[x].UnlinkPrev?
      ==> w.list.prev[x] in w.epoch && w.epoch[x] <= w.epoch[w.list.prev[x]] && w.op[x] == Raised
  {
    assert w.list.pc[x].SplitPrev? ==> Within(w, x, InSplit);
    assert w.list.pc[x].UnlinkPrev? ==> Within(w, x, InDelete);
  }

  /** A new leaf is entered in the list: it and its successor. */
  lemma EnteredCarried(w: World, x: Ptr, nr: Ptr, nx: Ptr, w': World, y: Ptr)
    requires WorldWf(w) && WorldWf(w') && x in w.op && y in w.op && y in w'.op && w.list.pc[x] == SplitPrev(nr, nx)
    requires Domains(w'.list) && w' == w.(list := Entered(w.list, x, nr, nx)) && Shape(w.list.pc[y], w.op[y])
    requires Shape(w.list.pc[x], w.op[x])
    requires nr in w.epoch && w.epoch[x] <= w.epoch[nr]
    requires w.op[y].Erasing? ==> Owns(w'.list, y, w.op[y].k)
    ensures Carried(w, w', y)
  {
    hide Inv, Owns, Entered, Domains;
    EnteredFrame(w.list, x, nr, nx, y);
  }

  lemma EnteredOp(w: World, x: Ptr, nr: Ptr, nx: Ptr, w': World, y: Ptr)
    requires Valid(w) && x in w.op && w.list.pc[x] == SplitPrev(nr, nx) && w' == w.(list := Entered(w.list, x, nr, nx))
    requires WorldWf(w') && y in w'.op
    ensures OpOk(w', y)
  {
    EnteredFrame(w.list, x, nr, nx, x);
    assert OpOk(w, y) && OpOk(w, x) && Domains(w'.list);
    hide Inv, KeyOk, Valid, Owns, OpOk, Entered, Carried, Within;
    ShapeOf(w, y);
    ShapeOf(w, x);
    HandsDown(w, x);
    if w.op[y].Erasing? { OwnsBefore(w.list, x, nr, nx, y, w.op[y].k); }
    EnteredCarried(w, x, nr, nx, w', y);
    CarriedOk(w, w', y);
  }

  lemma OwnsBefore(s: State, n: Ptr, nr: Ptr, nx: Ptr, x: Ptr, k: Key)
    requires Inv(s) && Domains(Entered(s, n, nr, nx)) && n in s.pc && s.pc[n] == SplitPrev(nr, nx)
    requires Owns(s, x, k) && x != n
    ensures Owns(Entered(s, n, nr, nx), x, k)
  {
    assert PcOk(s, n) && ListOk(s, n) && ListOk(s, x);
    hide Inv;
  }

  /** A leaf leaves the list: it and its successor. */
  lemma LeftCarried(w: World, x: Ptr, nx: Ptr, pv: Ptr, w': World, y: Ptr)
    requires WorldWf(w) && WorldWf(w') && x in w.op && y in w.op && y in w'.op && w.list.pc[x] == UnlinkPrev(nx, pv)
    requires pv in w.list.pc
    requires Domains(w'.list) && w' == w.(list := Left(w.list, x, nx, pv)) && Shape(w.list.pc[y], w.op[y])
    requires w.op[x] == Raised
    requires w.list.prev[x] in w.epoch && w.epoch[x] <= w.epoch[w.list.prev[x]]
    requires w.op[y].Erasing? ==> Owns(w'.list, y, w.op[y].k)
    ensures Carried(w, w', y)
  {
    hide Inv, Owns, Left, Domains;
    LeftFrame(w.list, x, nx, pv, y);
    LeftFrame(w.list, x, nx, pv, x);
  }

  lemma LeftOp(w: World, x: Ptr, nx: Ptr, pv: Ptr, w': World, y: Ptr)
    requires Valid(w) && x in w.op && w.list.pc[x] == UnlinkPrev(nx, pv) && pv in w.list.pc
    requires w' == w.(list := Left(w.list, x, nx, pv)) && WorldWf(w') && y in w'.op
    ensures OpOk(w', y)
  {
    LeftFrame(w.list, x, nx, pv, x);
    assert OpOk(w, y) && OpOk(w, x) && Domains(w'.list);
    hide Inv, KeyOk, Valid, Owns, OpOk, Left, Carried, Within;
    ShapeOf(w, y);
    HandsDown(w, x);
    if w.op[y].Erasing? { OwnsAfterLeft(w.list, x, nx, pv, y, w.op[y].k); }
    LeftCarried(w, x, nx, pv, w', y);
    CarriedOk(w, w', y);
  }

  lemma OwnsAfterLeft(s: State, n: Ptr, nx: Ptr, pv: Ptr, x: Ptr, k: Key)
    requires Inv(s) && n in s.pc && s.pc[n] == UnlinkPrev(nx, pv) && pv in s.pc && Domains(Left(s, n, nx, pv))
    requires Owns(s, x, k) && x != n
    ensures Owns(Left(s, n, nx, pv), x, k)
  {
    assert PcOk(s, n) && ListOk(s, n) && ListOk(s, x) && ListOk(s, pv);
    hide Inv;
  }

  lemma SplitOwners(s: State, n: Ptr, nr: Ptr, bound: int, s': State)
    requires Inv(s) && n in s.live && s.pc[n] == Idle && SplitBegins(s, n, nr, bound, s')
    ensures SameOwners(s, s') && s'.pc[n] == SplitLoad(nr) && s'.pc[nr] == New(n)
    ensures nr !in s.pc && s'.pc.Keys == s.pc.Keys + {nr}
    ensures forall m :: m in s.pc ==> s'.prev[m] == s.prev[m] && (m != n ==> s'.pc[m] == s.pc[m])
  {
    BeginKeeps(s, n, nr, bound, s');
    BeginPcs(s, n, nr, bound, s');
    forall x | x in s.live ensures s.succ[x] != nr {
      assert ListOk(s, x);
    }
    hide Inv;
  }

  /** A split begins: the leaf, the new leaf, any other. */
  lemma SplitOpSelf(w: World, x: Ptr, nr: Ptr, w': World)
    requires WorldWf(w') && x in w'.op && w'.op[x] == NoOp && w'.list.pc[x] == SplitLoad(nr)
    requires nr in w'.epoch && w'.epoch[nr] == w'.epoch[x]
    ensures OpOk(w', x)
  {
    hide Inv, Owns;
  }

  lemma SplitOpNew(w: World, x: Ptr, nr: Ptr, w': World)
    requires WorldWf(w') && nr in w'.op && w'.op[nr] == NoOp && w'.list.pc[nr] == New(x)
    ensures OpOk(w', nr)
  {
    hide Inv, Owns;
  }

  lemma SplitOpOther(w: World, w': World, x: Ptr, nr: Ptr, y: Ptr)
    requires WorldWf(w) && WorldWf(w') && SameOwners(w.list, w'.list) && y in w.op && y in w'.op && OpOk(w, y)
    requires w'.op[y] == w.op[y] && w'.rows == w.rows && w'.list.prev[y] == w.list.prev[y]
    requires w'.list.pc[y] == w.list.pc[y]
    requires forall p :: p in w.epoch ==> p in w'.epoch && w'.epoch[p] == w.epoch[p]
    ensures OpOk(w', y)
  {
    hide Inv, Owns, OpOk;
    ShapeOf(w, y);
    OwnsSame(w.list, w'.list);
    CarriedOk(w, w', y);
  }

  lemma OwnerIn(s: State, x: Ptr, k: Key)
    requires Owns(s, x, k)
    ensures x in s.live && x in s.pc
  {
  }

  /** Whoever is responsible for the key now has an epoch at least that of one who was. */
  lemma KeyMoved(w: World, w': World, j: Key)
    requires KeyOk(w, j) && w'.rows == w.rows && w'.last == w.last
    requires forall x ::
      Owns(w'.list, x, j) && x in w'.epoch
      ==> exists y :: Owns(w.list, y, j) && y in w.epoch && w.epoch[y] <= w'.epoch[x]
    ensures KeyOk(w', j)
  {
    hide Owns;
  }

  lemma SplitList(w: World, x: Ptr, nr: Ptr, bound: int, w': World)
    requires WorldWf(w) && SplitStep(w, x, nr, bound, w')
    ensures WorldWf(w') && SameOwners(w.list, w'.list) && w'.list.pc[x] == SplitLoad(nr) && w'.list.pc[nr] == New(x)
    ensures nr !in w.list.pc
    ensures forall y :: y in w.op ==> w'.list.prev[y] == w.list.prev[y] && (y != x ==> w'.list.pc[y] == w.list.pc[y])
  {
    hide Inv, SplitBegins, SameOwners;
    BeginStep(w.list, x, nr, bound, w'.list);
    SplitOwners(w.list, x, nr, bound, w'.list);
  }

  lemma SplitFrame(w: World, x: Ptr, nr: Ptr, bound: int, w': World)
    requires WorldWf(w) && SplitStep(w, x, nr, bound, w') && nr !in w.list.pc
    ensures x in w.epoch && w'.op[x] == NoOp && w'.op[nr] == NoOp && w'.op.Keys == w.op.Keys + {nr}
    ensures w'.epoch[nr] == w'.epoch[x] == w.epoch[x]
    ensures forall y :: y in w.op ==> w'.op[y] == w.op[y]
    ensures forall p :: p in w.epoch ==> p in w'.epoch && w'.epoch[p] == w.epoch[p]
    ensures w'.rows == w.rows && w'.last == w.last && w'.clock == w.clock
  {
    hide Inv, SplitBegins;
  }

  // ----- every step -----

  lemma BeginSplitKeeps(w: World, x: Ptr, nr: Ptr, bound: int, w': World)
    requires Valid(w) && SplitStep(w, x, nr, bound, w')
    ensures Valid(w')
  {
    hide Inv, Owns, OpOk, SplitBegins, SplitStep, SameOwners;
    SplitList(w, x, nr, bound, w');
    SplitFrame(w, x, nr, bound, w');
    forall p | p in w'.epoch ensures w'.epoch[p] % 2 == 0 {
      assert p in w'.op;
    }
    forall j ensures KeyOk(w', j) {
      assert KeyOk(w, j);
      forall y | Owns(w'.list, y, j) ensures Owns(w.list, y, j) && y in w.epoch {
        OwnsSame(w.list, w'.list);
        OwnerIn(w.list, y, j);
      }
      KeyMoved(w, w', j);
    }
    forall y | y in w'.op ensures OpOk(w', y) {
      if y == x {
        SplitOpSelf(w, x, nr, w');
      } else if y == nr {
        SplitOpNew(w, x, nr, w');
      } else {
        assert OpOk(w, y);
        SplitOpOther(w, w', x, nr, y);
      }
    }
  }

  lemma RelinkStayKeeps(w: World, x: Ptr, w': World)
    requires Valid(w) && RelinkStep(w, x, w') && !w.list.pc[x].SplitPrev? && !w.list.pc[x].UnlinkPrev?
    ensures Valid(w')
  {
    hide Owns, OpOk, KeyOk, Step, Inv, SameOwners;
    StepKeeps(w.list, x, w'.list);
    StayFrame(w.list, x, w'.list);
    forall j ensures KeyOk(w', j) {
      assert KeyOk(w, j);
      forall y | Owns(w'.list, y, j) ensures Owns(w.list, y, j) && y in w.epoch {
        OwnsSame(w.list, w'.list);
        OwnerIn(w.list, y, j);
      }
      KeyMoved(w, w', j);
    }
    forall y | y in w'.op ensures OpOk(w', y) {
      StayOp(w, x, w', y);
    }
  }

  lemma EnteredKey(w: World, x: Ptr, nr: Ptr, nx: Ptr, w': World, j: Key)
    requires Valid(w) && x in w.op && w.list.pc[x] == SplitPrev(nr, nx) && w' == w.(list := Entered(w.list, x, nr, nx))
    requires WorldWf(w')
    ensures KeyOk(w', j)
  {
    assert KeyOk(w, j) && OpOk(w, x);
    HandsDown(w, x);
    hide Owns, Inv, OpOk, KeyOk, Valid, Entered;
    forall y | Owns(w'.list, y, j) && y in w'.epoch
      ensures exists z :: Owns(w.list, z, j) && z in w.epoch && w.epoch[z] <= w'.epoch[y]
    {
      OwnsEntered(w.list, x, nr, nx, y, j);
    }
    KeyMoved(w, w', j);
  }

  lemma LeftKey(w: World, x: Ptr, nx: Ptr, pv: Ptr, w': World, j: Key)
    requires Valid(w) && x in w.op && w.list.pc[x] == UnlinkPrev(nx, pv) && pv in w.list.pc
    requires w' == w.(list := Left(w.list, x, nx, pv)) && WorldWf(w')
    ensures KeyOk(w', j)
  {
    assert KeyOk(w, j) && OpOk(w, x);
    HandsDown(w, x);
    LeftFrame(w.list, x, nx, pv, x);
    hide Owns, Inv, OpOk, KeyOk, Valid, Left;
    forall y | Owns(w'.list, y, j) && y in w'.epoch
      ensures exists z :: Owns(w.list, z, j) && z in w.epoch && w.epoch[z] <= w'.epoch[y]
    {
      OwnsLeft(w.list, x, nx, pv, y, j);
    }
    KeyMoved(w, w', j);
  }

  lemma RelinkKeeps(w: World, x: Ptr, w': World)
    requires Valid(w) && RelinkStep(w, x, w')
    ensures Valid(w')
  {
    hide Owns, OpOk, KeyOk, Inv, Entered, Left;
    StepKeeps(w.list, x, w'.list);
    if w.list.pc[x].SplitPrev? {
      var SplitPrev(nr, nx) := w.list.pc[x];
      EnteredFrame(w.list, x, nr, nx, x);
      forall j ensures KeyOk(w', j) {
        EnteredKey(w, x, nr, nx, w', j);
      }
      forall y | y in w'.op ensures OpOk(w', y) {
        EnteredOp(w, x, nr, nx, w', y);
      }
    } else if w.list.pc[x].UnlinkPrev? {
      var UnlinkPrev(nx, pv) := w.list.pc[x];
      LeftFrame(w.list, x, nx, pv, x);
      forall j ensures KeyOk(w', j) {
        LeftKey(w, x, nx, pv, w', j);
      }
      forall y | y in w'.op ensures OpOk(w', y) {
        LeftOp(w, x, nx, pv, w', y);
      }
    } else {
      RelinkStayKeeps(w, x, w');
    }
  }

  predicate Writes(w: World, e: Event, k: Key) {
    (e.Write? && e.k == k) || (e.EndErase? && e.x in w.op && w.op[e.x].Erasing? && w.op[e.x].k == k)
  }

  /** Every step keeps it, if no epoch is raised in a window; and a write gets a greater timestamp. */
  lemma NextKeeps(w: World, e: Event, w': World)
    requires Valid(w) && Next(w, e, w', {})
    ensures Valid(w') && forall k :: Writes(w, e, k) ==> k in w'.last && (k in w.last ==> w.last[k] < w'.last[k])
  {
    hide Valid, RaiseStep, RelinkStep, SplitStep, DeleteStep, WriteStep, BeginEraseStep, EndEraseStep;
    match e
    case Write(t, x, k) => WriteKeeps(w, t, x, k, w');
    case BeginErase(t, x, k) => BeginEraseKeeps(w, t, x, k, w');
    case EndErase(x) => EndEraseKeeps(w, x, w');
    case BeginSplit(x, nr, bound) => BeginSplitKeeps(w, x, nr, bound, w');
    case BeginDelete(x) => BeginDeleteKeeps(w, x, w');
    case Raise(x) => RaiseKeeps(w, x, w');
    case Relink(x) => RelinkKeeps(w, x, w');
  }

  lemma LastStays(w: World, e: Event, w': World, allowed: set<Window>, k: Key)
    requires WorldWf(w) && Next(w, e, w', allowed) && k in w.last && !Writes(w, e, k)
    ensures k in w'.last && w'.last[k] == w.last[k]
  {
    hide Inv, Step, Owns, SplitBegins;
  }

  // ----- runs -----

  /** A run of a table that is at rest at first. */
  datatype Trace = Trace(worlds: seq<World>, events: seq<Event>)

  ghost predicate AtRest(w: World) {
    Valid(w) && forall x :: x in w.op ==> w.op[x] == NoOp && w.list.pc[x] == Idle
  }

  ghost predicate StepAt(r: Trace, i: nat, allowed: set<Window>)
    requires |r.worlds| == |r.events| + 1 && i < |r.events|
  {
    WorldWf(r.worlds[i]) && Next(r.worlds[i], r.events[i], r.worlds[i + 1], allowed)
  }

  ghost predicate IsRun(r: Trace, allowed: set<Window>) {
    |r.worlds| == |r.events| + 1 && AtRest(r.worlds[0]) && forall i: nat :: i < |r.events| ==> StepAt(r, i, allowed)
  }

  /** Later writes of a key get greater timestamps. */
  ghost predicate Increasing(r: Trace) {
    forall i, j, k {:trigger Writes(r.worlds[i], r.events[i], k), Writes(r.worlds[j], r.events[j], k)} ::
      0 <= i < j < |r.events| && j + 1 < |r.worlds|
      && Writes(r.worlds[i], r.events[i], k) && Writes(r.worlds[j], r.events[j], k) ==>
        k in r.worlds[i + 1].last && k in r.worlds[j + 1].last && r.worlds[i + 1].last[k] < r.worlds[j + 1].last[k]
  }

  lemma {:induction false} RunKeeps(r: Trace, i: nat)
    requires IsRun(r, {}) && i < |r.worlds|
    ensures Valid(r.worlds[i])
  {
    hide Next, Valid, WorldWf;
    if i == 0 {
      FirstValid(r.worlds[0]);
    } else {
      RunKeeps(r, i - 1);
      assert StepAt(r, i - 1, {});
      NextKeeps(r.worlds[i - 1], r.events[i - 1], r.worlds[i]);
    }
  }

  lemma FirstValid(w: World)
    requires AtRest(w)
    ensures Valid(w)
  {
  }

  lemma {:induction false} LastGrows(r: Trace, i: nat, j: nat, k: Key)
    requires IsRun(r, {}) && i <= j < |r.worlds| && k in r.worlds[i].last
    ensures k in r.worlds[j].last && r.worlds[i].last[k] <= r.worlds[j].last[k]
    decreases j
  {
    hide Next, Valid, WorldWf, AtRest, Writes;
    if i < j {
      LastGrows(r, i, j - 1, k);
      RunKeeps(r, j - 1);
      var w, e := r.worlds[j - 1], r.events[j - 1];
      assert StepAt(r, j - 1, {});
      if Writes(w, e, k) { NextKeeps(w, e, r.worlds[j]); } else { LastStays(w, e, r.worlds[j], {}, k); }
    }
  }

  /** If no leaf's epoch is raised while an operation on it is in one of the windows, the timestamps of each
      key increase, in every interleaving of writes, removals, splits and deletions. */
  lemma TimestampsIncrease(r: Trace)
    requires IsRun(r, {})
    ensures Increasing(r)
  {
    hide Next, Valid, WorldWf, AtRest, Writes;
    forall i, j, k | 0 <= i < j < |r.events| && Writes(r.worlds[i], r.events[i], k)
      && Writes(r.worlds[j], r.events[j], k)
      ensures k in r.worlds[i + 1].last && k in r.worlds[j + 1].last
      ensures r.worlds[i + 1].last[k] < r.worlds[j + 1].last[k]
    {
      RunKeeps(r, i);
      RunKeeps(r, j);
      assert StepAt(r, i, {}) && StepAt(r, j, {});
      NextKeeps(r.worlds[i], r.events[i], r.worlds[i + 1]);
      LastGrows(r, i + 1, j, k);
      NextKeeps(r.worlds[j], r.events[j], r.worlds[j + 1]);
    }
  }
}
