/** What goes wrong when a leaf's phantom epoch is raised in one of the windows: for each window, a run
    in which a key's later write gets a smaller timestamp. */
module PhantomRaces {
  import NodeStore
  import opened LeafLink
  import opened PhantomEpochs

  // ----- building runs -----

  lemma WfKept(w: World, e: Event, w': World, allowed: set<Window>)
    requires WorldWf(w) && Next(w, e, w', allowed)
    ensures WorldWf(w')
  {
    hide WorldWf, RaiseStep, RelinkStep, SplitStep, DeleteStep, WriteStep, BeginEraseStep, EndEraseStep;
    match e
    case Write(t, x, k) => RowsWf(w, e, w', allowed);
    case BeginErase(t, x, k) => RowsWf(w, e, w', allowed);
    case EndErase(x) => RowsWf(w, e, w', allowed);
    case BeginSplit(x, nr, bound) => SplitList(w, x, nr, bound, w');
    case BeginDelete(x) => RowsWf(w, e, w', allowed);
    case Raise(x) => RaiseWf(w, x, w', allowed);
    case Relink(x) => RelinkWf(w, x, w');
  }

  lemma RowsWf(w: World, e: Event, w': World, allowed: set<Window>)
    requires WorldWf(w) && Next(w, e, w', allowed) && (e.Write? || e.BeginErase? || e.EndErase? || e.BeginDelete?)
    ensures WorldWf(w')
  {
    hide Inv, Owns;
  }

  lemma RaiseWf(w: World, x: Ptr, w': World, allowed: set<Window>)
    requires WorldWf(w) && x in w.op && RaiseStep(w, x, w', allowed)
    ensures WorldWf(w')
  {
    hide Inv, Within, Stores;
  }

  lemma RelinkWf(w: World, x: Ptr, w': World)
    requires WorldWf(w) && RelinkStep(w, x, w')
    ensures WorldWf(w')
  {
    RelinkPcs(w, x, w');
    hide PcOk, NextOk, ListOk;
    StepKeeps(w.list, x, w'.list);
  }

  lemma RelinkPcs(w: World, x: Ptr, w': World)
    requires WorldWf(w) && RelinkStep(w, x, w')
    ensures w'.list.pc.Keys == w.list.pc.Keys
  {
    assert PcOk(w.list, x);
    hide NextOk, ListOk, Inv;
  }

  function Now(r: Trace): World
    requires r.worlds != []
  {
    r.worlds[|r.worlds| - 1]
  }

  /** A run that ends at `w`, with a world to go on from. */
  ghost predicate At(r: Trace, allowed: set<Window>, w: World) {
    |r.worlds| == |r.events| + 1 && IsRun(r, allowed) && Now(r) == w && WorldWf(w)
  }

  /** `r'` goes on from `r`. */
  predicate Continues(r: Trace, r': Trace) {
    r.worlds <= r'.worlds && r.events <= r'.events
  }

  /** One step more. */
  lemma More(r: Trace, allowed: set<Window>, w: World, e: Event, w': World) returns (r': Trace)
    requires At(r, allowed, w) && Next(w, e, w', allowed)
    ensures At(r', allowed, w') && Continues(r, r') && r' == Trace(r.worlds + [w'], r.events + [e])
  {
    hide Next, WorldWf, AtRest, StepAt;
    r' := Trace(r.worlds + [w'], r.events + [e]);
    WfKept(w, e, w', allowed);
    forall i: nat | i < |r'.events| ensures StepAt(r', i, allowed) {
      if i < |r.events| { assert StepAt(r, i, allowed); }
      SameStep(r, r', i, allowed);
    }
  }

  lemma SameStep(r: Trace, r': Trace, i: nat, allowed: set<Window>)
    requires |r.worlds| == |r.events| + 1 && |r'.worlds| == |r'.events| + 1 && Continues(r, r') && i < |r'.events|
    requires if i < |r.events| then StepAt(r, i, allowed)
      else WorldWf(r'.worlds[i]) && Next(r'.worlds[i], r'.events[i], r'.worlds[i + 1], allowed)
    ensures StepAt(r', i, allowed)
  {
    hide Next, WorldWf;
  }

  // ----- one operation at a time -----

  lemma DeleteNext(w: World, x: Ptr, allowed: set<Window>)
    requires WorldWf(w) && Unlocked(w, x) && x != w.list.head && forall k :: k in w.rows ==> !Owns(w.list, x, k)
    ensures Next(w, BeginDelete(x), w.(op := w.op[x := LoadPrev]), allowed)
  {
    hide Inv, Owns;
  }

  lemma OtherWithin(w: World, w': World, p: Ptr)
    requires WorldWf(w) && WorldWf(w') && p in w.op && p in w'.op && w'.op[p] == w.op[p] && w'.list == w.list
    ensures forall v :: Within(w, p, v) <==> Within(w', p, v)
  {
    hide Inv;
  }

  /** What the loop of `remove_leaf` of `x` has done after `i` steps, with `p` before `x` and nobody else
      moving. */
  function RaiseState(w: World, x: Ptr, p: Ptr, i: nat): World
    requires x in w.epoch && p in w.epoch
  {
    var op := if i == 1 then LoadPrev else if i == 2 then LoadEpoch(p) else if i == 3 then Cas(p, w.epoch[p])
              else if i == 4 then Recheck(p) else Raised;
    if i == 0 then w
    else w.(op := w.op[x := op],
            epoch := if i >= 4 && w.epoch[p] < w.epoch[x] then w.epoch[p := w.epoch[x]] else w.epoch)
  }

  ghost predicate CanRaise(w: World, x: Ptr, p: Ptr, allowed: set<Window>) {
    && WorldWf(w) && Unlocked(w, x) && x != w.list.head && (forall k :: k in w.rows ==> !Owns(w.list, x, k))
    && x in w.epoch && x in w.list.prev && w.list.prev[x] == p && p in w.epoch && p != x
    && (w.epoch[p] < w.epoch[x] ==> forall v :: Within(w, p, v) ==> v in allowed)
  }

  lemma RaiseCan(w: World, x: Ptr, p: Ptr, allowed: set<Window>)
    requires CanRaise(w, x, p, allowed)
    ensures WorldWf(w) && x in w.op && p in w.op && x in w.list.pc && p in w.list.pc && Domains(w.list)
  {
    hide ListOk, NextOk, PcOk;
  }

  lemma RaiseNext(w: World, x: Ptr, p: Ptr, i: nat, allowed: set<Window>)
    requires CanRaise(w, x, p, allowed) && 0 < i < 5 && WorldWf(RaiseState(w, x, p, i))
    ensures Next(RaiseState(w, x, p, i), Raise(x), RaiseState(w, x, p, i + 1), allowed)
  {
    hide Inv, Within, Owns, WorldWf;
    var u := RaiseState(w, x, p, i);
    RaiseCan(w, x, p, allowed);
    OtherWithin(w, u, p);
    assert RaiseState(w, x, p, i + 1).op == u.op[x := RaiseState(w, x, p, i + 1).op[x]];
  }

  lemma {:induction false} RaiseUpTo(r: Trace, allowed: set<Window>, w: World, x: Ptr, p: Ptr, i: nat)
    returns (r': Trace, w': World)
    requires At(r, allowed, w) && CanRaise(w, x, p, allowed) && 0 < i <= 5
    ensures w' == RaiseState(w, x, p, i) && At(r', allowed, w') && Continues(r, r')
  {
    hide IsRun, Inv, Next, CanRaise;
    RaiseEnds(w, x, p, allowed);
    w' := RaiseState(w, x, p, i);
    if i == 1 {
      DeleteNext(w, x, allowed);
      r' := More(r, allowed, w, BeginDelete(x), w');
    } else {
      var u;
      r', u := RaiseUpTo(r, allowed, w, x, p, i - 1);
      RaiseNext(w, x, p, i - 1, allowed);
      r' := More(r', allowed, u, Raise(x), w');
    }
  }

  lemma RaiseEnds(w: World, x: Ptr, p: Ptr, allowed: set<Window>)
    requires CanRaise(w, x, p, allowed)
    ensures x in w.epoch && p in w.epoch && RaiseState(w, x, p, 1) == w.(op := w.op[x := LoadPrev])
    ensures Unlocked(w, x) && x != w.list.head && forall k :: k in w.rows ==> !Owns(w.list, x, k)
  {
    hide Owns, Inv;
  }

  lemma Raises(r: Trace, allowed: set<Window>, w: World, x: Ptr, p: Ptr) returns (r': Trace, w': World)
    requires At(r, allowed, w) && CanRaise(w, x, p, allowed)
    ensures At(r', allowed, w') && Continues(r, r') && x in w.epoch && p in w.epoch
    ensures w' == w.(op := w.op[x := Raised],
                     epoch := if w.epoch[p] < w.epoch[x] then w.epoch[p := w.epoch[x]] else w.epoch)
  {
    hide IsRun, Inv, CanRaise;
    RaiseEnds(w, x, p, allowed);
    r', w' := RaiseUpTo(r, allowed, w, x, p, 5);
  }

  lemma Erases(r: Trace, allowed: set<Window>, w: World, t: Tid, x: Ptr, k: Key) returns (r': Trace, w': World)
    requires At(r, allowed, w) && Unlocked(w, x) && Owns(w.list, x, k) && x in w.epoch && t in w.clock
    requires w.clock[t] % 2 == 0 && k in w.rows
    ensures At(r', allowed, w') && Continues(r, r') && |r.events| + 2 == |r'.events|
    ensures var i := |r'.events| - 1;
      r'.events[i] == EndErase(x) && Writes(r'.worlds[i], EndErase(x), k) && r'.worlds[i + 1] == w'
    ensures var ts := w.clock[t] + 2;
      w.clock[t] == w.rows[k] && w.epoch[x] <= ts ==>
        w' == w.(rows := w.rows - {k}, clock := w.clock[t := ts], last := w.last[k := ts],
            epoch := w.epoch[x := ts + 2])
  {
    hide Inv, Owns, IsRun;
    var ts := Timestamps.NextTimestamp(w.clock[t], w.rows[k]);
    var w1 := w.(op := w.op[x := Erasing(t, k, ts, w.epoch[x])], clock := w.clock[t := ts]);
    assert Next(w, BeginErase(t, x, k), w1, allowed);
    var r1 := More(r, allowed, w, BeginErase(t, x, k), w1);
    w' := EndsErase(w1, x, allowed);
    r' := More(r1, allowed, w1, EndErase(x), w');
    assert w'.op == w.op;
  }

  lemma EndsErase(w: World, x: Ptr, allowed: set<Window>) returns (w': World)
    requires WorldWf(w) && x in w.op && w.op[x].Erasing?
    ensures Next(w, EndErase(x), w', allowed)
    ensures var Erasing(t, k, ts, seen) := w.op[x];
      w' == w.(op := w.op[x := NoOp], rows := w.rows - {k}, last := w.last[k := ts],
               epoch := if seen <= ts then w.epoch[x := ts + 2] else w.epoch)
  {
    var Erasing(t, k, ts, seen) := w.op[x];
    w' := w.(op := w.op[x := NoOp], rows := w.rows - {k}, last := w.last[k := ts],
             epoch := if seen <= ts then w.epoch[x := ts + 2] else w.epoch);
    hide Inv;
  }

  lemma RelinkMore(r: Trace, allowed: set<Window>, w: World, x: Ptr, s: State) returns (r': Trace, w': World)
    requires At(r, allowed, w) && x in w.op && Step(w.list, x, s)
    requires w.list.pc[x] == Idle ==> w.op[x] == Raised && s == To(w.list, x, UnlinkLoad)
    ensures w' == w.(list := s) && At(r', allowed, w') && Continues(r, r')
  {
    hide IsRun, Inv, Step;
    w' := w.(list := s);
    r' := More(r, allowed, w, Relink(x), w');
  }

  lemma ToTo(s: State, x: Ptr, a: Pc, b: Pc)
    ensures To(To(s, x, a), x, b) == To(s, x, b)
  {
    assert s.pc[x := a][x := b] == s.pc[x := b];
  }

  function StepMark(s: State, x: Ptr): State
    requires x in s.next
  {
    if s.next[x].ptr == NodeStore.NULL then s else Marked(s, x)
  }

  /** The list once the removal of `x` has left it, with nobody else moving. */
  function Out(s: State, x: Ptr): State
    requires x in s.next && x in s.prev && s.prev[x] in s.next && s.prev[x] in s.pc
  {
    Left(To(Marked(StepMark(s, x), s.prev[x]), x, UnlinkPrev(s.next[x].ptr, s.prev[x])), x, s.next[x].ptr, s.prev[x])
  }

  ghost predicate CanUnlink(s: State, x: Ptr) {
    && Inv(s) && x in s.pc && s.pc[x] == Idle && x != s.head && x in s.next && x in s.prev
    && s.prev[x] in s.next && s.prev[x] in s.pc && s.prev[x] != x && !s.next[x].mark
    && s.next[s.prev[x]] == Link(x, false)
  }

  /** The six steps from `Idle` to `UnlinkLink`. */
  function UnlinkState(s: State, x: Ptr, i: nat): State
    requires x in s.next && x in s.prev && s.prev[x] in s.next && s.prev[x] in s.pc
  {
    var nx, pv, m := s.next[x].ptr, s.prev[x], StepMark(s, x);
    if i == 0 then s
    else if i == 1 then To(s, x, UnlinkLoad)
    else if i == 2 then To(s, x, UnlinkCas(s.next[x]))
    else if i == 3 then To(m, x, UnlinkRead(nx))
    else if i == 4 then To(m, x, UnlinkMark(nx, pv))
    else if i == 5 then To(Marked(m, pv), x, UnlinkPrev(nx, pv))
    else Out(s, x)
  }

  lemma UnlinkNext(s: State, x: Ptr, i: nat)
    requires CanUnlink(s, x) && i < 6
    requires x in s.next && x in s.prev && s.prev[x] in s.next && s.prev[x] in s.pc && Inv(UnlinkState(s, x, i))
    ensures Step(UnlinkState(s, x, i), x, UnlinkState(s, x, i + 1))
    ensures x in UnlinkState(s, x, i).pc && (UnlinkState(s, x, i).pc[x] == Idle <==> i == 0)
  {
    hide Step, UnlinkState, CanUnlink, Inv;
    if i < 3 { UnlinkNextOwn(s, x, i); } else if i < 5 { UnlinkNextOther(s, x, i); } else { UnlinkNextOut(s, x); }
  }

  lemma UnlinkNextOwn(s: State, x: Ptr, i: nat)
    requires CanUnlink(s, x) && i < 3 && Inv(UnlinkState(s, x, i))
    ensures Step(UnlinkState(s, x, i), x, UnlinkState(s, x, i + 1))
    ensures x in UnlinkState(s, x, i).pc && (UnlinkState(s, x, i).pc[x] == Idle <==> i == 0)
  {
    hide PcOk, NextOk, ListOk, Out;
    if i == 1 {
      ToTo(s, x, UnlinkLoad, UnlinkCas(s.next[x]));
    } else if i == 2 {
      ToTo(StepMark(s, x), x, UnlinkCas(s.next[x]), UnlinkRead(s.next[x].ptr));
    }
  }

  lemma UnlinkNextOther(s: State, x: Ptr, i: nat)
    requires CanUnlink(s, x) && 3 <= i < 5 && Inv(UnlinkState(s, x, i))
    ensures Step(UnlinkState(s, x, i), x, UnlinkState(s, x, i + 1))
    ensures x in UnlinkState(s, x, i).pc && UnlinkState(s, x, i).pc[x] != Idle
  {
    hide PcOk, NextOk, ListOk, Left;
    var nx, pv, m := s.next[x].ptr, s.prev[x], StepMark(s, x);
    if i == 3 {
      ToTo(m, x, UnlinkRead(nx), UnlinkMark(nx, pv));
    } else if i == 4 {
      ToTo(Marked(m, pv), x, UnlinkMark(nx, pv), UnlinkPrev(nx, pv));
    }
  }

  lemma UnlinkNextOut(s: State, x: Ptr)
    requires CanUnlink(s, x) && Inv(UnlinkState(s, x, 5))
    ensures Step(UnlinkState(s, x, 5), x, UnlinkState(s, x, 6))
    ensures x in UnlinkState(s, x, 5).pc && UnlinkState(s, x, 5).pc[x] != Idle
  {
    hide PcOk, NextOk, ListOk, Left;
  }

  lemma {:induction false} UnlinkUpTo(r: Trace, allowed: set<Window>, w: World, x: Ptr, i: nat)
    returns (r': Trace, w': World)
    requires At(r, allowed, w) && x in w.op && w.op[x] == Raised && CanUnlink(w.list, x) && i <= 6
    ensures w' == w.(list := UnlinkState(w.list, x, i)) && At(r', allowed, w') && Continues(r, r')
  {
    hide IsRun, Inv, Next, Step, UnlinkState, CanUnlink;
    UnlinkEnds(w.list, x);
    if i == 0 {
      r', w' := r, w;
    } else {
      r', w' := UnlinkUpTo(r, allowed, w, x, i - 1);
      UnlinkNext(w.list, x, i - 1);
      r', w' := RelinkMore(r', allowed, w', x, UnlinkState(w.list, x, i));
    }
  }

  lemma UnlinkEnds(s: State, x: Ptr)
    requires CanUnlink(s, x)
    ensures x in s.next && x in s.prev && s.prev[x] in s.next && s.prev[x] in s.pc
    ensures UnlinkState(s, x, 0) == s && UnlinkState(s, x, 1) == To(s, x, UnlinkLoad)
    ensures UnlinkState(s, x, 6) == Out(s, x)
  {
  }

  lemma Unlinks(r: Trace, allowed: set<Window>, w: World, x: Ptr) returns (r': Trace, w': World)
    requires At(r, allowed, w) && x in w.op && w.op[x] == Raised && CanUnlink(w.list, x)
    ensures At(r', allowed, w') && Continues(r, r') && w' == w.(list := Out(w.list, x))
  {
    hide IsRun, Inv, CanUnlink, UnlinkState, Out;
    UnlinkEnds(w.list, x);
    r', w' := UnlinkUpTo(r, allowed, w, x, 6);
  }

  ghost predicate CanLink(s: State, x: Ptr, nr: Ptr) {
    Inv(s) && x in s.pc && s.pc[x] == SplitLoad(nr) && x in s.next && !s.next[x].mark && s.next[x].ptr != NodeStore.NULL
  }

  /** The five steps from `SplitLoad` to `Idle`. */
  function SplitState(s: State, x: Ptr, nr: Ptr, i: nat): State
    requires x in s.next
  {
    var nx, m := s.next[x].ptr, Marked(s, x);
    if i == 0 then s
    else if i == 1 then To(s, x, SplitCas(nr, s.next[x]))
    else if i == 2 then To(m, x, SplitSet(nr, nx))
    else if i == 3 then To(m, x, SplitPrev(nr, nx)).(next := m.next[nr := Link(nx, false)])
    else if i == 4 then Entered(SplitState(s, x, nr, 3), x, nr, nx)
    else To(To(SplitState(s, x, nr, 4), nr, Idle), x, Idle).(next := SplitState(s, x, nr, 3).next[x := Link(nr, false)])
  }

  lemma SplitNext(s: State, x: Ptr, nr: Ptr, i: nat)
    requires CanLink(s, x, nr) && i < 5 && Inv(SplitState(s, x, nr, i))
    ensures Step(SplitState(s, x, nr, i), x, SplitState(s, x, nr, i + 1))
    ensures x in SplitState(s, x, nr, i).pc && SplitState(s, x, nr, i).pc[x] != Idle
  {
    var nx, m := s.next[x].ptr, Marked(s, x);
    hide PcOk, NextOk, ListOk;
    match i
    case 1 => ToTo(m, x, SplitCas(nr, s.next[x]), SplitSet(nr, nx));
    case 2 => ToTo(m, x, SplitSet(nr, nx), SplitPrev(nr, nx));
    case _ =>
  }

  lemma {:induction false} Links(r: Trace, allowed: set<Window>, w: World, x: Ptr, nr: Ptr, i: nat)
    returns (r': Trace, w': World)
    requires At(r, allowed, w) && x in w.op && CanLink(w.list, x, nr) && i <= 5
    ensures x in w.list.next && w' == w.(list := SplitState(w.list, x, nr, i)) && At(r', allowed, w')
    ensures Continues(r, r')
  {
    hide IsRun, Inv, Next, Step, SplitState, CanLink;
    SplitStarts(w.list, x, nr);
    if i == 0 {
      r', w' := r, w;
    } else {
      r', w' := Links(r, allowed, w, x, nr, i - 1);
      SplitNext(w.list, x, nr, i - 1);
      r', w' := RelinkMore(r', allowed, w', x, SplitState(w.list, x, nr, i));
    }
  }

  lemma SplitStarts(s: State, x: Ptr, nr: Ptr)
    requires CanLink(s, x, nr)
    ensures x in s.next && SplitState(s, x, nr, 0) == s
  {
  }

  // ----- the three races -----

  /** The leaves 1 and 2, with keys from 0 and from 10. */
  const TWO: State := State(1, map[1 := 0, 2 := 10], map[1 := Link(2, false), 2 := Link(0, false)], map[1 := 0, 2 := 1],
                            map[1 := Idle, 2 := Idle], {1, 2}, map[1 := 2, 2 := 0])

  /** And the leaf 3, with keys from 20. */
  const THREE: State := State(1, map[1 := 0, 2 := 10, 3 := 20],
                              map[1 := Link(2, false), 2 := Link(3, false), 3 := Link(0, false)],
                              map[1 := 0, 2 := 1, 3 := 2],
                              map[1 := Idle, 2 := Idle, 3 := Idle], {1, 2, 3}, map[1 := 2, 2 := 3, 3 := 0])

  lemma TwoOk()
    ensures Inv(TWO)
  {
    assert ListOk(TWO, 1) && ListOk(TWO, 2) && NextOk(TWO, 1) && NextOk(TWO, 2);
    assert forall m :: m in TWO.pc ==> PcOk(TWO, m);
  }

  lemma ThreeOk()
    ensures Inv(THREE)
  {
    hide ListOk, NextOk, PcOk, THREE;
    ThreeDomain();
    ThreeLists();
    ThreeNexts();
    ThreePcs();
  }

  lemma ThreeDomain()
    ensures Domains(THREE) && THREE.live == {1, 2, 3} && THREE.pc.Keys == {1, 2, 3}
  {
  }

  lemma ThreeLists()
    ensures Domains(THREE) && THREE.live == {1, 2, 3} && ListOk(THREE, 1) && ListOk(THREE, 2) && ListOk(THREE, 3)
  {
  }

  lemma ThreeNexts()
    ensures Domains(THREE) && THREE.live == {1, 2, 3} && NextOk(THREE, 1) && NextOk(THREE, 2) && NextOk(THREE, 3)
  {
  }

  lemma ThreePcs()
    ensures Domains(THREE) && THREE.pc.Keys == {1, 2, 3} && PcOk(THREE, 1) && PcOk(THREE, 2) && PcOk(THREE, 3)
  {
  }

  /** A table at rest, with all epochs 0. */
  lemma Begun(w: World, allowed: set<Window>) returns (r: Trace)
    requires Inv(w.list) && (forall x :: x in w.list.pc ==> w.list.pc[x] == Idle)
    requires w.epoch.Keys == w.list.pc.Keys && forall x :: x in w.epoch ==> w.epoch[x] == 0
    requires w.op.Keys == w.list.pc.Keys && forall x :: x in w.op ==> w.op[x] == NoOp
    requires w.last == w.rows && forall t :: t in w.clock ==> w.clock[t] % 2 == 0
    ensures At(r, allowed, w) && r == Trace([w], [])
  {
    hide Inv;
    forall k ensures KeyOk(w, k) {
    }
    forall x | x in w.op ensures OpOk(w, x) {
    }
    r := Trace([w], []);
  }

  /** A removal and a later put of `k`, with the put's timestamp the smaller one. */
  lemma Falls(r1: Trace, r: Trace, w: World, w': World, k: Key)
    requires |r1.worlds| == |r1.events| + 1 && r1.events != [] && Continues(r1, r)
    requires var i := |r1.events| - 1; Writes(r1.worlds[i], r1.events[i], k) && Now(r1) == w
    requires |r.worlds| == |r.events| + 1 && |r1.events| < |r.events|
    requires var j := |r.events| - 1; Writes(r.worlds[j], r.events[j], k) && Now(r) == w'
    requires k in w.last && k in w'.last && w'.last[k] < w.last[k]
    ensures !Increasing(r)
  {
    var i, j := |r1.events| - 1, |r.events| - 1;
    assert r.worlds[i] == r1.worlds[i] && r.events[i] == r1.events[i] && r.worlds[i + 1] == r1.worlds[i + 1] == w;
    assert r.worlds[j + 1] == w';
    hide Writes;
  }

  /** The put at the end. */
  lemma Puts(r: Trace, allowed: set<Window>, w: World, x: Ptr, k: Key) returns (r': Trace, w': World)
    requires At(r, allowed, w) && Unlocked(w, x) && Owns(w.list, x, k) && x in w.epoch && 1 in w.clock
    requires w.clock[1] % 2 == 0
    requires k !in w.rows
    ensures At(r', allowed, w') && Continues(r, r') && |r'.events| == |r.events| + 1
    ensures var j := |r'.events| - 1; Writes(r'.worlds[j], r'.events[j], k)
    ensures k in w'.last && w'.last[k] == Timestamps.Observed(w.clock[1], w.epoch[x])
  {
    hide Inv, Owns, IsRun;
    var ts := Timestamps.Observed(w.clock[1], w.epoch[x]);
    w' := w.(rows := w.rows[k := ts], clock := w.clock[1 := ts], last := w.last[k := ts]);
    assert Next(w, Write(1, x, k), w', allowed);
    r' := More(r, allowed, w, Write(1, x, k), w');
  }

  /** A table at rest, and then the removal of the row of `k` at leaf `x`. */
  lemma Starts(a: set<Window>, s: State, epoch: map<Ptr, int>, op: map<Ptr, Op>, rows: map<Key, int>, x: Ptr, k: Key)
    returns (r: Trace, w: World)
    requires Inv(s) && (forall y :: y in s.pc ==> s.pc[y] == Idle) && Owns(s, x, k) && x in s.live && k in rows
    requires rows[k] == 8
    requires epoch.Keys == s.pc.Keys && forall y :: y in epoch ==> epoch[y] == 0
    requires op.Keys == s.pc.Keys && forall y :: y in op ==> op[y] == NoOp
    ensures At(r, a, w) && r.events != []
    ensures var i := |r.events| - 1; Writes(r.worlds[i], r.events[i], k)
    ensures w == World(s, epoch[x := 12], op, rows - {k}, map[0 := 10, 1 := 2], rows[k := 10])
  {
    hide Inv, IsRun, Owns, WorldWf, Next;
    w := World(s, epoch, op, rows, map[0 := 8, 1 := 2], rows);
    r := Begun(w, a);
    assert x in s.pc by { OwnerIn(s, x, k); }
    r, w := Erases(r, a, w, 0, x, k);
  }

  lemma WfAt(r: Trace, a: set<Window>, w: World)
    requires At(r, a, w)
    ensures WorldWf(w)
  {
  }

  lemma InvAt(r: Trace, a: set<Window>, w: World)
    requires At(r, a, w)
    ensures Inv(w.list) && Domains(w.list)
  {
  }

  /** A deletion is completed, and the key put again where it belongs now. */
  lemma Finishes(r: Trace, a: set<Window>, w: World, x: Ptr, p: Ptr, k: Key) returns (r': Trace, w': World)
    requires At(r, a, w) && x in w.op && w.op[x] == Raised && CanUnlink(w.list, x)
    requires p in w.op && w.op[p] == NoOp && p in w.epoch && w.epoch[p] <= 6 && 1 in w.clock && w.clock[1] <= 6
    requires w.clock[1] % 2 == 0
    requires k !in w.rows
    requires x in w.list.next && x in w.list.prev && w.list.prev[x] in w.list.next && w.list.prev[x] in w.list.pc
    requires var s := Out(w.list, x); p in s.pc && s.pc[p] == Idle && p in s.live && (Domains(s) ==> Owns(s, p, k))
    ensures At(r', a, w') && Continues(r, r') && |r'.events| > |r.events|
    ensures var j := |r'.events| - 1; Writes(r'.worlds[j], r'.events[j], k)
    ensures k in w'.last && w'.last[k] <= 6
  {
    hide Inv, IsRun, Owns, Out, CanUnlink, Next, WorldWf, Domains, Writes;
    r', w' := Unlinks(r, a, w, x);
    InvAt(r', a, w');
    r', w' := Puts(r', a, w', p, k);
  }

  // ----- a row removal -----

  /** A row removal at leaf 1 has loaded the leaf's epoch. The deletion of leaf 2 raises it; the removal
      stores less. */
  lemma EraseRace() returns (r: Trace)
    ensures IsRun(r, {InErase}) && !Increasing(r)
  {
    hide Inv, IsRun, Owns, Out, CanUnlink, Next, AtRest, Increasing, WorldWf, Writes;
    TwoOk();
    TwoOwners();
    var r1, w1 := Starts({InErase}, TWO, map[1 := 0, 2 := 0], map[1 := NoOp, 2 := NoOp], map[5 := 2, 15 := 8], 2, 15);
    assert w1.epoch == map[1 := 0, 2 := 12] && w1.rows == map[5 := 2];
    var w;
    r, w := EraseRaceBegins(r1, w1);
    r, w := EraseRaceRaises(r, w);
    r, w := EraseRaceStores(r, w);
    r, w := Finishes(r, {InErase}, w, 2, 1, 15);
    Falls(r1, r, w1, w, 15);
  }

  lemma EraseRaceBegins(r: Trace, w: World) returns (r': Trace, w': World)
    requires At(r, {InErase}, w) && w.list == TWO && w.epoch == map[1 := 0, 2 := 12]
    requires w.op == map[1 := NoOp, 2 := NoOp]
    requires w.clock == map[0 := 10, 1 := 2] && w.rows == map[5 := 2]
    ensures At(r', {InErase}, w') && Continues(r, r') && w'.list == TWO && w'.last == w.last
    ensures w'.clock == map[0 := 10, 1 := 4]
    ensures w'.epoch == map[1 := 0, 2 := 12] && w'.op == map[1 := Erasing(1, 5, 4, 0), 2 := NoOp]
    ensures w'.rows == map[5 := 2]
  {
    TwoFacts();
    TwoOwners();
    hide Inv, Owns, Out, CanUnlink, IsRun, Domains, TWO;
    w' := w.(op := w.op[1 := Erasing(1, 5, 4, 0)], clock := w.clock[1 := 4]);
    assert Timestamps.NextTimestamp(2, 2) == 4;
    assert BeginEraseStep(w, 1, 1, 5, w');
    r' := More(r, {InErase}, w, BeginErase(1, 1, 5), w');
  }

  lemma EraseRaceRaises(r: Trace, w: World) returns (r': Trace, w': World)
    requires At(r, {InErase}, w) && w.list == TWO && w.epoch == map[1 := 0, 2 := 12] && w.rows == map[5 := 2]
    requires w.op == map[1 := Erasing(1, 5, 4, 0), 2 := NoOp]
    ensures At(r', {InErase}, w') && Continues(r, r')
    ensures w' == w.(op := map[1 := Erasing(1, 5, 4, 0), 2 := Raised], epoch := map[1 := 12, 2 := 12])
  {
    hide *;
    WfAt(r, {InErase}, w);
    EraseRaceCan(w);
    r', w' := Raises(r, {InErase}, w, 2, 1);
    assert w.epoch[1 := 12] == map[1 := 12, 2 := 12];
    assert w.op[2 := Raised] == map[1 := Erasing(1, 5, 4, 0), 2 := Raised];
  }

  lemma EraseRaceCan(w: World)
    requires WorldWf(w) && w.list == TWO && w.epoch == map[1 := 0, 2 := 12] && w.rows == map[5 := 2]
    requires w.op == map[1 := Erasing(1, 5, 4, 0), 2 := NoOp]
    ensures CanRaise(w, 2, 1, {InErase})
  {
    TwoFacts();
    TwoOwners();
    hide Inv, Owns, Out, CanUnlink, TWO;
  }

  lemma EraseRaceStores(r: Trace, w: World) returns (r': Trace, w': World)
    requires At(r, {InErase}, w) && w.list == TWO && w.epoch == map[1 := 12, 2 := 12]
    requires w.op == map[1 := Erasing(1, 5, 4, 0), 2 := Raised]
    requires w.rows == map[5 := 2]
    ensures At(r', {InErase}, w') && Continues(r, r')
    ensures w'.list == TWO && w'.epoch == map[1 := 6, 2 := 12] && w'.op == map[1 := NoOp, 2 := Raised]
    ensures w'.rows == map[]
    ensures w'.clock == w.clock && w'.last == w.last[5 := 4]
  {
    hide *;
    WfAt(r, {InErase}, w);
    w' := EndsErase(w, 1, {InErase});
    r' := More(r, {InErase}, w, EndErase(1), w');
    assert w.epoch[1 := 6] == map[1 := 6, 2 := 12] && w.op[1 := NoOp] == map[1 := NoOp, 2 := Raised];
    assert map[5 := 2] - {5} == map[];
  }

  lemma TwoFacts()
    ensures TWO.head == 1 && TWO.live == {1, 2} && TWO.pc == map[1 := Idle, 2 := Idle]
    ensures TWO.prev == map[1 := 0, 2 := 1]
  {
  }

  lemma TwoOwners()
    ensures CanUnlink(TWO, 2) && Owns(TWO, 2, 15) && Owns(TWO, 1, 5) && !Owns(TWO, 2, 5)
    ensures var s := Out(TWO, 2); s.pc[1] == Idle && 1 in s.live && Owns(s, 1, 15) && 1 in s.pc
  {
    TwoOk();
  }

  // ----- a split -----

  /** Leaf 3, split from leaf 1, has copied its epoch. The deletion of leaf 2 raises leaf 1's; then the
      split gives leaf 2 a new predecessor, and that is leaf 3. */
  lemma SplitRace() returns (r: Trace)
    ensures IsRun(r, {InSplit}) && !Increasing(r)
  {
    hide Inv, IsRun, Owns, Next, AtRest, Increasing, WorldWf, Writes, Domains;
    var r1, w1 := SplitRaceStarts();
    var w;
    r, w := SplitRaceBegins(r1, w1);
    r, w := SplitRaceRaises(r, w);
    r, w := SplitRaceFinishes(r, w);
    Falls(r1, r, w1, w, 15);
  }

  lemma SplitRaceStarts() returns (r: Trace, w: World)
    ensures At(r, {InSplit}, w) && r.events != [] && |r.worlds| == |r.events| + 1 && Now(r) == w
    ensures var i := |r.events| - 1; Writes(r.worlds[i], r.events[i], 15)
    ensures w == World(TWO, map[1 := 0, 2 := 12], map[1 := NoOp, 2 := NoOp], map[], map[0 := 10, 1 := 2], map[15 := 10])
  {
    hide Inv, IsRun, Owns, Out, CanUnlink, Next, AtRest, WorldWf, Writes;
    TwoOk();
    TwoOwners();
    r, w := Starts({InSplit}, TWO, map[1 := 0, 2 := 0], map[1 := NoOp, 2 := NoOp], map[15 := 8], 2, 15);
    assert w.epoch == map[1 := 0, 2 := 12] && w.rows == map[] && w.last == map[15 := 10];
  }

  /** The list when leaf 1 begins to split. */
  const SPLITTING: State := State(1, map[1 := 0, 2 := 10, 3 := 5],
                                  map[1 := Link(2, false), 2 := Link(0, false), 3 := Link(0, false)],
                                  map[1 := 0, 2 := 1, 3 := 1],
                                  map[1 := SplitLoad(3), 2 := Idle, 3 := New(1)], {1, 2}, map[1 := 2, 2 := 0])

  lemma SplitRaceList()
    ensures Domains(TWO) && SplitBegins(TWO, 1, 3, 5, SPLITTING)
  {
    assert SPLITTING.key == TWO.key[3 := 5] && SPLITTING.next == TWO.next[3 := Link(0, false)]
      && SPLITTING.prev == TWO.prev[3 := 1];
    assert SPLITTING.pc == TWO.pc[3 := New(1)][1 := SplitLoad(3)];
  }

  lemma SplittingFacts()
    ensures SPLITTING.head == 1 && SPLITTING.live == {1, 2} && SPLITTING.prev == map[1 := 0, 2 := 1, 3 := 1]
    ensures SPLITTING.succ == map[1 := 2, 2 := 0]
    ensures SPLITTING.pc == map[1 := SplitLoad(3), 2 := Idle, 3 := New(1)]
    ensures 1 in SPLITTING.next && SPLITTING.next[1] == Link(2, false)
  {
  }

  lemma SplitRaceBegins(r: Trace, w: World) returns (r': Trace, w': World)
    requires At(r, {InSplit}, w) && w.list == TWO && w.epoch == map[1 := 0, 2 := 12]
    requires w.op == map[1 := NoOp, 2 := NoOp]
    requires w.rows == map[]
    ensures At(r', {InSplit}, w') && Continues(r, r') && w'.list == SPLITTING && w'.last == w.last
    ensures w'.clock == w.clock
    ensures w'.epoch == map[1 := 0, 2 := 12, 3 := 0] && w'.op == map[1 := NoOp, 2 := NoOp, 3 := NoOp]
    ensures w'.rows == map[]
  {
    SplitRaceList();
    hide Inv, SplitBegins, IsRun;
    w' := w.(list := SPLITTING, epoch := w.epoch[3 := w.epoch[1]], op := w.op[3 := NoOp]);
    r' := More(r, {InSplit}, w, BeginSplit(1, 3, 5), w');
  }

  lemma SplitRaceRaises(r: Trace, w: World) returns (r': Trace, w': World)
    requires At(r, {InSplit}, w) && w.list == SPLITTING && w.epoch == map[1 := 0, 2 := 12, 3 := 0] && w.rows == map[]
    requires w.op == map[1 := NoOp, 2 := NoOp, 3 := NoOp]
    ensures At(r', {InSplit}, w') && Continues(r, r')
    ensures w' == w.(op := map[1 := NoOp, 2 := Raised, 3 := NoOp], epoch := map[1 := 12, 2 := 12, 3 := 0])
  {
    hide *;
    WfAt(r, {InSplit}, w);
    SplitRaceCan(w);
    r', w' := Raises(r, {InSplit}, w, 2, 1);
    assert w.epoch[1 := 12] == map[1 := 12, 2 := 12, 3 := 0];
    assert w.op[2 := Raised] == map[1 := NoOp, 2 := Raised, 3 := NoOp];
  }

  lemma SplitRaceCan(w: World)
    requires WorldWf(w) && w.list == SPLITTING && w.epoch == map[1 := 0, 2 := 12, 3 := 0] && w.rows == map[]
    requires w.op == map[1 := NoOp, 2 := NoOp, 3 := NoOp]
    ensures CanRaise(w, 2, 1, {InSplit})
  {
    SplittingFacts();
    hide Inv, Owns, SPLITTING;
  }

  lemma SplitRaceFinishes(r: Trace, w: World) returns (r': Trace, w': World)
    requires At(r, {InSplit}, w) && w.list == SPLITTING && w.epoch == map[1 := 12, 2 := 12, 3 := 0] && w.rows == map[]
    requires w.op == map[1 := NoOp, 2 := Raised, 3 := NoOp] && w.clock == map[0 := 10, 1 := 2]
    ensures At(r', {InSplit}, w') && Continues(r, r') && |r'.events| > |r.events|
    ensures var j := |r'.events| - 1; Writes(r'.worlds[j], r'.events[j], 15)
    ensures 15 in w'.last && w'.last[15] <= 6
  {
    hide Inv, IsRun, Owns, Out, CanUnlink, SplitState, Next, WorldWf, Domains, Writes;
    InvAt(r, {InSplit}, w);
    r', w' := Links(r, {InSplit}, w, 1, 3, 5);
    InvAt(r', {InSplit}, w');
    SplitRaceLinked();
    SplitRaceEnd();
    r', w' := Finishes(r', {InSplit}, w', 2, 3, 15);
  }

  lemma SplitRaceLinked()
    requires CanLink(SPLITTING, 1, 3)
    ensures var l := SplitState(SPLITTING, 1, 3, 5);
      && l.head == 1 && l.prev == map[1 := 0, 2 := 3, 3 := 1] && l.pc == map[1 := Idle, 2 := Idle, 3 := Idle]
      && l.key == SPLITTING.key
      && l.next == map[1 := Link(3, false), 2 := Link(0, false), 3 := Link(2, false)] && l.live == {1, 2, 3}
      && l.succ == map[1 := 3, 2 := 0, 3 := 2]
  {
    hide *;
    SplitRaceSet();
    SplitRaceDone();
    SplitRaceMaps();
    SplittingFacts();
  }

  lemma SplitRaceMaps()
    ensures map[1 := SplitPrev(3, 2), 2 := Idle, 3 := New(1)][1 := SplitLink(3, 2, [2])][3 := Idle][1 := Idle]
      == map[1 := Idle, 2 := Idle, 3 := Idle]
    ensures map[1 := Link(2, true), 2 := Link(0, false), 3 := Link(2, false)][1 := Link(3, false)]
      == map[1 := Link(3, false), 2 := Link(0, false), 3 := Link(2, false)]
    ensures map[1 := 0, 2 := 1, 3 := 1][2 := 3] == map[1 := 0, 2 := 3, 3 := 1]
    ensures map[1 := 2, 2 := 0][3 := 2][1 := 3] == map[1 := 3, 2 := 0, 3 := 2]
  {
    hide *;
  }

  /** After three of the five steps, */
  lemma SplitRaceSet()
    requires CanLink(SPLITTING, 1, 3)
    ensures var m := SplitState(SPLITTING, 1, 3, 3);
      && m.head == 1 && m.key == SPLITTING.key && m.prev == SPLITTING.prev && m.live == {1, 2}
      && m.succ == SPLITTING.succ
      && m.next == map[1 := Link(2, true), 2 := Link(0, false), 3 := Link(2, false)]
      && m.pc == map[1 := SplitPrev(3, 2), 2 := Idle, 3 := New(1)]
  {
    hide Inv, CanLink;
    var s := Marked(SPLITTING, 1);
    assert s.next == map[1 := Link(2, true), 2 := Link(0, false), 3 := Link(0, false)];
    assert SplitState(SPLITTING, 1, 3, 3).next == s.next[3 := Link(2, false)];
  }

  /** and after the other two. */
  lemma SplitRaceDone()
    requires CanLink(SPLITTING, 1, 3)
    ensures var m, l := SplitState(SPLITTING, 1, 3, 3), SplitState(SPLITTING, 1, 3, 5);
      && l.head == m.head && l.key == m.key && l.prev == m.prev[2 := 3] && l.live == m.live + {3}
      && l.succ == m.succ[3 := 2][1 := 3]
      && l.next == m.next[1 := Link(3, false)] && l.pc == m.pc[1 := SplitLink(3, 2, [2])][3 := Idle][1 := Idle]
  {
    hide Inv, CanLink;
  }

  lemma SplitRaceEnd()
    requires CanLink(SPLITTING, 1, 3) && Inv(SplitState(SPLITTING, 1, 3, 5))
    ensures var l := SplitState(SPLITTING, 1, 3, 5);
      && CanUnlink(l, 2) && 2 in l.next && 2 in l.prev && l.prev[2] in l.next && l.prev[2] in l.pc
      && var s := Out(l, 2); 3 in s.pc && s.pc[3] == Idle && 3 in s.live && (Domains(s) ==> Owns(s, 3, 15))
  {
    SplitRaceLinked();
    hide Inv, SplitState;
  }

  // ----- a deletion -----

  /** Leaf 2, which is being deleted, has handed its epoch to leaf 1. The deletion of leaf 3 raises leaf
      2's; then leaf 2 goes, and leaf 3 after it. */
  lemma DeleteRace() returns (r: Trace)
    ensures IsRun(r, {InDelete}) && !Increasing(r)
  {
    hide Inv, IsRun, Owns, Out, CanUnlink, Next, AtRest, Increasing, WorldWf, Writes;
    ThreeOk();
    ThreeOwners();
    var r1, w1 := Starts({InDelete}, THREE, map[1 := 0, 2 := 0, 3 := 0], map[1 := NoOp, 2 := NoOp, 3 := NoOp],
        map[25 := 8], 3, 25);
    assert w1.epoch == map[1 := 0, 2 := 0, 3 := 12] && w1.rows == map[];
    var w;
    r, w := DeleteRaceRaises(r1, w1);
    r, w := Unlinks(r, {InDelete}, w, 2);
    r, w := DeleteRaceDies(r, w);
    DeleteRaceEnd();
    InvAt(r, {InDelete}, w);
    r, w := Finishes(r, {InDelete}, w, 3, 1, 25);
    Falls(r1, r, w1, w, 25);
  }

  lemma ThreeFacts()
    ensures THREE.head == 1 && THREE.live == {1, 2, 3} && THREE.pc == map[1 := Idle, 2 := Idle, 3 := Idle]
    ensures THREE.prev == map[1 := 0, 2 := 1, 3 := 2]
  {
  }

  lemma ThreeOwners()
    ensures CanUnlink(THREE, 2) && Owns(THREE, 3, 25)
  {
    ThreeOk();
  }

  lemma DeleteRaceRaises(r: Trace, w: World) returns (r': Trace, w': World)
    requires At(r, {InDelete}, w) && w.list == THREE && w.epoch == map[1 := 0, 2 := 0, 3 := 12] && w.rows == map[]
    requires w.op == map[1 := NoOp, 2 := NoOp, 3 := NoOp]
    ensures At(r', {InDelete}, w') && Continues(r, r')
    ensures w' == w.(op := map[1 := NoOp, 2 := Raised, 3 := Raised], epoch := map[1 := 0, 2 := 12, 3 := 12])
  {
    hide Inv, Owns, IsRun, Within, WorldWf, Next, THREE;
    r', w' := FirstRaise(r, w);
    r', w' := SecondRaise(r', w');
  }

  lemma FirstRaise(r: Trace, w: World) returns (r': Trace, w': World)
    requires At(r, {InDelete}, w) && w.list == THREE && w.epoch == map[1 := 0, 2 := 0, 3 := 12] && w.rows == map[]
    requires w.op == map[1 := NoOp, 2 := NoOp, 3 := NoOp]
    ensures At(r', {InDelete}, w') && Continues(r, r')
    ensures w' == w.(op := map[1 := NoOp, 2 := Raised, 3 := NoOp])
  {
    hide *;
    WfAt(r, {InDelete}, w);
    FirstCan(w);
    r', w' := Raises(r, {InDelete}, w, 2, 1);
    assert w.op[2 := Raised] == map[1 := NoOp, 2 := Raised, 3 := NoOp];
  }

  lemma FirstCan(w: World)
    requires WorldWf(w) && w.list == THREE && w.epoch == map[1 := 0, 2 := 0, 3 := 12] && w.rows == map[]
    requires w.op == map[1 := NoOp, 2 := NoOp, 3 := NoOp]
    ensures CanRaise(w, 2, 1, {InDelete})
  {
    ThreeFacts();
    hide Inv, Owns, THREE;
  }

  lemma SecondRaise(r: Trace, w: World) returns (r': Trace, w': World)
    requires At(r, {InDelete}, w) && w.list == THREE && w.epoch == map[1 := 0, 2 := 0, 3 := 12] && w.rows == map[]
    requires w.op == map[1 := NoOp, 2 := Raised, 3 := NoOp]
    ensures At(r', {InDelete}, w') && Continues(r, r')
    ensures w' == w.(op := map[1 := NoOp, 2 := Raised, 3 := Raised], epoch := map[1 := 0, 2 := 12, 3 := 12])
  {
    hide *;
    WfAt(r, {InDelete}, w);
    SecondCan(w);
    r', w' := Raises(r, {InDelete}, w, 3, 2);
    assert w.epoch[2 := 12] == map[1 := 0, 2 := 12, 3 := 12];
    assert w.op[3 := Raised] == map[1 := NoOp, 2 := Raised, 3 := Raised];
  }

  lemma SecondCan(w: World)
    requires WorldWf(w) && w.list == THREE && w.epoch == map[1 := 0, 2 := 0, 3 := 12] && w.rows == map[]
    requires w.op == map[1 := NoOp, 2 := Raised, 3 := NoOp]
    ensures CanRaise(w, 3, 2, {InDelete})
  {
    ThreeFacts();
    OnlyDeleting(w);
    hide Inv, Owns, THREE, Within;
  }

  lemma OnlyDeleting(w: World)
    requires WorldWf(w) && w.list == THREE && 2 in w.op && w.op[2] == Raised
    ensures forall v :: Within(w, 2, v) ==> v in {InDelete}
  {
    hide Inv;
  }

  /** The list once leaf 2 is dead. */
  function WithoutTwo(): State {
    var l := Out(THREE, 2);
    To(l, 2, Dead).(next := l.next[1 := Link(3, false)])
  }

  lemma TwoDies()
    ensures var l := Out(THREE, 2);
      2 in l.pc && l.pc[2] != Idle && (Domains(l) ==> Step(l, 2, WithoutTwo()))
  {
    var l := Out(THREE, 2);
    assert l.pc[2] == UnlinkLink(3, 1) && l.next[1] == Link(2, true);
    hide Inv, PcOk, ListOk, NextOk, Domains;
  }

  lemma DeleteRaceDies(r: Trace, w: World) returns (r': Trace, w': World)
    requires At(r, {InDelete}, w) && w.list == Out(THREE, 2) && 2 in w.op
    ensures At(r', {InDelete}, w') && Continues(r, r') && w' == w.(list := WithoutTwo())
  {
    hide PcOk, NextOk, ListOk, Owns, IsRun, Step, Out, THREE, WithoutTwo, Now, Domains;
    TwoDies();
    r', w' := RelinkMore(r, {InDelete}, w, 2, WithoutTwo());
  }

  lemma DeleteRaceEnd()
    ensures var l := WithoutTwo();
      && (Inv(l) ==> CanUnlink(l, 3)) && 3 in l.next && 3 in l.prev && l.prev[3] in l.next && l.prev[3] in l.pc
      && var s := Out(l, 3); 1 in s.pc && s.pc[1] == Idle && 1 in s.live && (Domains(s) ==> Owns(s, 1, 25))
  {
    hide Inv;
  }

  // ----- the exact condition -----

  lemma MoreAllowed(r: Trace, a: set<Window>, b: set<Window>)
    requires IsRun(r, a) && a <= b
    ensures IsRun(r, b)
  {
    hide AtRest, WorldWf, RelinkStep, SplitStep, DeleteStep, WriteStep, BeginEraseStep, EndEraseStep;
    forall i: nat | i < |r.events| ensures StepAt(r, i, b) {
      assert StepAt(r, i, a);
    }
  }

  /** Timestamps increase for every key in every run if and only if no leaf's epoch may be raised while
      an operation on it is in a window, whichever: a row removal between its load and store of the
      epoch, a split between its copy and the new leaf's entry in the list, a deletion between its
      handing the epoch on and its own exit. */
  lemma OnlyOutsideWindows(allowed: set<Window>)
    ensures (forall r :: IsRun(r, allowed) ==> Increasing(r)) <==> allowed == {}
  {
    hide IsRun, Increasing;
    if allowed == {} {
      forall r | IsRun(r, allowed) ensures Increasing(r) {
        TimestampsIncrease(r);
      }
    } else {
      var v :| v in allowed;
      var r;
      match v {
        case InErase => r := EraseRace();
        case InSplit => r := SplitRace();
        case InDelete => r := DeleteRace();
      }
      MoreAllowed(r, {v}, allowed);
    }
  }
}
