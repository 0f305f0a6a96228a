/** A walker among the operations on the leaf list: it loads one next pointer at a time, strips the mark
    (`safe_next`, masstree_struct.hh:473-475) and goes there, while splits and removals take steps
    between its loads. The leaf it stands on may be removed under it. */
module LeafWalk {
  import NodeStore
  import opened LeafLink

  // ----- what a step does to removed leaves -----

  /** The next pointer of a removed leaf leads up, and not to a leaf that was never linked. */
  ghost predicate LeadsUp(s: State, g: NodeStore.Ptr)
    requires Domains(s) && g in s.pc
  {
    var y := s.next[g].ptr;
    y != NodeStore.NULL ==> y in s.pc && s.key[g] < s.key[y] && !s.pc[y].New?
  }

  ghost predicate GoneOk(s: State) {
    Domains(s) && forall g :: Gone(s, g) ==> LeadsUp(s, g)
  }

  /** Removed leaves stay removed and their pointers stay; keys stay; no linked leaf is new again. A leaf is
      removed first and dead later. */
  ghost predicate Onward(s: State, s': State) {
    && Domains(s) && Domains(s') && Frozen(s, s') && s'.head == s.head
    && (forall m :: m in s.pc && !s.pc[m].New? ==> m in s'.pc && !s'.pc[m].New?)
    && (forall g :: Gone(s', g) && !Gone(s, g) ==> s'.pc[g].UnlinkLink?)
  }

  lemma InDomains(s: State)
    requires Inv(s)
    ensures Domains(s) && s.next.Keys == s.pc.Keys && s.head in s.pc && NodeStore.NULL !in s.pc
  {
  }

  lemma Living(s: State, x: NodeStore.Ptr)
    requires Inv(s) && x in s.live
    ensures x in s.pc && !Gone(s, x)
  {
    assert PcOk(s, x);
  }

  /** The operation on `n` is a split or a removal. */
  predicate Splitting(p: Pc) {
    p.SplitLoad? || p.SplitCas? || p.SplitSet? || p.SplitPrev? || p.SplitLink?
  }

  /** Where an operation stores. */
  lemma Targets(s: State, n: NodeStore.Ptr)
    requires Inv(s) && n in s.pc
    ensures Splitting(s.pc[n]) ==> n in s.live && s.pc[n].nr in s.pc && s.pc[s.pc[n].nr].New?
    ensures s.pc[n].UnlinkLink? ==> s.pc[n].pv in s.live
  {
    assert PcOk(s, n);
  }

  /** What a step does to leaf `m`. */
  ghost predicate Kept(s: State, s': State, m: NodeStore.Ptr)
    requires Domains(s) && m in s.pc && Domains(s')
  {
    && m in s'.pc && s'.key[m] == s.key[m]
    && (Gone(s, m) ==> Gone(s', m) && s'.next[m].ptr == s.next[m].ptr)
    && (!s.pc[m].New? ==> !s'.pc[m].New?)
  }

  lemma BeginKept(s: State, n: NodeStore.Ptr, s': State, m: NodeStore.Ptr)
    requires Inv(s) && Domains(s') && n in s.pc && Step(s, n, s') && m in s.pc && s.pc[n].Idle?
    ensures Kept(s, s', m) && (Gone(s', m) ==> Gone(s, m)) && (forall g :: g in s'.pc && g !in s.pc ==> !Gone(s', g))
  {
    hide PcOk, NextOk, ListOk, Inv;
  }

  lemma SplitKept(s: State, n: NodeStore.Ptr, s': State, m: NodeStore.Ptr)
    requires Inv(s) && Domains(s') && n in s.pc && Step(s, n, s') && m in s.pc && Splitting(s.pc[n])
    ensures Kept(s, s', m) && (Gone(s', m) ==> Gone(s, m)) && s'.pc.Keys == s.pc.Keys
  {
    hide PcOk, NextOk, ListOk;
    Targets(s, n);
    hide Inv;
  }

  lemma UnlinkKept(s: State, n: NodeStore.Ptr, s': State, m: NodeStore.Ptr)
    requires Inv(s) && Domains(s') && n in s.pc && Step(s, n, s') && m in s.pc && !s.pc[n].Idle? && !Splitting(s.pc[n])
    ensures Kept(s, s', m) && (Gone(s', m) ==> Gone(s, m) || (m == n && s.pc[n].UnlinkPrev? && s'.pc[n].UnlinkLink?))
    ensures s'.pc.Keys == s.pc.Keys
  {
    hide PcOk, NextOk, ListOk;
    Targets(s, n);
    if s.pc[n].UnlinkLink? { Living(s, s.pc[n].pv); }
    hide Inv;
  }

  lemma StepOnward(s: State, n: NodeStore.Ptr, s': State)
    requires Inv(s) && Domains(s') && n in s.pc && Step(s, n, s')
    ensures Onward(s, s')
    ensures forall g :: Gone(s', g) && !Gone(s, g) ==> g == n && s.pc[n].UnlinkPrev? && s'.pc[n].UnlinkLink?
  {
    hide Inv, Step, Gone, Domains;
    InDomains(s);
    HeadKept(s, n, s');
    forall m | m in s.pc
      ensures Kept(s, s', m) && (Gone(s', m) && !Gone(s, m) ==> m == n && s.pc[n].UnlinkPrev? && s'.pc[n].UnlinkLink?)
    {
      OneKept(s, n, s', m);
    }
    forall g: NodeStore.Ptr | Gone(s', g) && !Gone(s, g) ensures g == n && s.pc[n].UnlinkPrev? && s'.pc[n].UnlinkLink? {
      OneKept(s, n, s', if g in s.pc then g else n);
      GoneIn(s', g);
    }
    KeptOnward(s, s');
  }

  lemma GoneIn(s: State, g: NodeStore.Ptr)
    ensures Gone(s, g) ==> g in s.pc
  {
  }

  lemma KeptOnward(s: State, s': State)
    requires Domains(s) && Domains(s') && s'.head == s.head && forall m :: m in s.pc ==> Kept(s, s', m)
    requires forall g :: Gone(s', g) && !Gone(s, g) ==> s'.pc[g].UnlinkLink?
    ensures Onward(s, s')
  {
  }

  lemma HeadKept(s: State, n: NodeStore.Ptr, s': State)
    requires Domains(s) && Domains(s') && n in s.pc && Step(s, n, s')
    ensures s'.head == s.head
  {
  }

  lemma OneKept(s: State, n: NodeStore.Ptr, s': State, m: NodeStore.Ptr)
    requires Inv(s) && Domains(s') && n in s.pc && Step(s, n, s') && m in s.pc
    ensures Kept(s, s', m) && (Gone(s', m) && !Gone(s, m) ==> m == n && s.pc[n].UnlinkPrev? && s'.pc[n].UnlinkLink?)
    ensures forall g :: g in s'.pc && g !in s.pc ==> !Gone(s', g)
  {
    hide Inv, Step;
    if s.pc[n].Idle? {
      BeginKept(s, n, s', m);
    } else if Splitting(s.pc[n]) {
      SplitKept(s, n, s', m);
    } else {
      UnlinkKept(s, n, s', m);
    }
  }

  lemma LeftLeadsUp(s: State, n: NodeStore.Ptr, s': State)
    requires Inv(s) && Domains(s') && n in s.pc && Step(s, n, s') && s.pc[n].UnlinkPrev?
    ensures LeadsUp(s', n)
  {
    assert PcOk(s, n) && NextOk(s, n) && ListOk(s, n);
    if s.succ[n] != NodeStore.NULL { SuccInChain(s, n); }
  }

  lemma AnyOnward(s: State, s': State)
    requires Inv(s) && GoneOk(s) && AnyStep(s, s')
    ensures Inv(s') && GoneOk(s') && Onward(s, s')
  {
    AnyStepKeeps(s, s');
    var n :| n in s.pc && Step(s, n, s');
    StepOnward(s, n, s');
    hide Inv, Step;
    forall g: NodeStore.Ptr | Gone(s', g) ensures LeadsUp(s', g) {
      if Gone(s, g) { assert LeadsUp(s, g); } else { LeftLeadsUp(s, n, s'); }
    }
  }

  // ----- one walker -----

  /** Either a thread takes a step, or the walker goes back to the head or over one next pointer. */
  ghost predicate Move(s: State, x: NodeStore.Ptr, s': State, x': NodeStore.Ptr) {
    || (AnyStep(s, s') && x' == x)
    || (s' == s && (x' == s.head || (x in s.next && x' == s.next[x].ptr)))
  }

  /** The states of a run and where the walker is in each. */
  ghost predicate Walk(run: seq<State>, walk: seq<NodeStore.Ptr>) {
    && run != [] && |walk| == |run| && Init(run[0]) && walk[0] == run[0].head
    && forall i :: 0 <= i < |run| - 1 ==> Move(run[i], walk[i], run[i + 1], walk[i + 1])
  }

  /** The walker is at the end, or on a leaf that was linked at some time. */
  predicate WalkerOk(s: State, x: NodeStore.Ptr) {
    x == NodeStore.NULL || (x in s.pc && !s.pc[x].New?)
  }

  /** From where the walker may be, the next pointer leads up or to the end. */
  lemma NextLeadsUp(s: State, x: NodeStore.Ptr)
    requires Inv(s) && GoneOk(s) && x in s.pc && !s.pc[x].New?
    ensures LeadsUp(s, x)
  {
    if Gone(s, x) {
      assert LeadsUp(s, x);
    } else {
      assert PcOk(s, x);
      WalkStep(s, x);
      var y := s.next[x].ptr;
      if y != NodeStore.NULL && !InChain(s, y) {
        var m, j: nat :| OnPath(s, y, m, j);
        assert PcOk(s, m) && NextOk(s, m);
      }
    }
  }

  lemma {:induction false} WalkKeeps(run: seq<State>, walk: seq<NodeStore.Ptr>, i: nat)
    requires Walk(run, walk) && i < |run|
    ensures Inv(run[i]) && GoneOk(run[i]) && WalkerOk(run[i], walk[i])
  {
    hide Inv, GoneOk, AnyStep, Init, LeadsUp, Frozen;
    if i == 0 {
      Start(run[0]);
    } else {
      WalkKeeps(run, walk, i - 1);
      assert Move(run[i - 1], walk[i - 1], run[i - 1 + 1], walk[i - 1 + 1]);
      MoveKeeps(run[i - 1], walk[i - 1], run[i], walk[i]);
    }
  }

  lemma Start(s: State)
    requires Init(s)
    ensures Inv(s) && GoneOk(s) && WalkerOk(s, s.head)
  {
    InitOk(s);
  }

  lemma HeadOk(s: State)
    requires Inv(s)
    ensures WalkerOk(s, s.head)
  {
    assert PcOk(s, s.head);
    if s.pc[s.head].New? { NewOwner(s, s.head); }
  }

  lemma MoveKeeps(s: State, x: NodeStore.Ptr, s': State, x': NodeStore.Ptr)
    requires Inv(s) && GoneOk(s) && WalkerOk(s, x) && Move(s, x, s', x')
    ensures Inv(s') && GoneOk(s') && WalkerOk(s', x')
  {
    InDomains(s);
    hide Inv, GoneOk, AnyStep, Init, Frozen, Domains;
    if AnyStep(s, s') && x' == x {
      AnyOnward(s, s');
    } else if x' == s.head {
      HeadOk(s);
    } else if x in s.pc {
      NextLeadsUp(s, x);
    }
  }

  // ----- what stays linked is not missed -----

  /** A walk from `x` with everything standing still would come to `z`. */
  ghost predicate Ahead(s: State, x: NodeStore.Ptr, z: NodeStore.Ptr) {
    Domains(s) && exists n: nat :: Visits(s, x, z, n)
  }

  lemma {:induction false} VisitsUp(s: State, x: NodeStore.Ptr, z: NodeStore.Ptr, n: nat)
    requires Domains(s) && Visits(s, x, z, n)
    ensures z in s.key && x in s.key && (x == z || s.key[x] < s.key[z])
    decreases n
  {
    if x != z { VisitsUp(s, s.next[x].ptr, z, n - 1); }
  }

  /** A step of some thread: a linked leaf stays ahead of the walker, even if the walker's own leaf, or
      the leaves that its pointer leads through, have been removed. */
  lemma {:induction false} AheadKept(s: State, x: NodeStore.Ptr, z: NodeStore.Ptr, n: nat, s': State)
    requires Inv(s) && GoneOk(s) && Inv(s') && Onward(s, s') && x in s.pc && !s.pc[x].New?
    requires Visits(s, x, z, n) && InChain(s', z)
    ensures Ahead(s', x, z)
    decreases n
  {
    hide Inv;
    VisitsUp(s, x, z, n);
    if x == z {
      assert Visits(s', x, z, 0);
    } else if OnWalk(s', x) {
      var k := WalkVisits(s', x, z);
    } else {
      NotGone(s, x, s');
      assert LeadsUp(s, x);
      var y := s.next[x].ptr;
      AheadKept(s, y, z, n - 1, s');
      var k: nat :| Visits(s', y, z, k);
      assert Visits(s', x, z, k + 1);
    }
  }

  lemma NotGone(s: State, x: NodeStore.Ptr, s': State)
    requires Inv(s) && Inv(s') && Onward(s, s') && x in s.pc && !s.pc[x].New? && !OnWalk(s', x)
    ensures Gone(s, x)
  {
    assert PcOk(s, x) && PcOk(s', x);
  }

  /** Leaf `z` is in the list, linked, from state `a` to state `b`. */
  ghost predicate StaysLinked(run: seq<State>, a: nat, b: nat, z: NodeStore.Ptr)
    requires b < |run|
  {
    forall i :: a <= i <= b ==> InChain(run[i], z)
  }

  /** The walker has been on `z`, or `z` is ahead of it. */
  lemma {:induction false} VisitedOrAhead(run: seq<State>, walk: seq<NodeStore.Ptr>, a: nat, b: nat, z: NodeStore.Ptr)
    requires Walk(run, walk) && a <= b < |run| && walk[a] == run[a].head && StaysLinked(run, a, b, z)
    ensures (exists i :: a <= i <= b && walk[i] == z) || Ahead(run[b], walk[b], z)
    decreases b - a
  {
    hide Inv, AnyStep, Init, Visits;
    if a == b {
      WalkKeeps(run, walk, a);
      FromHead(run[a], z);
    } else {
      VisitedOrAhead(run, walk, a, b - 1, z);
      if !(exists i :: a <= i <= b && walk[i] == z) {
        assert forall i :: a <= i <= b - 1 ==> walk[i] != z;
        WalkKeeps(run, walk, b - 1);
        WalkKeeps(run, walk, b);
        assert Move(run[b - 1], walk[b - 1], run[b - 1 + 1], walk[b - 1 + 1]);
        MoveAhead(run[b - 1], walk[b - 1], run[b], walk[b], z);
      }
    }
  }

  lemma FromHead(s: State, z: NodeStore.Ptr)
    requires Inv(s) && InChain(s, z)
    ensures Ahead(s, s.head, z)
  {
    InDomains(s);
    HeadFirst(s, z);
    var k := WalkVisits(s, s.head, z);
  }

  lemma MoveAhead(s: State, x: NodeStore.Ptr, s': State, x': NodeStore.Ptr, z: NodeStore.Ptr)
    requires Inv(s) && GoneOk(s) && WalkerOk(s, x) && Move(s, x, s', x') && x != z
    requires Ahead(s, x, z) && InChain(s', z)
    ensures Ahead(s', x', z)
  {
    hide Inv, AnyStep;
    var n: nat :| Visits(s, x, z, n);
    InDomains(s);
    if AnyStep(s, s') && x' == x {
      AnyOnward(s, s');
      AheadKept(s, x, z, n, s');
    } else if x' == s.head {
      FromHead(s, z);
    } else {
      assert Visits(s, x', z, n - 1);
    }
  }

  /** The walker is past `z`: at the end, or on a leaf with a greater key. */
  predicate Past(s: State, x: NodeStore.Ptr, z: NodeStore.Ptr) {
    x == NodeStore.NULL || (x in s.key && z in s.key && s.key[z] < s.key[x])
  }

  /** In every interleaving of splits, removals and the walker's loads: a walker that starts at the head
      and gets past a leaf that was linked all the while has been on that leaf. */
  lemma NoLeafIsMissed(run: seq<State>, walk: seq<NodeStore.Ptr>, a: nat, b: nat, z: NodeStore.Ptr) returns (i: nat)
    requires Walk(run, walk) && a <= b < |run| && walk[a] == run[a].head && StaysLinked(run, a, b, z)
    requires Past(run[b], walk[b], z)
    ensures a <= i <= b && walk[i] == z
  {
    VisitedOrAhead(run, walk, a, b, z);
    if Ahead(run[b], walk[b], z) {
      WalkKeeps(run, walk, b);
      InDomains(run[b]);
      var n: nat :| Visits(run[b], walk[b], z, n);
      VisitsUp(run[b], walk[b], z, n);
    }
    i :| a <= i <= b && walk[i] == z;
  }

  /** And each load takes it up in key order, or to the end, also from a leaf that was removed under it. */
  lemma LoadsGoUp(run: seq<State>, walk: seq<NodeStore.Ptr>, i: nat)
    requires Walk(run, walk) && i < |run| && walk[i] != NodeStore.NULL
    ensures var s, x := run[i], walk[i];
      x in s.next && x in s.key
      && (s.next[x].ptr == NodeStore.NULL || (s.next[x].ptr in s.key && s.key[x] < s.key[s.next[x].ptr]))
  {
    WalkKeeps(run, walk, i);
    NextLeadsUp(run[i], walk[i]);
  }
}
