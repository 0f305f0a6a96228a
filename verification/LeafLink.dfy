/** The doubly linked leaf list under concurrent splits and removals (btree_leaflink.hh). Every load,
    store and compare-and-exchange is one step, and any number of threads take steps in any order.
    A thread acts on the leaf it has locked, so operations are told apart by their leaf.

    `live` and `succ` are history: the logical list. A new leaf enters it when its successor's back
    pointer names it, and a removed leaf leaves it when its successor's back pointer skips it. */
module LeafLink {
  import opened NodeStore

  /** `next_`: a pointer whose low bit is a mark. */
  datatype Link = Link(ptr: Ptr, mark: bool)

  /** What the holder of a leaf's lock does next. `path` (history): the leaves from the old successor
      `nx` to the logical successor of `nr`; all but the last were removed behind the splitter's back. */
  datatype Pc =
    | Idle
    | New(owner: Ptr)
    | SplitLoad(nr: Ptr)
    | SplitCas(nr: Ptr, seen: Link)
    | SplitSet(nr: Ptr, nx: Ptr)
    | SplitPrev(nr: Ptr, nx: Ptr)
    | SplitLink(nr: Ptr, nx: Ptr, path: seq<Ptr>)
    | UnlinkLoad
    | UnlinkCas(seen: Link)
    | UnlinkRead(nx: Ptr)
    | UnlinkMark(nx: Ptr, pv: Ptr)
    | UnlinkPrev(nx: Ptr, pv: Ptr)
    | UnlinkLink(nx: Ptr, pv: Ptr)
    | Dead

  datatype State = State(head: Ptr, key: map<Ptr, int>, next: map<Ptr, Link>, prev: map<Ptr, Ptr>, pc: map<Ptr, Pc>,
                         live: set<Ptr>, succ: map<Ptr, Ptr>)

  ghost predicate Domains(s: State) {
    && s.key.Keys == s.pc.Keys && s.next.Keys == s.pc.Keys && s.prev.Keys == s.pc.Keys
    && s.live <= s.pc.Keys && s.succ.Keys >= s.live && NULL !in s.pc && s.head in s.live
  }

  // ----- steps -----

  function To(s: State, n: Ptr, pc: Pc): State {
    s.(pc := s.pc[n := pc])
  }

  /** `lock_next` after its load: null is returned as it is; otherwise the pointer is marked if it is
      unmarked and has not changed. */
  predicate CanMark(s: State, n: Ptr, seen: Link)
    requires n in s.next
  {
    !seen.mark && s.next[n] == seen
  }

  function Marked(s: State, n: Ptr): State
    requires n in s.next
  {
    s.(next := s.next[n := s.next[n].(mark := true)])
  }

  /** A new leaf for a split of `n`, with keys between those of `n` and of its successor. */
  ghost predicate SplitBegins(s: State, n: Ptr, nr: Ptr, k: int, s': State)
    requires Domains(s) && n in s.live
  {
    && nr != NULL && nr !in s.pc && s.key[n] < k && (s.succ[n] in s.key ==> k < s.key[s.succ[n]])
    && s' == s.(key := s.key[nr := k], next := s.next[nr := Link(NULL, false)], prev := s.prev[nr := n],
                pc := s.pc[nr := New(n)][n := SplitLoad(nr)])
  }

  /** `nr` enters the logical list after `n`. */
  function Entered(s: State, n: Ptr, nr: Ptr, nx: Ptr): State {
    s.(prev := if nx != NULL then s.prev[nx := nr] else s.prev,
       live := s.live + {nr},
       succ := s.succ[nr := nx][n := nr],
       pc := s.pc[n := SplitLink(nr, nx, [nx])])
  }

  /** `n` leaves the logical list. If its predecessor is a new leaf not yet linked, the splitter's path
      grows. */
  function Left(s: State, n: Ptr, nx: Ptr, pv: Ptr): State
    requires pv in s.pc
  {
    var pc := s.pc[n := UnlinkLink(nx, pv)];
    var owner := if s.pc[pv].New? then s.pc[pv].owner else NULL;
    s.(prev := if nx != NULL then s.prev[nx := pv] else s.prev, live := s.live - {n}, succ := s.succ[pv := nx],
       pc := if owner in pc && pc[owner].SplitLink? then pc[owner := pc[owner].(path := pc[owner].path + [nx])] else pc)
  }

  ghost predicate Step(s: State, n: Ptr, s': State)
    requires Domains(s) && n in s.pc
  {
    match s.pc[n]
    case Idle =>
      || (n in s.live && exists nr, k :: SplitBegins(s, n, nr, k, s'))
      || (n != s.head && s' == To(s, n, UnlinkLoad))
    case New(_) => false
    case SplitLoad(nr) => s' == To(s, n, SplitCas(nr, s.next[n]))
    case SplitCas(nr, seen) =>
      if seen.ptr == NULL then s' == To(s, n, SplitSet(nr, NULL))
      else if CanMark(s, n, seen) then s' == To(Marked(s, n), n, SplitSet(nr, seen.ptr))
      else s' == To(s, n, SplitLoad(nr))
    case SplitSet(nr, nx) => s' == To(s, n, SplitPrev(nr, nx)).(next := s.next[nr := Link(nx, false)])
    case SplitPrev(nr, nx) => s' == Entered(s, n, nr, nx)
    case SplitLink(nr, nx, path) => s' == To(To(s, nr, Idle), n, Idle).(next := s.next[n := Link(nr, false)])
    case UnlinkLoad => s' == To(s, n, UnlinkCas(s.next[n]))
    case UnlinkCas(seen) =>
      if seen.ptr == NULL then s' == To(s, n, UnlinkRead(NULL))
      else if CanMark(s, n, seen) then s' == To(Marked(s, n), n, UnlinkRead(seen.ptr))
      else s' == To(s, n, UnlinkLoad)
    case UnlinkRead(nx) => s' == To(s, n, UnlinkMark(nx, s.prev[n]))
    case UnlinkMark(nx, pv) =>
      if pv in s.next && s.next[pv] == Link(n, false) then s' == To(Marked(s, pv), n, UnlinkPrev(nx, pv))
      else s' == To(s, n, UnlinkRead(nx))
    case UnlinkPrev(nx, pv) => pv in s.pc && s' == Left(s, n, nx, pv)
    case UnlinkLink(nx, pv) => s' == To(s, n, Dead).(next := s.next[pv := Link(nx, false)])
    case Dead => false
  }

  // ----- the invariant -----

  /** The operation on `n` has marked the next pointer of `n`. */
  predicate HoldsNext(pc: Pc) {
    pc.SplitSet? || pc.SplitPrev? || pc.UnlinkRead? || pc.UnlinkMark? || pc.UnlinkPrev?
  }

  /** A removed leaf whose predecessor's next pointer still leads to it. */
  predicate Leaving(s: State, g: Ptr, x: Ptr) {
    g in s.pc && s.pc[g].UnlinkLink? && s.pc[g].pv == x
  }

  /** The removal of `y` has marked the next pointer of its predecessor `x`. */
  predicate MarkedBy(s: State, y: Ptr, x: Ptr) {
    y in s.pc && s.pc[y].UnlinkPrev? && s.pc[y].pv == x
  }

  predicate Gone(s: State, g: Ptr) {
    g in s.pc && (s.pc[g].UnlinkLink? || s.pc[g].Dead?)
  }

  ghost predicate PathOk(s: State, low: int, path: seq<Ptr>, end: Ptr)
    requires Domains(s)
  {
    && path != [] && path[|path| - 1] == end
    && (forall j ::
        0 <= j < |path| - 1 ==> Gone(s, path[j]) && low < s.key[path[j]] && s.next[path[j]].ptr == path[j + 1])
    && (forall i, j :: 0 <= i < j < |path| && path[j] in s.key && path[i] in s.key ==> s.key[path[i]] < s.key[path[j]])
    && (end in s.key ==> low < s.key[end])
  }

  /** The next pointer of a leaf in the logical list. */
  ghost predicate NextOk(s: State, x: Ptr)
    requires Domains(s) && x in s.live
  {
    var y, l := s.succ[x], s.next[x];
    if s.pc[x].SplitLink? then
      var p := s.pc[x];
      && y == p.nr && y in s.live && l == Link(p.nx, p.nx != NULL) && p.path != [] && p.path[0] == p.nx
      && PathOk(s, s.key[y], p.path, s.succ[y])
    else if Leaving(s, l.ptr, x) then
      l.mark && s.pc[l.ptr].nx == y && !HoldsNext(s.pc[x])
    else
      && l.ptr == y
      && (l.mark <==> y != NULL && (HoldsNext(s.pc[x]) || MarkedBy(s, y, x)))
      && !(HoldsNext(s.pc[x]) && MarkedBy(s, y, x))
  }

  /** The logical list, seen from `x`. */
  ghost predicate ListOk(s: State, x: Ptr)
    requires Domains(s) && x in s.live
  {
    var y := s.succ[x];
    && (y == NULL || (y in s.live && s.key[x] < s.key[y] && s.prev[y] == x))
    && (x != s.head ==> s.prev[x] in s.live && s.succ[s.prev[x]] == x && s.key[s.head] < s.key[x])
    && (forall z :: z in s.live ==> s.key[z] < s.key[x] || z == x || (y != NULL && s.key[y] <= s.key[z]))
  }

  /** What an operation has to remember is still so. */
  ghost predicate PcOk(s: State, n: Ptr)
    requires Domains(s) && n in s.pc
  {
    match s.pc[n]
    case Idle => n in s.live
    case New(m) => m in s.live && SplitsInto(s.pc[m], n) && (n in s.live <==> s.pc[m].SplitLink?)
    case SplitLoad(nr) => n in s.live && NewOk(s, n, nr)
    case SplitCas(nr, seen) => n in s.live && NewOk(s, n, nr)
        && (seen.ptr == NULL ==> s.next[n] == Link(NULL, false) && s.succ[n] == NULL)
    case SplitSet(nr, nx) => n in s.live && NewOk(s, n, nr) && s.succ[n] == nx
    case SplitPrev(nr, nx) => n in s.live && NewOk(s, n, nr) && s.succ[n] == nx && s.next[nr] == Link(nx, false)
    case SplitLink(nr, nx, path) => n in s.live && nr in s.live && s.pc[nr] == New(n)
    case UnlinkLoad => n in s.live && n != s.head
    case UnlinkCas(seen) => n in s.live && n != s.head
        && (seen.ptr == NULL ==> s.next[n] == Link(NULL, false) && s.succ[n] == NULL)
    case UnlinkRead(nx) => n in s.live && n != s.head && s.succ[n] == nx
    case UnlinkMark(nx, pv) => n in s.live && n != s.head && s.succ[n] == nx && pv in s.pc
        && (s.pc[pv].New? ==> pv in s.live)
    case UnlinkPrev(nx, pv) => n in s.live && n != s.head && s.succ[n] == nx && pv == s.prev[n] && pv in s.next
        && s.next[pv] == Link(n, true)
    case UnlinkLink(nx, pv) =>
      && n !in s.live && n != s.head && pv in s.live && s.next[pv] == Link(n, true) && s.succ[pv] == nx
      && s.next[n] == Link(nx, nx != NULL) && s.key[pv] < s.key[n] && (nx in s.key ==> s.key[n] < s.key[nx])
      && (s.pc[pv].New? && s.pc[pv].owner in s.pc && s.pc[s.pc[pv].owner].SplitLink? ==> n in s.pc[s.pc[pv].owner].path)
      && !s.pc[pv].SplitLink?
    case Dead => n !in s.live && n != s.head && (s.next[n].ptr != NULL ==> s.next[n].mark)
  }

  /** The unlinked new leaf `nr` of a split of `n`. */
  ghost predicate NewOk(s: State, n: Ptr, nr: Ptr)
    requires Domains(s) && n in s.live
  {
    && nr in s.pc && nr !in s.live && s.pc[nr] == New(n) && s.prev[nr] == n && nr != n
    && s.key[n] < s.key[nr] && (s.succ[n] in s.key ==> s.key[nr] < s.key[s.succ[n]])
    && !s.next[nr].mark
  }

  predicate SplitsInto(pc: Pc, nr: Ptr) {
    (pc.SplitLoad? || pc.SplitCas? || pc.SplitSet? || pc.SplitPrev? || pc.SplitLink?) && pc.nr == nr
  }

  ghost predicate Inv(s: State) {
    && Domains(s)
    && (forall x {:trigger ListOk(s, x)} :: x in s.live ==> ListOk(s, x))
    && (forall x {:trigger NextOk(s, x)} :: x in s.live ==> NextOk(s, x))
    && (forall n {:trigger PcOk(s, n)} :: n in s.pc ==> PcOk(s, n))
  }

  ghost predicate Init(s: State) {
    && s.head != NULL && s.key.Keys == {s.head} && s.next == map[s.head := Link(NULL, false)]
    && s.prev == map[s.head := NULL]
    && s.pc == map[s.head := Idle] && s.live == {s.head} && s.succ == map[s.head := NULL]
  }

  lemma InitOk(s: State)
    requires Init(s)
    ensures Inv(s)
  {
    assert ListOk(s, s.head) && NextOk(s, s.head) && PcOk(s, s.head);
  }

  /** Removed leaves stay as they were, and keys never change. */
  ghost predicate Frozen(s: State, s': State)
    requires Domains(s) && Domains(s')
  {
    && (forall g :: Gone(s, g) ==> Gone(s', g) && s'.next[g].ptr == s.next[g].ptr)
    && (forall m :: m in s.key ==> m in s'.key && s'.key[m] == s.key[m])
  }

  lemma PathKept(s: State, low: int, path: seq<Ptr>, end: Ptr, s': State)
    requires Domains(s) && Domains(s') && PathOk(s, low, path, end) && Frozen(s, s')
    requires end != NULL ==> end in s.key
    ensures PathOk(s', low, path, end)
  {
    forall i, j | 0 <= i < j < |path| && path[j] in s'.key && path[i] in s'.key
      ensures s'.key[path[i]] < s'.key[path[j]]
    {
      assert Gone(s, path[i]);
      if j < |path| - 1 { assert Gone(s, path[j]); }
    }
  }

  /** A leaf whose own and whose neighbours' relevant fields a step leaves alone. */
  lemma NextKept(s: State, s': State, x: Ptr)
    requires Domains(s) && Domains(s') && Frozen(s, s') && x in s.live && x in s'.live && ListOk(s, x) && NextOk(s, x)
    requires s.succ[x] in s.live ==> ListOk(s, s.succ[x])
    requires s'.next[x] == s.next[x] && s'.succ[x] == s.succ[x] && s'.pc[x].SplitLink? == s.pc[x].SplitLink?
    requires HoldsNext(s'.pc[x]) == HoldsNext(s.pc[x]) || (s.succ[x] == NULL && s.next[x] == Link(NULL, false))
    requires s.pc[x].SplitLink? ==> s'.pc[x] == s.pc[x] && s.succ[x] in s.live && s.succ[x] in s'.live
    requires s.pc[x].SplitLink? ==> s'.succ[s.succ[x]] == s.succ[s.succ[x]]
    requires Leaving(s', s.next[x].ptr, x) == Leaving(s, s.next[x].ptr, x)
    requires Leaving(s, s.next[x].ptr, x) ==> s'.pc[s.next[x].ptr] == s.pc[s.next[x].ptr]
    requires MarkedBy(s', s.succ[x], x) == MarkedBy(s, s.succ[x], x)
    ensures NextOk(s', x)
  {
    if s.pc[x].SplitLink? { PathKept(s, s.key[s.succ[x]], s.pc[x].path, s.succ[s.succ[x]], s'); }
  }

  /** The logical list is the same. */
  ghost predicate SameList(s: State, s': State)
    requires Domains(s) && Domains(s')
  {
    && s'.live == s.live && s'.succ == s.succ && s'.head == s.head && Frozen(s, s')
    && forall m :: m in s.prev ==> m in s'.prev && s'.prev[m] == s.prev[m]
  }

  /** The operations on `x` and on its neighbours have not moved on in a way that matters to `x`. */
  ghost predicate SamePcs(s: State, s': State, x: Ptr)
    requires Domains(s) && Domains(s') && x in s.live && x in s'.live
  {
    && s'.next[x] == s.next[x] && s'.pc[x].SplitLink? == s.pc[x].SplitLink?
    && (HoldsNext(s'.pc[x]) == HoldsNext(s.pc[x]) || (s.succ[x] == NULL && s.next[x] == Link(NULL, false)))
    && (s.pc[x].SplitLink? ==> s'.pc[x] == s.pc[x])
    && (forall g :: g in s'.pc ==> Leaving(s', g, x) == Leaving(s, g, x) && (Leaving(s, g, x) ==> s'.pc[g] == s.pc[g]))
    && (forall y :: y in s'.pc ==> MarkedBy(s', y, x) == MarkedBy(s, y, x))
  }

  lemma OtherKept(s: State, s': State, x: Ptr)
    requires Inv(s) && Domains(s') && SameList(s, s') && x in s.live && SamePcs(s, s', x)
    ensures ListOk(s', x) && NextOk(s', x)
  {
    assert NextOk(s, x) && ListOk(s, x);
    if s.succ[x] in s.live { assert ListOk(s, s.succ[x]); }
    hide Inv;
    NextKept(s, s', x);
  }

  // ----- steps that store nothing shared -----

  /** A step that moves `n` on without a store. */
  ghost predicate Quiet(s: State, n: Ptr, pc: Pc) {
    && Inv(s) && n in s.live && PcOk(To(s, n, pc), n)
    && (HoldsNext(pc) == HoldsNext(s.pc[n]) || (s.succ[n] == NULL && s.next[n] == Link(NULL, false)))
    && !s.pc[n].SplitLink? && !pc.SplitLink? && !pc.UnlinkLink? && !pc.Dead? && !Gone(s, n)
    && !s.pc[n].New? && !pc.New? && !s.pc[n].UnlinkPrev? && !pc.UnlinkPrev?
    && (forall nr :: SplitsInto(s.pc[n], nr) ==> SplitsInto(pc, nr))
  }

  lemma QuietNext(s: State, n: Ptr, pc: Pc, x: Ptr)
    requires Quiet(s, n, pc) && x in s.live
    ensures ListOk(To(s, n, pc), x) && NextOk(To(s, n, pc), x)
  {
    hide ListOk, NextOk, PcOk, Inv, SameList, SamePcs, Domains;
    QuietFrame(s, n, pc, x);
    OtherKept(s, To(s, n, pc), x);
  }

  lemma QuietFrame(s: State, n: Ptr, pc: Pc, x: Ptr)
    requires Quiet(s, n, pc) && x in s.live
    ensures Domains(s) && Domains(To(s, n, pc)) && SameList(s, To(s, n, pc)) && SamePcs(s, To(s, n, pc), x)
  {
    hide ListOk, NextOk, PcOk;
  }

  lemma QuietPc(s: State, n: Ptr, pc: Pc, m: Ptr)
    requires Quiet(s, n, pc) && m in s.pc
    ensures PcOk(To(s, n, pc), m)
  {
    assert PcOk(s, m) && PcOk(s, n);
  }

  lemma QuietStep(s: State, n: Ptr, pc: Pc)
    requires Quiet(s, n, pc)
    ensures Inv(To(s, n, pc))
  {
    hide ListOk, NextOk, PcOk;
    var s' := To(s, n, pc);
    forall x | x in s'.live ensures ListOk(s', x) && NextOk(s', x) {
      QuietNext(s, n, pc, x);
    }
    forall m | m in s'.pc ensures PcOk(s', m) {
      QuietPc(s, n, pc, m);
    }
  }

  // ----- a split begins -----

  lemma BeginKeeps(s: State, n: Ptr, nr: Ptr, k: int, s': State)
    requires Domains(s) && n in s.live && s.pc[n] == Idle && SplitBegins(s, n, nr, k, s')
    ensures Domains(s') && Frozen(s, s') && s'.live == s.live && s'.succ == s.succ && s'.head == s.head
    ensures nr !in s.pc && nr != NULL
  {
  }

  lemma BeginPcs(s: State, n: Ptr, nr: Ptr, k: int, s': State)
    requires Domains(s) && n in s.live && s.pc[n] == Idle && SplitBegins(s, n, nr, k, s')
    ensures s.pc.Keys == s.next.Keys == s.prev.Keys && s'.pc.Keys == s'.next.Keys == s'.prev.Keys
    ensures forall m ::
      m in s.pc ==> s'.next[m] == s.next[m] && s'.prev[m] == s.prev[m] && (m != n ==> s'.pc[m] == s.pc[m])
    ensures s'.pc.Keys == s.pc.Keys + {nr} && s'.pc[nr] == New(n) && s'.pc[n] == SplitLoad(nr)
  {
  }

  lemma BeginNext(s: State, n: Ptr, nr: Ptr, k: int, s': State, x: Ptr)
    requires Inv(s) && n in s.live && s.pc[n] == Idle && SplitBegins(s, n, nr, k, s') && x in s.live
    ensures Domains(s') && x in s'.live && ListOk(s', x) && NextOk(s', x)
  {
    BeginKeeps(s, n, nr, k, s');
    BeginPcs(s, n, nr, k, s');
    hide ListOk, NextOk, PcOk, Inv;
    OtherKept(s, s', x);
  }

  lemma BeginPcNew(s: State, n: Ptr, nr: Ptr, k: int, s': State)
    requires Inv(s) && n in s.live && s.pc[n] == Idle && SplitBegins(s, n, nr, k, s')
    ensures PcOk(s', nr) && PcOk(s', n)
  {
    assert ListOk(s, n);
    hide Inv;
  }

  lemma BeginPc(s: State, n: Ptr, nr: Ptr, k: int, s': State, m: Ptr)
    requires Inv(s) && n in s.live && s.pc[n] == Idle && SplitBegins(s, n, nr, k, s') && m in s.pc && m != n
    ensures PcOk(s', m)
  {
    if s.pc[m].UnlinkLink? {
      BeginLeaving(s, n, nr, k, s', m);
    } else {
      assert PcOk(s, m);
      if m in s.live { assert ListOk(s, m); }
      BeginKeeps(s, n, nr, k, s');
      BeginPcs(s, n, nr, k, s');
    }
  }

  lemma BeginLeaving(s: State, n: Ptr, nr: Ptr, k: int, s': State, m: Ptr)
    requires Inv(s) && n in s.live && s.pc[n] == Idle && SplitBegins(s, n, nr, k, s') && m in s.pc
    requires s.pc[m].UnlinkLink?
    ensures PcOk(s', m)
  {
    assert PcOk(s, m) && ListOk(s, s.pc[m].pv);
    BeginKeeps(s, n, nr, k, s');
    BeginPcs(s, n, nr, k, s');
    hide Inv, NextOk;
  }

  lemma BeginStep(s: State, n: Ptr, nr: Ptr, k: int, s': State)
    requires Inv(s) && n in s.live && s.pc[n] == Idle && SplitBegins(s, n, nr, k, s')
    ensures Inv(s')
  {
    hide ListOk, NextOk, PcOk;
    forall x | x in s'.live ensures ListOk(s', x) && NextOk(s', x) {
      BeginNext(s, n, nr, k, s', x);
    }
    forall m | m in s'.pc ensures PcOk(s', m) {
      if m == n || m == nr { BeginPcNew(s, n, nr, k, s'); } else { BeginPc(s, n, nr, k, s', m); }
    }
  }

  // ----- an operation marks the next pointer of its own leaf -----

  ghost predicate Locks(s: State, n: Ptr, pc: Pc) {
    && Inv(s) && n in s.live && s.next[n].ptr != NULL && !s.next[n].mark && HoldsNext(pc) && !pc.UnlinkPrev?
    && ((exists nr, seen :: s.pc[n] == SplitCas(nr, seen) && pc == SplitSet(nr, s.next[n].ptr))
        || (s.pc[n].UnlinkCas? && pc == UnlinkRead(s.next[n].ptr)))
  }

  lemma LockNext(s: State, n: Ptr, pc: Pc, x: Ptr)
    requires Locks(s, n, pc) && x in s.live
    ensures ListOk(To(Marked(s, n), n, pc), x) && NextOk(To(Marked(s, n), n, pc), x)
  {
    if x == n {
      LockOwn(s, n, pc);
    } else {
      hide ListOk, NextOk, PcOk, Inv, SameList, SamePcs, Domains;
      LockSameList(s, n, pc);
      LockFrame(s, n, pc, x);
      OtherKept(s, To(Marked(s, n), n, pc), x);
    }
  }

  lemma LockOwn(s: State, n: Ptr, pc: Pc)
    requires Locks(s, n, pc)
    ensures Domains(To(Marked(s, n), n, pc)) && ListOk(To(Marked(s, n), n, pc), n) && NextOk(To(Marked(s, n), n, pc), n)
  {
    assert NextOk(s, n) && ListOk(s, n);
    hide Inv;
  }

  lemma LockSameList(s: State, n: Ptr, pc: Pc)
    requires Locks(s, n, pc)
    ensures Domains(s) && Domains(To(Marked(s, n), n, pc)) && SameList(s, To(Marked(s, n), n, pc))
  {
    hide ListOk, NextOk, PcOk;
  }

  lemma LockFrame(s: State, n: Ptr, pc: Pc, x: Ptr)
    requires Locks(s, n, pc) && x in s.live && x != n
    ensures Domains(s) && Domains(To(Marked(s, n), n, pc)) && SamePcs(s, To(Marked(s, n), n, pc), x)
  {
    hide ListOk, NextOk, PcOk, Inv;
    InDomains(s);
  }

  lemma InDomains(s: State)
    requires Inv(s)
    ensures Domains(s)
  {
  }

  lemma LockPc(s: State, n: Ptr, pc: Pc, m: Ptr)
    requires Locks(s, n, pc) && m in s.pc
    ensures PcOk(To(Marked(s, n), n, pc), m)
  {
    assert PcOk(s, m) && PcOk(s, n) && NextOk(s, n);
  }

  lemma LockStep(s: State, n: Ptr, pc: Pc)
    requires Locks(s, n, pc)
    ensures Inv(To(Marked(s, n), n, pc))
  {
    hide ListOk, NextOk, PcOk;
    var s' := To(Marked(s, n), n, pc);
    forall x | x in s'.live ensures ListOk(s', x) && NextOk(s', x) {
      LockNext(s, n, pc, x);
    }
    forall m | m in s'.pc ensures PcOk(s', m) {
      LockPc(s, n, pc, m);
    }
  }

  // ----- the new leaf gets its next pointer -----

  ghost function SetState(s: State, n: Ptr): State
    requires n in s.pc && s.pc[n].SplitSet?
  {
    To(s, n, SplitPrev(s.pc[n].nr, s.pc[n].nx)).(next := s.next[s.pc[n].nr := Link(s.pc[n].nx, false)])
  }

  lemma SetNext(s: State, n: Ptr, x: Ptr)
    requires Inv(s) && n in s.pc && s.pc[n].SplitSet? && PcOk(s, n) && x in s.live && Domains(SetState(s, n))
    ensures ListOk(SetState(s, n), x) && NextOk(SetState(s, n), x)
  {
    hide ListOk, NextOk, Inv;
    OtherKept(s, SetState(s, n), x);
  }

  lemma SetPc(s: State, n: Ptr, m: Ptr)
    requires Inv(s) && n in s.pc && s.pc[n].SplitSet? && PcOk(s, n) && m in s.pc && Domains(SetState(s, n))
    ensures PcOk(SetState(s, n), m)
  {
    assert PcOk(s, m);
  }

  lemma SetStep(s: State, n: Ptr)
    requires Inv(s) && n in s.pc && s.pc[n].SplitSet?
    ensures Inv(SetState(s, n))
  {
    assert PcOk(s, n);
    hide ListOk, NextOk;
    var s' := SetState(s, n);
    forall x | x in s'.live ensures ListOk(s', x) && NextOk(s', x) {
      SetNext(s, n, x);
    }
    forall m | m in s'.pc ensures PcOk(s', m) {
      SetPc(s, n, m);
    }
  }

  // ----- the new leaf enters the list -----

  ghost predicate Enters(s: State, n: Ptr, nr: Ptr, nx: Ptr) {
    Inv(s) && n in s.pc && s.pc[n] == SplitPrev(nr, nx) && PcOk(s, n) && Domains(Entered(s, n, nr, nx))
  }

  lemma EnterList(s: State, n: Ptr, nr: Ptr, nx: Ptr, x: Ptr)
    requires Enters(s, n, nr, nx) && x in s.live + {nr}
    ensures ListOk(Entered(s, n, nr, nx), x)
  {
    assert ListOk(s, n);
    if x != nr { assert ListOk(s, x); }
  }

  /** The leaves on both sides are not being unlinked past `n`. */
  lemma EnterSides(s: State, n: Ptr, nr: Ptr, nx: Ptr)
    requires Enters(s, n, nr, nx)
    ensures s.next[n] == Link(nx, nx != NULL) && !MarkedBy(s, nx, n) && (nx in s.pc ==> nx in s.live && s.prev[nx] == n)
    ensures nx in s.pc && s.pc[nx].UnlinkPrev? ==> false
    ensures nr in s.pc && !(nr in s.live) && s.pc[nr] == New(n) && s.prev[nr] == n && s.next[nr] == Link(nx, false)
    ensures n in s.live && nr != n && s.succ[n] == nx
  {
    assert ListOk(s, n) && NextOk(s, n);
    if nx in s.pc { assert PcOk(s, nx); }
  }

  lemma EnterNextNew(s: State, n: Ptr, nr: Ptr, nx: Ptr)
    requires Enters(s, n, nr, nx)
    ensures NextOk(Entered(s, n, nr, nx), nr)
  {
    EnterSides(s, n, nr, nx);
    if nx in s.pc { assert PcOk(s, nx); }
  }

  lemma EnterNextOwner(s: State, n: Ptr, nr: Ptr, nx: Ptr)
    requires Enters(s, n, nr, nx)
    ensures NextOk(Entered(s, n, nr, nx), n)
  {
    EnterSides(s, n, nr, nx);
    hide Inv;
  }

  lemma EnterNextOther(s: State, n: Ptr, nr: Ptr, nx: Ptr, x: Ptr)
    requires Enters(s, n, nr, nx) && x in s.live && x != n
    ensures NextOk(Entered(s, n, nr, nx), x)
  {
    EnterOther(s, n, nr, nx, x);
    EnterFrame(s, n, nr, nx, x);
    hide Inv, ListOk, NextOk, PcOk, Entered;
    NextKept(s, Entered(s, n, nr, nx), x);
  }

  lemma EnterOther(s: State, n: Ptr, nr: Ptr, nx: Ptr, x: Ptr)
    requires Enters(s, n, nr, nx) && x in s.live && x != n
    ensures NextOk(s, x) && ListOk(s, x) && x in s.pc && (s.pc[x].SplitLink? ==> s.succ[x] != n && s.succ[x] in s.live)
    ensures s.succ[x] in s.live ==> ListOk(s, s.succ[x])
  {
    assert NextOk(s, x) && PcOk(s, x);
    if s.succ[x] in s.live { assert ListOk(s, s.succ[x]); }
  }

  /** What the new leaf's entry does to a leaf other than the one it splits from. */
  lemma EnterFrame(s: State, n: Ptr, nr: Ptr, nx: Ptr, x: Ptr)
    requires Enters(s, n, nr, nx) && x in s.live && x != n
    requires s.pc[x].SplitLink? ==> s.succ[x] != n && s.succ[x] in s.live
    ensures var s' := Entered(s, n, nr, nx);
      && Frozen(s, s') && x in s'.live && s'.pc[x] == s.pc[x] && s'.next == s.next && s'.succ[x] == s.succ[x]
      && (s.pc[x].SplitLink? ==> s.succ[x] in s'.live && s'.succ[s.succ[x]] == s.succ[s.succ[x]])
      && (forall g :: g in s.pc ==> Leaving(s', g, x) == Leaving(s, g, x) && MarkedBy(s', g, x) == MarkedBy(s, g, x))
      && (forall g :: Leaving(s, g, x) ==> s'.pc[g] == s.pc[g])
  {
    EnterSides(s, n, nr, nx);
    hide NextOk, ListOk;
  }

  lemma EnterPc(s: State, n: Ptr, nr: Ptr, nx: Ptr, m: Ptr)
    requires Enters(s, n, nr, nx) && m in s.pc && !s.pc[m].UnlinkLink?
    ensures PcOk(Entered(s, n, nr, nx), m)
  {
    EnterSides(s, n, nr, nx);
    assert PcOk(s, m);
    if m in s.live { assert ListOk(s, m); }
    hide Inv, NextOk;
  }

  lemma EnterLeaving(s: State, n: Ptr, nr: Ptr, nx: Ptr, m: Ptr)
    requires Enters(s, n, nr, nx) && m in s.pc && s.pc[m].UnlinkLink?
    ensures PcOk(Entered(s, n, nr, nx), m)
  {
    EnterSides(s, n, nr, nx);
    assert PcOk(s, m);
    var pv := s.pc[m].pv;
    assert ListOk(s, pv) && PcOk(s, pv);
    hide Inv, NextOk;
  }

  lemma EnterReady(s: State, n: Ptr, nr: Ptr, nx: Ptr)
    requires Inv(s) && n in s.pc && s.pc[n] == SplitPrev(nr, nx)
    ensures Enters(s, n, nr, nx) && Entered(s, n, nr, nx).live == s.live + {nr} && nr !in s.live && n in s.live
  {
    assert PcOk(s, n) && ListOk(s, n);
  }

  lemma EnterStep(s: State, n: Ptr, nr: Ptr, nx: Ptr)
    requires Inv(s) && n in s.pc && s.pc[n] == SplitPrev(nr, nx)
    ensures Inv(Entered(s, n, nr, nx))
  {
    EnterReady(s, n, nr, nx);
    hide ListOk, NextOk, PcOk;
    var s' := Entered(s, n, nr, nx);
    forall x | x in s'.live ensures ListOk(s', x) && NextOk(s', x) {
      EnterList(s, n, nr, nx, x);
      if x == nr {
        EnterNextNew(s, n, nr, nx);
      } else if x == n {
        EnterNextOwner(s, n, nr, nx);
      } else {
        EnterNextOther(s, n, nr, nx, x);
      }
    }
    forall m | m in s'.pc ensures PcOk(s', m) {
      if s.pc[m].UnlinkLink? { EnterLeaving(s, n, nr, nx, m); } else { EnterPc(s, n, nr, nx, m); }
    }
  }

  // ----- the new leaf is linked -----

  ghost function LinkedState(s: State, n: Ptr): State
    requires n in s.pc && s.pc[n].SplitLink?
  {
    To(To(s, s.pc[n].nr, Idle), n, Idle).(next := s.next[n := Link(s.pc[n].nr, false)])
  }

  ghost predicate Links(s: State, n: Ptr) {
    Inv(s) && n in s.pc && s.pc[n].SplitLink? && PcOk(s, n) && Domains(LinkedState(s, n))
  }

  lemma LinkNextOwner(s: State, n: Ptr)
    requires Links(s, n) && n in s.live
    ensures ListOk(LinkedState(s, n), n) && NextOk(LinkedState(s, n), n)
  {
    assert NextOk(s, n) && ListOk(s, n);
    hide Inv;
  }

  lemma LinkNext(s: State, n: Ptr, x: Ptr)
    requires Links(s, n) && x in s.live && x != n
    ensures ListOk(LinkedState(s, n), x) && NextOk(LinkedState(s, n), x)
  {
    hide ListOk, NextOk, Inv, PcOk, LinkedState, SameList, SamePcs, Domains;
    LinkSameList(s, n);
    LinkSamePcs(s, n, x);
    OtherKept(s, LinkedState(s, n), x);
  }

  lemma LinkSameList(s: State, n: Ptr)
    requires Links(s, n)
    ensures Domains(s) && SameList(s, LinkedState(s, n))
  {
    hide ListOk, NextOk;
  }

  lemma LinkFacts(s: State, n: Ptr)
    requires Links(s, n)
    ensures n in s.live && s.pc[n].nr in s.live && s.pc[n].nr in s.pc && s.pc[s.pc[n].nr] == New(n)
  {
  }

  lemma LinkSamePcs(s: State, n: Ptr, x: Ptr)
    requires Links(s, n) && Domains(s) && x in s.live && x != n
    ensures x in LinkedState(s, n).live && SamePcs(s, LinkedState(s, n), x)
  {
    hide ListOk, NextOk, PcOk, Inv;
    LinkFacts(s, n);
  }

  lemma LinkLeaving(s: State, n: Ptr, m: Ptr)
    requires Links(s, n) && m in s.pc && s.pc[m].UnlinkLink?
    ensures PcOk(LinkedState(s, n), m)
  {
    assert PcOk(s, m) && NextOk(s, n) && PcOk(s, s.pc[m].pv);
    hide Inv, NextOk, ListOk;
  }

  lemma LinkPc(s: State, n: Ptr, m: Ptr)
    requires Links(s, n) && m in s.pc
    ensures PcOk(LinkedState(s, n), m)
  {
    if s.pc[m].UnlinkLink? {
      LinkLeaving(s, n, m);
    } else {
      LinkOther(s, n, m);
    }
  }

  lemma LinkOther(s: State, n: Ptr, m: Ptr)
    requires Links(s, n) && m in s.pc && !s.pc[m].UnlinkLink?
    ensures PcOk(LinkedState(s, n), m)
  {
    if m in s.live { LinkLive(s, n, m); } else { LinkGone(s, n, m); }
  }

  lemma LinkLive(s: State, n: Ptr, m: Ptr)
    requires Links(s, n) && m in s.live && m in s.pc && !s.pc[m].UnlinkLink?
    ensures PcOk(LinkedState(s, n), m)
  {
    assert PcOk(s, m) && NextOk(s, n);
    LinkNotMarked(s, n, m);
    hide Inv, ListOk;
  }

  lemma LinkNotMarked(s: State, n: Ptr, m: Ptr)
    requires Links(s, n) && m in s.live && m in s.pc
    ensures s.pc[m].UnlinkPrev? ==> s.pc[m].pv != n
  {
    assert PcOk(s, m) && PcOk(s, n) && NextOk(s, n) && ListOk(s, m);
    hide Inv;
  }

  lemma LinkGone(s: State, n: Ptr, m: Ptr)
    requires Links(s, n) && m !in s.live && m in s.pc && !s.pc[m].UnlinkLink?
    ensures PcOk(LinkedState(s, n), m)
  {
    assert PcOk(s, m) && NextOk(s, n);
    hide Inv, ListOk;
  }

  lemma LinkStep(s: State, n: Ptr)
    requires Inv(s) && n in s.pc && s.pc[n].SplitLink?
    ensures Inv(LinkedState(s, n))
  {
    assert PcOk(s, n);
    hide ListOk, NextOk;
    var s' := LinkedState(s, n);
    forall x | x in s'.live ensures ListOk(s', x) && NextOk(s', x) {
      if x == n { LinkNextOwner(s, n); } else { LinkNext(s, n, x); }
    }
    forall m | m in s'.pc ensures PcOk(s', m) {
      LinkPc(s, n, m);
    }
  }

  // ----- a removal marks the next pointer of the predecessor -----

  ghost function MarkState(s: State, n: Ptr): State
    requires n in s.pc && s.pc[n].UnlinkMark? && s.pc[n].pv in s.next
  {
    To(Marked(s, s.pc[n].pv), n, UnlinkPrev(s.pc[n].nx, s.pc[n].pv))
  }

  ghost predicate Marks(s: State, n: Ptr) {
    Inv(s) && n in s.pc && s.pc[n].UnlinkMark? && s.pc[n].pv in s.next && s.next[s.pc[n].pv] == Link(n, false)
  }

  /** Only the predecessor has an unmarked pointer to `n`. */
  lemma MarksPred(s: State, n: Ptr)
    requires Marks(s, n)
    ensures PcOk(s, n) && n in s.live
    ensures var pv := s.pc[n].pv;
      && pv in s.live && pv != n && s.succ[pv] == n && s.prev[n] == pv && !HoldsNext(s.pc[pv]) && !s.pc[pv].SplitLink?
  {
    var pv := s.pc[n].pv;
    assert PcOk(s, n) && PcOk(s, pv);
    assert NextOk(s, pv) && ListOk(s, pv);
  }

  lemma MarkNext(s: State, n: Ptr, x: Ptr)
    requires Marks(s, n) && x in s.live && Domains(MarkState(s, n))
    ensures ListOk(MarkState(s, n), x) && NextOk(MarkState(s, n), x)
  {
    MarksPred(s, n);
    if x == s.pc[n].pv {
      assert NextOk(s, x) && ListOk(s, x);
    } else {
      hide ListOk, NextOk, Inv;
      OtherKept(s, MarkState(s, n), x);
    }
  }

  lemma MarkPc(s: State, n: Ptr, m: Ptr)
    requires Marks(s, n) && m in s.pc && Domains(MarkState(s, n))
    ensures PcOk(MarkState(s, n), m)
  {
    MarksPred(s, n);
    assert PcOk(s, m);
    if m in s.live { assert ListOk(s, m); }
  }

  lemma MarkStep(s: State, n: Ptr)
    requires Marks(s, n)
    ensures Inv(MarkState(s, n))
  {
    MarksPred(s, n);
    hide ListOk, NextOk, PcOk;
    var s' := MarkState(s, n);
    forall x | x in s'.live ensures ListOk(s', x) && NextOk(s', x) {
      MarkNext(s, n, x);
    }
    forall m | m in s'.pc ensures PcOk(s', m) {
      MarkPc(s, n, m);
    }
  }

  // ----- a leaf leaves the list -----

  ghost predicate Leaves(s: State, n: Ptr, nx: Ptr, pv: Ptr) {
    Inv(s) && n in s.pc && s.pc[n] == UnlinkPrev(nx, pv) && PcOk(s, n) && Domains(Left(s, n, nx, pv))
  }

  /** The leaf and its neighbours as the removal finds them. */
  lemma LeaveSides(s: State, n: Ptr, nx: Ptr, pv: Ptr)
    requires Inv(s) && n in s.pc && s.pc[n] == UnlinkPrev(nx, pv)
    ensures PcOk(s, n) && n in s.live && n != s.head && s.succ[n] == nx && s.prev[n] == pv && nx != n && nx != pv
    ensures pv in s.live && pv != n && s.succ[pv] == n && s.next[pv] == Link(n, true) && s.key[pv] < s.key[n]
    ensures s.next[n] == Link(nx, nx != NULL)
    ensures nx == NULL || (nx in s.live && s.key[n] < s.key[nx] && s.prev[nx] == n)
    ensures !HoldsNext(s.pc[pv]) && !s.pc[pv].SplitLink? && !MarkedBy(s, nx, n)
    ensures s.pc[pv].New?
      ==> var m := s.pc[pv].owner; m in s.live && m != n && m != pv && s.pc[m].SplitLink? && s.pc[m].nr == pv
  {
    assert PcOk(s, n) && ListOk(s, n) && NextOk(s, n);
    assert ListOk(s, pv) && NextOk(s, pv) && PcOk(s, pv);
  }

  lemma LeaveList(s: State, n: Ptr, nx: Ptr, pv: Ptr, x: Ptr)
    requires Leaves(s, n, nx, pv) && x in s.live && x != n
    ensures ListOk(Left(s, n, nx, pv), x)
  {
    LeaveSides(s, n, nx, pv);
    assert ListOk(s, n) && ListOk(s, pv) && ListOk(s, x);
  }

  lemma LeaveNextPred(s: State, n: Ptr, nx: Ptr, pv: Ptr)
    requires Leaves(s, n, nx, pv) && pv in s.live && pv != n
    ensures NextOk(Left(s, n, nx, pv), pv)
  {
    LeaveSides(s, n, nx, pv);
    hide Inv;
  }

  lemma LeaveNextOwner(s: State, n: Ptr, nx: Ptr, pv: Ptr)
    requires Leaves(s, n, nx, pv) && s.pc[pv].New? && s.pc[pv].owner in s.live && s.pc[pv].owner != n
    ensures NextOk(Left(s, n, nx, pv), s.pc[pv].owner)
  {
    LeaveSides(s, n, nx, pv);
    var m, s' := s.pc[pv].owner, Left(s, n, nx, pv);
    assert NextOk(s, m);
    PathGrows(s, s.key[pv], s.pc[m].path, n, s', nx);
  }

  lemma PathGrows(s: State, low: int, path: seq<Ptr>, end: Ptr, s': State, nx: Ptr)
    requires Domains(s) && Domains(s') && PathOk(s, low, path, end) && Frozen(s, s')
    requires end in s.key && Gone(s', end) && s'.next[end].ptr == nx
    requires nx == NULL || (nx in s.key && s.key[end] < s.key[nx])
    ensures PathOk(s', low, path + [nx], nx)
  {
    var q := path + [nx];
    forall j | 0 <= j < |q| - 1 ensures Gone(s', q[j]) && low < s'.key[q[j]] && s'.next[q[j]].ptr == q[j + 1] {
      if j < |path| - 1 { assert Gone(s, path[j]); }
    }
    forall i, j | 0 <= i < j < |q| && q[j] in s'.key && q[i] in s'.key ensures s'.key[q[i]] < s'.key[q[j]] {
      assert i < |path| - 1 ==> Gone(s, path[i]);
      if j < |path| - 1 { assert Gone(s, path[j]); }
      assert i < |path| - 1 ==> s.key[path[i]] < s.key[path[|path| - 1]];
    }
  }

  /** What a removal does to a leaf that is not next to the removed one. */
  lemma LeaveFrame(s: State, n: Ptr, nx: Ptr, pv: Ptr, x: Ptr)
    requires Leaves(s, n, nx, pv) && pv in s.live && pv != n && x in s.live && x != n && x != pv
    requires !(s.pc[pv].New? && x == s.pc[pv].owner) && s.succ[x] != n && (s.pc[x].SplitLink? ==> s.succ[x] != pv)
    ensures var s' := Left(s, n, nx, pv);
      && Frozen(s, s') && x in s'.live && s'.pc[x] == s.pc[x] && s'.next == s.next && s'.succ[x] == s.succ[x]
      && (s.pc[x].SplitLink? && s.succ[x] in s.succ ==> s'.succ[s.succ[x]] == s.succ[s.succ[x]])
      && (forall g :: g in s.pc ==> Leaving(s', g, x) == Leaving(s, g, x) && MarkedBy(s', g, x) == MarkedBy(s, g, x))
      && (forall g :: Leaving(s, g, x) ==> s'.pc[g] == s.pc[g])
  {
  }

  lemma LeaveNextOther(s: State, n: Ptr, nx: Ptr, pv: Ptr, x: Ptr)
    requires Leaves(s, n, nx, pv) && x in s.live && x != n && x != pv && !(s.pc[pv].New? && x == s.pc[pv].owner)
    ensures NextOk(Left(s, n, nx, pv), x)
  {
    LeaveSides(s, n, nx, pv);
    assert s.succ[x] != n && (s.pc[x].SplitLink? ==> s.succ[x] != pv && s.succ[x] in s.live && s.succ[x] != n) by {
      assert NextOk(s, x) && ListOk(s, x) && PcOk(s, x);
    }
    assert NextOk(s, x) && ListOk(s, x);
    if s.succ[x] in s.live { assert ListOk(s, s.succ[x]); }
    LeaveFrame(s, n, nx, pv, x);
    hide Inv, ListOk, NextOk, PcOk, Left;
    NextKept(s, Left(s, n, nx, pv), x);
  }

  lemma LeavePcOwn(s: State, n: Ptr, nx: Ptr, pv: Ptr)
    requires Leaves(s, n, nx, pv)
    ensures PcOk(Left(s, n, nx, pv), n)
  {
    LeaveSides(s, n, nx, pv);
    if s.pc[pv].New? { assert NextOk(s, s.pc[pv].owner); }
    hide Inv;
  }

  lemma LeavePcPred(s: State, n: Ptr, nx: Ptr, pv: Ptr)
    requires Leaves(s, n, nx, pv)
    ensures PcOk(Left(s, n, nx, pv), pv)
  {
    LeaveSides(s, n, nx, pv);
    assert PcOk(s, pv) && ListOk(s, pv);
  }

  /** How a removal moves the operations on: only its own, and the path of a split. */
  lemma LeavePcs(s: State, n: Ptr, nx: Ptr, pv: Ptr, k: Ptr)
    requires Leaves(s, n, nx, pv) && pv in s.pc && k in s.pc && k != n
    ensures var pc, pc' := s.pc[k], Left(s, n, nx, pv).pc[k];
      pc' == pc || (pc.SplitLink? && pc'.SplitLink? && pc'.nr == pc.nr && pc'.nx == pc.nx)
  {
  }

  lemma LeavePc(s: State, n: Ptr, nx: Ptr, pv: Ptr, m: Ptr)
    requires Leaves(s, n, nx, pv) && m in s.pc && !s.pc[m].UnlinkLink? && m != n && m != pv
    ensures PcOk(Left(s, n, nx, pv), m)
  {
    LeaveSides(s, n, nx, pv);
    assert PcOk(s, m);
    LeavePcs(s, n, nx, pv, m);
    match s.pc[m]
    case New(o) => LeavePcs(s, n, nx, pv, o);
    case SplitLink(nr, _, _) => LeavePcs(s, n, nx, pv, nr);
    case UnlinkMark(_, p) => if p != n { LeavePcs(s, n, nx, pv, p); }
    case _ =>
  }

  lemma LeaveLeaving(s: State, n: Ptr, nx: Ptr, pv: Ptr, m: Ptr)
    requires Leaves(s, n, nx, pv) && m in s.pc && s.pc[m].UnlinkLink?
    ensures PcOk(Left(s, n, nx, pv), m)
  {
    LeaveSides(s, n, nx, pv);
    assert PcOk(s, m);
    assert ListOk(s, s.pc[m].pv) && PcOk(s, s.pc[m].pv);
    hide Inv, NextOk;
  }

  lemma LeaveNext(s: State, n: Ptr, nx: Ptr, pv: Ptr, x: Ptr)
    requires Leaves(s, n, nx, pv) && x in s.live && x != n
    ensures ListOk(Left(s, n, nx, pv), x) && NextOk(Left(s, n, nx, pv), x)
  {
    hide ListOk, NextOk, PcOk, Inv;
    LeaveSides(s, n, nx, pv);
    LeaveList(s, n, nx, pv, x);
    if x == pv {
      LeaveNextPred(s, n, nx, pv);
    } else if s.pc[pv].New? && x == s.pc[pv].owner {
      LeaveNextOwner(s, n, nx, pv);
    } else {
      LeaveNextOther(s, n, nx, pv, x);
    }
  }

  lemma LeaveAnyPc(s: State, n: Ptr, nx: Ptr, pv: Ptr, m: Ptr)
    requires Leaves(s, n, nx, pv) && m in s.pc
    ensures PcOk(Left(s, n, nx, pv), m)
  {
    hide ListOk, NextOk, PcOk, Inv;
    if s.pc[m].UnlinkLink? {
      LeaveLeaving(s, n, nx, pv, m);
    } else if m == n {
      LeavePcOwn(s, n, nx, pv);
    } else if m == pv {
      LeavePcPred(s, n, nx, pv);
    } else {
      LeavePc(s, n, nx, pv, m);
    }
  }

  lemma LeaveStep(s: State, n: Ptr, nx: Ptr, pv: Ptr)
    requires Inv(s) && n in s.pc && s.pc[n] == UnlinkPrev(nx, pv)
    ensures pv in s.pc && Inv(Left(s, n, nx, pv))
  {
    LeaveSides(s, n, nx, pv);
    hide ListOk, NextOk, PcOk;
    var s' := Left(s, n, nx, pv);
    forall x | x in s'.live ensures ListOk(s', x) && NextOk(s', x) {
      LeaveNext(s, n, nx, pv, x);
    }
    forall m | m in s'.pc ensures PcOk(s', m) {
      LeaveAnyPc(s, n, nx, pv, m);
    }
  }

  // ----- a removed leaf is unlinked -----

  ghost function DeadState(s: State, n: Ptr): State
    requires n in s.pc && s.pc[n].UnlinkLink?
  {
    To(s, n, Dead).(next := s.next[s.pc[n].pv := Link(s.pc[n].nx, false)])
  }

  ghost predicate Dies(s: State, n: Ptr) {
    Inv(s) && n in s.pc && s.pc[n].UnlinkLink? && PcOk(s, n) && Domains(DeadState(s, n))
  }

  lemma DieNextPred(s: State, n: Ptr)
    requires Dies(s, n) && s.pc[n].pv in s.live
    ensures ListOk(DeadState(s, n), s.pc[n].pv) && NextOk(DeadState(s, n), s.pc[n].pv)
  {
    var pv := s.pc[n].pv;
    assert NextOk(s, pv) && ListOk(s, pv);
    if s.succ[pv] in s.live { assert PcOk(s, s.succ[pv]); }
    hide Inv;
  }

  lemma DieNext(s: State, n: Ptr, x: Ptr)
    requires Dies(s, n) && x in s.live && x != s.pc[n].pv && s.pc[n].pv in s.live
    ensures ListOk(DeadState(s, n), x) && NextOk(DeadState(s, n), x)
  {
    assert PcOk(s, s.pc[n].pv) && PcOk(s, x);
    hide ListOk, NextOk, Inv;
    OtherKept(s, DeadState(s, n), x);
  }

  lemma DiePc(s: State, n: Ptr, m: Ptr)
    requires Dies(s, n) && m in s.pc
    ensures PcOk(DeadState(s, n), m)
  {
    assert PcOk(s, m);
    if m in s.live { assert ListOk(s, m); }
  }

  lemma DieStep(s: State, n: Ptr)
    requires Inv(s) && n in s.pc && s.pc[n].UnlinkLink?
    ensures Inv(DeadState(s, n))
  {
    assert PcOk(s, n);
    hide ListOk, NextOk;
    var s' := DeadState(s, n);
    forall x | x in s'.live ensures ListOk(s', x) && NextOk(s', x) {
      if x == s.pc[n].pv { DieNextPred(s, n); } else { DieNext(s, n, x); }
    }
    forall m | m in s'.pc ensures PcOk(s', m) {
      DiePc(s, n, m);
    }
  }

  // ----- every run -----

  lemma SplitStepKeeps(s: State, n: Ptr, s': State)
    requires Inv(s) && n in s.pc && Step(s, n, s')
    requires s.pc[n].SplitLoad? || s.pc[n].SplitCas? || s.pc[n].SplitSet? || s.pc[n].SplitPrev? || s.pc[n].SplitLink?
    ensures Inv(s')
  {
    assert PcOk(s, n);
    match s.pc[n]
    case SplitLoad(nr) =>
      assert NextOk(s, n);
      QuietStep(s, n, SplitCas(nr, s.next[n]));
    case SplitCas(nr, seen) =>
      assert NextOk(s, n);
      if seen.ptr == NULL {
        QuietStep(s, n, SplitSet(nr, NULL));
      } else if CanMark(s, n, seen) {
        LockStep(s, n, SplitSet(nr, seen.ptr));
      } else {
        QuietStep(s, n, SplitLoad(nr));
      }
    case SplitSet(nr, nx) => SetStep(s, n);
    case SplitPrev(nr, nx) => EnterStep(s, n, nr, nx);
    case SplitLink(nr, nx, path) => LinkStep(s, n);
  }

  lemma UnlinkLoadKeeps(s: State, n: Ptr)
    requires Inv(s) && n in s.pc && s.pc[n] == UnlinkLoad
    ensures n in s.next && Inv(To(s, n, UnlinkCas(s.next[n])))
  {
    assert PcOk(s, n) && NextOk(s, n);
    QuietStep(s, n, UnlinkCas(s.next[n]));
  }

  lemma UnlinkCasKeeps(s: State, n: Ptr, seen: Link, s': State)
    requires Inv(s) && n in s.pc && s.pc[n] == UnlinkCas(seen) && Step(s, n, s')
    ensures Inv(s')
  {
    assert PcOk(s, n) && NextOk(s, n);
    if seen.ptr == NULL {
      QuietStep(s, n, UnlinkRead(NULL));
    } else if CanMark(s, n, seen) {
      LockStep(s, n, UnlinkRead(seen.ptr));
    } else {
      QuietStep(s, n, UnlinkLoad);
    }
  }

  lemma UnlinkReadKeeps(s: State, n: Ptr, nx: Ptr)
    requires Inv(s) && n in s.pc && s.pc[n] == UnlinkRead(nx)
    ensures n in s.prev && Inv(To(s, n, UnlinkMark(nx, s.prev[n])))
  {
    assert PcOk(s, n) && ListOk(s, n) && PcOk(s, s.prev[n]);
    QuietStep(s, n, UnlinkMark(nx, s.prev[n]));
  }

  lemma UnlinkMarkKeeps(s: State, n: Ptr, nx: Ptr, pv: Ptr, s': State)
    requires Inv(s) && n in s.pc && s.pc[n] == UnlinkMark(nx, pv) && Step(s, n, s')
    ensures Inv(s')
  {
    assert PcOk(s, n);
    if pv in s.next && s.next[pv] == Link(n, false) { MarkStep(s, n); } else { QuietStep(s, n, UnlinkRead(nx)); }
  }

  lemma UnlinkStepKeeps(s: State, n: Ptr, s': State)
    requires Inv(s) && n in s.pc && Step(s, n, s')
    requires s.pc[n].UnlinkLoad? || s.pc[n].UnlinkCas? || s.pc[n].UnlinkRead? || s.pc[n].UnlinkMark?
      || s.pc[n].UnlinkPrev? || s.pc[n].UnlinkLink?
    ensures Inv(s')
  {
    hide PcOk, NextOk, ListOk, Inv;
    match s.pc[n]
    case UnlinkLoad => UnlinkLoadKeeps(s, n);
    case UnlinkCas(seen) => UnlinkCasKeeps(s, n, seen, s');
    case UnlinkRead(nx) => UnlinkReadKeeps(s, n, nx);
    case UnlinkMark(nx, pv) => UnlinkMarkKeeps(s, n, nx, pv, s');
    case UnlinkPrev(nx, pv) => LeaveStep(s, n, nx, pv);
    case UnlinkLink(nx, pv) => DieStep(s, n);
  }

  lemma StepKeeps(s: State, n: Ptr, s': State)
    requires Inv(s) && n in s.pc && Step(s, n, s')
    ensures Inv(s')
  {
    var p := s.pc[n];
    match p
    case Idle =>
      assert PcOk(s, n);
      if n in s.live && exists nr, k :: SplitBegins(s, n, nr, k, s') {
        var nr, k :| SplitBegins(s, n, nr, k, s');
        BeginStep(s, n, nr, k, s');
      } else {
        QuietStep(s, n, UnlinkLoad);
      }
    case New(_) =>
    case Dead =>
    case _ =>
      if p.SplitLoad? || p.SplitCas? || p.SplitSet? || p.SplitPrev? || p.SplitLink? {
        SplitStepKeeps(s, n, s');
      } else {
        UnlinkStepKeeps(s, n, s');
      }
  }

  /** Some thread takes a step. */
  ghost predicate AnyStep(s: State, s': State) {
    Domains(s) && exists n :: n in s.pc && Step(s, n, s')
  }

  lemma AnyStepKeeps(s: State, s': State)
    requires Inv(s) && AnyStep(s, s')
    ensures Inv(s')
  {
    hide Step;
    var n :| n in s.pc && Step(s, n, s');
    StepKeeps(s, n, s');
  }

  ghost predicate Run(run: seq<State>) {
    run != [] && Init(run[0]) && forall i :: 0 <= i < |run| - 1 ==> AnyStep(run[i], run[i + 1])
  }

  lemma {:induction false} RunKeeps(run: seq<State>, i: nat)
    requires Run(run) && i < |run|
    ensures Inv(run[i])
  {
    hide AnyStep, Inv;
    if i == 0 {
      InitOk(run[0]);
    } else {
      RunKeeps(run, i - 1);
      assert AnyStep(run[i - 1], run[i - 1 + 1]);
      AnyStepKeeps(run[i - 1], run[i]);
    }
  }

  // ----- following next pointers -----

  /** Linked by a store, and not yet unlinked by one. */
  predicate InChain(s: State, z: Ptr) {
    z in s.pc && ((z in s.live && !s.pc[z].New?) || s.pc[z].UnlinkLink?)
  }

  /** A removed leaf that a splitter's old pointer still leads through. */
  ghost predicate OnPath(s: State, x: Ptr, m: Ptr, j: nat) {
    m in s.pc && s.pc[m].SplitLink? && j < |s.pc[m].path| - 1 && s.pc[m].path[j] == x
  }

  /** Where a walk from the head may be. */
  ghost predicate OnWalk(s: State, x: Ptr) {
    InChain(s, x) || exists m, j: nat :: OnPath(s, x, m, j)
  }

  /** A walk from `x` with marks stripped comes to `z`. */
  ghost predicate Visits(s: State, x: Ptr, z: Ptr, steps: nat)
    requires Domains(s)
    decreases steps
  {
    x in s.pc && (x == z || (steps > 0 && s.next[x].ptr in s.pc && s.key[x] < s.key[s.next[x].ptr]
        && Visits(s, s.next[x].ptr, z, steps - 1)))
  }

  /** From `x` on, the next pointer skips nothing. */
  ghost predicate SkipsNothing(s: State, x: Ptr)
    requires Domains(s) && x in s.pc
  {
    var y := s.next[x].ptr;
    && (y == NULL || (y in s.pc && s.key[x] < s.key[y] && OnWalk(s, y)))
    && forall z :: InChain(s, z) && s.key[x] < s.key[z] ==> y != NULL && (z == y || s.key[y] < s.key[z])
  }

  /** A leaf on its way out lies between its predecessor and its successor, and nowhere else. */
  lemma LeavingBetween(s: State, x: Ptr, z: Ptr)
    requires Inv(s) && x in s.live && z in s.pc && s.pc[z].UnlinkLink?
    ensures s.key[z] != s.key[x]
    ensures s.key[x] < s.key[z] && (s.succ[x] in s.key ==> s.key[z] < s.key[s.succ[x]]) ==> s.pc[z].pv == x
    ensures s.pc[z].pv in s.live && s.next[s.pc[z].pv] == Link(z, true)
  {
    assert PcOk(s, z) && ListOk(s, x) && ListOk(s, s.pc[z].pv);
  }

  /** A new leaf belongs to a leaf in the middle of a split. */
  lemma NewOwner(s: State, y: Ptr)
    requires Inv(s) && y in s.pc && s.pc[y].New?
    ensures var m := s.pc[y].owner; m in s.live && m in s.pc && PcOk(s, m) && NextOk(s, m) && ListOk(s, m)
  {
    assert PcOk(s, y);
  }

  /** The successor of a leaf that is not in the middle of a split is not new. */
  lemma SuccInChain(s: State, x: Ptr)
    requires Inv(s) && x in s.live && !s.pc[x].SplitLink? && s.succ[x] != NULL
    ensures ListOk(s, x) && InChain(s, s.succ[x])
  {
    var y := s.succ[x];
    assert ListOk(s, x) && PcOk(s, y);
    if s.pc[y].New? { NewOwner(s, y); }
  }

  /** What is in the chain after a leaf of the list. */
  lemma ChainAfter(s: State, x: Ptr, z: Ptr)
    requires Inv(s) && x in s.live && InChain(s, z) && s.key[x] < s.key[z]
    ensures ListOk(s, x)
    ensures (s.succ[x] != NULL && (z == s.succ[x] || s.key[s.succ[x]] < s.key[z]))
      || (s.pc[z].UnlinkLink? && s.pc[z].pv == x)
  {
    assert ListOk(s, x);
    if s.succ[x] != NULL { assert ListOk(s, s.succ[x]); }
    if s.pc[z].UnlinkLink? {
      LeavingBetween(s, x, z);
      if s.succ[x] != NULL { LeavingBetween(s, s.succ[x], z); }
    }
  }

  lemma WalkFromList(s: State, x: Ptr)
    requires Inv(s) && x in s.live && !s.pc[x].New? && !s.pc[x].SplitLink?
    ensures SkipsNothing(s, x)
  {
    var y := s.next[x].ptr;
    assert NextOk(s, x) && ListOk(s, x);
    if s.succ[x] != NULL { SuccInChain(s, x); }
    if Leaving(s, y, x) { assert PcOk(s, y); }
    forall z | InChain(s, z) && s.key[x] < s.key[z] ensures y != NULL && (z == y || s.key[y] < s.key[z]) {
      ChainAfter(s, x, z);
      if s.pc[z].UnlinkLink? { LeavingBetween(s, x, z); }
      if Leaving(s, y, x) { assert PcOk(s, y); }
    }
  }

  /** What is in the chain after a new leaf that is not linked yet. */
  lemma ChainAfterNew(s: State, m: Ptr, z: Ptr, j: nat)
    requires Inv(s) && m in s.live && s.pc[m].SplitLink? && InChain(s, z) && s.pc[m].nr in s.key
    requires s.key[s.pc[m].nr] < s.key[z]
    requires j < |s.pc[m].path| && (j == 0 || (s.pc[m].path[j - 1] in s.key && s.key[s.pc[m].path[j - 1]] < s.key[z]))
    ensures var y := s.pc[m].path[j]; y in s.key && (z == y || s.key[y] < s.key[z])
  {
    var p := s.pc[m];
    assert PcOk(s, m) && NextOk(s, m);
    ChainAfter(s, p.nr, z);
    var end := |p.path| - 1;
    if s.pc[z].UnlinkLink? && s.pc[z].pv == p.nr {
      assert PcOk(s, z) && z in p.path;
      var i :| 0 <= i < |p.path| && p.path[i] == z;
      assert j > 0 ==> i >= j;
      assert j < end ==> Gone(s, p.path[j]);
    } else {
      assert j < end ==> Gone(s, p.path[j]);
    }
  }

  lemma WalkFromSplit(s: State, x: Ptr)
    requires Inv(s) && x in s.live && s.pc[x].SplitLink?
    ensures SkipsNothing(s, x)
  {
    var p := s.pc[x];
    var y := p.nx;
    assert NextOk(s, x) && ListOk(s, x) && PcOk(s, x) && PcOk(s, p.nr) && ListOk(s, p.nr);
    if |p.path| > 1 {
      assert OnPath(s, y, x, 0) && Gone(s, y);
    } else if y != NULL {
      SuccInChain(s, p.nr);
    }
    forall z | InChain(s, z) && s.key[x] < s.key[z] ensures y != NULL && (z == y || s.key[y] < s.key[z]) {
      ChainAfter(s, x, z);
      if s.pc[z].UnlinkLink? { assert PcOk(s, z); }
      ChainAfterNew(s, x, z, 0);
    }
  }

  lemma WalkFromLeaving(s: State, x: Ptr)
    requires Inv(s) && x in s.pc && s.pc[x].UnlinkLink?
    ensures SkipsNothing(s, x)
  {
    assert PcOk(s, x);
    var pv := s.pc[x].pv;
    assert ListOk(s, pv);
    if s.pc[x].nx != NULL { SuccInChain(s, pv); }
    forall z | InChain(s, z) && s.key[x] < s.key[z]
      ensures s.pc[x].nx != NULL && (z == s.pc[x].nx || s.key[s.pc[x].nx] < s.key[z])
    {
      ChainAfter(s, pv, z);
      if s.pc[z].UnlinkLink? { LeavingBetween(s, pv, z); }
    }
  }

  lemma WalkFromPath(s: State, x: Ptr, m: Ptr, j: nat)
    requires Inv(s) && OnPath(s, x, m, j)
    ensures x in s.pc && SkipsNothing(s, x)
  {
    assert PcOk(s, m) && NextOk(s, m);
    var p := s.pc[m];
    assert Gone(s, p.path[j]) && PcOk(s, p.nr) && ListOk(s, p.nr);
    var y := p.path[j + 1];
    if j + 1 < |p.path| - 1 {
      assert OnPath(s, y, m, j + 1) && Gone(s, y);
    } else if y != NULL {
      SuccInChain(s, p.nr);
    }
    forall z | InChain(s, z) && s.key[x] < s.key[z] ensures y != NULL && (z == y || s.key[y] < s.key[z]) {
      ChainAfterNew(s, m, z, j + 1);
    }
  }

  lemma WalkStep(s: State, x: Ptr)
    requires Inv(s) && OnWalk(s, x)
    ensures x in s.pc && SkipsNothing(s, x)
  {
    hide SkipsNothing, Inv;
    if InChain(s, x) {
      if s.pc[x].UnlinkLink? {
        WalkFromLeaving(s, x);
      } else if s.pc[x].SplitLink? {
        WalkFromSplit(s, x);
      } else {
        WalkFromList(s, x);
      }
    } else {
      var m, j: nat :| OnPath(s, x, m, j);
      WalkFromPath(s, x, m, j);
    }
  }

  ghost function Above(s: State, x: Ptr): set<Ptr>
    requires x in s.key
  {
    set m | m in s.key && s.key[x] < s.key[m]
  }

  /** A walk comes to every leaf of the chain ahead of it, in key order. */
  lemma {:induction false} WalkVisits(s: State, x: Ptr, z: Ptr) returns (steps: nat)
    requires Inv(s) && OnWalk(s, x) && x in s.key && InChain(s, z) && (x == z || s.key[x] < s.key[z])
    ensures Visits(s, x, z, steps)
    decreases Above(s, x)
  {
    if x == z {
      steps := 0;
    } else {
      WalkStep(s, x);
      var y := s.next[x].ptr;
      assert y in Above(s, x) && y !in Above(s, y);
      var rest := WalkVisits(s, y, z);
      steps := rest + 1;
    }
  }

  /** In every interleaving, following next pointers from the head with marks stripped visits every
      leaf that is linked and not yet unlinked, in key order. */
  lemma EveryLeafIsVisited(run: seq<State>, i: nat, z: Ptr) returns (steps: nat)
    requires Run(run) && i < |run| && InChain(run[i], z)
    ensures Domains(run[i]) && Visits(run[i], run[i].head, z, steps)
  {
    RunKeeps(run, i);
    var s := run[i];
    assert PcOk(s, s.head) && ListOk(s, s.head);
    HeadFirst(s, z);
    steps := WalkVisits(s, s.head, z);
  }

  lemma HeadFirst(s: State, z: Ptr)
    requires Inv(s) && InChain(s, z)
    ensures InChain(s, s.head) && (z == s.head || s.key[s.head] < s.key[z])
  {
    assert PcOk(s, s.head) && PcOk(s, z);
    if s.pc[s.head].New? { NewOwner(s, s.head); }
    if s.pc[z].UnlinkLink? { assert ListOk(s, s.pc[z].pv); } else { assert ListOk(s, z); }
  }

  /** Once no operation is pending, the list is exactly the live leaves, unmarked, with `prev_` the
      inverse of next. */
  lemma Quiescent(s: State)
    requires Inv(s) && forall n :: n in s.pc ==> s.pc[n] == Idle || s.pc[n] == Dead
    ensures forall z :: InChain(s, z) <==> z in s.live
    ensures forall x :: x in s.live ==> !s.next[x].mark
    ensures forall x :: x in s.live && s.next[x].ptr != NULL ==>
              s.next[x].ptr in s.live && s.key[x] < s.key[s.next[x].ptr] && s.prev[s.next[x].ptr] == x
    ensures forall x :: x in s.live && x != s.head ==> s.prev[x] in s.live && s.next[s.prev[x]] == Link(x, false)
  {
    forall x | x in s.live
      ensures !s.next[x].mark && s.next[x].ptr == s.succ[x] && ListOk(s, x)
    {
      assert NextOk(s, x) && ListOk(s, x);
    }
    forall x | x in s.live && x != s.head ensures s.prev[x] in s.live && s.next[s.prev[x]] == Link(x, false) {
      assert ListOk(s, x);
    }
  }
}
