/** Epoch-based reclamation (kvthread.hh, kvthread.cc, `epochinc` in mtd.cc): nothing is freed while a
    thread is still in a section that it entered before the retirement. Loads and stores of the
    epochs are single steps, and `min_active_epoch` reads one thread at a time.

    Epochs are numbers that do not wrap; 0 means that a thread is in no section. */
module GracePeriod {

  type Tid = nat

  /** A section of a thread: the thread and how many sections it had begun or ended before. */
  datatype Section = Section(t: Tid, number: nat)

  /** A retired object with the epoch recorded for it. `guards` (history): the sections that were open
      when its epoch was loaded. */
  datatype Retired = Retired(ptr: nat, epoch: int, guards: set<Section>)

  /** What a thread is doing: `Starting` has loaded the global epoch and not yet stored its own,
      `Quiescing` has loaded the bound up to which it frees. */
  datatype Doing = Running | Starting(epoch: int) | Quiescing(bound: int)

  datatype Thread = Thread(gcEpoch: int, section: nat, doing: Doing, limbo: set<Retired>)

  /** `epochinc`: idle, or in `min_active_epoch` with the least epoch so far and the threads still to
      be read. */
  datatype Ticker = Idle | Ticked | Scanning(least: int, left: set<Tid>)

  datatype State = State(globalEpoch: int, activeEpoch: int, threads: map<Tid, Thread>, ticker: Ticker)

  datatype Event =
    | StartLoad(t: Tid)
    | StartStore(t: Tid)
    | Stop(t: Tid)
    | Retire(t: Tid, ptr: nat)
    | BoundLoad(t: Tid)
    | Free(t: Tid, o: Retired)
    | QuiesceEnd(t: Tid)
    | NewThread(t: Tid)
    | Tick
    | ScanBegin
    | ScanRead(t: Tid)
    | ScanEnd

  /** A section is open from the store of the thread's epoch to the next start or stop. */
  predicate Open(s: State, g: Section) {
    g.t in s.threads && s.threads[g.t].section == g.number && s.threads[g.t].gcEpoch != 0
  }

  function OpenSections(s: State): set<Section> {
    set t | t in s.threads && s.threads[t].gcEpoch != 0 :: Section(t, s.threads[t].section)
  }

  function With(s: State, t: Tid, th: Thread): State {
    s.(threads := s.threads[t := th])
  }

  ghost predicate Step(s: State, e: Event, s': State) {
    match e
    case StartLoad(t) =>
      t in s.threads && s.threads[t].doing == Running
      && s' == With(s, t, s.threads[t].(doing := Starting(s.globalEpoch)))
    case StartStore(t) =>
      t in s.threads && s.threads[t].doing.Starting?
      && var th := s.threads[t]; s' == With(s, t, Thread(th.doing.epoch, th.section + 1, Running, th.limbo))
    case Stop(t) =>
      t in s.threads && s.threads[t].doing == Running
      && var th := s.threads[t]; s' == With(s, t, Thread(0, th.section + 1, Running, th.limbo))
    case Retire(t, ptr) =>
      t in s.threads && !s.threads[t].doing.Starting?
      && var th := s.threads[t];
         s' == With(s, t, th.(limbo := th.limbo + {Retired(ptr, s.globalEpoch, OpenSections(s))}))
    case BoundLoad(t) =>
      t in s.threads && s.threads[t].doing == Running
      && s' == With(s, t, s.threads[t].(doing := Quiescing(s.activeEpoch - 1)))
    case Free(t, o) =>
      t in s.threads && s.threads[t].doing.Quiescing? && o in s.threads[t].limbo && o.epoch <= s.threads[t].doing.bound
      && s' == With(s, t, s.threads[t].(limbo := s.threads[t].limbo - {o}))
    case QuiesceEnd(t) =>
      t in s.threads && s.threads[t].doing.Quiescing? && s' == With(s, t, s.threads[t].(doing := Running))
    case NewThread(t) => t !in s.threads && s' == With(s, t, Thread(0, 0, Running, {}))
    case Tick => s.ticker == Idle && s' == s.(globalEpoch := s.globalEpoch + 2, ticker := Ticked)
    case ScanBegin => s.ticker == Ticked && s' == s.(ticker := Scanning(s.globalEpoch, s.threads.Keys))
    case ScanRead(t) =>
      s.ticker.Scanning? && t in s.ticker.left && t in s.threads
      && var te := s.threads[t].gcEpoch;
         var least := if te != 0 && te < s.ticker.least then te else s.ticker.least;
         s' == s.(ticker := Scanning(least, s.ticker.left - {t}))
    case ScanEnd => s.ticker.Scanning? && s.ticker.left == {} && s' == s.(activeEpoch := s.ticker.least, ticker := Idle)
  }

  ghost predicate Init(s: State) {
    s.globalEpoch == 1 && s.activeEpoch == 1 && s.ticker == Idle && s.threads == map[]
  }

  // ----- the invariant -----

  /** Nothing recorded anywhere is ahead of the global epoch. */
  ghost predicate Bounded(s: State) {
    && 0 < s.globalEpoch && s.activeEpoch <= s.globalEpoch
    && (s.ticker.Scanning? ==> s.ticker.least <= s.globalEpoch)
    && (forall t :: t in s.threads ==>
          && s.threads[t].gcEpoch <= s.globalEpoch
          && (s.threads[t].doing.Starting? ==> 0 < s.threads[t].doing.epoch <= s.globalEpoch)
          && (s.threads[t].doing.Quiescing? ==> s.threads[t].doing.bound < s.globalEpoch))
  }

  /** While guard `g` is open, no bound has reached the epoch of `o`, and none is about to. */
  ghost predicate Guarded(s: State, o: Retired, g: Section) {
    Open(s, g) ==>
      && s.threads[g.t].gcEpoch <= o.epoch && s.activeEpoch <= o.epoch
      && (forall t :: t in s.threads && s.threads[t].doing.Quiescing? ==> s.threads[t].doing.bound < o.epoch)
      && (s.ticker.Scanning? ==> s.ticker.least <= o.epoch || g.t in s.ticker.left)
  }

  ghost predicate Known(s: State, o: Retired, g: Section) {
    g.t in s.threads && g.number <= s.threads[g.t].section && o.epoch <= s.globalEpoch
  }

  ghost predicate Inv(s: State) {
    && Bounded(s)
    && forall t, o, g ::
        t in s.threads && o in s.threads[t].limbo && g in o.guards ==> Known(s, o, g) && Guarded(s, o, g)
  }

  lemma BoundedKept(s: State, e: Event, s': State)
    requires Bounded(s) && Step(s, e, s')
    ensures Bounded(s')
  {
  }

  lemma GuardKept(s: State, e: Event, s': State, t: Tid, o: Retired, g: Section)
    requires Inv(s) && Step(s, e, s') && t in s'.threads && o in s'.threads[t].limbo && g in o.guards
    ensures Known(s', o, g) && Guarded(s', o, g)
  {
    if t in s.threads && o in s.threads[t].limbo {
      assert Known(s, o, g) && Guarded(s, o, g);
    }
  }

  lemma StepKeeps(s: State, e: Event, s': State)
    requires Inv(s) && Step(s, e, s')
    ensures Inv(s')
  {
    hide Step, Bounded, Known, Guarded;
    BoundedKept(s, e, s');
    forall t, o, g | t in s'.threads && o in s'.threads[t].limbo && g in o.guards
      ensures Known(s', o, g) && Guarded(s', o, g)
    {
      GuardKept(s, e, s', t, o, g);
    }
  }

  ghost predicate Run(run: seq<State>, events: seq<Event>) {
    && |run| == |events| + 1 && Init(run[0])
    && forall i :: 0 <= i < |events| ==> Step(run[i], events[i], run[i + 1])
  }

  lemma {:induction false} RunKeeps(run: seq<State>, events: seq<Event>, i: nat)
    requires Run(run, events) && i < |run|
    ensures Inv(run[i])
  {
    if i > 0 {
      RunKeeps(run, events, i - 1);
      StepKeeps(run[i - 1], events[i - 1], run[i]);
    }
  }

  /** In every interleaving, when an object is freed, every section that was open when its epoch was
      recorded has ended. */
  lemma GracePeriodHolds(run: seq<State>, events: seq<Event>, i: nat, g: Section)
    requires Run(run, events) && i < |events| && events[i].Free? && g in events[i].o.guards
    ensures !Open(run[i], g)
  {
    RunKeeps(run, events, i);
    assert Step(run[i], events[i], run[i + 1]);
    assert Guarded(run[i], events[i].o, g);
  }

  /** The guards of an object are the sections that were open when it was retired. */
  lemma {:induction false} GuardsAreSections(run: seq<State>, events: seq<Event>, n: nat, t: Tid, o: Retired)
    returns (i: nat)
    requires Run(run, events) && n < |run| && t in run[n].threads && o in run[n].threads[t].limbo
    ensures i < n && events[i] == Retire(t, o.ptr) && o.epoch == run[i].globalEpoch
    ensures forall g :: g in o.guards <==> Open(run[i], g)
  {
    assert n > 0 && Step(run[n - 1], events[n - 1], run[n - 1 + 1]);
    if t in run[n - 1].threads && o in run[n - 1].threads[t].limbo {
      i := GuardsAreSections(run, events, n - 1, t, o);
    } else {
      i := n - 1;
      forall g ensures g in OpenSections(run[i]) <==> Open(run[i], g) {
        if Open(run[i], g) { assert g == Section(g.t, run[i].threads[g.t].section); }
      }
    }
  }

  // ----- what a scan finds -----

  /** Step `r` of the scan begun at `b` read thread `t`. */
  ghost predicate ReadAt(events: seq<Event>, b: nat, r: nat, n: nat, t: Tid) {
    b < r < n <= |events| && events[r] == ScanRead(t)
  }

  /** `e` is the least of the global epoch at the beginning and of the epochs of the sections that were
      open when their threads were read. */
  ghost predicate LeastRead(run: seq<State>, events: seq<Event>, b: nat, n: nat, e: int)
    requires |run| == |events| + 1 && b < n <= |events|
  {
    && e <= run[b].globalEpoch
    && (forall r: nat, t :: ReadAt(events, b, r, n, t) && t in run[r].threads ==>
          run[r].threads[t].gcEpoch == 0 || e <= run[r].threads[t].gcEpoch)
    && (e == run[b].globalEpoch || exists r: nat, t ::
          ReadAt(events, b, r, n, t) && t in run[r].threads && 0 != run[r].threads[t].gcEpoch == e)
  }

  /** The scan begun at `b` goes on, and has read all threads there were at `b` but those left. */
  ghost predicate ScanFrom(run: seq<State>, events: seq<Event>, b: nat, n: nat)
    requires |run| == |events| + 1 && b < n <= |events|
  {
    && events[b] == ScanBegin && run[n].ticker.Scanning?
    && (forall r :: b < r < n ==> events[r] != ScanBegin && events[r] != ScanEnd)
    && (forall t :: t in run[b].threads && t !in run[n].ticker.left ==> exists r: nat :: ReadAt(events, b, r, n, t))
    && LeastRead(run, events, b, n, run[n].ticker.least)
  }

  lemma LeastNext(run: seq<State>, events: seq<Event>, b: nat, n: nat, e: int, e': int)
    requires |run| == |events| + 1 && b < n < |events| && LeastRead(run, events, b, n, e)
    requires match events[n]
      case ScanRead(t) =>
        && t in run[n].threads
        && var te := run[n].threads[t].gcEpoch; e' == if te != 0 && te < e then te else e
      case _ => e' == e
    ensures LeastRead(run, events, b, n + 1, e')
  {
    if events[n].ScanRead? { assert ReadAt(events, b, n, n + 1, events[n].t); }
    if e' == e && e != run[b].globalEpoch {
      var r: nat, t :| ReadAt(events, b, r, n, t) && t in run[r].threads && 0 != run[r].threads[t].gcEpoch == e;
      assert ReadAt(events, b, r, n + 1, t);
    }
    forall r: nat, t | ReadAt(events, b, r, n + 1, t) && t in run[r].threads
      ensures run[r].threads[t].gcEpoch == 0 || e' <= run[r].threads[t].gcEpoch
    {
      if r < n { assert ReadAt(events, b, r, n, t); }
    }
  }

  lemma ScanNext(run: seq<State>, events: seq<Event>, b: nat, n: nat)
    requires |run| == |events| + 1 && b < n < |events| && ScanFrom(run, events, b, n)
    requires Step(run[n], events[n], run[n + 1]) && run[n + 1].ticker.Scanning?
    ensures ScanFrom(run, events, b, n + 1)
  {
    LeastNext(run, events, b, n, run[n].ticker.least, run[n + 1].ticker.least);
    hide LeastRead;
    var n' := n + 1;
    forall t | t in run[b].threads && t !in run[n'].ticker.left ensures exists r: nat :: ReadAt(events, b, r, n', t) {
      if t !in run[n].ticker.left {
        var r: nat :| ReadAt(events, b, r, n, t);
        assert ReadAt(events, b, r, n', t);
      } else {
        assert ReadAt(events, b, n, n', t);
      }
    }
  }

  lemma ScanStarts(run: seq<State>, events: seq<Event>, b: nat)
    requires |run| == |events| + 1 && b < |events| && events[b] == ScanBegin && Step(run[b], events[b], run[b + 1])
    ensures ScanFrom(run, events, b, b + 1)
  {
  }

  lemma {:induction false} ScanGoesOn(run: seq<State>, events: seq<Event>, n: nat) returns (b: nat)
    requires Run(run, events) && n < |run| && run[n].ticker.Scanning?
    ensures b < n && ScanFrom(run, events, b, n)
  {
    hide ScanFrom;
    assert n > 0 && Step(run[n - 1], events[n - 1], run[n - 1 + 1]);
    if events[n - 1] == ScanBegin {
      b := n - 1;
      ScanStarts(run, events, b);
    } else {
      b := ScanGoesOn(run, events, n - 1);
      ScanNext(run, events, b, n - 1);
    }
  }

  /** In every interleaving, a scan reads every thread that there was when it began, and its result is the
      least epoch of the sections it found open, or the global epoch at its beginning. */
  lemma ScanFindsLeast(run: seq<State>, events: seq<Event>, n: nat) returns (b: nat)
    requires Run(run, events) && n < |events| && events[n] == ScanEnd
    ensures b < n && events[b] == ScanBegin && forall r :: b < r < n ==> events[r] != ScanBegin && events[r] != ScanEnd
    ensures forall t :: t in run[b].threads ==> exists r: nat :: ReadAt(events, b, r, n, t)
    ensures LeastRead(run, events, b, n, run[n + 1].activeEpoch)
  {
    assert Step(run[n], events[n], run[n + 1]);
    b := ScanGoesOn(run, events, n);
  }
}
