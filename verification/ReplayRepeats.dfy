/** Replay of a complete history in any order, when records may also be replayed again (log.cc:526-602):
    exactly when the entry still ends with the right row. */
module ReplayRepeats {
  import opened Replay

  /** Write `m` is the newest full write. */
  ghost predicate NewestFull(h: seq<Record>, m: nat) {
    m < |h| && !h[m].Modify? && forall i :: m < i < |h| ==> h[i].Modify?
  }

  /** The record's own delta marker is in the chain. */
  predicate MarkerIn(c: seq<Cell>, r: Record) {
    exists j :: 0 <= j < |c| && c[j].Delta? && c[j].ts == r.ts + 1
  }

  /** No modify newer than every full write is replayed while it waits. */
  ghost predicate NoneQueuedTwice(h: seq<Record>, m: nat, order: seq<nat>)
    requires InRange(h, order)
  {
    forall k :: 0 <= k < |order| && m < order[k] ==> !MarkerIn(AppliedAll(h, order[..k]), h[order[k]])
  }

  ghost predicate InRange(h: seq<Record>, order: seq<nat>) {
    forall k :: 0 <= k < |order| ==> order[k] < |h|
  }

  // ----- a marker that is never absorbed -----

  /** At `k` there is a marker with time `t` based on `p`, and behind it another one or a row that is
      already as new. */
  ghost predicate StuckAt(c: seq<Cell>, t: int, p: int, k: nat) {
    && k + 1 < |c| && (forall j :: 0 <= j <= k ==> c[j].Delta? && c[j].ts >= t)
    && c[k].ts == t && c[k].prev == p
    && if c[k + 1].Delta? then c[k + 1].ts == t && c[k + 1].prev == p else c[k + 1].ts >= t - 1
  }

  lemma StuckMerged(c: seq<Cell>, t: int, p: int, k: nat)
    requires StuckAt(c, t, p, k) && CanMerge(c) && p < t - 1
    ensures StuckAt(Merged(c), t, p, k)
  {
    assert Deltas(c) > k;
  }

  lemma {:induction false} StuckCleaned(c: seq<Cell>, t: int, p: int, k: nat)
    requires StuckAt(c, t, p, k) && p < t - 1
    ensures StuckAt(Cleaned(c), t, p, k)
    decreases Deltas(c)
  {
    if CanMerge(c) {
      StuckMerged(c, t, p, k);
      MergedDeltas(c);
      StuckCleaned(Merged(c), t, p, k);
    }
  }

  /** No modify and no older write gets rid of it. */
  lemma StuckApplied(c: seq<Cell>, r: Record, t: int, p: int, k: nat) returns (k': nat)
    requires StuckAt(c, t, p, k) && p < t - 1 && r.ts % 2 == 0 && t % 2 == 1 && (r.Modify? || r.ts < t)
    ensures StuckAt(Applied(c, r), t, p, k')
  {
    hide Cleaned;
    k' := k;
    var n := Newer(c, r.ts);
    NewerEnds(c, r.ts);
    if n < |c| && c[n].ts >= r.ts {
    } else if r.ts > t {
      assert n <= k;
      k' := k + 1;
      StuckCleaned(Inserted(c, n, r), t, p, k + 1);
    } else {
      assert n > k;
      StuckCleaned(Inserted(c, n, r), t, p, k);
    }
  }

  lemma {:induction false} NewerEnds(c: seq<Cell>, ts: int)
    ensures var n := Newer(c, ts);
      && (forall j :: 0 <= j < n ==> c[j].Delta? && c[j].ts > ts)
      && (n < |c| ==> !(c[n].Delta? && c[n].ts > ts))
    decreases |c|
  {
    if c != [] && c[0].Delta? && c[0].ts > ts { NewerEnds(c[1..], ts); }
  }

  // ----- the newest full write and what follows it -----

  ghost predicate Below(rest: seq<Cell>, ts: int) {
    forall j :: 0 <= j < |rest| ==> rest[j].ts < ts
  }

  /** The writes from the newest full one on stand at `s`. As long as that one is missing, cells of older
      writes may follow. */
  ghost predicate Stands(g: seq<Record>, done: set<nat>, s: Stand, c: seq<Cell>, rest: seq<Cell>) {
    && Reached(g, done, s) && NewestFull(g, 0) && c == ChainOf(g, s) + rest
    && (s.base ==> rest == []) && Below(rest, g[0].ts)
  }

  /** The clean-up does not reach over from older cells to newer markers. */
  lemma {:induction false} CleanedBelow(c: seq<Cell>, n: nat, ts: int)
    requires n <= |c| && (forall j :: 0 <= j < n ==> c[j].Delta? && c[j].prev >= ts) && Below(c[n..], ts)
    ensures n <= |Cleaned(c)| && Cleaned(c)[..n] == c[..n] && Below(Cleaned(c)[n..], ts)
    decreases Deltas(c)
  {
    assert forall j :: n <= j < |c| ==> c[j] == c[n..][j - n];
    if CanMerge(c) {
      var x := Merged(c);
      assert Deltas(c) > n;
      MergedDeltas(c);
      assert x[..n] == c[..n];
      CleanedBelow(x, n, ts);
    }
  }

  /** The newer markers are all passed by an older record. */
  lemma {:induction false} NewerPasses(c: seq<Cell>, n: nat, ts: int)
    requires n <= |c| && forall j :: 0 <= j < n ==> c[j].Delta? && c[j].ts > ts
    ensures Newer(c, ts) >= n
    decreases n
  {
    if n > 0 { NewerPasses(c[1..], n - 1, ts); }
  }

  lemma WaitsNewer(g: seq<Record>, s: Stand)
    requires StandOk(g, s) && NewestFull(g, 0)
    ensures var c := ChainOf(g, s);
      && |s.waiting| <= |c| && (s.base ==> |s.waiting| < |c|)
      && (forall j :: 0 <= j < |s.waiting| ==> c[j].Delta? && c[j].prev >= g[0].ts && c[j].ts > g[0].ts + 1)
      && (s.base ==> c[|s.waiting|].Row? && c[|s.waiting|].ts >= g[0].ts)
      && (!s.base ==> c == Waits(g, s.waiting))
  {
    forall j | 0 <= j < |s.waiting| ensures g[s.waiting[j]].prev >= g[0].ts && g[s.waiting[j]].ts > g[0].ts {
      assert s.waiting[j] in s.waiting && s.waiting[j] > 0;
      assert g[s.waiting[j]].prev == g[s.waiting[j] - 1].ts;
    }
  }

  /** A record older than the newest full write changes nothing from there on. */
  lemma OlderStep(g: seq<Record>, done: set<nat>, s: Stand, c: seq<Cell>, rest: seq<Cell>, r: Record)
    returns (rest': seq<Cell>)
    requires Stands(g, done, s, c, rest) && r.ts % 2 == 0 && r.ts < g[0].ts
    ensures Stands(g, done, s, Applied(c, r), rest')
  {
    hide Applied, ChainOf, Reached, Below;
    Parts(g, done, s);
    WaitsNewer(g, s);
    var w := |s.waiting|;
    if s.base {
      rest' := rest;
      assert c == ChainOf(g, s);
      OutOfDate(c, w, r);
    } else {
      assert c[w..] == rest && c[..w] == ChainOf(g, s);
      OlderApplied(c, w, r, g[0].ts);
      rest' := Applied(c, r)[w..];
      assert Applied(c, r) == Applied(c, r)[..w] + rest';
    }
  }

  lemma OutOfDate(c: seq<Cell>, n: nat, r: Record)
    requires n < |c| && (forall j :: 0 <= j < n ==> c[j].Delta? && c[j].ts > r.ts) && c[n].Row? && c[n].ts >= r.ts
    ensures Applied(c, r) == c
  {
    NewerIs(c, r.ts, n);
  }

  lemma OlderApplied(c: seq<Cell>, w: nat, r: Record, ts: int)
    requires w <= |c| && (forall j :: 0 <= j < w ==> c[j].Delta? && c[j].prev >= ts && c[j].ts > ts)
    requires Below(c[w..], ts)
    requires r.ts + 1 < ts
    ensures w <= |Applied(c, r)| && Applied(c, r)[..w] == c[..w] && Below(Applied(c, r)[w..], ts)
  {
    hide Cleaned;
    var n := Newer(c, r.ts);
    NewerPasses(c, w, r.ts);
    if !(n < |c| && c[n].ts >= r.ts) {
      var x := Inserted(c, n, r);
      assert forall j :: w <= j < |c| ==> c[j] == c[w..][j - w];
      assert x[..w] == c[..w];
      CleanedBelow(x, w, ts);
    }
  }

  lemma Parts(g: seq<Record>, done: set<nat>, s: Stand)
    requires Reached(g, done, s)
    ensures StandOk(g, s) && History(g)
  {
  }

  /** Cells behind the waiting markers do not change what a newer record does, except that a full write
      removes them. */
  lemma FullOver(c: seq<Cell>, rest: seq<Cell>, r: Record)
    requires !r.Modify? && (forall j :: 0 <= j < |c| ==> c[j].Delta? && c[j].ts > r.ts) && Below(rest, r.ts)
    ensures Applied(c + rest, r) == Applied(c, r)
  {
    hide Cleaned;
    NewerIs(c + rest, r.ts, |c|);
    NewerIs(c, r.ts, |c|);
    assert (c + rest)[..|c|] == c == c[..|c|];
    assert rest != [] ==> (c + rest)[|c|] == rest[0];
  }

  /** The newest full write itself. From then on nothing is left of older writes. */
  lemma FullStep(g: seq<Record>, done: set<nat>, s: Stand, c: seq<Cell>, rest: seq<Cell>) returns (s': Stand)
    requires Stands(g, done, s, c, rest) && 0 !in done
    ensures Stands(g, done + {0}, s', Applied(c, g[0]), [])
  {
    hide Applied, ChainOf;
    NotBase(g, done, s);
    WaitsNewer(g, s);
    FullOver(ChainOf(g, s), rest, g[0]);
    s' := OneApplied(g, done, s, 0);
    assert s'.base by { assert 0 in done + {0}; }
    assert ChainOf(g, s') + [] == ChainOf(g, s');
  }

  lemma NotBase(g: seq<Record>, done: set<nat>, s: Stand)
    requires Reached(g, done, s) && NewestFull(g, 0)
    ensures s.base <==> 0 in done
  {
    if s.base {
      var m: nat :| FullRun(g, done, m, s.top);
      assert m == 0;
    }
  }

  /** A newer modify after the newest full write. */
  lemma NextStep(g: seq<Record>, done: set<nat>, s: Stand, c: seq<Cell>, i: nat) returns (s': Stand)
    requires Stands(g, done, s, c, []) && s.base && 0 < i < |g| && i !in done
    ensures Stands(g, done + {i}, s', Applied(c, g[i]), [])
  {
    hide Applied, ChainOf;
    assert c == ChainOf(g, s);
    NotBase(g, done, s);
    s' := OneApplied(g, done, s, i);
    NotBase(g, done + {i}, s');
    assert ChainOf(g, s') + [] == ChainOf(g, s');
  }

  /** A newer modify before it waits, whatever older cells there are. */
  lemma WaitStep(g: seq<Record>, done: set<nat>, s: Stand, c: seq<Cell>, rest: seq<Cell>, i: nat)
    returns (s': Stand, rest': seq<Cell>)
    requires Stands(g, done, s, c, rest) && !s.base && 0 < i < |g| && i !in done
    ensures Stands(g, done + {i}, s', Applied(c, g[i]), rest')
  {
    hide Applied, ChainOf, Reached;
    NotWaiting(g, done, s, i);
    s' := s.(waiting := WaitingWith(s.waiting, Above(s.waiting, i), i));
    WaitReached(g, done, s, i, s');
    WaitInserted(g, s, i, s');
    WaitOlder(g, s, i);
    Position(g, s, i);
    WaitsNewer(g, s);
    WaitsNewer(g, s');
    assert g[i].prev == g[i - 1].ts >= g[0].ts;
    rest' := WaitOver(ChainOf(g, s), rest, ChainOf(g, s'), g[i], g[0].ts);
  }

  lemma NotWaiting(g: seq<Record>, done: set<nat>, s: Stand, i: nat)
    requires Reached(g, done, s) && i !in done
    ensures StandOk(g, s) && i !in s.waiting
  {
  }

  lemma WaitOver(c: seq<Cell>, rest: seq<Cell>, x: seq<Cell>, r: Record, ts: int) returns (rest': seq<Cell>)
    requires r.Modify? && r.ts > ts && r.prev >= ts && Below(rest, ts)
    requires var n := Newer(c, r.ts); x == Inserted(c, n, r) && (n < |c| ==> c[n].ts < r.ts)
    requires forall j :: 0 <= j < |c| ==> c[j].Delta?
    requires forall j :: 0 <= j < |x| ==> x[j].Delta? && x[j].prev >= ts
    ensures Below(rest', ts) && Applied(c + rest, r) == x + rest'
  {
    hide Cleaned, Inserted, Newer;
    var n, a := Newer(c, r.ts), c + rest;
    NewerEnds(c, r.ts);
    assert forall j :: 0 <= j < |a| ==> a[j] == if j < |c| then c[j] else rest[j - |c|];
    NewerIs(a, r.ts, n);
    InsertedOver(c, rest, n, r, ts);
    rest' := CleanedOver(x, rest, ts);
  }

  lemma InsertedOver(c: seq<Cell>, rest: seq<Cell>, n: nat, r: Record, ts: int)
    requires r.Modify? && n <= |c| && r.prev >= ts && Below(rest, ts) && forall j :: 0 <= j < |c| ==> c[j].Delta?
    ensures Inserted(c + rest, n, r) == Inserted(c, n, r) + rest
  {
    var a := c + rest;
    assert n < |a| ==> a[n] == if n < |c| then c[n] else rest[0];
    assert a[..n] == c[..n] && a[n..] == c[n..] + rest;
  }

  lemma CleanedOver(x: seq<Cell>, rest: seq<Cell>, ts: int) returns (rest': seq<Cell>)
    requires Below(rest, ts) && forall j :: 0 <= j < |x| ==> x[j].Delta? && x[j].prev >= ts
    ensures Below(rest', ts) && Cleaned(x + rest) == x + rest'
  {
    hide Cleaned;
    assert (x + rest)[..|x|] == x && (x + rest)[|x|..] == rest;
    CleanedBelow(x + rest, |x|, ts);
    rest' := Cleaned(x + rest)[|x|..];
    assert Cleaned(x + rest) == Cleaned(x + rest)[..|x|] + rest';
  }

  /** Only a modify that waits has its marker in the chain. */
  lemma MarkerMeans(g: seq<Record>, done: set<nat>, s: Stand, c: seq<Cell>, rest: seq<Cell>, i: nat)
    requires Stands(g, done, s, c, rest) && 0 < i < |g|
    ensures MarkerIn(c, g[i]) <==> i in s.waiting
  {
    var w := ChainOf(g, s);
    assert forall j :: |w| <= j < |c| ==> c[j] == rest[j - |w|];
    forall j | 0 <= j < |c| && c[j].Delta? && c[j].ts == g[i].ts + 1 ensures i in s.waiting {
      assert s.waiting[j] in s.waiting;
    }
    if i in s.waiting {
      var k: nat :| k < |s.waiting| && s.waiting[k] == i;
      assert c[k] == w[k];
    }
  }

  /** A record of these writes again, with no marker in the chain. */
  lemma AgainStep(g: seq<Record>, done: set<nat>, s: Stand, c: seq<Cell>, rest: seq<Cell>, i: nat)
    requires Stands(g, done, s, c, rest) && i in done && i !in s.waiting
    ensures Applied(c, g[i]) == c
  {
    assert s.base;
    assert c == ChainOf(g, s);
    ReplayedTwice(g, done, s, i);
  }

  /** A record again while its marker is in the chain: from now on a marker is stuck. */
  lemma StuckStep(g: seq<Record>, done: set<nat>, s: Stand, c: seq<Cell>, rest: seq<Cell>, i: nat) returns (k: nat)
    requires Stands(g, done, s, c, rest) && 0 < i < |g| && i in s.waiting
    ensures StuckAt(Applied(c, g[i]), g[i].ts + 1, g[i].prev, k) && g[i].prev < g[i].ts
  {
    hide Cleaned, Inserted;
    var w := ChainOf(g, s);
    k :| k < |s.waiting| && s.waiting[k] == i;
    assert s.base ==> s.top + 1 !in s.waiting;
    TwicePlace(g, s, i, k);
    forall j | 0 <= j <= k ensures c[j].Delta? && c[j].ts > g[i].ts {
      assert c[j] == w[j];
    }
    WaitsNewer(g, s);
    assert c[k] == w[k] && g[i].prev == g[i - 1].ts;
    assert k + 1 < |c| ==> c[k + 1] == if k + 1 < |w| then w[k + 1] else rest[0];
    SecondMarker(c, g[i], k);
  }

  lemma SecondMarker(c: seq<Cell>, r: Record, k: nat)
    requires r.Modify? && r.prev < r.ts && k < |c| && c[k] == Delta(r.ts + 1, r.prev, r.change)
    requires forall j :: 0 <= j <= k ==> c[j].Delta? && c[j].ts > r.ts
    requires k + 1 < |c| ==> c[k + 1].ts < r.ts && !(c[k + 1].Row? && c[k + 1].ts == r.prev)
    ensures StuckAt(Applied(c, r), r.ts + 1, r.prev, k)
  {
    hide Cleaned;
    NewerIs(c, r.ts, k + 1);
    StuckCleaned(Inserted(c, k + 1, r), r.ts + 1, r.prev, k);
  }

  // ----- every sequence of replays -----

  /** The writes from `m` on among those replayed, counted from there. */
  function DoneFrom(order: seq<nat>, m: nat): set<nat> {
    set k | k in order && m <= k :: k - m
  }

  /** Where a sequence of replays has come to. */
  ghost predicate Either(h: seq<Record>, m: nat, order: seq<nat>)
    requires InRange(h, order) && m < |h|
  {
    var c := AppliedAll(h, order);
    if NoneQueuedTwice(h, m, order) then exists s, rest :: Stands(h[m..], DoneFrom(order, m), s, c, rest)
    else exists t, p, k :: p < t - 1 && t % 2 == 1 && h[m].ts < t && StuckAt(c, t, p, k)
  }

  lemma FromFull(h: seq<Record>, m: nat)
    requires History(h) && NewestFull(h, m)
    ensures History(h[m..]) && NewestFull(h[m..], 0) && forall i :: 0 <= i < |h| - m ==> h[m..][i] == h[m + i]
  {
  }

  lemma DoneSnoc(order: seq<nat>, m: nat)
    requires order != []
    ensures var n := |order| - 1;
      DoneFrom(order, m) == DoneFrom(order[..n], m) + if m <= order[n] then {order[n] - m} else {}
  {
    var n := |order| - 1;
    assert order == order[..n] + [order[n]];
    forall x: nat ensures x in DoneFrom(order, m) <==> m + x in order {
      assert m + x in order ==> (m + x) - m in DoneFrom(order, m);
    }
    forall x: nat ensures x in DoneFrom(order[..n], m) <==> m + x in order[..n] {
      assert m + x in order[..n] ==> (m + x) - m in DoneFrom(order[..n], m);
    }
  }

  lemma NoneSnoc(h: seq<Record>, m: nat, order: seq<nat>)
    requires order != [] && InRange(h, order)
    ensures var n := |order| - 1;
      NoneQueuedTwice(h, m, order)
      <==> (NoneQueuedTwice(h, m, order[..n]) && (m < order[n] ==> !MarkerIn(AppliedAll(h, order[..n]), h[order[n]])))
  {
    hide MarkerIn, AppliedAll;
    var n := |order| - 1;
    forall k | 0 <= k < n ensures order[..n][..k] == order[..k] {
    }
  }

  /** One more record. */
  lemma EitherSnoc(h: seq<Record>, m: nat, order: seq<nat>, s: Stand, rest: seq<Cell>)
    requires History(h) && NewestFull(h, m) && order != [] && InRange(h, order)
    requires NoneQueuedTwice(h, m, order[..|order| - 1])
    requires var init := order[..|order| - 1]; Stands(h[m..], DoneFrom(init, m), s, AppliedAll(h, init), rest)
    ensures Either(h, m, order)
  {
    hide Applied, Reached, ChainOf, DoneFrom, NoneQueuedTwice, MarkerIn, Stands, StuckAt;
    var n, g := |order| - 1, h[m..];
    var c, done, i := AppliedAll(h, order[..n]), DoneFrom(order[..n], m), order[n];
    FromFull(h, m);
    DoneSnoc(order, m);
    NoneSnoc(h, m, order);
    assert AppliedAll(h, order) == Applied(c, h[i]);
    if i < m {
      var rest' := OlderStep(g, done, s, c, rest, h[i]);
      assert DoneFrom(order, m) == done;
      assert NoneQueuedTwice(h, m, order);
    } else {
      FromStep(h, m, order, s, rest, g, done, c, i - m);
    }
  }

  lemma FromStep(h: seq<Record>, m: nat, order: seq<nat>, s: Stand, rest: seq<Cell>, g: seq<Record>, done: set<nat>,
      c: seq<Cell>, x: nat)
    requires Stands(g, done, s, c, rest) && x < |g| && InRange(h, order) && m < |h| && g == h[m..] && History(g)
    requires AppliedAll(h, order) == Applied(c, g[x]) && DoneFrom(order, m) == done + {x}
    requires NoneQueuedTwice(h, m, order) <==> (x > 0 ==> !MarkerIn(c, g[x]))
    ensures Either(h, m, order)
  {
    hide Applied, ChainOf, DoneFrom, NoneQueuedTwice, MarkerIn, StuckAt, AppliedAll;
    if x > 0 { MarkerMeans(g, done, s, c, rest, x); }
    NotBase(g, done, s);
    if x !in done {
      if x == 0 {
        var s' := FullStep(g, done, s, c, rest);
      } else if s.base {
        assert rest == [];
        var s' := NextStep(g, done, s, c, x);
      } else {
        var s', rest' := WaitStep(g, done, s, c, rest, x);
      }
    } else if x in s.waiting {
      var k := StuckStep(g, done, s, c, rest, x);
    } else {
      AgainStep(g, done, s, c, rest, x);
      assert done + {x} == done;
    }
  }

  lemma {:induction false} EitherAlways(h: seq<Record>, m: nat, order: seq<nat>)
    requires History(h) && NewestFull(h, m) && InRange(h, order)
    ensures Either(h, m, order)
    decreases |order|
  {
    hide Applied, Reached, ChainOf, DoneFrom, NoneQueuedTwice, Stands, StuckAt, MarkerIn;
    if order == [] {
      NothingYet(h, m);
    } else {
      var n := |order| - 1;
      EitherAlways(h, m, order[..n]);
      NoneSnoc(h, m, order);
      if NoneQueuedTwice(h, m, order[..n]) {
        var s, rest :| Stands(h[m..], DoneFrom(order[..n], m), s, AppliedAll(h, order[..n]), rest);
        EitherSnoc(h, m, order, s, rest);
      } else {
        StaysStuck(h, m, order);
      }
    }
  }

  lemma NothingYet(h: seq<Record>, m: nat)
    requires History(h) && NewestFull(h, m)
    ensures Either(h, m, [])
  {
    FromFull(h, m);
    var s := Stand(false, 0, []);
    assert DoneFrom([], m) == {};
    assert StandOk(h[m..], s);
    assert Reached(h[m..], {}, s);
    assert ChainOf(h[m..], s) + [] == AppliedAll(h, []);
    assert Stands(h[m..], DoneFrom([], m), s, AppliedAll(h, []), []);
    assert NoneQueuedTwice(h, m, []);
  }

  lemma StaysStuck(h: seq<Record>, m: nat, order: seq<nat>)
    requires History(h) && NewestFull(h, m) && InRange(h, order) && order != []
    requires var n := |order| - 1; Either(h, m, order[..n]) && !NoneQueuedTwice(h, m, order[..n])
    ensures Either(h, m, order)
  {
    hide Applied, StuckAt, NoneQueuedTwice, MarkerIn;
    var n := |order| - 1;
    NoneSnoc(h, m, order);
    var c, r := AppliedAll(h, order[..n]), h[order[n]];
    var t, p, k :| p < t - 1 && t % 2 == 1 && h[m].ts < t && StuckAt(c, t, p, k);
    var k' := StuckApplied(c, r, t, p, k);
    assert AppliedAll(h, order) == Applied(c, r);
  }

  // ----- the exact condition -----

  lemma {:induction false} InOrderFrom(h: seq<Record>, m: nat, n: nat)
    requires m + n <= |h| && n > 0 && !h[0].Modify? && !h[m].Modify?
    ensures InOrder(h[m..], n) == InOrder(h, m + n)
    decreases n
  {
    if n > 1 { InOrderFrom(h, m, n - 1); }
  }

  lemma AllThere(h: seq<Record>, m: nat, order: seq<nat>, s: Stand, c: seq<Cell>, rest: seq<Cell>)
    requires History(h) && NewestFull(h, m) && (forall i :: 0 <= i < |h| ==> i in order)
    requires Stands(h[m..], DoneFrom(order, m), s, c, rest)
    ensures c == [Row(h[|h| - 1].ts, InOrder(h, |h|))]
  {
    var g, done := h[m..], DoneFrom(order, m);
    forall x: nat | x < |g| ensures x in done {
      assert m + x in order && (m + x) - m in done;
    }
    NotBase(g, done, s);
    assert s.top == |g| - 1;
    FirstOf(s.waiting);
    InOrderFrom(h, m, |g|);
  }

  /** However the records of a complete history are replayed, and however often: the entry ends with the
      row that timestamp order gives, and nothing else, if and only if no modify newer than every full
      write is replayed while its own marker is in the chain. Otherwise a marker stays for good. */
  lemma AnyReplay(h: seq<Record>, m: nat, order: seq<nat>)
    requires History(h) && NewestFull(h, m) && InRange(h, order) && forall i :: 0 <= i < |h| ==> i in order
    ensures AppliedAll(h, order) == [Row(h[|h| - 1].ts, InOrder(h, |h|))] <==> NoneQueuedTwice(h, m, order)
    ensures !NoneQueuedTwice(h, m, order) ==> AppliedAll(h, order) != [] && AppliedAll(h, order)[0].Delta?
  {
    hide Applied, AppliedAll, Stands, DoneFrom, NoneQueuedTwice;
    EitherAlways(h, m, order);
    var c := AppliedAll(h, order);
    if NoneQueuedTwice(h, m, order) {
      var s, rest :| Stands(h[m..], DoneFrom(order, m), s, c, rest);
      AllThere(h, m, order, s, c, rest);
    }
  }
}
