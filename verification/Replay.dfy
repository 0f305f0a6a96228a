/** Log replay for one key (log.cc, `logrecord::apply`): records arrive in any order, and a modify
    whose predecessor is missing waits as a delta marker in front of the row.

    Removal records are left out: their payload does not parse (log.cc:557). */
module Replay {

  /** A logged write. Live timestamps are even; `prev` of a modify is the timestamp it was based on. */
  datatype Record =
    | Put(ts: int, change: int)
    | Replace(ts: int, change: int)
    | Modify(ts: int, change: int, prev: int)

  /** A row's columns, as the writes that made them. */
  datatype Content = Created(change: int) | Whole(change: int) | Updated(old_: Content, change: int)

  /** What hangs on a leaf's value pointer: delta markers, newest first, then at most one row. */
  datatype Cell = Delta(ts: int, prev: int, change: int) | Row(ts: int, content: Content)

  function MakeRow(r: Record): Cell
    requires !r.Modify?
  {
    Row(r.ts, if r.Put? then Created(r.change) else Whole(r.change))
  }

  // ----- what one call does -----

  /** The number of delta markers newer than `ts` at the front. */
  function Newer(chain: seq<Cell>, ts: int): (n: nat)
    ensures n <= |chain|
  {
    if chain != [] && chain[0].Delta? && chain[0].ts > ts then 1 + Newer(chain[1..], ts) else 0
  }

  function Deltas(chain: seq<Cell>): (n: nat)
    ensures n <= |chain| && (forall i :: 0 <= i < n ==> chain[i].Delta?) && (n < |chain| ==> chain[n].Row?)
  {
    if chain != [] && chain[0].Delta? then 1 + Deltas(chain[1..]) else 0
  }

  /** The oldest delta marker follows right after the row. */
  predicate CanMerge(chain: seq<Cell>) {
    var d := Deltas(chain);
    0 < d < |chain| && chain[d - 1].prev == chain[d].ts
  }

  function Merged(chain: seq<Cell>): (r: seq<Cell>)
    requires CanMerge(chain)
    ensures |r| == Deltas(chain)
  {
    var d := Deltas(chain);
    chain[..d - 1] + [Row(chain[d - 1].ts - 1, Updated(chain[d].content, chain[d - 1].change))]
  }

  /** The clean-up loop: waiting modifies are applied as long as they fit. */
  function Cleaned(chain: seq<Cell>): seq<Cell>
    decreases Deltas(chain)
  {
    if CanMerge(chain) then
      MergedDeltas(chain);
      Cleaned(Merged(chain))
    else chain
  }

  lemma DeltasIs(chain: seq<Cell>, d: nat)
    requires d <= |chain| && (forall i :: 0 <= i < d ==> chain[i].Delta?) && (d < |chain| ==> chain[d].Row?)
    ensures Deltas(chain) == d
  {
  }

  lemma MergedDeltas(chain: seq<Cell>)
    requires CanMerge(chain)
    ensures Deltas(Merged(chain)) == Deltas(chain) - 1
  {
    DeltasIs(Merged(chain), Deltas(chain) - 1);
  }

  /** The chain with the record's effect at position `n`, before the clean-up. */
  function Inserted(chain: seq<Cell>, n: nat, r: Record): seq<Cell>
    requires n <= |chain|
  {
    if !r.Modify? then chain[..n] + [MakeRow(r)]
    else if n < |chain| && chain[n].Row? && chain[n].ts == r.prev then
      chain[..n] + [Row(r.ts, Updated(chain[n].content, r.change))]
    else chain[..n] + [Delta(r.ts + 1, r.prev, r.change)] + chain[n..]
  }

  function Applied(chain: seq<Cell>, r: Record): seq<Cell> {
    var n := Newer(chain, r.ts);
    if n < |chain| && chain[n].ts >= r.ts then chain else Cleaned(Inserted(chain, n, r))
  }

  /** The value pointer of one leaf entry. A row ends the chain. */
  class Entry {
    var chain: seq<Cell>

    ghost predicate Valid()
      reads this
    {
      && (forall i :: 0 <= i < |chain| - 1 ==> chain[i].Delta?)
      && (forall i :: 0 <= i < |chain| && chain[i].Delta? ==> chain[i].ts % 2 == 1)
    }

    constructor ()
      ensures Valid() && chain == []
    {
      chain := [];
    }

    /** `logrecord::apply`. */
    method Apply(r: Record)
      requires Valid() && r.ts % 2 == 0 && (r.Modify? ==> r.prev % 2 == 0)
      modifies this
      ensures chain == Applied(old(chain), r) && Valid()
    {
      hide Newer, Inserted, Cleaned;
      var n := Seek(r.ts);
      if n < |chain| && chain[n].ts >= r.ts {
        return;
      }
      Store(n, r);
      CleanUp();
    }

    /** Past the newer delta markers. */
    method Seek(ts: int) returns (n: nat)
      ensures n == Newer(chain, ts) && forall i :: 0 <= i < n ==> chain[i].Delta?
    {
      n := 0;
      while n < |chain| && chain[n].Delta? && chain[n].ts > ts
        invariant n <= |chain| && Newer(chain, ts) == n + Newer(chain[n..], ts)
        invariant forall i :: 0 <= i < n ==> chain[i].Delta?
      {
        assert chain[n..][1..] == chain[n + 1..];
        n := n + 1;
      }
    }

    /** A full write takes the place of everything older. A modify takes the place of the row that it
        is based on, and waits otherwise; its `prev` is a live timestamp, which no marker has. */
    method Store(n: nat, r: Record)
      requires Valid() && r.ts % 2 == 0 && (r.Modify? ==> r.prev % 2 == 0)
      requires n <= |chain| && forall i :: 0 <= i < n ==> chain[i].Delta?
      modifies this
      ensures chain == Inserted(old(chain), n, r) && Valid()
    {
      if !r.Modify? {
        ghost var kept := chain[..n];
        while n < |chain|
          invariant n <= |chain| && chain[..n] == kept
          decreases |chain|
        {
          chain := if chain[n].Delta? then chain[..n] + chain[n + 1..] else chain[..n];
        }
        chain := chain[..n] + [MakeRow(r)];
      } else if n < |chain| && chain[n].ts == r.prev {
        chain := chain[..n] + [Row(r.ts, Updated(chain[n].content, r.change))];
      } else {
        chain := chain[..n] + [Delta(r.ts + 1, r.prev, r.change)] + chain[n..];
      }
    }

    /** The last loop of `apply`. */
    method CleanUp()
      requires Valid()
      modifies this
      ensures chain == Cleaned(old(chain)) && Valid()
    {
      while chain != [] && chain[0].Delta?
        invariant Valid() && Cleaned(chain) == Cleaned(old(chain))
        decreases Deltas(chain)
      {
        var d := 0;
        while d < |chain| && chain[d].Delta?
          invariant d <= |chain| && forall i :: 0 <= i < d ==> chain[i].Delta?
        {
          d := d + 1;
        }
        DeltasIs(chain, d);
        if d < |chain| && chain[d - 1].prev == chain[d].ts {
          MergedDeltas(chain);
          assert chain[..d - 1] + [Row(chain[d - 1].ts - 1, Updated(chain[d].content, chain[d - 1].change))]
            == Merged(chain);
          chain := chain[..d - 1] + [Row(chain[d - 1].ts - 1, Updated(chain[d].content, chain[d - 1].change))];
        } else {
          break;
        }
      }
    }
  }

  // ----- a complete history -----

  /** The writes of one key in timestamp order: the first is a full write, and each modify was based
      on the write before it. */
  ghost predicate History(h: seq<Record>) {
    && h != [] && !h[0].Modify?
    && (forall i :: 0 <= i < |h| ==> h[i].ts % 2 == 0)
    && (forall i, j :: 0 <= i < j < |h| ==> h[i].ts < h[j].ts)
    && (forall i :: 0 < i < |h| && h[i].Modify? ==> h[i].prev == h[i - 1].ts)
  }

  /** The row after the first `n` writes, applied in timestamp order. */
  function InOrder(h: seq<Record>, n: nat): Content
    requires 0 < n <= |h| && !h[0].Modify?
  {
    var r := h[n - 1];
    if r.Put? then Created(r.change) else if r.Replace? then Whole(r.change) else Updated(InOrder(h, n - 1), r.change)
  }

  /** Where replay stands: the writes up to `top` are in the row if `base`, and `waiting` (descending)
      are the modifies that wait. */
  datatype Stand = Stand(base: bool, top: nat, waiting: seq<nat>)

  function Waits(h: seq<Record>, w: seq<nat>): (c: seq<Cell>)
    requires forall i :: 0 <= i < |w| ==> w[i] < |h| && h[w[i]].Modify?
    ensures |c| == |w|
  {
    seq(|w|, i requires 0 <= i < |w| => Delta(h[w[i]].ts + 1, h[w[i]].prev, h[w[i]].change))
  }

  ghost predicate StandOk(h: seq<Record>, s: Stand) {
    && History(h)
    && (s.base ==> s.top < |h|)
    && (forall i ::
        0 <= i < |s.waiting| ==> s.waiting[i] < |h| && h[s.waiting[i]].Modify? && (s.base ==> s.top < s.waiting[i]))
    && (forall i, j :: 0 <= i < j < |s.waiting| ==> s.waiting[j] < s.waiting[i])
  }

  function ChainOf(h: seq<Record>, s: Stand): seq<Cell>
    requires StandOk(h, s)
  {
    Waits(h, s.waiting) + if s.base then [Row(h[s.top].ts, InOrder(h, s.top + 1))] else []
  }

  /** Replay stands where it should after the writes `done`: the row holds the run of writes that
      starts at the newest full one, and the later writes wait. */
  ghost predicate Reached(h: seq<Record>, done: set<nat>, s: Stand) {
    && StandOk(h, s)
    && (forall i :: i in done ==> i < |h|)
    && (forall i :: i in s.waiting ==> i in done)
    && (s.base ==> s.top in done && s.top + 1 !in done)
    && (forall i :: i in done && i !in s.waiting ==> s.base && i <= s.top)
    && (s.base ==> exists m: nat :: FullRun(h, done, m, s.top))
    && (!s.base ==> forall i :: i in done ==> h[i].Modify?)
  }

  ghost predicate FullRun(h: seq<Record>, done: set<nat>, m: nat, top: nat)
    requires top < |h|
  {
    m <= top && !h[m].Modify? && forall i :: m <= i <= top ==> i in done
  }

  // ----- the clean-up absorbs a run -----

  function Absorbed(s: Stand): Stand
    decreases |s.waiting|
  {
    if s.base && s.waiting != [] && s.waiting[|s.waiting| - 1] == s.top + 1
    then Absorbed(Stand(true, s.top + 1, s.waiting[..|s.waiting| - 1]))
    else s
  }

  lemma ChainDeltas(h: seq<Record>, s: Stand)
    requires StandOk(h, s)
    ensures Deltas(ChainOf(h, s)) == |s.waiting|
  {
    DeltasIs(ChainOf(h, s), |s.waiting|);
  }

  lemma MergedIs(h: seq<Record>, s: Stand)
    requires StandOk(h, s) && s.base && s.waiting != [] && s.waiting[|s.waiting| - 1] == s.top + 1
    requires CanMerge(ChainOf(h, s))
    ensures var s' := Stand(true, s.top + 1, s.waiting[..|s.waiting| - 1]);
      StandOk(h, s') && Merged(ChainOf(h, s)) == ChainOf(h, s')
  {
    ChainDeltas(h, s);
    var n := |s.waiting|;
    WaitsTake(h, s.waiting, n - 1);
    var c := ChainOf(h, s);
    assert c[n - 1] == Delta(h[s.top + 1].ts + 1, h[s.top + 1].prev, h[s.top + 1].change)
      && c[n] == Row(h[s.top].ts, InOrder(h, s.top + 1));
    hide Waits, Deltas;
    assert c[..n - 1] == Waits(h, s.waiting)[..n - 1];
  }

  lemma {:induction false} CleanedIs(h: seq<Record>, s: Stand)
    requires StandOk(h, s)
    ensures StandOk(h, Absorbed(s)) && Cleaned(ChainOf(h, s)) == ChainOf(h, Absorbed(s))
    decreases |s.waiting|
  {
    ChainDeltas(h, s);
    var n := |s.waiting|;
    if s.base && n > 0 {
      var last := s.waiting[n - 1];
      assert ChainOf(h, s)[n - 1] == Delta(h[last].ts + 1, h[last - 1].ts, h[last].change);
      assert h[last - 1].ts == h[s.top].ts <==> last == s.top + 1;
      if last == s.top + 1 {
        var s' := Stand(true, s.top + 1, s.waiting[..n - 1]);
        MergedIs(h, s);
        CleanedIs(h, s');
      }
    }
  }

  lemma LeastIsLast(w: seq<nat>, x: nat)
    requires forall a, b :: 0 <= a < b < |w| ==> w[b] < w[a]
    ensures x in w ==> w[|w| - 1] <= x
  {
  }

  ghost predicate Descending(w: seq<nat>) {
    forall i, j :: 0 <= i < j < |w| ==> w[j] < w[i]
  }

  lemma Dropped(w: seq<nat>, x: nat)
    requires w != [] && w[|w| - 1] == x
    ensures forall i :: i in w <==> i in w[..|w| - 1] || i == x
  {
    assert w == w[..|w| - 1] + [x];
  }

  lemma LongerRun(h: seq<Record>, done: set<nat>, m: nat, top: nat)
    requires top + 1 < |h| && FullRun(h, done, m, top) && top + 1 in done
    ensures FullRun(h, done, m, top + 1)
  {
  }

  /** Absorbing keeps what has been done. */
  lemma {:induction false} AbsorbedReached(h: seq<Record>, done: set<nat>, s: Stand, m: nat)
    requires StandOk(h, s) && s.base && FullRun(h, done, m, s.top) && (forall i :: i in done ==> i < |h|)
    requires (forall i :: i in s.waiting ==> i in done) && forall i :: i in done && i !in s.waiting ==> i <= s.top
    ensures Reached(h, done, Absorbed(s))
    decreases |s.waiting|
  {
    var n := |s.waiting|;
    if s.top + 1 in done { LeastIsLast(s.waiting, s.top + 1); }
    if n > 0 && s.waiting[n - 1] == s.top + 1 {
      var s' := Stand(true, s.top + 1, s.waiting[..n - 1]);
      assert s.waiting[n - 1] in s.waiting;
      Dropped(s.waiting, s.top + 1);
      LongerRun(h, done, m, s.top);
      hide FullRun;
      AbsorbedReached(h, done, s', m);
    }
  }

  // ----- one more record -----

  /** How many waiting modifies are newer than write `i`. */
  function Above(w: seq<nat>, i: nat): (n: nat)
    ensures n <= |w| && (forall j :: 0 <= j < n ==> w[j] > i) && (n < |w| ==> w[n] <= i)
  {
    if w != [] && w[0] > i then 1 + Above(w[1..], i) else 0
  }

  lemma {:induction false} NewerIs(chain: seq<Cell>, ts: int, n: nat)
    requires n <= |chain| && (forall j :: 0 <= j < n ==> chain[j].Delta? && chain[j].ts > ts)
    requires n < |chain| ==> !(chain[n].Delta? && chain[n].ts > ts)
    ensures Newer(chain, ts) == n
    decreases n
  {
    if n > 0 { NewerIs(chain[1..], ts, n - 1); }
  }

  lemma Position(h: seq<Record>, s: Stand, i: nat)
    requires StandOk(h, s) && i < |h| && i !in s.waiting
    ensures Newer(ChainOf(h, s), h[i].ts) == Above(s.waiting, i)
  {
    var n, c := Above(s.waiting, i), ChainOf(h, s);
    forall j | 0 <= j < n ensures c[j].Delta? && c[j].ts > h[i].ts {
    }
    NewerIs(c, h[i].ts, n);
  }

  /** A full write newer than the row replaces it and everything older. */
  lemma FullApplied(h: seq<Record>, done: set<nat>, s: Stand, i: nat) returns (s': Stand)
    requires Reached(h, done, s) && i < |h| && i !in done && !h[i].Modify? && (s.base ==> s.top < i)
    ensures Reached(h, done + {i}, s') && Applied(ChainOf(h, s), h[i]) == ChainOf(h, s')
  {
    hide InOrder, Above;
    var n := Above(s.waiting, i);
    Position(h, s, i);
    var t := Stand(true, i, s.waiting[..n]);
    FullInserted(h, s, i);
    CleanedIs(h, t);
    StillWaiting(s.waiting, i);
    assert FullRun(h, done + {i}, i, i);
    assert forall j :: j in done && j > i ==> j in s.waiting;
    AbsorbedReached(h, done + {i}, t, i);
    s' := Absorbed(t);
  }

  lemma FullContent(h: seq<Record>, i: nat)
    requires History(h) && i < |h| && !h[i].Modify?
    ensures InOrder(h, i + 1) == if h[i].Put? then Created(h[i].change) else Whole(h[i].change)
  {
  }

  lemma FullInserted(h: seq<Record>, s: Stand, i: nat)
    requires StandOk(h, s) && i < |h| && i !in s.waiting && !h[i].Modify? && (s.base ==> s.top < i)
    ensures var n := Above(s.waiting, i);
      var t := Stand(true, i, s.waiting[..n]);
      && StandOk(h, t) && Inserted(ChainOf(h, s), n, h[i]) == ChainOf(h, t)
      && (n < |ChainOf(h, s)| ==> ChainOf(h, s)[n].ts < h[i].ts)
  {
    hide InOrder, Above;
    FullContent(h, i);
    var n := Above(s.waiting, i);
    WaitsTake(h, s.waiting, n);
    assert ChainOf(h, s)[..n] == Waits(h, s.waiting)[..n];
    if n < |s.waiting| { assert s.waiting[n] in s.waiting; }
  }

  lemma Descends(w: seq<nat>, n: nat, k: nat)
    requires (forall a, b :: 0 <= a < b < |w| ==> w[b] < w[a]) && k < |w|
    ensures n <= k ==> w[k] <= w[n]
  {
  }

  lemma StillWaiting(w: seq<nat>, i: nat)
    requires forall a, b :: 0 <= a < b < |w| ==> w[b] < w[a]
    ensures forall j :: j in w[..Above(w, i)] <==> j in w && j > i
  {
    var n := Above(w, i);
    forall j | j in w && j > i ensures j in w[..n] {
      var k :| 0 <= k < |w| && w[k] == j;
      Descends(w, n, k);
      assert w[..n][k] == j;
    }
  }

  /** A modify of the row's newest write is applied at once. */
  lemma NextApplied(h: seq<Record>, done: set<nat>, s: Stand, i: nat) returns (s': Stand)
    requires Reached(h, done, s) && i < |h| && i !in done && h[i].Modify? && s.base && i == s.top + 1
    ensures Reached(h, done + {i}, s') && Applied(ChainOf(h, s), h[i]) == ChainOf(h, s')
  {
    hide Above, InOrder, Inserted, ChainOf;
    Position(h, s, i);
    NextInserted(h, s, i);
    var t := s.(top := i);
    CleanedIs(h, t);
    var m: nat :| FullRun(h, done, m, s.top);
    assert FullRun(h, done + {i}, m, i);
    AbsorbedReached(h, done + {i}, t, m);
    s' := Absorbed(t);
  }

  lemma NextInserted(h: seq<Record>, s: Stand, i: nat)
    requires StandOk(h, s) && i < |h| && h[i].Modify? && s.base && i == s.top + 1 && i !in s.waiting
    ensures Above(s.waiting, i) == |s.waiting| && StandOk(h, s.(top := i))
    ensures var c := ChainOf(h, s);
      |s.waiting| < |c| && c[|s.waiting|].ts < h[i].ts && Inserted(c, |s.waiting|, h[i]) == ChainOf(h, s.(top := i))
  {
    hide Above, InOrder;
    var n := Above(s.waiting, i);
    assert n < |s.waiting| ==> s.waiting[n] in s.waiting;
    forall j | 0 <= j < |s.waiting| ensures i < s.waiting[j] {
      assert s.waiting[j] in s.waiting;
    }
    ModifyContent(h, i);
    assert ChainOf(h, s)[..n] == Waits(h, s.waiting);
  }

  lemma ModifyContent(h: seq<Record>, i: nat)
    requires History(h) && 0 < i < |h| && h[i].Modify?
    ensures InOrder(h, i + 1) == Updated(InOrder(h, i), h[i].change) && h[i].prev == h[i - 1].ts
  {
  }

  function WaitingWith(w: seq<nat>, n: nat, i: nat): (r: seq<nat>)
    requires n <= |w|
    ensures |r| == |w| + 1
    ensures forall a :: 0 <= a < |r| ==> r[a] == if a < n then w[a] else if a == n then i else w[a - 1]
  {
    w[..n] + [i] + w[n..]
  }

  /** Any other newer modify waits. */
  lemma WaitApplied(h: seq<Record>, done: set<nat>, s: Stand, i: nat) returns (s': Stand)
    requires Reached(h, done, s) && i < |h| && i !in done && h[i].Modify? && (s.base ==> s.top + 1 < i)
    ensures Reached(h, done + {i}, s') && Applied(ChainOf(h, s), h[i]) == ChainOf(h, s')
  {
    s' := s.(waiting := WaitingWith(s.waiting, Above(s.waiting, i), i));
    WaitReached(h, done, s, i, s');
    hide WaitingWith, Reached;
    Position(h, s, i);
    WaitOlder(h, s, i);
    WaitInserted(h, s, i, s');
    CleanedIs(h, s');
  }

  lemma WaitReached(h: seq<Record>, done: set<nat>, s: Stand, i: nat, s': Stand)
    requires Reached(h, done, s) && i < |h| && i !in done && h[i].Modify? && (s.base ==> s.top + 1 < i)
    requires s' == s.(waiting := WaitingWith(s.waiting, Above(s.waiting, i), i))
    ensures Reached(h, done + {i}, s') && Absorbed(s') == s' && i !in s.waiting && StandOk(h, s) && StandOk(h, s')
  {
    hide WaitingWith, InOrder, Above, History, Absorbed;
    StandParts(h, s);
    WaitingOrder(s.waiting, Above(s.waiting, i), i);
    WaitingMembers(s.waiting, Above(s.waiting, i), i);
    forall j | 0 <= j < |s'.waiting|
      ensures s'.waiting[j] in done + {i} && s'.waiting[j] < |h| && h[s'.waiting[j]].Modify?
    {
      assert s'.waiting[j] in s'.waiting;
    }
    if s.base {
      var m: nat :| FullRun(h, done, m, s.top);
      assert FullRun(h, done + {i}, m, s.top);
      assert s'.waiting[|s'.waiting| - 1] in s'.waiting;
    }
    NotAbsorbed(s');
  }

  lemma StandParts(h: seq<Record>, s: Stand)
    requires StandOk(h, s)
    ensures forall i :: i in s.waiting ==> i < |h| && h[i].Modify? && (s.base ==> s.top < i)
    ensures forall i, j :: 0 <= i < j < |s.waiting| ==> s.waiting[j] < s.waiting[i]
  {
  }

  lemma NotAbsorbed(s: Stand)
    requires s.base && s.waiting != [] ==> s.waiting[|s.waiting| - 1] != s.top + 1
    ensures Absorbed(s) == s
  {
  }

  /** Behind the newer waiting modifies everything is older. */
  lemma WaitOlder(h: seq<Record>, s: Stand, i: nat)
    requires StandOk(h, s) && i < |h| && i !in s.waiting && (s.base ==> s.top < i)
    ensures var n := Above(s.waiting, i); n < |ChainOf(h, s)| ==> ChainOf(h, s)[n].ts < h[i].ts
  {
    hide InOrder, Above, History;
    var n := Above(s.waiting, i);
    TimesIncrease(h);
    if n < |s.waiting| { assert s.waiting[n] in s.waiting; }
  }

  lemma TimesIncrease(h: seq<Record>)
    requires History(h)
    ensures forall i, j :: 0 <= i < j < |h| ==> h[i].ts + 1 < h[j].ts
  {
  }

  lemma WaitingOrder(w: seq<nat>, n: nat, i: nat)
    requires n == Above(w, i) && i !in w && forall a, b :: 0 <= a < b < |w| ==> w[b] < w[a]
    ensures forall a, b :: 0 <= a < b < |w| + 1 ==> WaitingWith(w, n, i)[b] < WaitingWith(w, n, i)[a]
  {
    var r := WaitingWith(w, n, i);
    hide WaitingWith;
    assert n < |w| ==> w[n] < i by { assert n < |w| ==> w[n] in w; }
    forall a, b | 0 <= a < b < |w| + 1 ensures r[b] < r[a] {
      if a == n { assert r[b] == w[b - 1] && (n < b - 1 ==> w[b - 1] < w[n]); }
    }
  }

  lemma WaitingMembers(w: seq<nat>, n: nat, i: nat)
    requires n <= |w|
    ensures forall x :: x in WaitingWith(w, n, i) <==> x in w || x == i
  {
    assert w == w[..n] + w[n..];
  }

  lemma WaitsTake(h: seq<Record>, w: seq<nat>, n: nat)
    requires (forall i :: 0 <= i < |w| ==> w[i] < |h| && h[w[i]].Modify?) && n <= |w|
    ensures Waits(h, w[..n]) == Waits(h, w)[..n]
  {
  }

  lemma WaitsWith(h: seq<Record>, w: seq<nat>, n: nat, i: nat)
    requires (forall j :: 0 <= j < |w| ==> w[j] < |h| && h[w[j]].Modify?) && n <= |w| && i < |h| && h[i].Modify?
    ensures Waits(h, WaitingWith(w, n, i))
      == Waits(h, w)[..n] + [Delta(h[i].ts + 1, h[i].prev, h[i].change)] + Waits(h, w)[n..]
  {
    var l, r := Waits(h, WaitingWith(w, n, i)),
      Waits(h, w)[..n] + [Delta(h[i].ts + 1, h[i].prev, h[i].change)] + Waits(h, w)[n..];
    assert |l| == |r|;
    forall a | 0 <= a < |l| ensures l[a] == r[a] {
    }
  }

  lemma Splice<T>(w: seq<T>, b: seq<T>, n: nat, d: T)
    requires n <= |w|
    ensures (w + b)[..n] + [d] + (w + b)[n..] == w[..n] + [d] + w[n..] + b
  {
  }

  /** The position where the marker goes is not the row the modify was based on. */
  lemma WaitMarker(h: seq<Record>, s: Stand, i: nat)
    requires StandOk(h, s) && i < |h| && h[i].Modify? && i !in s.waiting && (s.base ==> s.top + 1 < i)
    ensures var n, c := Above(s.waiting, i), ChainOf(h, s);
      Inserted(c, n, h[i]) == c[..n] + [Delta(h[i].ts + 1, h[i].prev, h[i].change)] + c[n..]
  {
    var n, c := Above(s.waiting, i), ChainOf(h, s);
    assert s.base && n == |s.waiting| ==> c[n].ts == h[s.top].ts < h[i - 1].ts == h[i].prev;
  }

  lemma WaitInserted(h: seq<Record>, s: Stand, i: nat, s': Stand)
    requires StandOk(h, s) && i < |h| && h[i].Modify? && i !in s.waiting && (s.base ==> s.top + 1 < i)
    requires s' == s.(waiting := WaitingWith(s.waiting, Above(s.waiting, i), i)) && StandOk(h, s')
    ensures Inserted(ChainOf(h, s), Above(s.waiting, i), h[i]) == ChainOf(h, s')
  {
    hide WaitingWith, Waits, Inserted;
    var n, b := Above(s.waiting, i), if s.base then [Row(h[s.top].ts, InOrder(h, s.top + 1))] else [];
    WaitMarker(h, s, i);
    WaitsWith(h, s.waiting, n, i);
    Splice(Waits(h, s.waiting), b, n, Delta(h[i].ts + 1, h[i].prev, h[i].change));
  }

  /** A write older than the newest full one in the row changes nothing. */
  lemma OldApplied(h: seq<Record>, done: set<nat>, s: Stand, i: nat)
    requires Reached(h, done, s) && i < |h| && i !in done && s.base && i < s.top
    ensures Reached(h, done + {i}, s) && Applied(ChainOf(h, s), h[i]) == ChainOf(h, s)
  {
    Position(h, s, i);
    assert Above(s.waiting, i) == |s.waiting|;
    var m: nat :| FullRun(h, done, m, s.top);
    assert FullRun(h, done + {i}, m, s.top);
  }

  lemma OneApplied(h: seq<Record>, done: set<nat>, s: Stand, i: nat) returns (s': Stand)
    requires Reached(h, done, s) && i < |h| && i !in done
    ensures Reached(h, done + {i}, s') && Applied(ChainOf(h, s), h[i]) == ChainOf(h, s')
  {
    if s.base && i < s.top {
      OldApplied(h, done, s, i);
      s' := s;
    } else if !h[i].Modify? {
      s' := FullApplied(h, done, s, i);
    } else if s.base && i == s.top + 1 {
      s' := NextApplied(h, done, s, i);
    } else {
      s' := WaitApplied(h, done, s, i);
    }
  }

  // ----- every order -----

  /** The records `h[order[0]]`, `h[order[1]]`, ... applied one after the other to nothing. */
  function AppliedAll(h: seq<Record>, order: seq<nat>): seq<Cell>
    requires forall k :: 0 <= k < |order| ==> order[k] < |h|
  {
    if order == [] then [] else Applied(AppliedAll(h, order[..|order| - 1]), h[order[|order| - 1]])
  }

  function Elements(order: seq<nat>): set<nat> {
    set k | k in order
  }

  lemma {:induction false} ReachedAll(h: seq<Record>, order: seq<nat>) returns (s: Stand)
    requires History(h) && (forall k :: 0 <= k < |order| ==> order[k] < |h|)
    requires forall j, k :: 0 <= j < k < |order| ==> order[j] != order[k]
    ensures Reached(h, Elements(order), s) && AppliedAll(h, order) == ChainOf(h, s)
    decreases |order|
  {
    hide Reached, ChainOf, Applied, History, Elements;
    if order == [] {
      s := Stand(false, 0, []);
      NothingReached(h);
    } else {
      var n := |order| - 1;
      var s0 := ReachedAll(h, order[..n]);
      ElementsSnoc(order);
      s := OneApplied(h, Elements(order[..n]), s0, order[n]);
    }
  }

  lemma NothingReached(h: seq<Record>)
    requires History(h)
    ensures var s := Stand(false, 0, []); Reached(h, Elements([]), s) && ChainOf(h, s) == []
  {
  }

  lemma ElementsSnoc(order: seq<nat>)
    requires order != [] && forall j, k :: 0 <= j < k < |order| ==> order[j] != order[k]
    ensures var n := |order| - 1;
      Elements(order) == Elements(order[..n]) + {order[n]} && order[n] !in Elements(order[..n])
  {
  }

  lemma FirstOf(w: seq<nat>)
    ensures w == [] || w[0] in w
  {
  }

  /** Whatever the order in which a complete history is replayed, each record once, the entry ends
      with the row that timestamp order gives and no delta marker is left. */
  lemma AnyOrder(h: seq<Record>, order: seq<nat>)
    requires History(h) && (forall k :: 0 <= k < |order| ==> order[k] < |h|)
    requires forall j, k :: 0 <= j < k < |order| ==> order[j] != order[k]
    requires forall i :: 0 <= i < |h| ==> i in order
    ensures AppliedAll(h, order) == [Row(h[|h| - 1].ts, InOrder(h, |h|))]
  {
    var s := ReachedAll(h, order);
    var done := Elements(order);
    assert 0 in done && |h| - 1 in done;
    FirstOf(s.waiting);
  }

  // ----- a record replayed twice -----

  /** A write that is in the row may be replayed again. A modify that waits may not: its marker is
      newer than the record, and a second marker is put behind it. */
  lemma ReplayedTwice(h: seq<Record>, done: set<nat>, s: Stand, i: nat)
    requires Reached(h, done, s) && i in done
    ensures Applied(ChainOf(h, s), h[i]) == ChainOf(h, s) <==> i !in s.waiting
  {
    var c := ChainOf(h, s);
    if i in s.waiting {
      var k: nat :| k < |s.waiting| && s.waiting[k] == i;
      WaitingTwice(h, s, i, k);
    } else {
      Position(h, s, i);
    }
  }

  /** A chain with a second copy of one of its delta markers. */
  lemma TwiceDeltas(c: seq<Cell>, n: nat, k: nat)
    requires k < n <= |c| && (forall i :: 0 <= i < n ==> c[i].Delta?) && (n < |c| ==> c[n].Row?)
    ensures var x := c[..k + 1] + [c[k]] + c[k + 1..];
      |x| == |c| + 1 && Deltas(x) == n + 1 && x[n] == c[n - 1] && (n < |c| ==> x[n + 1] == c[n])
  {
    var x := c[..k + 1] + [c[k]] + c[k + 1..];
    DeltasIs(x, n + 1);
  }

  /** The oldest waiting modify does not follow the row. */
  lemma OldestWaits(h: seq<Record>, s: Stand)
    requires StandOk(h, s) && s.base && s.waiting != [] && s.top + 1 !in s.waiting
    ensures ChainOf(h, s)[|s.waiting| - 1].prev != ChainOf(h, s)[|s.waiting|].ts
  {
    var last := s.waiting[|s.waiting| - 1];
    assert last in s.waiting;
    assert h[last - 1].ts != h[s.top].ts;
  }

  lemma TwiceApplied(c: seq<Cell>, n: nat, k: nat, r: Record)
    requires k < n <= |c| && (forall j :: 0 <= j < n ==> c[j].Delta?) && (n < |c| ==> c[n].Row?)
    requires r.Modify? && c[k] == Delta(r.ts + 1, r.prev, r.change) && Newer(c, r.ts) == k + 1
    requires k + 1 < |c| ==> c[k + 1].ts < r.ts && !(c[k + 1].Row? && c[k + 1].ts == r.prev)
    requires n < |c| ==> c[n - 1].prev != c[n].ts
    ensures |Applied(c, r)| == |c| + 1
  {
    TwiceDeltas(c, n, k);
    var x := Inserted(c, k + 1, r);
    assert x == c[..k + 1] + [c[k]] + c[k + 1..];
    hide Inserted, Deltas;
    assert !CanMerge(x);
  }

  lemma WaitingTwice(h: seq<Record>, s: Stand, i: nat, k: nat)
    requires StandOk(h, s) && k < |s.waiting| && s.waiting[k] == i && (s.base ==> s.top + 1 !in s.waiting)
    ensures |Applied(ChainOf(h, s), h[i])| == |ChainOf(h, s)| + 1
  {
    var c := ChainOf(h, s);
    forall j | 0 <= j <= k ensures c[j].Delta? && c[j].ts > h[i].ts {
    }
    TwicePlace(h, s, i, k);
    NewerIs(c, h[i].ts, k + 1);
    if s.base { OldestWaits(h, s); }
    TwiceApplied(c, |s.waiting|, k, h[i]);
  }

  lemma TwicePlace(h: seq<Record>, s: Stand, i: nat, k: nat)
    requires StandOk(h, s) && k < |s.waiting| && s.waiting[k] == i && (s.base ==> s.top + 1 !in s.waiting)
    ensures var c := ChainOf(h, s);
      && c[k] == Delta(h[i].ts + 1, h[i].prev, h[i].change) && h[i].Modify?
      && (k + 1 < |c| ==> c[k + 1].ts < h[i].ts && !(c[k + 1].Row? && c[k + 1].ts == h[i].prev))
  {
    assert s.waiting[k] in s.waiting;
    if k + 1 < |s.waiting| { assert s.waiting[k + 1] in s.waiting; }
    assert s.base ==> h[i - 1].ts != h[s.top].ts;
  }
}
