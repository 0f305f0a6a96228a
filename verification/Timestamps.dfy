/** Row timestamps and phantom epochs (kvrow.hh, kvthread.hh): the timestamps given to the writes of
    one key go up, even if the key was removed and its leaf deleted in between.

    A leaf is its set of keys, present or not: a split or a new layer gives some of a leaf's keys to a
    new leaf, and a deletion or the collection of a layer gives all of them to another. Each operation
    runs under its leaf's lock, as one step. */
module Timestamps {
  type Key = int
  type LeafId = nat
  type Tid = nat

  /** A row, or a marker left by replay in the place of a removed row. */
  datatype Row = Row(ts: int, marker: bool)

  /** `owner`: the leaf responsible for each key; `phantom`: the leaves' phantom epochs; `clock`: the
      threads' `ts_`; `last` (history): the timestamp of the last write of each key ever written. */
  datatype State = State(rows: map<Key, Row>, owner: Key -> LeafId, phantom: map<LeafId, int>, clock: map<Tid, int>,
                         last: map<Key, int>)

  // ----- the thread's clock -----

  /** `update_timestamp(x)`: past `x`, and even if the clock was. */
  function NextTimestamp(ts: int, x: int): (r: int)
    ensures ts <= r && x < r && (ts % 2 == 0 ==> r % 2 == 0)
  {
    if ts <= x then (if x % 2 == 0 then x + 1 else x) + 1 else ts
  }

  /** Timestamp `e` may follow the clock of a thread and an older timestamp `x` that it is to be above:
      it is even, as markers' are odd. */
  predicate Follows(e: int, ts: int, x: int) {
    e % 2 == 0 && ts <= e && x < e
  }

  ghost predicate LeastFollowing(e: int, ts: int, x: int) {
    Follows(e, ts, x) && forall d :: Follows(d, ts, x) ==> e <= d
  }

  /** From an even clock, `update_timestamp` gives the least timestamp that will do. */
  lemma NextIsLeast(ts: int, x: int)
    requires ts % 2 == 0
    ensures LeastFollowing(NextTimestamp(ts, x), ts, x)
  {
  }

  lemma ObservedIsLeast(ts: int, phantom: int)
    requires ts % 2 == 0 && phantom % 2 == 0
    ensures LeastFollowing(Observed(ts, phantom), ts, phantom - 1)
  {
  }

  /** `observe_phantoms`. */
  function Observed(ts: int, phantom: int): int {
    if ts < phantom then phantom else ts
  }

  /** The timestamp of a put or replace by a thread whose clock is `ts`. */
  function PutTime(s: State, k: Key, ts: int): int
    requires s.owner(k) in s.phantom && ts % 2 == 0
  {
    if k in s.rows then NextTimestamp(ts, s.rows[k].ts) else Observed(ts, s.phantom[s.owner(k)])
  }

  // ----- steps -----

  datatype Event =
    | Put(t: Tid, k: Key)
    | Remove(t: Tid, k: Key)
    | ReplayRemove(k: Key, ts: int)
    | Split(l: LeafId, nl: LeafId, moved: Key -> bool)
    | Merge(l: LeafId, into: LeafId)
    | NewThread(t: Tid)

  ghost predicate Step(s: State, e: Event, s': State)
    requires Valid(s)
  {
    match e
    case Put(t, k) =>
      t in s.clock && KeyOk(s, k)
      && var ts := PutTime(s, k, s.clock[t]);
         s' == s.(rows := s.rows[k := Row(ts, false)], clock := s.clock[t := ts], last := s.last[k := ts])
    case Remove(t, k) =>
      t in s.clock && k in s.rows && KeyOk(s, k) && s' == Removed(s, t, k)
    case ReplayRemove(k, ts) =>
      // `logrecord::run`, before live operation: a removal record writes a marker over an older row
      ts % 2 == 1 && (if k in s.rows then s.rows[k].ts < ts else k !in s.last)
      && s' == s.(rows := s.rows[k := Row(ts, true)], last := s.last[k := ts])
    case Split(l, nl, moved) =>
      l in s.phantom && nl !in s.phantom
      && s' == s.(owner := (k: Key) => if s.owner(k) == l && moved(k) then nl else s.owner(k),
                  phantom := s.phantom[nl := s.phantom[l]])
    case Merge(l, into) =>
      l in s.phantom && into in s.phantom && l != into && (forall k :: k in s.rows ==> s.owner(k) != l)
      && s' == s.(owner := (k: Key) => if s.owner(k) == l then into else s.owner(k),
                  phantom := s.phantom[into := Observed(s.phantom[into], s.phantom[l])] - {l})
    case NewThread(t) => t !in s.clock && s' == s.(clock := s.clock[t := 2])
  }

  /** `apply_remove`: the row goes, and the leaf's phantom epoch is kept above the removal. */
  function Removed(s: State, t: Tid, k: Key): State
    requires t in s.clock && s.clock[t] % 2 == 0 && k in s.rows && s.owner(k) in s.phantom
  {
    var ts := NextTimestamp(s.clock[t], s.rows[k].ts);
    var l := s.owner(k);
    State(s.rows - {k}, s.owner, if s.phantom[l] <= ts then s.phantom[l := ts + 2] else s.phantom,
          s.clock[t := ts], s.last[k := ts])
  }

  ghost predicate KeyOk(s: State, k: Key) {
    && s.owner(k) in s.phantom
    && (k in s.rows ==> k in s.last && s.rows[k].ts == s.last[k] && (s.rows[k].marker <==> s.last[k] % 2 == 1))
    && (k !in s.rows && k in s.last ==> s.last[k] < s.phantom[s.owner(k)])
  }

  /** The leaf responsible for a removed key has a phantom epoch above the removal. Clocks and phantom
      epochs are even. */
  ghost predicate Valid(s: State) {
    && (forall k {:trigger KeyOk(s, k)} :: KeyOk(s, k))
    && (forall l :: l in s.phantom ==> s.phantom[l] % 2 == 0)
    && (forall t :: t in s.clock ==> s.clock[t] % 2 == 0)
  }

  ghost predicate Init(s: State) {
    s.rows == map[] && s.last == map[] && s.phantom == map[0 := 0] && s.clock == map[] && forall k :: s.owner(k) == 0
  }

  lemma InitOk(s: State)
    requires Init(s)
    ensures Valid(s)
  {
  }

  lemma StepKey(s: State, e: Event, s': State, k: Key)
    requires Valid(s) && Step(s, e, s')
    ensures KeyOk(s', k) && (k in s.last ==> k in s'.last && s.last[k] <= s'.last[k])
  {
    assert KeyOk(s, k);
    if e.Put? || e.Remove? || e.ReplayRemove? { assert KeyOk(s, e.k); }
    hide Valid;
  }

  /** Every step keeps this, and gives a written key a newer timestamp. */
  lemma StepKeeps(s: State, e: Event, s': State)
    requires Valid(s) && Step(s, e, s')
    ensures Valid(s')
    ensures forall k :: k in s.last ==> k in s'.last && s.last[k] <= s'.last[k]
    ensures e.Put? || e.Remove? || e.ReplayRemove? ==> e.k in s'.last && (e.k in s.last ==> s.last[e.k] < s'.last[e.k])
    ensures e.Put? || e.Remove? ==> s'.last[e.k] % 2 == 0
  {
    forall k ensures KeyOk(s', k) && (k in s.last ==> k in s'.last && s.last[k] <= s'.last[k]) {
      StepKey(s, e, s', k);
    }
    if e.Put? || e.Remove? || e.ReplayRemove? { assert KeyOk(s, e.k); }
  }

  // ----- every run -----

  ghost predicate Run(run: seq<State>, events: seq<Event>) {
    && |run| == |events| + 1 && Init(run[0])
    && forall i :: 0 <= i < |events| ==> Valid(run[i]) ==> Step(run[i], events[i], run[i + 1])
  }

  predicate Writes(e: Event, k: Key) {
    (e.Put? || e.Remove? || e.ReplayRemove?) && e.k == k
  }

  lemma {:induction false} RunKeeps(run: seq<State>, events: seq<Event>, i: nat)
    requires Run(run, events) && i < |run|
    ensures Valid(run[i])
  {
    if i == 0 {
      InitOk(run[0]);
    } else {
      RunKeeps(run, events, i - 1);
      StepKeeps(run[i - 1], events[i - 1], run[i]);
    }
  }

  lemma {:induction false} LastGrows(run: seq<State>, events: seq<Event>, i: nat, j: nat, k: Key)
    requires Run(run, events) && i <= j < |run| && k in run[i].last
    ensures k in run[j].last && run[i].last[k] <= run[j].last[k]
  {
    if i < j {
      LastGrows(run, events, i, j - 1, k);
      RunKeeps(run, events, j - 1);
      StepKeeps(run[j - 1], events[j - 1], run[j]);
    }
  }

  /** Over any run, two writes of the same key get strictly increasing timestamps. */
  lemma TimestampsIncrease(run: seq<State>, events: seq<Event>, i: nat, j: nat, k: Key)
    requires Run(run, events) && i < j < |events| && Writes(events[i], k) && Writes(events[j], k)
    ensures k in run[i + 1].last && k in run[j + 1].last && run[i + 1].last[k] < run[j + 1].last[k]
  {
    RunKeeps(run, events, i);
    RunKeeps(run, events, j);
    StepKeeps(run[i], events[i], run[i + 1]);
    LastGrows(run, events, i + 1, j, k);
    StepKeeps(run[j], events[j], run[j + 1]);
  }

  // ----- the operations as they run -----

  /** The rows and leaves of a table and the clock of the thread that works on it. */
  class Table {
    var rows: map<Key, Row>
    var owner: Key -> LeafId
    var phantom: map<LeafId, int>
    var clock: map<Tid, int>
    ghost var last: map<Key, int>

    ghost function S(): State
      reads this
    {
      State(rows, owner, phantom, clock, last)
    }

    /** `run_put` and `run_replace`, as far as timestamps go. */
    method Write(t: Tid, k: Key) returns (ts: int)
      requires Valid(S()) && t in clock
      modifies this`rows, this`clock, this`last
      ensures Step(old(S()), Put(t, k), S()) && Valid(S())
      ensures ts == rows[k].ts && (k in old(last) ==> old(last[k]) < ts)
      ensures clock == old(clock)[t := ts] && LeastFollowing(ts, old(clock[t]),
        if k in old(rows) then old(rows[k].ts) else phantom[owner(k)] - 1)
    {
      ghost var s := S();
      assert KeyOk(s, k);
      var found := k in rows;
      if !found {
        if clock[t] < phantom[owner(k)] {
          clock := clock[t := phantom[owner(k)]];
        }
        ts := clock[t];
      } else {
        if clock[t] <= rows[k].ts {
          clock := clock[t := (if rows[k].ts % 2 == 0 then rows[k].ts + 1 else rows[k].ts) + 1];
        }
        ts := clock[t];
      }
      rows := rows[k := Row(ts, false)];
      last := last[k := ts];
      assert clock == s.clock[t := ts];
      StepKeeps(s, Put(t, k), S());
    }

    /** `run_remove` and `apply_remove`. */
    method Delete(t: Tid, k: Key) returns (found: bool)
      requires Valid(S()) && t in clock
      modifies this`rows, this`phantom, this`clock, this`last
      ensures found == (k in old(rows)) && Valid(S())
      ensures if found then Step(old(S()), Remove(t, k), S()) else S() == old(S())
    {
      ghost var s := S();
      found := k in rows;
      if found {
        assert KeyOk(s, k);
        if clock[t] <= rows[k].ts {
          clock := clock[t := (if rows[k].ts % 2 == 0 then rows[k].ts + 1 else rows[k].ts) + 1];
        }
        var ts := clock[t];
        if phantom[owner(k)] <= ts {
          phantom := phantom[owner(k) := ts + 2];
        }
        rows := rows - {k};
        last := last[k := ts];
        assert clock == s.clock[t := ts];
        StepKeeps(s, Remove(t, k), S());
      }
    }
  }
}
