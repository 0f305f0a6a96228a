/** Timestamps of rows in the tree (kvrow.hh:151-265, kvthread.hh:128-140): over any run of puts,
    removals and collections of layers on the trie itself, with its leaf splits, new layers and leaf
    deletions, the writes of each key get increasing timestamps. One thread runs these, on behalf of
    threads with clocks of their own; `PhantomEpochs` has the operations side by side. */
module TimedTrie {
  import opened Key
  import opened LayerForest
  import opened LayerPaths
  import opened LayerTree
  import opened KeyTrie
  import opened NodeStore
  import Timestamps

  type Tid = Timestamps.Tid

  /** The least even timestamp from the thread's clock on that is above `x`. */
  ghost predicate Least(ts: int, clock: int, x: int) {
    Timestamps.LeastFollowing(ts, clock, x)
  }

  ghost predicate AllEven(s: iset<int>) {
    forall v :: v in s ==> v % 2 == 0
  }

  lemma EvenIn(s: iset<int>, ts: int, v: int)
    requires AllEven(s) && ts % 2 == 0 && v in s + iset{ts + 2}
    ensures v % 2 == 0
  {
  }

  lemma NothingToRemove(trie: Trie<int>, k: Bytes)
    requires trie.Valid() && k !in trie.Map()
    ensures trie.Map() - {k} == trie.Map()
  {
  }

  /** The rows are their timestamps. `last` (history): the timestamp of the last write of each key ever
      written, which may be a removal. */
  class Table {
    var trie: Trie<int>
    var clock: map<Tid, int>
    ghost var last: map<Bytes, int>

    /** A row has the timestamp of the last write. A removed key's leaf has a phantom epoch above it. Both
        are even. */
    ghost predicate KeyOk(k: Bytes)
      requires trie.Valid()
      reads this, trie, trie.layers.Values
    {
      && (k in trie.Map() ==> k in last && trie.Map()[k] == last[k])
      && (k !in trie.Map() && k in last ==> last[k] < trie.EpochOf(k))
      && (k in last ==> last[k] % 2 == 0) && trie.EpochOf(k) % 2 == 0
    }

    ghost predicate Valid()
      reads this, trie, trie.layers.Values
    {
      trie.Valid() && (forall k {:trigger KeyOk(k)} :: KeyOk(k)) && forall t :: t in clock ==> clock[t] % 2 == 0
    }

    constructor (threads: map<Tid, int>)
      requires forall t :: t in threads ==> threads[t] % 2 == 0
      ensures Valid() && trie.Map() == imap[] && clock == threads && fresh(trie) && fresh(trie.layers.Values)
    {
      hide WF, Contents, Reach, Layer.Valid, Layer.Sound, Layer.View, Trie.Valid, Trie.EpochOf, Trie.Map;
      trie := new Trie<int>();
      clock, last := threads, map[];
    }

    lemma EvenEpochs()
      requires trie.Valid() && forall k {:trigger KeyOk(k)} :: KeyOk(k)
      ensures AllEven(trie.Epochs())
    {
      hide Trie.Valid, Trie.EpochOf;
      forall v | v in trie.Epochs() ensures v % 2 == 0 {
        var k :| trie.EpochOf(k) == v;
        assert KeyOk(k);
      }
    }

    /** `run_put` and `run_replace`. */
    method Put(t: Tid, k: Bytes) returns (ts: int)
      requires Valid() && t in clock
      modifies this`clock, this`last, trie, trie.layers.Values
      ensures Valid() && trie.Map() == old(trie.Map())[k := ts] && last == old(last)[k := ts]
      ensures clock == old(clock)[t := ts] && (k in old(last) ==> old(last[k]) < ts)
      ensures Least(ts, old(clock[t]), if k in old(trie.Map()) then old(trie.Map()[k]) else old(trie.EpochOf(k)) - 1)
      ensures fresh(trie.layers.Values - old(trie.layers.Values))
    {
      hide WF, Contents, Reach, Layer.Valid, Layer.Sound, Layer.View, Trie.Valid, Trie.EpochOf, Trie.Map;
      assert KeyOk(k);
      var row := trie.Get(k);
      if row.Some? {
        ts := Timestamps.NextTimestamp(clock[t], row.value);
        Timestamps.NextIsLeast(clock[t], row.value);
      } else {
        var e := trie.Epoch(k);
        ts := Timestamps.Observed(clock[t], e);
        Timestamps.ObservedIsLeast(clock[t], e);
      }
      clock, last := clock[t := ts], last[k := ts];
      var found := trie.Put(k, ts);
      forall j ensures KeyOk(j) {
        assert old(KeyOk(j)) && trie.EpochOf(j) == old(trie.EpochOf(j));
      }
    }

    /** `run_remove`. */
    method Remove(t: Tid, k: Bytes) returns (ts: Option<int>)
      requires Valid() && t in clock
      modifies this`clock, this`last, trie, trie.layers.Values
      ensures Valid() && trie.Map() == old(trie.Map()) - {k} && ts.Some? == (k in old(trie.Map()))
      ensures last == (if ts.Some? then old(last)[k := ts.value] else old(last))
      ensures clock == (if ts.Some? then old(clock)[t := ts.value] else old(clock))
      ensures ts.Some? && k in old(last) ==> old(last[k]) < ts.value
      ensures ts.Some? ==> Least(ts.value, old(clock[t]), old(trie.Map()[k]))
      ensures trie.layers == old(trie.layers)
    {
      hide WF, Contents, Reach, Layer.Valid, Layer.Sound, Layer.View, Trie.Valid, Trie.EpochOf, Trie.Map;
      hide Trie.Epochs, Trie.InFirstLeaf, Trie.LayerOf, Trie.Missed, Noted, NewlyMissed, Unregistered, AllEven;
      assert KeyOk(k);
      var row := trie.Get(k);
      if row == None {
        NothingToRemove(trie, k);
        return None;
      }
      ghost var was := trie.Epochs();
      EvenEpochs();
      ts := Some(Timestamps.NextTimestamp(clock[t], row.value));
      Timestamps.NextIsLeast(clock[t], row.value);
      clock, last := clock[t := ts.value], last[k := ts.value];
      var found := trie.Remove(k, ts.value);
      forall j ensures KeyOk(j) {
        assert old(KeyOk(j)) && trie.EpochOf(j) >= old(trie.EpochOf(j));
        EvenIn(was, ts.value, trie.EpochOf(j));
      }
    }

    /** The collection of a layer writes no row. */
    method Collect(before: Bytes)
      requires Valid()
      modifies trie, trie.layers.Values
      ensures Valid() && trie.Map() == old(trie.Map()) && trie.layers.Values <= old(trie.layers.Values)
    {
      hide WF, Contents, Reach, Layer.Valid, Layer.Sound, Layer.View, Trie.Valid, Trie.EpochOf, Trie.Map;
      if before in trie.collectable {
        ghost var was := trie.Epochs();
        EvenEpochs();
        ghost var c, m, x := trie.Collect(before);
        forall j ensures KeyOk(j) {
          assert old(KeyOk(j)) && trie.EpochOf(j) >= old(trie.EpochOf(j));
          EvenIn(was, 0, trie.EpochOf(j));
        }
      }
    }
  }

  datatype Op = PutKey(t: Tid, k: Bytes) | RemoveKey(t: Tid, k: Bytes) | CollectLayer(before: Bytes)

  /** A write: a put, a replace or the removal of a row. */
  datatype Write = Write(k: Bytes, ts: int)

  /** Each key's writes have increasing timestamps. */
  ghost predicate Increasing(log: seq<Write>) {
    forall i, j :: 0 <= i < j < |log| && log[i].k == log[j].k ==> log[i].ts < log[j].ts
  }

  /** No write in the log is newer than the key's last, and none has a marker's timestamp. */
  ghost predicate UpTo(log: seq<Write>, last: map<Bytes, int>) {
    forall i :: 0 <= i < |log| ==> log[i].k in last && log[i].ts <= last[log[i].k] && log[i].ts % 2 == 0
  }

  /** No clock goes back. */
  ghost predicate Onward(clock: map<Tid, int>, clock': map<Tid, int>) {
    clock'.Keys == clock.Keys && forall t :: t in clock ==> clock[t] <= clock'[t]
  }

  function KeysOf(log: seq<Write>): (r: seq<Bytes>)
    ensures |r| == |log|
  {
    seq(|log|, i requires 0 <= i < |log| => log[i].k)
  }

  /** The keys that hold a row after some operations, and those written, write by write. */
  datatype Outcome = Outcome(held: iset<Bytes>, written: seq<Bytes>)

  /** A put writes; so does a removal that finds a row. */
  ghost function Apply(o: Outcome, op: Op): Outcome {
    match op
    case PutKey(_, k) => Outcome(o.held + iset{k}, o.written + [k])
    case RemoveKey(_, k) => if k in o.held then Outcome(o.held - iset{k}, o.written + [k]) else o
    case CollectLayer(_) => o
  }

  ghost function After(held: iset<Bytes>, ops: seq<Op>): Outcome {
    if ops == [] then Outcome(held, []) else Apply(After(held, ops[..|ops| - 1]), ops[|ops| - 1])
  }

  lemma Logged(log: seq<Write>, last: map<Bytes, int>, w: Write)
    requires Increasing(log) && UpTo(log, last) && (w.k in last ==> last[w.k] < w.ts) && w.ts % 2 == 0
    ensures Increasing(log + [w]) && UpTo(log + [w], last[w.k := w.ts])
    ensures KeysOf(log + [w]) == KeysOf(log) + [w.k]
  {
  }

  lemma NothingLogged(last: map<Bytes, int>)
    ensures Increasing([]) && UpTo([], last) && KeysOf([]) == []
  {
  }

  /** One operation, and what it adds to the log. */
  method Do(b: Table, op: Op, log: seq<Write>) returns (more: seq<Write>)
    requires b.Valid() && Increasing(log) && UpTo(log, b.last) && (!op.CollectLayer? ==> op.t in b.clock)
    modifies b`clock, b`last, b.trie, b.trie.layers.Values
    ensures b.Valid() && Increasing(more) && UpTo(more, b.last) && Onward(old(b.clock), b.clock)
    ensures fresh(b.trie.layers.Values - old(b.trie.layers.Values))
    ensures Outcome(b.trie.Map().Keys, KeysOf(more)) == Apply(Outcome(old(b.trie.Map().Keys), KeysOf(log)), op)
  {
    hide Table.Valid, Increasing, UpTo, KeysOf, WF, Contents;
    more := log;
    ghost var last := b.last;
    match op
    case PutKey(t, k) =>
      var ts := b.Put(t, k);
      Logged(log, last, Write(k, ts));
      more := log + [Write(k, ts)];
    case RemoveKey(t, k) =>
      var ts := b.Remove(t, k);
      if ts.Some? {
        Logged(log, last, Write(k, ts.value));
        more := log + [Write(k, ts.value)];
      }
    case CollectLayer(before) =>
      b.Collect(before);
  }

  /** Whatever is done, by whichever threads, the timestamps of each key's writes increase, and the
      table ends with each key's last write as its last. */
  method Run(b: Table, ops: seq<Op>) returns (log: seq<Write>)
    requires b.Valid() && forall i :: 0 <= i < |ops| && !ops[i].CollectLayer? ==> ops[i].t in b.clock
    modifies b`clock, b`last, b.trie, b.trie.layers.Values
    ensures b.Valid() && Increasing(log) && UpTo(log, b.last) && Onward(old(b.clock), b.clock)
    ensures Outcome(b.trie.Map().Keys, KeysOf(log)) == After(old(b.trie.Map().Keys), ops)
  {
    hide Layer.Valid, Layer.Sound, Holds, Increasing, UpTo, KeysOf, WF, Contents;
    log := [];
    NothingLogged(b.last);
    assert ops[..0] == [];
    for i := 0 to |ops|
      invariant b.Valid() && Increasing(log) && UpTo(log, b.last) && Onward(old(b.clock), b.clock)
      invariant b.trie == old(b.trie) && fresh(b.trie.layers.Values - old(b.trie.layers.Values))
      invariant Outcome(b.trie.Map().Keys, KeysOf(log)) == After(old(b.trie.Map().Keys), ops[..i])
    {
      log := Do(b, ops[i], log);
      assert ops[..i + 1][..i] == ops[..i];
    }
    assert ops[..|ops|] == ops;
  }
}
