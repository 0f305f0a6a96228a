/** Whole runs of the trie: any sequence of gets, puts, removals and delayed layer collections answers
    and ends as the same operations on a plain map do. */
module TrieRun {
  import opened NodeStore
  import opened Key
  import opened LayerForest
  import opened LayerTree
  import opened KeyTrie

  datatype Op<V> =
    | GetKey(k: Bytes)
    | PutKey(k: Bytes, v: V)
    | RemoveKey(k: Bytes, ts: int)
    | CollectLayer(before: Bytes)

  /** What an operation returns: a get the value it found, a put and a removal whether the key was
      there. */
  datatype Answer<V> = Got(value: Option<V>) | Was(there: bool) | Nothing

  /** The plain map after some operations, and what they answered. */
  datatype Outcome<V> = Outcome(m: imap<Bytes, V>, answers: seq<Answer<V>>)

  /** One operation on the plain map. A collection is none. */
  ghost function Apply<V>(o: Outcome<V>, op: Op<V>): Outcome<V> {
    match op
    case GetKey(k) => Outcome(o.m, o.answers + [Got(if k in o.m then Some(o.m[k]) else None)])
    case PutKey(k, v) => Outcome(o.m[k := v], o.answers + [Was(k in o.m)])
    case RemoveKey(k, _) => Outcome(o.m - {k}, o.answers + [Was(k in o.m)])
    case CollectLayer(_) => Outcome(o.m, o.answers + [Nothing])
  }

  ghost function After<V>(m: imap<Bytes, V>, ops: seq<Op<V>>): (o: Outcome<V>)
    ensures |o.answers| == |ops|
  {
    if ops == [] then Outcome(m, []) else Apply(After(m, ops[..|ops| - 1]), ops[|ops| - 1])
  }

  /** One operation on the trie. A collection that was not asked for, or was done, does nothing. */
  method Do<V>(t: Trie<V>, op: Op<V>) returns (a: Answer<V>)
    requires t.Valid()
    modifies t, t.layers.Values
    ensures t.Valid() && fresh(t.layers.Values - old(t.layers.Values))
    ensures Outcome(t.Map(), [a]) == Apply(Outcome(old(t.Map()), []), op)
  {
    hide WF, Contents, Holds, Layer.Valid, Layer.Sound, Layer.View;
    match op
    case GetKey(k) =>
      var v := t.Get(k);
      a := Got(v);
    case PutKey(k, v) =>
      var there := t.Put(k, v);
      a := Was(there);
    case RemoveKey(k, ts) =>
      var there := t.Remove(k, ts);
      a := Was(there);
    case CollectLayer(before) =>
      if before in t.collectable {
        ghost var c, m, x := t.Collect(before);
      }
      a := Nothing;
  }

  method Run<V>(t: Trie<V>, ops: seq<Op<V>>) returns (answers: seq<Answer<V>>)
    requires t.Valid()
    modifies t, t.layers.Values
    ensures t.Valid() && fresh(t.layers.Values - old(t.layers.Values))
    ensures Outcome(t.Map(), answers) == After(old(t.Map()), ops)
  {
    hide WF, Contents, Holds, Layer.Valid, Layer.Sound, Layer.View;
    answers := [];
    assert ops[..0] == [];
    for i := 0 to |ops|
      invariant t.Valid() && fresh(t.layers.Values - old(t.layers.Values))
      invariant Outcome(t.Map(), answers) == After(old(t.Map()), ops[..i])
    {
      var a := Do(t, ops[i]);
      answers := answers + [a];
      assert ops[..i + 1][..i] == ops[..i];
    }
    assert ops[..|ops|] == ops;
  }
}
