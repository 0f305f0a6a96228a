/** What scans in both directions share (masstree_scan.hh): the stack of layers above the current one,
    and the way down to the first key. */
module ScanStack {
  import opened NodeStore
  import opened Key
  import opened LayerForest
  import opened LayerPaths
  import opened LayerTree
  import opened KeyTrie
  import opened LayerScan
  import opened ScanOrder

  /** A layer that the scan has left for one below it, and the leaf it stood in (`node_stack_`). */
  datatype Frame = Frame(m: Ptr, n: Ptr)

  predicate Visited<V>(out: seq<(Bytes, V)>, j: Bytes) {
    exists i :: 0 <= i < |out| && out[i].0 == j
  }

  lemma FewerLeft(all: set<Ptr>, been: set<Ptr>, c: Ptr)
    requires c in all && c !in been
    ensures |all - (been + {c})| < |all - been|
  {
    assert all - been == (all - (been + {c})) + {c};
  }

  /** The visitor went on after each key but the last. */
  predicate Shown<V>(out: seq<(Bytes, V)>, go: seq<(Bytes, V)> -> bool) {
    forall i :: 0 < i < |out| ==> go(out[..i])
  }

  lemma ShownFirst<V>(out: seq<(Bytes, V)>, go: seq<(Bytes, V)> -> bool)
    requires |out| <= 1
    ensures Shown(out, go)
  {
  }

  lemma ShownMore<V>(out: seq<(Bytes, V)>, x: (Bytes, V), go: seq<(Bytes, V)> -> bool)
    requires Shown(out, go) && (out != [] ==> go(out))
    ensures Shown(out + [x], go)
  {
    assert (out + [x])[..|out|] == out;
    assert forall i :: 0 <= i < |out| ==> (out + [x])[..i] == out[..i];
  }

  /** Each frame's leaf is the one with the link to the next layer. */
  ghost predicate StackOk<V>(t: Trie<V>, stack: seq<Frame>, m: Ptr)
    requires t.Valid()
    reads t, t.layers.Values
    decreases |stack|
  {
    if stack == [] then m == t.root
    else
      var top := stack[|stack| - 1];
      && m in t.prefix && t.prefix[m] != [] && top.m in t.layers
      && var x := t.prefix[m][|t.prefix[m]| - 1];
      && EntryKey(x, SLICE + 1) in t.views[top.m] && t.views[top.m][EntryKey(x, SLICE + 1)] == Link(m)
      && InLeaf(t.layers[top.m], top.n, x) && StackOk(t, stack[..|stack| - 1], top.m)
  }

  lemma RootLayer<V>(t: Trie<V>)
    requires t.Valid()
    ensures WF(t.F()) && t.root in t.layers && t.root in t.prefix && t.root in t.views && Flat(t.prefix[t.root]) == []
  {
  }

  lemma HeldIn<V>(t: Trie<V>, m: Ptr)
    requires t.Valid() && m in t.layers
    ensures m in t.views && m in t.prefix && t.layers[m].Valid() && t.layers[m].View() == t.views[m]
  {
    assert Holds(t.layers[m], t.views[m]);
  }

  /** A link under the entry of `rest`. */
  lemma FirstLink<V>(t: Trie<V>, m: Ptr, pre: Bytes, rest: Bytes, c: Ptr)
    requires t.Valid() && m in t.views && m in t.prefix && pre == Flat(t.prefix[m])
    requires EntryOf(rest) in t.views[m] && t.views[m][EntryOf(rest)] == Link(c)
    ensures |rest| > SLICE && EntryOf(rest) == EntryKey(Slice(rest), SLICE + 1) && rest[..SLICE] == Eight(Slice(rest))
    ensures c in t.layers && c != t.root && c in t.prefix && t.prefix[c] == t.prefix[m] + [Slice(rest)]
    ensures Flat(t.prefix[c]) == pre + rest[..SLICE]
  {
    LinkStep(t.F(), m, rest);
    HeadIs(rest);
    LinkIs(t.F(), m, Slice(rest), c);
  }

  /** The frame on top: the layer above, and the slice that leads down from it. */
  lemma PopFrame<V>(t: Trie<V>, stack: seq<Frame>, m: Ptr, pre: Bytes)
    requires t.Valid() && m in t.layers && m in t.prefix && pre == Flat(t.prefix[m]) && StackOk(t, stack, m)
    requires stack != []
    ensures |pre| >= SLICE
    ensures var x, top := Slice(pre[|pre| - SLICE..]), stack[|stack| - 1];
      var p := pre[..|pre| - SLICE];
      && pre == p + Eight(x)
      && top.m in t.layers && top.m in t.prefix && top.m in t.views && p == Flat(t.prefix[top.m])
      && InLeaf(t.layers[top.m], top.n, x)
      && EntryKey(x, SLICE + 1) in t.views[top.m] && t.views[top.m][EntryKey(x, SLICE + 1)] == Link(m)
      && StackOk(t, stack[..|stack| - 1], top.m)
  {
    hide WF, Flat, Holds, InLeaf;
    var x, top := t.prefix[m][|t.prefix[m]| - 1], stack[|stack| - 1];
    HeldIn(t, top.m);
    LinkIs(t.F(), top.m, x, m);
    var p := Flat(t.prefix[top.m]);
    assert pre == p + Eight(x) && pre[..|pre| - SLICE] == p && pre[|pre| - SLICE..] == Eight(x);
    EightIs(x, []);
    assert Eight(x) + [] == Eight(x);
  }

  lemma PushFrame<V>(t: Trie<V>, stack: seq<Frame>, m: Ptr, n: Ptr, x: Ikey, c: Ptr)
    requires t.Valid() && StackOk(t, stack, m) && m in t.layers && m in t.views && m in t.prefix && c in t.prefix
    requires t.prefix[c] == t.prefix[m] + [x] && InLeaf(t.layers[m], n, x)
    requires EntryKey(x, SLICE + 1) in t.views[m] && t.views[m][EntryKey(x, SLICE + 1)] == Link(c)
    ensures StackOk(t, stack + [Frame(m, n)], c)
  {
    hide WF, Holds, InLeaf;
    assert (stack + [Frame(m, n)])[..|stack|] == stack;
  }

  lemma KeyAtParts<V>(f: Forest<V>, m: Ptr, e: EntryKey)
    requires WF(f) && m in f.vs && e in f.vs[m]
    ensures KeyAt(f, m, e) == Flat(f.prefix[m]) + Head(e) + Tail(f.vs[m][e])
  {
  }

  lemma LinkKey<V>(f: Forest<V>, m: Ptr, key: EntryKey)
    requires WF(f) && m in f.vs && key in f.vs[m] && f.vs[m][key].Link?
    ensures key.len == SLICE + 1
  {
    assert EntryOk(f, m, key);
  }

  lemma WholeSlices(w: Bytes, p: Bytes, e: Bytes, a: nat, b: nat)
    requires w <= p + e && |w| == SLICE * a && |p| == SLICE * b && |e| == SLICE
    ensures w <= p || w == p + e
  {
  }

  /** Layers on the way down, above what `pre` leads to. */
  ghost predicate Above<V>(t: Trie<V>, been: set<Ptr>, pre: Bytes)
    reads t
  {
    forall c {:trigger c in been} :: c in been ==> c in t.layers && c in t.prefix && Flat(t.prefix[c]) <= pre
  }

  lemma AboveMore<V>(t: Trie<V>, been: set<Ptr>, pre: Bytes, e: Bytes, c: Ptr)
    requires Above(t, been, pre) && c in t.layers && c in t.prefix && Flat(t.prefix[c]) == pre + e
    ensures Above(t, been + {c}, pre + e)
  {
    hide Flat;
  }


  lemma Beginning<V>(t: Trie<V>)
    requires t.Valid()
    ensures StackOk(t, [], t.root) && Above(t, {t.root}, [])
  {
  }


  /** The comparison of suffixes decides whether the key at the first entry is wanted. */
  lemma FirstSuffix<V>(f: Forest<V>, m: Ptr, first: Bytes, rest: Bytes)
    requires WF(f) && m in f.vs && first == Flat(f.prefix[m]) + rest && EntryOf(rest) in f.vs[m]
    requires !f.vs[m][EntryOf(rest)].Link?
    ensures var k := EntryOf(rest);
      var p, j := f.vs[m][k], KeyAt(f, m, k);
      if p.Value? then j == first
      else
        && |rest| > SLICE && (LexLess(first, j) <==> LexLess(rest[SLICE..], p.rest))
        && (j == first <==> p.rest == rest[SLICE..])
  {
    var p, k := Flat(f.prefix[m]), EntryOf(rest);
    assert EntryOk(f, m, k);
    HeadIs(rest);
    if f.vs[m][k].Suffix? {
      var s := f.vs[m][k].rest;
      assert rest == rest[..SLICE] + rest[SLICE..];
      assert first == (p + rest[..SLICE]) + rest[SLICE..] && KeyAt(f, m, k) == (p + rest[..SLICE]) + s;
      LexPrefix(p + rest[..SLICE], rest[SLICE..], s);
      assert KeyAt(f, m, k) == first ==> s == KeyAt(f, m, k)[|p| + SLICE..] == first[|p| + SLICE..] == rest[SLICE..];
    } else {
      assert p + rest + [] == first;
    }
  }
}
