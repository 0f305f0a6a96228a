/** The layers of a trie by the bytes that lead to them (masstree_key.hh, `prefix_string`). */
module LayerPaths {
  import opened NodeStore
  import opened Key
  import opened LayerForest

  /** The bytes of slice `x`. */
  function Eight(x: Ikey): (b: Bytes)
    ensures |b| == SLICE
  {
    Net(x, SLICE)
  }

  lemma EightIs(x: Ikey, r: Bytes)
    ensures EntryOf(Eight(x) + r) == EntryKey(x, if r == [] then SLICE else SLICE + 1)
  {
    SliceFits();
    NetRead(x, SLICE);
    PadPrefix(Eight(x) + r, SLICE);
    assert (Eight(x) + r)[..SLICE] == Eight(x);
    assert r == [] ==> PadTo(Eight(x) + r, SLICE) == PadTo(Eight(x) + r, SLICE)[..SLICE];
  }

  /** The bytes of a run of slices: what the keys of a layer begin with. */
  function Flat(p: seq<Ikey>): (b: Bytes)
    ensures |b| == SLICE * |p|
  {
    if p == [] then [] else Flat(p[..|p| - 1]) + Eight(p[|p| - 1])
  }

  lemma FlatSnoc(p: seq<Ikey>, x: Ikey)
    ensures Flat(p + [x]) == Flat(p) + Eight(x)
  {
    assert (p + [x])[..|p|] == p;
  }

  /** The descent for a key that begins with a layer's slices passes through that layer. */
  lemma {:induction false} ReachThrough<V>(f: Forest<V>, m: Ptr, r: Bytes)
    requires WF(f) && m in f.vs && (m == f.root || r != [])
    ensures Reach(f, f.root, Flat(f.prefix[m]) + r) == Reach(f, m, r)
    decreases |f.prefix[m]|
  {
    if m == f.root {
      assert Flat(f.prefix[m]) + r == r;
    } else {
      assert HasParent(f, m);
      var q :| Leads(f, q, m);
      var x := f.prefix[m][|f.prefix[m]| - 1];
      assert EntryOk(f, q, EntryKey(x, SLICE + 1));
      assert f.prefix[m][..|f.prefix[m]| - 1] == f.prefix[q];
      ReachThrough(f, q, Eight(x) + r);
      EightIs(x, r);
      LinkStep(f, q, Eight(x) + r);
      assert (Eight(x) + r)[SLICE..] == r;
      assert Flat(f.prefix[m]) + r == Flat(f.prefix[q]) + (Eight(x) + r);
    }
  }

  // ----- the layer under given bytes -----

  /** Layer `c`, below the first, is the one for the keys that begin with `b`. */
  ghost predicate Under<V>(f: Forest<V>, c: Ptr, b: Bytes) {
    c in f.vs && c in f.prefix && c != f.root && Flat(f.prefix[c]) == b
  }

  /** A run of slices. */
  predicate Whole(b: Bytes) {
    b != [] && |b| % SLICE == 0
  }

  lemma UnderIsWhole<V>(f: Forest<V>, c: Ptr, b: Bytes)
    requires WF(f) && Under(f, c, b)
    ensures Whole(b)
  {
    assert HasParent(f, c);
  }

  lemma SliceOfEight(x: Ikey, r: Bytes)
    ensures Slice(Eight(x) + r) == x
  {
    EightIs(x, r);
  }

  lemma EightOfSlice(r: Bytes)
    requires |r| >= SLICE
    ensures Eight(Slice(r)) == r[..SLICE]
  {
    PadPrefix(r, SLICE);
    NumWritten(r[..SLICE]);
  }

  lemma {:induction false} FlatOne(p: seq<Ikey>, q: seq<Ikey>)
    requires Flat(p) == Flat(q)
    ensures p == q
    decreases |p|
  {
    if p != [] {
      assert q != [] && |p| == |q|;
      var n := |p| - 1;
      assert Flat(p)[..SLICE * n] == Flat(p[..n]) && Flat(q)[..SLICE * n] == Flat(q[..n]);
      FlatOne(p[..n], q[..n]);
      assert Flat(p)[SLICE * n..] == Eight(p[n]) && Flat(q)[SLICE * n..] == Eight(q[n]);
      SliceOfEight(p[n], []);
      SliceOfEight(q[n], []);
      assert p == p[..n] + [p[n]] && q == q[..n] + [q[n]];
    }
  }

  lemma {:induction false} FlatPart(p: seq<Ikey>, n: nat)
    requires n <= |p|
    ensures Flat(p)[..SLICE * n] == Flat(p[..n])
    decreases |p|
  {
    if n == |p| {
      assert p[..n] == p;
    } else {
      FlatPart(p[..|p| - 1], n);
      assert p[..|p| - 1][..n] == p[..n];
    }
  }

  /** What the bytes of a run of slices go on with after those of a shorter one. */
  lemma FlatOn(p: seq<Ikey>, q: seq<Ikey>, r: Bytes)
    requires Flat(q) == Flat(p) + r && r != []
    ensures |r| >= SLICE && p + [Slice(r)] <= q
  {
    var n := |p|;
    FlatPart(q, n);
    FlatOne(p, q[..n]);
    FlatPart(q, n + 1);
    var x := q[n];
    assert q[..n + 1] == p + [x];
    FlatSnoc(p, x);
    assert r == Eight(x) + r[SLICE..];
    SliceOfEight(x, r[SLICE..]);
  }

  lemma CutRest(pre: Bytes, rest: Bytes, n: nat)
    requires n <= |rest|
    ensures pre + rest == (pre + rest[..n]) + rest[n..]
  {
  }

  /** Where a descent ends, the layer's bytes and what is left are the key. */
  lemma {:induction false} ReachBytes<V>(f: Forest<V>, m: Ptr, k: Bytes)
    requires WF(f) && m in f.vs
    ensures var (n, r) := Reach(f, m, k); n in f.prefix && Flat(f.prefix[m]) + k == Flat(f.prefix[n]) + r
    decreases |k|
  {
    var e := EntryOf(k);
    if e in f.vs[m] && f.vs[m][e].Link? {
      assert EntryOk(f, m, e);
      var c := f.vs[m][e].layer;
      ReachBytes(f, c, k[SLICE..]);
      FlatSnoc(f.prefix[m], Slice(k));
      EightOfSlice(k);
      assert Flat(f.prefix[m]) + k == Flat(f.prefix[m]) + k[..SLICE] + k[SLICE..];
    }
  }

  /** The layer for given bytes is found through links, step by step, or it is not there. */
  lemma LinkUnder<V>(f: Forest<V>, m: Ptr, r: Bytes, d: Ptr, b: Bytes)
    requires WF(f) && m in f.vs && Under(f, d, b) && b == Flat(f.prefix[m]) + r && r != []
    ensures EntryKey(Slice(r), SLICE + 1) in f.vs[m] && f.vs[m][EntryKey(Slice(r), SLICE + 1)].Link?
    ensures |r| == SLICE ==> f.vs[m][EntryKey(Slice(r), SLICE + 1)] == Link(d)
  {
    FlatOn(f.prefix[m], f.prefix[d], r);
    NothingBelow(f, m, Slice(r), d);
    var e := EntryKey(Slice(r), SLICE + 1);
    assert EntryOk(f, m, e);
    if |r| == SLICE {
      assert f.prefix[d] == f.prefix[m] + [Slice(r)];
      OneLayer(f, d, f.vs[m][e].layer);
    }
  }

  lemma LinkLeads<V>(f: Forest<V>, m: Ptr, r: Bytes)
    requires WF(f) && m in f.vs && |r| >= SLICE
    requires EntryKey(Slice(r), SLICE + 1) in f.vs[m] && f.vs[m][EntryKey(Slice(r), SLICE + 1)].Link?
    ensures m in f.prefix
    ensures var c := f.vs[m][EntryKey(Slice(r), SLICE + 1)].layer;
      && c in f.vs && c in f.prefix && c != f.root && c != m && Flat(f.prefix[m]) + r == Flat(f.prefix[c]) + r[SLICE..]
      && f.prefix[c] != [] && Leads(f, m, c)
  {
    assert EntryOk(f, m, EntryKey(Slice(r), SLICE + 1));
    FlatSnoc(f.prefix[m], Slice(r));
    EightOfSlice(r);
    assert Flat(f.prefix[m]) + r == Flat(f.prefix[m]) + r[..SLICE] + r[SLICE..];
  }

  /** There is one such layer at most. */
  lemma UnderOne<V>(f: Forest<V>, c: Ptr, d: Ptr, b: Bytes)
    requires WF(f) && Under(f, c, b) && Under(f, d, b)
    ensures c == d
  {
    FlatOne(f.prefix[c], f.prefix[d]);
    OneLayer(f, c, d);
  }

  // ----- empty layers that are not registered for collection -----

  /** Layers below the first that hold nothing and whose bytes are not in `col`. */
  ghost function Unregistered<V>(f: Forest<V>, col: set<Bytes>): set<Ptr> {
    set c | c in f.vs && c in f.prefix && c != f.root && f.vs[c] == imap[] && Flat(f.prefix[c]) !in col
  }

  /** What a removal adds to the registered bytes: those of layer `m`, if it is empty now and the removal
      was from its first leaf. */
  ghost function Noted<V>(g: Forest<V>, m: Ptr, first: bool): set<Bytes>
    requires m in g.vs && m in g.prefix
  {
    if first && m != g.root && g.vs[m] == imap[] then {Flat(g.prefix[m])} else {}
  }

  /** What it adds to the layers that are missed. */
  ghost function NewlyMissed<V>(g: Forest<V>, col: set<Bytes>, m: Ptr, first: bool): set<Ptr>
    requires m in g.vs && m in g.prefix
  {
    if !first && m != g.root && g.vs[m] == imap[] && Flat(g.prefix[m]) !in col then {m} else {}
  }

  lemma OtherBytes<V>(f: Forest<V>, c: Ptr, d: Ptr)
    requires WF(f) && c in f.vs && d in f.vs && c != d && c != f.root && d != f.root
    ensures c in f.prefix && d in f.prefix && Flat(f.prefix[c]) != Flat(f.prefix[d])
  {
    if Flat(f.prefix[c]) == Flat(f.prefix[d]) { UnderOne(f, c, d, Flat(f.prefix[d])); }
  }

  lemma MissedErase<V>(f: Forest<V>, col: set<Bytes>, m: Ptr, e: EntryKey, first: bool)
    requires WF(f) && m in f.vs && e in f.vs[m]
    ensures var g := WithView(f, m, f.vs[m] - {e});
      && m in g.prefix
      && Unregistered(g, col + Noted(g, m, first)) == Unregistered(f, col) + NewlyMissed(g, col, m, first)
  {
    var g := WithView(f, m, f.vs[m] - {e});
    var a, b := Unregistered(g, col + Noted(g, m, first)), Unregistered(f, col) + NewlyMissed(g, col, m, first);
    forall c ensures c in a <==> c in b {
      if c in f.vs && c != m && c != f.root && m != f.root { OtherBytes(f, c, m); }
    }
  }

  lemma MissedStore<V>(f: Forest<V>, col: set<Bytes>, m: Ptr, e: EntryKey, p: Payload<V>)
    requires WF(f) && m in f.vs
    ensures Unregistered(WithView(f, m, f.vs[m][e := p]), col) == Unregistered(f, col) - {m}
  {
    var w := f.vs[m][e := p];
    assert e in w;
  }

  lemma MissedCollect<V>(f: Forest<V>, col: set<Bytes>, m: Ptr, x: Ikey, c: Ptr, first: bool)
    requires CanCollect(f, m, x, c) && WF(Collected(f, m, x, c))
    ensures var g := Collected(f, m, x, c);
      && m in g.vs && m in g.prefix
      && Unregistered(g, col + Noted(g, m, first)) == Unregistered(f, col) - {c} + NewlyMissed(g, col, m, first)
  {
    var g := Collected(f, m, x, c);
    var a, b := Unregistered(g, col + Noted(g, m, first)), Unregistered(f, col) - {c} + NewlyMissed(g, col, m, first);
    forall d ensures d in a <==> d in b {
      if d in g.vs && d != m && d != f.root && m != f.root { OtherBytes(g, d, m); }
    }
  }

  /** Layer `c` goes, with the entry under slice `x` of layer `m` that leads to it. If `m` is empty then,
      its bytes are registered, or it is missed. */
  ghost predicate Collects<V>(f: Forest<V>, col: set<Bytes>, g: Forest<V>, col': set<Bytes>, m: Ptr, x: Ikey, c: Ptr,
      first: bool)
  {
    && CanCollect(f, m, x, c) && g == Collected(f, m, x, c) && m in g.vs && m in g.prefix
    && col' == col + Noted(g, m, first)
    && Unregistered(g, col') == Unregistered(f, col) - {c} + NewlyMissed(g, col, m, first)
  }

  lemma CollectsSo<V>(f: Forest<V>, col: set<Bytes>, m: Ptr, x: Ikey, c: Ptr, first: bool)
    requires CanCollect(f, m, x, c) && WF(Collected(f, m, x, c))
    ensures var g := Collected(f, m, x, c);
      m in g.vs && m in g.prefix && Collects(f, col, g, col + Noted(g, m, first), m, x, c, first)
  {
    MissedCollect(f, col, m, x, c, first);
  }

  /** After that no layer is under its bytes. */
  lemma NoneUnder<V>(f: Forest<V>, col: set<Bytes>, g: Forest<V>, col': set<Bytes>, m: Ptr, x: Ikey, c: Ptr,
      first: bool, b: Bytes)
    requires Collects(f, col, g, col', m, x, c, first) && Under(f, c, b)
    ensures col <= col' && forall d :: !Under(g, d, b)
  {
    forall d ensures !Under(g, d, b) {
      if Under(g, d, b) { UnderOne(f, d, c, b); }
    }
  }

  /** Layer `c` holds something. */
  ghost predicate InUse<V>(f: Forest<V>, c: Ptr) {
    c in f.vs && f.vs[c] != imap[]
  }

  lemma OneInUse<V>(f: Forest<V>, c: Ptr, b: Bytes)
    requires WF(f) && Under(f, c, b) && InUse(f, c)
    ensures forall d :: Under(f, d, b) ==> InUse(f, d)
  {
    forall d | Under(f, d, b) ensures InUse(f, d) {
      UnderOne(f, d, c, b);
    }
  }

  /** An empty layer and its link can go. */
  lemma Collectable<V>(f: Forest<V>, m: Ptr, r: Bytes, c: Ptr, b: Bytes)
    requires WF(f) && m in f.vs && m in f.prefix && Under(f, c, b) && !InUse(f, c) && c != m
    requires b == Flat(f.prefix[m]) + r && |r| == SLICE
    requires EntryKey(Slice(r), SLICE + 1) in f.vs[m] && f.vs[m][EntryKey(Slice(r), SLICE + 1)] == Link(c)
    ensures CanCollect(f, m, Slice(r), c) && b[..|b| - |r|] == Flat(f.prefix[m])
  {
  }

  lemma NotedIs<V>(g: Forest<V>, m: Ptr, first: bool, lone: bool, b: Bytes)
    requires m in g.vs && m in g.prefix && b == Flat(g.prefix[m]) && (b == [] <==> m == g.root)
    requires lone <==> g.vs[m] == imap[] && first
    ensures Noted(g, m, first) == if lone && b != [] then {b} else {}
  {
  }

  /** Bytes whose layer is gone or in use need not be registered. */
  lemma MissedNot<V>(f: Forest<V>, col: set<Bytes>, b: Bytes)
    requires WF(f) && forall c :: Under(f, c, b) ==> InUse(f, c)
    ensures Unregistered(f, col - {b}) == Unregistered(f, col)
  {
    forall d ensures d in Unregistered(f, col - {b}) <==> d in Unregistered(f, col) {
      assert d in Unregistered(f, col - {b}) ==> !Under(f, d, b);
    }
  }
}
