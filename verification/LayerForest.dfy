/** The trie of layers as a value: what each layer holds, and how a key is looked up through links
    from layer to layer (masstree_get.hh, masstree_insert.hh). */
module LayerForest {
  import opened NodeStore
  import opened Key
  import opened MapOf

  /** What an entry leads to: a value, a value under the rest of a key, or the next layer. */
  datatype Payload<+V> = Value(v: V) | Suffix(rest: Bytes, v: V) | Link(layer: Ptr)

  type View<V> = imap<EntryKey, Payload<V>>

  /** The layers' contents, the slices that lead to each layer, and the first layer. */
  datatype Forest<V> = Forest(vs: map<Ptr, View<V>>, prefix: map<Ptr, seq<Ikey>>, root: Ptr)

  function Pay<V>(k: Bytes, v: V): Payload<V> {
    if |k| > SLICE then Suffix(k[SLICE..], v) else Value(v)
  }

  ghost predicate EntryOk<V>(f: Forest<V>, m: Ptr, e: EntryKey)
    requires m in f.vs && e in f.vs[m] && f.prefix.Keys == f.vs.Keys
  {
    && e.len <= SLICE + 1 && (m != f.root ==> 0 < e.len) && IsEntry(e)
    && match f.vs[m][e]
       case Value(_) => e.len <= SLICE
       case Suffix(r, _) => e.len == SLICE + 1 && r != []
       case Link(c) => e.len == SLICE + 1 && c in f.vs && c != f.root && f.prefix[c] == f.prefix[m] + [e.ikey]
  }

  /** `q` leads to `m` under the last slice of `m`. */
  ghost predicate Leads<V>(f: Forest<V>, q: Ptr, m: Ptr)
    requires m in f.prefix && f.prefix[m] != []
  {
    var e := EntryKey(f.prefix[m][|f.prefix[m]| - 1], SLICE + 1);
    q in f.vs && e in f.vs[q] && f.vs[q][e] == Link(m)
  }

  ghost predicate HasParent<V>(f: Forest<V>, m: Ptr)
    requires m in f.prefix
  {
    f.prefix[m] != [] && exists q :: Leads(f, q, m)
  }

  ghost predicate WF<V>(f: Forest<V>) {
    && f.root in f.vs && f.prefix.Keys == f.vs.Keys && f.prefix[f.root] == []
    && (forall m, e {:trigger EntryOk(f, m, e)} :: m in f.vs && e in f.vs[m] ==> EntryOk(f, m, e))
    && (forall m {:trigger HasParent(f, m)} :: m in f.vs && m != f.root ==> HasParent(f, m))
  }

  /** The layer where the descent for `k` from `m` ends, and what is left of `k` there. */
  ghost function Reach<V>(f: Forest<V>, m: Ptr, k: Bytes): (r: (Ptr, Bytes))
    requires WF(f) && m in f.vs
    ensures r.0 in f.vs && (EntryOf(r.1) in f.vs[r.0] ==> !f.vs[r.0][EntryOf(r.1)].Link?)
    decreases |k|
  {
    var e := EntryOf(k);
    if e in f.vs[m] && f.vs[m][e].Link? then
      assert EntryOk(f, m, e);
      Reach(f, f.vs[m][e].layer, k[SLICE..])
    else (m, k)
  }

  /** What a leaf's entry says about the rest of a key (`ksuf_matches`). */
  ghost function Match<V>(w: View<V>, k: Bytes): Option<V> {
    var e := EntryOf(k);
    if e !in w then None
    else match w[e]
      case Value(v) => Some(v)
      case Suffix(r, v) => if |k| > SLICE && r == k[SLICE..] then Some(v) else None
      case Link(_) => None
  }

  ghost function Lookup<V>(f: Forest<V>, m: Ptr, k: Bytes): Option<V>
    requires WF(f) && m in f.vs
  {
    var (n, r) := Reach(f, m, k);
    Match(f.vs[n], r)
  }

  // ----- where descents end -----

  /** Descents go down: the slices of the last layer extend those of the first. */
  lemma {:induction false} ReachPrefix<V>(f: Forest<V>, m: Ptr, k: Bytes)
    requires WF(f) && m in f.vs
    ensures var (n, r) := Reach(f, m, k);
      n in f.prefix && if n == m then r == k else f.prefix[m] + [Slice(k)] <= f.prefix[n]
    decreases |k|
  {
    var e := EntryOf(k);
    if e in f.vs[m] && f.vs[m][e].Link? {
      assert EntryOk(f, m, e);
      var c := f.vs[m][e].layer;
      ReachPrefix(f, c, k[SLICE..]);
      assert f.prefix[c] == f.prefix[m] + [Slice(k)];
    }
  }

  /** Keys whose descents end in the same layer differ in what is left, and only there. */
  lemma {:induction false} SameEnd<V>(f: Forest<V>, m: Ptr, j: Bytes, k: Bytes)
    requires WF(f) && m in f.vs && Reach(f, m, j).0 == Reach(f, m, k).0
    ensures j == k <==> Reach(f, m, j).1 == Reach(f, m, k).1
    decreases |k|
  {
    ReachPrefix(f, m, j);
    ReachPrefix(f, m, k);
    var e := EntryOf(k);
    if Reach(f, m, k).0 != m {
      assert EntryOk(f, m, e) && EntryOk(f, m, EntryOf(j));
      var n := Reach(f, m, k).0;
      assert f.prefix[n][|f.prefix[m]|] == Slice(k) == Slice(j);
      SameEntry(j, k);
      SameEnd(f, f.vs[m][e].layer, j[SLICE..], k[SLICE..]);
    }
  }

  /** A layer other than the first is led to by one entry only. */
  lemma {:induction false} OneLayer<V>(f: Forest<V>, a: Ptr, b: Ptr)
    requires WF(f) && a in f.vs && b in f.vs && f.prefix[a] == f.prefix[b]
    ensures a == b
    decreases |f.prefix[a]|
  {
    assert b != f.root ==> HasParent(f, b);
    if a != f.root {
      assert HasParent(f, a);
      var p :| Leads(f, p, a);
      var q :| Leads(f, q, b);
      var e := EntryKey(f.prefix[a][|f.prefix[a]| - 1], SLICE + 1);
      assert EntryOk(f, p, e) && EntryOk(f, q, e);
      assert f.prefix[p] == f.prefix[a][..|f.prefix[a]| - 1] == f.prefix[q];
      OneLayer(f, p, q);
    }
  }

  /** Where an entry is not a link, no layer lies below it. */
  lemma {:induction false} NothingBelow<V>(f: Forest<V>, n: Ptr, x: Ikey, d: Ptr)
    requires WF(f) && n in f.vs && d in f.vs && f.prefix[n] + [x] <= f.prefix[d]
    ensures EntryKey(x, SLICE + 1) in f.vs[n] && f.vs[n][EntryKey(x, SLICE + 1)].Link?
    decreases |f.prefix[d]|
  {
    assert d != f.root;
    assert HasParent(f, d);
    var q :| Leads(f, q, d);
    var last := f.prefix[d][|f.prefix[d]| - 1];
    assert EntryOk(f, q, EntryKey(last, SLICE + 1));
    assert f.prefix[q] == f.prefix[d][..|f.prefix[d]| - 1];
    if f.prefix[d] == f.prefix[n] + [x] {
      assert f.prefix[n] == f.prefix[d][..|f.prefix[d]| - 1];
      OneLayer(f, q, n);
    } else {
      NothingBelow(f, n, x, q);
    }
  }

  // ----- one entry that is not a link changes -----

  /** Layer `n` holds `w` instead. */
  function WithView<V>(f: Forest<V>, n: Ptr, w: View<V>): Forest<V> {
    f.(vs := f.vs[n := w])
  }

  /** `w` differs from what `n` holds at entry `e` only, which is no link before or after. */
  ghost predicate Changes<V>(f: Forest<V>, n: Ptr, e: EntryKey, w: View<V>) {
    && WF(f) && n in f.vs && e.len <= SLICE + 1 && (n != f.root ==> 0 < e.len) && IsEntry(e)
    && (forall x :: x != e ==> (x in w <==> x in f.vs[n]) && (x in w ==> w[x] == f.vs[n][x]))
    && (e in f.vs[n] ==> !f.vs[n][e].Link?)
    && (e in w ==> if e.len <= SLICE then w[e].Value? else w[e].Suffix? && w[e].rest != [])
  }

  lemma ChangesWF<V>(f: Forest<V>, n: Ptr, e: EntryKey, w: View<V>)
    requires Changes(f, n, e, w)
    ensures WF(WithView(f, n, w))
  {
    hide EntryOk, HasParent, Changes;
    var g := WithView(f, n, w);
    ChangesForest(f, n, e, w);
    forall m, x | m in g.vs && x in g.vs[m] ensures EntryOk(g, m, x) {
      ChangesEntry(f, n, e, w, m, x);
    }
    forall m | m in g.vs && m != g.root ensures HasParent(g, m) {
      ChangesParent(f, n, e, w, m);
    }
  }

  lemma ChangesForest<V>(f: Forest<V>, n: Ptr, e: EntryKey, w: View<V>)
    requires Changes(f, n, e, w)
    ensures WF(f) && n in f.vs
  {
  }

  lemma ChangesEntry<V>(f: Forest<V>, n: Ptr, e: EntryKey, w: View<V>, m: Ptr, x: EntryKey)
    requires Changes(f, n, e, w) && m in f.vs && x in WithView(f, n, w).vs[m]
    ensures m in WithView(f, n, w).prefix && EntryOk(WithView(f, n, w), m, x)
  {
    if m != n || x != e { assert EntryOk(f, m, x); }
  }

  lemma ChangesParent<V>(f: Forest<V>, n: Ptr, e: EntryKey, w: View<V>, m: Ptr)
    requires Changes(f, n, e, w) && m in f.vs && m != f.root
    ensures m in WithView(f, n, w).prefix && HasParent(WithView(f, n, w), m)
  {
    assert HasParent(f, m);
    var q :| Leads(f, q, m);
    assert Leads(WithView(f, n, w), q, m);
  }

  lemma {:induction false} ChangesReach<V>(f: Forest<V>, n: Ptr, e: EntryKey, w: View<V>, m: Ptr, k: Bytes)
    requires Changes(f, n, e, w) && WF(WithView(f, n, w)) && m in f.vs
    ensures Reach(WithView(f, n, w), m, k) == Reach(f, m, k)
    decreases |k|
  {
    var x := EntryOf(k);
    if x in f.vs[m] && f.vs[m][x].Link? {
      assert EntryOk(f, m, x);
      ChangesReach(f, n, e, w, f.vs[m][x].layer, k[SLICE..]);
    }
  }

  /** A change of what key `k` finds changes no other key. */
  lemma ChangedLookup<V>(f: Forest<V>, k: Bytes, w: View<V>, v: Option<V>, j: Bytes)
    requires WF(f)
    requires var (n, r) := Reach(f, f.root, k);
      && Changes(f, n, EntryOf(r), w) && WF(WithView(f, n, w))
      && (forall s :: EntryOf(s) == EntryOf(r) ==> Match(w, s) == if s == r then v else Match(f.vs[n], s))
    ensures Lookup(WithView(f, Reach(f, f.root, k).0, w), f.root, j) == if j == k then v else Lookup(f, f.root, j)
  {
    var (n, r) := Reach(f, f.root, k);
    ChangesReach(f, n, EntryOf(r), w, f.root, j);
    var (n', r') := Reach(f, f.root, j);
    if n' == n { SameEnd(f, f.root, j, k); }
  }

  /** Storing under an entry that has no other key's suffix stores for that key alone. */
  lemma StoredMatch<V>(was: View<V>, r: Bytes, v: V, s: Bytes)
    requires EntryOf(r) in was ==> !was[EntryOf(r)].Link? && (was[EntryOf(r)].Value? ==> |r| <= SLICE)
    requires EntryOf(r) in was && was[EntryOf(r)].Suffix? ==> |r| > SLICE && was[EntryOf(r)].rest == r[SLICE..]
    requires EntryOf(s) == EntryOf(r)
    ensures Match(was[EntryOf(r) := Pay(r, v)], s) == if s == r then Some(v) else Match(was, s)
  {
    SameEntry(s, r);
  }

  lemma ErasedMatch<V>(was: View<V>, r: Bytes, s: Bytes)
    requires Match(was, r).Some? && EntryOf(s) == EntryOf(r) && (was[EntryOf(r)].Value? ==> |r| <= SLICE)
    ensures Match(was - {EntryOf(r)}, s) == if s == r then None else Match(was, s)
  {
    SameEntry(s, r);
  }

  // ----- a suffix moves down into a layer of its own -----

  /** The suffix under slice `x` of layer `n` moves into a new layer `c` (one turn of the loop of
      `make_new_layer`). */
  ghost function PushedDown<V>(f: Forest<V>, n: Ptr, x: Ikey, c: Ptr): Forest<V>
    requires CanPush(f, n, x, c)
  {
    var e := EntryKey(x, SLICE + 1);
    var s := f.vs[n][e];
    Forest(f.vs[n := f.vs[n][e := Link(c)]][c := imap[EntryOf(s.rest) := Pay(s.rest, s.v)]],
           f.prefix[c := f.prefix[n] + [x]], f.root)
  }

  ghost predicate CanPush<V>(f: Forest<V>, n: Ptr, x: Ikey, c: Ptr) {
    WF(f) && n in f.vs && c !in f.vs && EntryKey(x, SLICE + 1) in f.vs[n] && f.vs[n][EntryKey(x, SLICE + 1)].Suffix?
  }

  lemma PushWF<V>(f: Forest<V>, n: Ptr, x: Ikey, c: Ptr)
    requires CanPush(f, n, x, c)
    ensures WF(PushedDown(f, n, x, c))
  {
    var g := PushedDown(f, n, x, c);
    hide EntryOf, EntryOk, HasParent;
    forall m, y | m in g.vs && y in g.vs[m] ensures EntryOk(g, m, y) {
      PushEntry(f, n, x, c, m, y);
    }
    forall m | m in g.vs && m != g.root ensures HasParent(g, m) {
      PushParent(f, n, x, c, m);
    }
  }

  lemma PushEntry<V>(f: Forest<V>, n: Ptr, x: Ikey, c: Ptr, m: Ptr, y: EntryKey)
    requires CanPush(f, n, x, c) && m in PushedDown(f, n, x, c).vs && y in PushedDown(f, n, x, c).vs[m]
    ensures PushedDown(f, n, x, c).prefix.Keys == PushedDown(f, n, x, c).vs.Keys
    ensures EntryOk(PushedDown(f, n, x, c), m, y)
  {
    hide IsEntry;
    assert EntryOk(f, n, EntryKey(x, SLICE + 1));
    EntryIsEntry(f.vs[n][EntryKey(x, SLICE + 1)].rest);
    if m != c && y in f.vs[m] { assert EntryOk(f, m, y); }
  }

  lemma PushParent<V>(f: Forest<V>, n: Ptr, x: Ikey, c: Ptr, m: Ptr)
    requires CanPush(f, n, x, c) && m in PushedDown(f, n, x, c).vs && m != f.root
    ensures m in PushedDown(f, n, x, c).prefix && HasParent(PushedDown(f, n, x, c), m)
  {
    var g := PushedDown(f, n, x, c);
    hide EntryOf;
    if m == c {
      assert Leads(g, n, c);
    } else {
      assert HasParent(f, m);
      var q :| Leads(f, q, m);
      assert Leads(g, q, m);
    }
  }

  lemma {:induction false} PushReach<V>(f: Forest<V>, n: Ptr, x: Ikey, c: Ptr, m: Ptr, k: Bytes)
    requires CanPush(f, n, x, c) && WF(PushedDown(f, n, x, c)) && m in f.vs
    ensures var (n', r) := Reach(f, m, k);
      Reach(PushedDown(f, n, x, c), m, k)
        == if n' == n && EntryOf(r) == EntryKey(x, SLICE + 1) then (c, r[SLICE..]) else (n', r)
    decreases |k|
  {
    var e := EntryOf(k);
    if e in f.vs[m] && f.vs[m][e].Link? {
      assert EntryOk(f, m, e);
      PushReach(f, n, x, c, f.vs[m][e].layer, k[SLICE..]);
    }
  }

  /** Moving a suffix down changes no lookup. */
  lemma PushLookup<V>(f: Forest<V>, n: Ptr, x: Ikey, c: Ptr, k: Bytes)
    requires CanPush(f, n, x, c) && WF(PushedDown(f, n, x, c))
    ensures Lookup(PushedDown(f, n, x, c), f.root, k) == Lookup(f, f.root, k)
  {
    PushReach(f, n, x, c, f.root, k);
    var (n', r) := Reach(f, f.root, k);
    var s := f.vs[n][EntryKey(x, SLICE + 1)].rest;
    if n' == n && EntryOf(r) == EntryKey(x, SLICE + 1) && EntryOf(s) == EntryOf(r[SLICE..]) {
      SameEntry(s, r[SLICE..]);
    }
  }

  // ----- an empty layer is dropped -----

  /** Layer `c`, to which slice `x` of layer `n` leads, is gone (`gc_layer`). */
  ghost function Collected<V>(f: Forest<V>, n: Ptr, x: Ikey, c: Ptr): Forest<V>
    requires n in f.vs
  {
    Forest(f.vs[n := f.vs[n] - {EntryKey(x, SLICE + 1)}] - {c}, f.prefix - {c}, f.root)
  }

  ghost predicate CanCollect<V>(f: Forest<V>, n: Ptr, x: Ikey, c: Ptr) {
    && WF(f) && n in f.vs && c in f.vs && f.vs[c] == imap[] && c != n && c != f.root
    && EntryKey(x, SLICE + 1) in f.vs[n] && f.vs[n][EntryKey(x, SLICE + 1)] == Link(c)
  }

  /** No other entry leads to `c`. */
  lemma OnlyLink<V>(f: Forest<V>, n: Ptr, x: Ikey, c: Ptr, m: Ptr, y: EntryKey)
    requires CanCollect(f, n, x, c) && m in f.vs && y in f.vs[m] && f.vs[m][y] == Link(c)
    ensures m == n && y == EntryKey(x, SLICE + 1)
  {
    assert EntryOk(f, n, EntryKey(x, SLICE + 1)) && EntryOk(f, m, y);
    assert f.prefix[m] == f.prefix[c][..|f.prefix[c]| - 1] == f.prefix[n];
    assert f.prefix[c][|f.prefix[c]| - 1] == y.ikey == x;
    OneLayer(f, m, n);
  }

  lemma CollectWF<V>(f: Forest<V>, n: Ptr, x: Ikey, c: Ptr)
    requires CanCollect(f, n, x, c)
    ensures WF(Collected(f, n, x, c))
  {
    var g := Collected(f, n, x, c);
    hide EntryOk, HasParent;
    forall m, y | m in g.vs && y in g.vs[m] ensures EntryOk(g, m, y) {
      CollectEntry(f, n, x, c, m, y);
    }
    forall m | m in g.vs && m != g.root ensures HasParent(g, m) {
      CollectParent(f, n, x, c, m);
    }
  }

  lemma CollectEntry<V>(f: Forest<V>, n: Ptr, x: Ikey, c: Ptr, m: Ptr, y: EntryKey)
    requires CanCollect(f, n, x, c) && m in Collected(f, n, x, c).vs && y in Collected(f, n, x, c).vs[m]
    ensures Collected(f, n, x, c).prefix.Keys == Collected(f, n, x, c).vs.Keys
    ensures EntryOk(Collected(f, n, x, c), m, y)
  {
    assert EntryOk(f, m, y);
    if f.vs[m][y] == Link(c) { OnlyLink(f, n, x, c, m, y); }
  }

  lemma CollectParent<V>(f: Forest<V>, n: Ptr, x: Ikey, c: Ptr, m: Ptr)
    requires CanCollect(f, n, x, c) && m in Collected(f, n, x, c).vs && m != f.root
    ensures m in Collected(f, n, x, c).prefix && HasParent(Collected(f, n, x, c), m)
  {
    assert HasParent(f, m);
    var q :| Leads(f, q, m);
    assert Leads(Collected(f, n, x, c), q, m);
  }

  /** Dropping an empty layer changes no lookup. */
  lemma {:induction false} CollectLookup<V>(f: Forest<V>, n: Ptr, x: Ikey, c: Ptr, m: Ptr, k: Bytes)
    requires CanCollect(f, n, x, c) && WF(Collected(f, n, x, c)) && m in f.vs && m != c
    ensures Lookup(Collected(f, n, x, c), m, k) == Lookup(f, m, k)
    decreases |k|
  {
    var e := EntryOf(k);
    if e in f.vs[m] && f.vs[m][e].Link? {
      assert EntryOk(f, m, e);
      if f.vs[m][e] == Link(c) {
        OnlyLink(f, n, x, c, m, e);
        assert e !in Collected(f, n, x, c).vs[m];
        assert Lookup(f, c, k[SLICE..]) == None;
      } else {
        assert e in Collected(f, n, x, c).vs[m];
        CollectLookup(f, n, x, c, f.vs[m][e].layer, k[SLICE..]);
      }
    }
  }

  // ----- the whole as a map from byte strings -----

  ghost function Finds<V>(f: Forest<V>): Bytes -> Option<V>
    requires WF(f)
  {
    (k: Bytes) => Lookup(f, f.root, k)
  }

  ghost function Contents<V>(f: Forest<V>): imap<Bytes, V>
    requires WF(f)
  {
    AsMap(Finds(f))
  }

  lemma ContentsStored<V>(f: Forest<V>, g: Forest<V>, k: Bytes, v: Option<V>)
    requires WF(f) && WF(g) && forall j :: Lookup(g, g.root, j) == if j == k then v else Lookup(f, f.root, j)
    ensures Contents(g) == if v.Some? then Contents(f)[k := v.value] else Contents(f) - {k}
  {
    AsMapStored(Finds(f), Finds(g), k, v);
  }

  lemma ContentsSame<V>(f: Forest<V>, g: Forest<V>)
    requires WF(f) && WF(g) && forall j :: Lookup(g, g.root, j) == Lookup(f, f.root, j)
    ensures Contents(g) == Contents(f)
  {
    AsMapSame(Finds(f), Finds(g));
  }

  /** Every descent ends where it did. */
  ghost predicate SameReach<V>(f: Forest<V>, g: Forest<V>) {
    WF(f) && WF(g) && g.root == f.root && forall j :: Reach(g, g.root, j) == Reach(f, f.root, j)
  }

  /** Every descent ends where it did, or in one of the new layers `first` to `last` if it ended under
      slice `x` of layer `m`. */
  ghost predicate PushedReach<V>(f: Forest<V>, m: Ptr, x: Ikey, first: Ptr, last: Ptr, g: Forest<V>) {
    && WF(f) && WF(g) && g.root == f.root
    && forall j :: var (n, r), (n', r') := Reach(f, f.root, j), Reach(g, g.root, j);
         (n' == n && r' == r) || (n == m && Slice(r) == x && first <= n' <= last)
  }

  lemma PushedFirst<V>(f: Forest<V>, m: Ptr, x: Ikey, c: Ptr)
    requires CanPush(f, m, x, c) && WF(PushedDown(f, m, x, c))
    ensures PushedReach(f, m, x, c, c, PushedDown(f, m, x, c))
  {
    var g := PushedDown(f, m, x, c);
    forall j ensures var (n, r), (n', r') := Reach(f, f.root, j), Reach(g, g.root, j);
      (n' == n && r' == r) || (n == m && Slice(r) == x && c <= n' <= c)
    {
      PushReach(f, m, x, c, f.root, j);
    }
  }

  lemma PushedOn<V>(f: Forest<V>, m: Ptr, x: Ikey, first: Ptr, last: Ptr, g: Forest<V>, y: Ikey)
    requires PushedReach(f, m, x, first, last, g) && first <= last && last !in f.vs && CanPush(g, last, y, last + 1)
    requires WF(PushedDown(g, last, y, last + 1))
    ensures PushedReach(f, m, x, first, last + 1, PushedDown(g, last, y, last + 1))
  {
    var h := PushedDown(g, last, y, last + 1);
    forall j ensures var (n, r), (n', r') := Reach(f, f.root, j), Reach(h, h.root, j);
      (n' == n && r' == r) || (n == m && Slice(r) == x && first <= n' <= last + 1)
    {
      PushReach(g, last, y, last + 1, g.root, j);
    }
  }

  lemma PushedThenSame<V>(f: Forest<V>, m: Ptr, x: Ikey, first: Ptr, last: Ptr, g: Forest<V>, h: Forest<V>)
    requires PushedReach(f, m, x, first, last, g) && SameReach(g, h)
    ensures PushedReach(f, m, x, first, last, h)
  {
    forall j ensures var (n, r), (n', r') := Reach(f, f.root, j), Reach(h, h.root, j);
      (n' == n && r' == r) || (n == m && Slice(r) == x && first <= n' <= last)
    {
      assert Reach(h, h.root, j) == Reach(g, g.root, j);
    }
  }

  /** Dropping an empty layer: descents that ended in it end above the link to it. */
  lemma {:induction false} CollectReach<V>(f: Forest<V>, n: Ptr, x: Ikey, c: Ptr, m: Ptr, k: Bytes)
    requires CanCollect(f, n, x, c) && WF(Collected(f, n, x, c)) && m in f.vs && m != c
    ensures var (a, r), (a', r') := Reach(f, m, k), Reach(Collected(f, n, x, c), m, k);
      a' != c && if a == c then a' == n && Slice(r') == x else (a', r') == (a, r)
    decreases |k|
  {
    var e := EntryOf(k);
    if e in f.vs[m] && f.vs[m][e].Link? {
      assert EntryOk(f, m, e);
      if f.vs[m][e] == Link(c) {
        OnlyLink(f, n, x, c, m, e);
      } else {
        CollectReach(f, n, x, c, f.vs[m][e].layer, k[SLICE..]);
      }
    }
  }

  /** What a put stores in the last layer, when no other key's suffix is in the way. */
  ghost predicate CanStore<V>(f: Forest<V>, k: Bytes) {
    && WF(f)
    && var (n, r) := Reach(f, f.root, k);
    && (n != f.root ==> r != [])
    && (EntryOf(r) in f.vs[n] && f.vs[n][EntryOf(r)].Suffix? ==> |r| > SLICE && f.vs[n][EntryOf(r)].rest == r[SLICE..])
  }

  /** Below the first layer something is left of every key. */
  lemma {:induction false} RestNotEmpty<V>(f: Forest<V>, m: Ptr, k: Bytes)
    requires WF(f) && m in f.vs && (m != f.root ==> k != [])
    ensures var (n, r) := Reach(f, m, k); n != f.root ==> r != []
    decreases |k|
  {
    var e := EntryOf(k);
    if e in f.vs[m] && f.vs[m][e].Link? {
      assert EntryOk(f, m, e);
      RestNotEmpty(f, f.vs[m][e].layer, k[SLICE..]);
    }
  }

  lemma {:induction false} RestIsSuffix<V>(f: Forest<V>, m: Ptr, k: Bytes)
    requires WF(f) && m in f.vs
    ensures var r := Reach(f, m, k).1; |r| <= |k| && r == k[|k| - |r|..] && (|k| - |r|) % SLICE == 0
    decreases |k|
  {
    hide EntryOf, WF, EntryOk;
    var e := EntryOf(k);
    if e in f.vs[m] && f.vs[m][e].Link? {
      LinkStep(f, m, k);
      var c := f.vs[m][e].layer;
      RestIsSuffix(f, c, k[SLICE..]);
      var r := Reach(f, c, k[SLICE..]).1;
      assert k[SLICE..][|k| - SLICE - |r|..] == k[|k| - |r|..];
    }
  }

  lemma LinkStep<V>(f: Forest<V>, m: Ptr, k: Bytes)
    requires WF(f) && m in f.vs && EntryOf(k) in f.vs[m] && f.vs[m][EntryOf(k)].Link?
    ensures var c := f.vs[m][EntryOf(k)].layer; |k| > SLICE && c in f.vs && Reach(f, m, k) == Reach(f, c, k[SLICE..])
  {
    assert EntryOk(f, m, EntryOf(k));
  }

  /** A put into the last layer of a key's descent stores for that key and no other. */
  lemma StoreKeeps<V>(f: Forest<V>, k: Bytes, v: V)
    requires CanStore(f, k)
    ensures var (n, r) := Reach(f, f.root, k);
      var g := WithView(f, n, f.vs[n][EntryOf(r) := Pay(r, v)]);
      WF(g) && Contents(g) == Contents(f)[k := v] && SameReach(f, g)
  {
    var (n, r) := Reach(f, f.root, k);
    var w := f.vs[n][EntryOf(r) := Pay(r, v)];
    EntryIsEntry(r);
    if EntryOf(r) in f.vs[n] { assert EntryOk(f, n, EntryOf(r)); }
    ChangesWF(f, n, EntryOf(r), w);
    forall s | EntryOf(s) == EntryOf(r) ensures Match(w, s) == if s == r then Some(v) else Match(f.vs[n], s) {
      StoredMatch(f.vs[n], r, v, s);
    }
    forall j ensures Lookup(WithView(f, n, w), f.root, j) == if j == k then Some(v) else Lookup(f, f.root, j) {
      ChangedLookup(f, k, w, Some(v), j);
    }
    ContentsStored(f, WithView(f, n, w), k, Some(v));
    forall j ensures Reach(WithView(f, n, w), f.root, j) == Reach(f, f.root, j) {
      ChangesReach(f, n, EntryOf(r), w, f.root, j);
    }
  }

  lemma EraseKeeps<V>(f: Forest<V>, k: Bytes)
    requires WF(f) && Lookup(f, f.root, k).Some?
    ensures var (n, r) := Reach(f, f.root, k);
      var g := WithView(f, n, f.vs[n] - {EntryOf(r)});
      WF(g) && Contents(g) == Contents(f) - {k} && SameReach(f, g)
  {
    var (n, r) := Reach(f, f.root, k);
    var w := f.vs[n] - {EntryOf(r)};
    assert EntryOk(f, n, EntryOf(r));
    ChangesWF(f, n, EntryOf(r), w);
    forall s | EntryOf(s) == EntryOf(r) ensures Match(w, s) == if s == r then None else Match(f.vs[n], s) {
      ErasedMatch(f.vs[n], r, s);
    }
    forall j ensures Lookup(WithView(f, n, w), f.root, j) == if j == k then None else Lookup(f, f.root, j) {
      ChangedLookup(f, k, w, None, j);
    }
    ContentsStored(f, WithView(f, n, w), k, None);
    forall j ensures Reach(WithView(f, n, w), f.root, j) == Reach(f, f.root, j) {
      ChangesReach(f, n, EntryOf(r), w, f.root, j);
    }
  }

  lemma PushKeeps<V>(f: Forest<V>, n: Ptr, x: Ikey, c: Ptr, k: Bytes, r: Bytes)
    requires CanPush(f, n, x, c) && Reach(f, f.root, k) == (n, r) && EntryOf(r) == EntryKey(x, SLICE + 1)
    ensures var g := PushedDown(f, n, x, c);
      WF(g) && Contents(g) == Contents(f) && Reach(g, g.root, k) == (c, r[SLICE..]) && PushedReach(f, n, x, c, c, g)
  {
    var g := PushedDown(f, n, x, c);
    PushWF(f, n, x, c);
    PushedFirst(f, n, x, c);
    PushReach(f, n, x, c, f.root, k);
    forall j ensures Lookup(g, g.root, j) == Lookup(f, f.root, j) {
      PushLookup(f, n, x, c, j);
    }
    ContentsSame(f, g);
  }

  lemma CollectKeeps<V>(f: Forest<V>, n: Ptr, x: Ikey, c: Ptr)
    requires CanCollect(f, n, x, c)
    ensures var g := Collected(f, n, x, c);
      WF(g) && Contents(g) == Contents(f)
  {
    var g := Collected(f, n, x, c);
    CollectWF(f, n, x, c);
    forall j ensures Lookup(g, g.root, j) == Lookup(f, f.root, j) {
      CollectLookup(f, n, x, c, f.root, j);
    }
    ContentsSame(f, g);
  }
}
