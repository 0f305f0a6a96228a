/** The trie of B+trees (masstree_get.hh, masstree_insert.hh, masstree_remove.hh), run by one thread:
    get, put, remove and the delayed collection of empty layers refine one map from byte strings. */
module KeyTrie {
  import opened NodeStore
  import opened Key
  import opened LayerForest
  import opened LayerPaths
  import opened LayerTree
  import opened LeafEpochs

  /** A layer is in order and holds `w`. */
  ghost predicate Holds<V>(l: Layer<Payload<V>>, w: View<V>)
    reads l
  {
    l.Valid() && l.View() == w
  }

  /** The phantom epoch of the leaf responsible for slice `x` of a layer. */
  ghost function LayerEpoch<V>(l: Layer<V>, x: Ikey): int
    requires l.Valid()
    reads l
  {
    EpochFor(l.T(), l.epoch, x)
  }

  /** The layer's epochs are those of a tree `t` with epochs `e`. */
  ghost predicate EpochsKept<V>(t: Tree<V>, e: Ptr -> int, l: Layer<V>)
    reads l
  {
    SameEpochs(t, e, l.T(), l.epoch)
  }

  ghost predicate NotLowered<V>(t: Tree<V>, e: Ptr -> int, l: Layer<V>)
    reads l
  {
    NoLower(t, e, l.T(), l.epoch)
  }

  class Trie<V> {
    var layers: map<Ptr, Layer<Payload<V>>>
    var root: Ptr
    /** The next layer number to use. */
    var nextLayer: Ptr
    /** Prefixes of the layers for which `gc_layer_rcu_callback::make` was called. */
    var collectable: set<Bytes>
    ghost var views: map<Ptr, View<V>>
    ghost var prefix: map<Ptr, seq<Ikey>>

    ghost function F(): Forest<V>
      reads this
    {
      Forest(views, prefix, root)
    }

    ghost predicate Valid()
      reads this, layers.Values
    {
      && WF(F()) && layers.Keys == views.Keys
      && (forall m {:trigger Holds(layers[m], views[m])} :: m in layers ==> Holds(layers[m], views[m]))
      && (forall m, n :: m in layers && n in layers && m != n ==> layers[m] != layers[n])
      && (forall m :: m in layers ==> m < nextLayer)
      && (forall b :: b in collectable ==> Whole(b))
    }

    /** What the tree holds. */
    ghost function Map(): imap<Bytes, V>
      requires WF(F())
      reads this
    {
      Contents(F())
    }

    /** The phantom epoch of the leaf responsible for a key. */
    ghost function EpochOf(k: Bytes): int
      requires Valid()
      reads this, layers.Values
    {
      var (m, r) := Reach(F(), root, k);
      assert Holds(layers[m], views[m]);
      LayerEpoch(layers[m], Slice(r))
    }

    /** All keys' epochs. */
    ghost function Epochs(): iset<int>
      requires Valid()
      reads this, layers.Values
    {
      iset k: Bytes | true :: EpochOf(k)
    }

    /** The layer responsible for a key, and whether its first leaf is. */
    ghost function LayerOf(k: Bytes): (m: Ptr)
      requires Valid()
      reads this, layers.Values
      ensures m in views && m in prefix
    {
      Reach(F(), root, k).0
    }

    ghost predicate InFirstLeaf(k: Bytes)
      requires Valid()
      reads this, layers.Values
    {
      var (m, r) := Reach(F(), root, k);
      assert Holds(layers[m], views[m]);
      layers[m].InFirst(Slice(r))
    }

    /** The link under slice `x` of layer `m` is in that layer's first leaf. */
    ghost predicate LinkInFirst(m: Ptr, x: Ikey)
      requires Valid() && m in layers
      reads this, layers.Values
    {
      assert Holds(layers[m], views[m]);
      layers[m].InFirst(x)
    }

    ghost function EpochsIn(m: Ptr): iset<int>
      requires Valid() && m in layers
      reads this, layers.Values
    {
      assert Holds(layers[m], views[m]);
      layers[m].Epochs()
    }

    /** The layers below the first that are empty and not registered for collection. */
    ghost function Missed(): set<Ptr>
      reads this
    {
      Unregistered(F(), collectable)
    }

    /** `basic_table::initialize`. */
    constructor ()
      ensures Valid() && Map() == imap[] && fresh(layers.Values) && collectable == {} && Missed() == {}
      ensures forall k :: EpochOf(k) == 0
    {
      hide Layer.Valid, Layer.Sound, Layer.View;
      var l := new Layer<Payload<V>>(0);
      layers := map[0 := l];
      root, nextLayer, collectable := 0, 1, {};
      prefix, views := map[0 := []], map[0 := imap[]];
      new;
      assert Holds(layers[0], views[0]);
    }

    /** Descent through the layers: where key `k` ends, what is left of it, and what is found. */
    method Descend(k: Bytes) returns (m: Ptr, r: Bytes, p: Option<Payload<V>>)
      requires Valid()
      ensures (m, r) == Reach(F(), root, k) && m in layers && m in views
      ensures p == if EntryOf(r) in views[m] then Some(views[m][EntryOf(r)]) else None
      ensures p.Some? ==> !p.value.Link? && EntryOk(F(), m, EntryOf(r)) && (p.value.Suffix? ==> |r| > SLICE)
    {
      m, r := root, k;
      while true
        invariant m in layers && Reach(F(), m, r) == Reach(F(), root, k)
        decreases |r|
      {
        assert Holds(layers[m], views[m]);
        p := layers[m].Read(EntryOf(r));
        if p == None {
          return;
        }
        assert EntryOk(F(), m, EntryOf(r));
        if !p.value.Link? {
          return;
        }
        m, r := p.value.layer, r[SLICE..];
      }
    }

    /** `basic_table::get`. */
    method Get(k: Bytes) returns (v: Option<V>)
      requires Valid()
      ensures v == if k in Map() then Some(Map()[k]) else None
    {
      hide Layer.Valid, Layer.Sound, Layer.View, EntryOf;
      var m, r, p := Descend(k);
      match p
      case None => return None;
      case Some(Value(x)) => return Some(x);
      case Some(Suffix(s, x)) =>
        if s == r[SLICE..] {
          return Some(x);
        }
        return None;
    }

    /** `observe_phantoms` of the leaf responsible for a key. */
    method Epoch(k: Bytes) returns (e: int)
      requires Valid()
      ensures e == EpochOf(k)
    {
      hide WF, Layer.Valid, Layer.Sound, Layer.View, EntryOf, EpochFor;
      var m, r, p := Descend(k);
      assert Holds(layers[m], views[m]);
      e := layers[m].Epoch(Slice(r));
    }

    /** One layer's entry is stored over or added; the forest follows. */
    method StoreIn(m: Ptr, e: EntryKey, p: Payload<V>, present: bool, ghost g: Forest<V>)
      requires Valid() && m in layers && m in views && e.len <= SLICE + 1 && present == (e in views[m])
      requires WF(g) && g == WithView(F(), m, views[m][e := p])
      modifies this`views, layers[m]
      ensures Valid() && F() == g && EpochsKept(old(layers[m].T()), old(layers[m].epoch), layers[m])
    {
      hide WF, EntryOf, Layer.Valid, Layer.Sound, Layer.View, SameEpochs;
      assert Holds(layers[m], views[m]);
      StoreEntry(layers[m], e, p, present);
      views := views[m := views[m][e := p]];
      forall n | n in layers ensures Holds(layers[n], views[n]) {
        if n != m { assert old(Holds(layers[n], views[n])); }
      }
    }

    static method StoreEntry(l: Layer<Payload<V>>, e: EntryKey, p: Payload<V>, present: bool)
      requires l.Valid() && e.len <= SLICE + 1 && present == (e in l.View())
      modifies l
      ensures l.Valid() && l.View() == old(l.View())[e := p] && EpochsKept(old(l.T()), old(l.epoch), l)
    {
      hide Layer.Valid, Layer.Sound, Layer.View, SameEpochs, SameOwners;
      if present {
        l.Replace(e, p);
        OwnersEpochs(old(l.T()), l.T(), l.epoch);
      } else {
        l.Insert(e, p);
      }
    }

    /** A put: `find_insert`, which says whether the key was there, the store of the value, and
        `finish`. */
    method Put(k: Bytes, v: V) returns (found: bool)
      requires Valid()
      modifies this, layers.Values
      ensures Valid() && Map() == old(Map())[k := v] && fresh(layers.Values - old(layers.Values))
      ensures found == (k in old(Map())) && forall j :: EpochOf(j) == old(EpochOf(j))
      ensures collectable == old(collectable) && Missed() == old(Missed()) - {old(LayerOf(k))}
    {
      hide WF, Contents, EntryOf, Reach, Layer.Valid, Layer.Sound, Layer.View, EpochOf, EpochFor, Holds;
      hide EntryOk, HasParent, Unregistered;
      RootIn(F());
      var m, r, p := Descend(k);
      RestNotEmpty(F(), root, k);
      ThereIf(F(), k);
      if p.Some? && p.value.Suffix? && p.value.rest != r[SLICE..] {
        MakeNewLayer(m, k, r, p.value.rest, p.value.v, v);
        found := false;
      } else {
        StoreAt(m, k, r, v, p.Some?);
        assert layers == old(layers) && layers.Values - old(layers.Values) == {};
        found := p.Some?;
      }
    }

    /** A put that needs no new layer. */
    method StoreAt(m: Ptr, k: Bytes, r: Bytes, v: V, present: bool)
      requires Valid() && m in layers && m in views && (m, r) == Reach(F(), root, k)
      requires present == (EntryOf(r) in views[m])
      requires CanStore(F(), k)
      modifies this`views, layers[m]
      ensures Valid() && Map() == old(Map())[k := v] && forall j :: EpochOf(j) == old(EpochOf(j))
      ensures Missed() == old(Missed()) - {m}
    {
      hide WF, Contents, EntryOf, Reach, Layer.Valid, Layer.Sound, Layer.View, SameReach, SameEpochs, Unregistered;
      StoreKeeps(F(), k, v);
      MissedStore(F(), collectable, m, EntryOf(r), Pay(r, v));
      ghost var f := F();
      ghost var g := WithView(f, m, views[m][EntryOf(r) := Pay(r, v)]);
      StoreIn(m, EntryOf(r), Pay(r, v), present, g);
      forall j ensures EpochOf(j) == old(EpochOf(j)) {
        SameReachAt(f, g, j);
        var (n, s) := Reach(f, f.root, j);
        assert old(Holds(layers[n], views[n])) && Holds(layers[n], views[n]);
        if n == m { SameEpochAt(old(layers[m].T()), old(layers[m].epoch), layers[m].T(), layers[m].epoch, Slice(s)); }
      }
    }

    /** `make_new_layer`: two keys share an entry. The twig is built first; then the entry in the old
        leaf becomes a link to it. */
    method MakeNewLayer(m: Ptr, k: Bytes, r: Bytes, s: Bytes, ov: V, v: V)
      requires Valid() && m in layers && m in views && (m, r) == Reach(F(), root, k) && |r| > SLICE
      requires EntryOf(r) in views[m] && views[m][EntryOf(r)] == Suffix(s, ov) && s != r[SLICE..]
      modifies this, layers[m]
      ensures Valid() && Map() == old(Map())[k := v] && fresh(layers.Values - old(layers.Values))
      ensures forall j :: EpochOf(j) == old(EpochOf(j))
      ensures collectable == old(collectable) && Missed() == old(Missed()) - {m}
    {
      hide WF, Contents, EntryOf, Reach, Layer.Valid, Layer.Sound, Layer.View, Grown, CanPush, EpochFor, Unregistered;
      LongEntry(r);
      RootIn(F());
      TwigRoomHere(F(), m, Slice(r), nextLayer, k, s, ov, r[SLICE..]);
      assert Holds(layers[m], views[m]);
      var e := layers[m].Epoch(Slice(r));
      var made, last;
      ghost var g;
      made, last, g := BuildTwig(nextLayer, s, ov, r[SLICE..], v, e, F(), m, Slice(r), k);
      assert forall i :: i in made ==> made[i] in made.Values;
      MissedGrown(F(), m, Slice(r), nextLayer, last, g, collectable);
      PublishAt(m, Slice(r), made, last, e, g);
      MergedValues(old(layers), made);
    }

    /** The new layers become part of the tree by one store in layer `m`. */
    method Publish(m: Ptr, x: Ikey, made: map<Ptr, Layer<Payload<V>>>, last: Ptr, ghost g: Forest<V>)
      requires Valid() && WF(g) && Grown(F(), m, x, nextLayer, last, g) && m in layers && m in views
      requires MadeOk(made, g, nextLayer, last + 1) && EntryKey(x, SLICE + 1) in views[m]
      requires forall i, j :: i in made && j in layers ==> made[i] != layers[j]
      modifies this, layers[m]
      ensures Valid() && F() == g && layers == old(layers) + made && collectable == old(collectable)
      ensures EpochsKept(old(layers[m].T()), old(layers[m].epoch), old(layers[m]))
    {
      hide WF, Layer.Valid, Layer.Sound, Layer.View, SameEpochs, PushedReach;
      var all := layers + made;
      assert all.Keys == g.vs.Keys && g.root == root && forall n :: n in all ==> n <= last;
      assert forall i, j :: i in all && j in all && i != j ==> all[i] != all[j];
      assert forall n :: n in views && n != m ==> g.vs[n] == views[n];
      assert g.vs[m] == views[m][EntryKey(x, SLICE + 1) := Link(nextLayer)];
      assert Holds(layers[m], views[m]);
      StoreEntry(layers[m], EntryKey(x, SLICE + 1), Link(nextLayer), true);
      forall n | n in all ensures Holds(all[n], g.vs[n]) {
        if n in made {
          assert old(Holds(made[n], g.vs[n]));
        } else if n != m {
          assert old(Holds(layers[n], views[n]));
        }
      }
      Install(all, last + 1, g);
    }

    /** Their leaves have the epoch `e` of the leaf that is responsible there, so no key's epoch changes. */
    method PublishAt(m: Ptr, x: Ikey, made: map<Ptr, Layer<Payload<V>>>, last: Ptr, ghost e: int, ghost g: Forest<V>)
      requires Valid() && WF(g) && Grown(F(), m, x, nextLayer, last, g) && m in layers && m in views
      requires MadeOk(made, g, nextLayer, last + 1) && EntryKey(x, SLICE + 1) in views[m]
      requires forall i, j :: i in made && j in layers ==> made[i] != layers[j]
      requires AllAt(made, e) && layers[m].Valid() && LayerEpoch(layers[m], x) == e
      modifies this, layers[m]
      ensures Valid() && F() == g && layers == old(layers) + made && collectable == old(collectable)
      ensures forall j :: EpochOf(j) == old(EpochOf(j))
    {
      hide WF, Layer.Valid, Layer.Sound, Layer.View, SameEpochs, PushedReach, Reach, Grown, EpochFor;
      ghost var f, first := F(), nextLayer;
      Publish(m, x, made, last, g);
      forall n, y: Ikey | n in made ensures EpochAt(n, y) == e {
        assert Holds(layers[n], views[n]) && old(made[n].epoch) == made[n].epoch;
        AllTheSame(layers[n], y, e);
      }
      forall y: Ikey ensures EpochAt(m, y) == old(EpochAt(m, y)) {
        assert Holds(layers[m], views[m]) && old(Holds(layers[m], views[m]));
        SameEpochAt(old(layers[m].T()), old(layers[m].epoch), layers[m].T(), layers[m].epoch, y);
      }
      forall j ensures EpochOf(j) == old(EpochOf(j)) {
        GrownEpoch(m, x, made.Keys, last, e, first, j);
      }
    }

    ghost function EpochAt(m: Ptr, x: Ikey): int
      requires Valid() && m in layers
      reads this, layers.Values
    {
      assert Holds(layers[m], views[m]);
      LayerEpoch(layers[m], x)
    }

    twostate lemma GrownEpoch(new m: Ptr, new x: Ikey, new made: set<Ptr>, new last: Ptr, new e: int, new first: Ptr,
        new j: Bytes)
      requires old(Valid()) && Valid() && Grown(old(F()), m, x, first, last, F())
      requires layers.Keys == old(layers.Keys) + made
      requires forall n :: first <= n <= last ==> n in made
      requires m in old(layers) && forall y :: EpochAt(m, y) == old(EpochAt(m, y))
      requires forall n, y :: n in old(layers) && n != m ==> EpochAt(n, y) == old(EpochAt(n, y))
      requires old(EpochAt(m, x)) == e && forall n, y :: n in made ==> EpochAt(n, y) == e
      ensures EpochOf(j) == old(EpochOf(j))
    {
      hide WF, Layer.Valid, Layer.Sound, Layer.View, Reach, LayerEpoch, Grown;
      GrownAt(old(F()), m, x, first, last, F(), j);
      var (n, r) := Reach(old(F()), old(root), j);
      var (n', r') := Reach(F(), root, j);
      assert old(EpochOf(j)) == old(EpochAt(n, Slice(r))) && EpochOf(j) == EpochAt(n', Slice(r'));
    }

    method Install(all: map<Ptr, Layer<Payload<V>>>, next: Ptr, ghost g: Forest<V>)
      requires WF(g) && g.root == root && all.Keys == g.vs.Keys && (forall n :: n in all ==> n < next)
      requires forall b :: b in collectable ==> Whole(b)
      requires forall i, j :: i in all && j in all && i != j ==> all[i] != all[j]
      requires forall n {:trigger Holds(all[n], g.vs[n])} :: n in all ==> Holds(all[n], g.vs[n])
      modifies this
      ensures Valid() && F() == g && layers == all && collectable == old(collectable)
    {
      hide WF, Layer.Valid, Layer.Sound, Layer.View;
      layers, nextLayer := all, next;
      views, prefix := g.vs, g.prefix;
      forall n | n in layers ensures Holds(layers[n], views[n]) {
        assert old(Holds(all[n], g.vs[n]));
      }
    }

    /** A layer's epochs are those of keys. */
    lemma EpochsHere(m: Ptr)
      requires Valid() && m in layers
      ensures EpochsIn(m) <= Epochs()
    {
      hide Layer.Valid, Layer.Sound, Layer.View, Layer.Epochs, WF, Reach, EpochFor;
      assert Holds(layers[m], views[m]);
      forall v | v in EpochsIn(m) ensures v in Epochs() {
        var x := SomeEpoch(layers[m], v);
        ReachSlice(F(), m, x);
        var k := Flat(prefix[m]) + Eight(x);
        assert EpochOf(k) == v;
      }
    }

    /** A removal with timestamp `ts`: `find_locked`, `apply_remove`, and `finish_remove`. A layer below
        the first that is down to one empty leaf is left for `Collect`, if the entry was in that leaf. */
    method Remove(k: Bytes, ts: int) returns (found: bool)
      requires Valid()
      modifies this, layers.Values
      ensures Valid() && found == (k in old(Map())) && Map() == old(Map()) - {k}
      ensures layers == old(layers)
      ensures (found ==> ts < EpochOf(k)) && forall j :: EpochOf(j) >= old(EpochOf(j))
      ensures forall j :: EpochOf(j) in old(Epochs()) + iset{ts + 2}
      ensures collectable == old(collectable)
        + (if found then Noted(F(), old(LayerOf(k)), old(InFirstLeaf(k))) else {})
      ensures Missed() == old(Missed())
        + (if found then NewlyMissed(F(), old(collectable), old(LayerOf(k)), old(InFirstLeaf(k))) else {})
    {
      hide EntryOf, Layer.Valid, Layer.Sound, Layer.View, WF, Contents, Reach, Holds, Unregistered;
      var m, r, p := Descend(k);
      if p == None || (p.value.Suffix? && p.value.rest != r[SLICE..]) {
        NotThere(F(), k);
        return false;
      }
      EraseFound(k, m, r, ts);
      return true;
    }

    method EraseFound(k: Bytes, m: Ptr, r: Bytes, ts: int)
      requires Valid() && (m, r) == Reach(F(), root, k) && m in layers && m in views && EntryOf(r) in views[m]
      requires Lookup(F(), root, k).Some?
      modifies this, layers.Values
      ensures Valid() && k in old(Map()) && Map() == old(Map()) - {k} && layers == old(layers)
      ensures ts < EpochOf(k)
      ensures forall j :: EpochOf(j) >= old(EpochOf(j))
      ensures forall j :: EpochOf(j) in old(Epochs()) + iset{ts + 2}
      ensures m in views && m in prefix && collectable == old(collectable) + Noted(F(), m, old(InFirstLeaf(k)))
      ensures Missed() == old(Missed()) + NewlyMissed(F(), old(collectable), m, old(InFirstLeaf(k)))
    {
      hide EntryOf, Layer.Valid, Layer.Sound, Layer.View, WF, Contents, Reach, SameReach, NoLower, Lookup, EpochFor;
      hide Unregistered, Layer.Epochs, Layer.InFirst;
      RootIn(F());
      ThereIf(F(), k);
      RestIsSuffix(F(), root, k);
      BytesBefore(F(), k);
      EraseKeeps(F(), k);
      EpochsHere(m);
      ghost var f, g := F(), WithView(F(), m, views[m] - {EntryOf(r)});
      EntryOfSlice(r);
      EraseIn(m, EntryOf(r), k[..|k| - |r|], ts);
      SameReachAt(f, g, k);
      assert Holds(layers[m], views[m]) && (m, r) == Reach(F(), root, k);
      forall j ensures EpochOf(j) >= old(EpochOf(j)) && EpochOf(j) in old(Epochs()) + iset{ts + 2} {
        SameReachAt(f, g, j);
        var (n, s) := Reach(f, f.root, j);
        assert old(Holds(layers[n], views[n])) && Holds(layers[n], views[n]);
        assert old(EpochOf(j)) in old(Epochs());
        if n == m {
          NoLowerAt(old(layers[m].T()), old(layers[m].epoch), layers[m].T(), layers[m].epoch, Slice(s));
          EpochWithin(layers[m], Slice(s));
        }
      }
    }

    method EraseIn(m: Ptr, e: EntryKey, before: Bytes, ts: int)
      requires Valid() && m in layers && m in views && e in views[m] && m in prefix && before == Flat(prefix[m])
      requires WF(WithView(F(), m, views[m] - {e}))
      modifies this, layers[m]
      ensures Valid() && F() == old(WithView(F(), m, views[m] - {e})) && layers == old(layers)
      ensures NotLowered(old(layers[m].T()), old(layers[m].epoch), layers[m])
      ensures layers[m].Valid() && ts < LayerEpoch(layers[m], e.ikey)
      ensures EpochsIn(m) <= old(EpochsIn(m)) + iset{ts + 2}
      ensures collectable == old(collectable) + Noted(F(), m, old(LinkInFirst(m, e.ikey)))
      ensures Missed() == old(Missed()) + NewlyMissed(F(), old(collectable), m, old(LinkInFirst(m, e.ikey)))
    {
      hide WF, Contents, Layer.Valid, Layer.Sound, Layer.View, NoLower, NotLowered, LayerEpoch, Layer.Epochs;
      hide Layer.InFirst, Unregistered, Flat, Noted, NewlyMissed;
      assert Holds(layers[m], views[m]);
      RootPath(F(), m);
      ghost var first, g := layers[m].InFirst(e.ikey), WithView(F(), m, views[m] - {e});
      MissedErase(F(), collectable, m, e, first);
      var lone := EraseEntry(layers[m], e, ts);
      NotedIs(g, m, first, lone, before);
      if lone && before != [] {
        collectable := collectable + {before};
      }
      assert collectable == old(collectable) + Noted(g, m, first);
      forall n | n in layers ensures Holds(layers[n], g.vs[n]) {
        if n != m { assert old(Holds(layers[n], views[n])); }
      }
      Install(layers, nextLayer, g);
    }

    /** The leaf's epoch is raised above the removal before the entry goes. */
    static method EraseEntry(l: Layer<Payload<V>>, e: EntryKey, ts: int) returns (lone: bool)
      requires l.Valid() && e in l.View()
      modifies l
      ensures l.Valid() && l.View() == old(l.View()) - {e} && (lone <==> l.View() == imap[] && old(l.InFirst(e.ikey)))
      ensures NotLowered(old(l.T()), old(l.epoch), l) && ts < LayerEpoch(l, e.ikey)
      ensures l.Epochs() <= old(l.Epochs()) + iset{ts + 2}
    {
      hide Layer.Valid, Layer.Sound, Layer.View, NoLower, Layer.Epochs;
      ghost var t, was := l.T(), l.epoch;
      l.RaiseAbove(e.ikey, ts);
      ghost var raised := l.epoch;
      lone := l.Remove(e);
      NoLowerTwice(t, was, t, raised, l.T(), l.epoch);
      NoLowerAt(t, raised, l.T(), l.epoch, e.ikey);
    }

    /** The descent of `gc_layer`: the layer `c` under `before`, if there is one, and the entry of layer
        `m` that leads to it, where `r` is left of `before`. */
    method FindLink(before: Bytes) returns (m: Ptr, r: Bytes, c: Option<Ptr>)
      requires Valid() && Whole(before)
      ensures m in layers && m in views && m in prefix && before == Flat(prefix[m]) + r
      ensures c.Some? ==> |r| == SLICE && c.value in layers && c.value != m && Under(F(), c.value, before)
      ensures c.Some? ==>
        EntryKey(Slice(r), SLICE + 1) in views[m] && views[m][EntryKey(Slice(r), SLICE + 1)] == Link(c.value)
      ensures c == None ==> forall d :: !Under(F(), d, before)
    {
      hide Contents, Num, Layer.Valid, Layer.Sound, Layer.View, Under, Flat;
      m, r, c := root, before, None;
      FlatNothing();
      while |r| > SLICE
        invariant m in layers && m in views && m in prefix && r != [] && before == Flat(prefix[m]) + r
        decreases |r|
      {
        assert Holds(layers[m], views[m]);
        LongEntry(r);
        var p := layers[m].Read(EntryOf(r));
        if p == None || !p.value.Link? {
          forall d ensures !Under(F(), d, before) {
            if Under(F(), d, before) { LinkUnder(F(), m, r, d, before); }
          }
          return;
        }
        LinkLeads(F(), m, r);
        m, r := p.value.layer, r[SLICE..];
      }
      assert Holds(layers[m], views[m]);
      var p := layers[m].ReadBeyond(Slice(r));
      if p.Some? && p.value.Link? {
        LinkLeads(F(), m, r);
        LinkIsUnder(F(), p.value.layer, before, r);
        c := Some(p.value.layer);
      } else {
        forall d ensures !Under(F(), d, before) {
          if Under(F(), d, before) { LinkUnder(F(), m, r, d, before); }
        }
      }
    }

    /** Some time after `gc_layer_rcu_callback` was registered, the layer under `before` is collected
        if it is empty. By then it may be in use again, or gone. `c` is the layer that goes, and `m` the one
        with the link to it under slice `x`. */
    method Collect(before: Bytes) returns (ghost c: Option<Ptr>, ghost m: Ptr, ghost x: Ikey)
      requires Valid() && before in collectable
      modifies this, layers.Values
      ensures Valid() && Map() == old(Map()) && layers.Values <= old(layers.Values)
      ensures forall j :: EpochOf(j) >= old(EpochOf(j)) && EpochOf(j) in old(Epochs())
      ensures c.Some? ==> Under(old(F()), c.value, before) && !InUse(old(F()), c.value)
      ensures c.Some? ==> m in old(layers) && layers == old(layers) - {c.value}
      ensures c.Some? ==>
        Collects(old(F()), old(collectable), F(), collectable + {before}, m, x, c.value, old(LinkInFirst(m, x)))
      ensures c == None ==> forall d :: Under(old(F()), d, before) ==> InUse(old(F()), d)
      ensures c == None ==> F() == old(F()) && layers == old(layers) && collectable == old(collectable) - {before}
      ensures before !in collectable && Missed() == Unregistered(F(), collectable + {before})
    {
      hide WF, Contents, Layer.Valid, Layer.Sound, Layer.View, Under, Unregistered, Flat, Collects, CanCollect, InUse;
      hide Trie.Valid, Trie.Epochs, Trie.EpochOf, Trie.LinkInFirst;
      Known(before);
      AllIn();
      var n, r, l := FindLink(before);
      c, m, x := None, n, 0;
      if l != None {
        var gone := CollectLayer(n, r, l.value, before);
        if gone { c, x := l, Slice(r); }
      }
      ghost var col := collectable;
      Unregister(before);
      assert collectable + {before} == col;
    }

    lemma AllIn()
      requires Valid()
      ensures forall j :: EpochOf(j) in Epochs()
    {
      hide Trie.Valid, Trie.EpochOf;
    }

    lemma Known(b: Bytes)
      requires Valid()
      ensures WF(F()) && layers.Keys == views.Keys && (b in collectable ==> Whole(b))
    {
    }

    /** The callback is done. */
    method Unregister(before: Bytes)
      requires Valid() && before in collectable && forall d :: Under(F(), d, before) ==> InUse(F(), d)
      modifies this`collectable
      ensures Valid() && F() == old(F()) && collectable == old(collectable) - {before}
      ensures Missed() == old(Missed()) && forall j :: EpochOf(j) == old(EpochOf(j))
    {
      hide WF, Layer.Valid, Layer.Sound, Layer.View, Under, Unregistered, InUse, Reach, EpochFor;
      MissedNot(F(), collectable, before);
      collectable := collectable - {before};
      forall n | n in layers ensures Holds(layers[n], views[n]) {
        assert old(Holds(layers[n], views[n]));
      }
    }

    /** What `gc_layer` does with the layer `c` it has found. */
    method CollectLayer(m: Ptr, r: Bytes, c: Ptr, before: Bytes) returns (gone: bool)
      requires Valid() && m in layers && m in views && m in prefix && before == Flat(prefix[m]) + r && |r| == SLICE
      requires c in layers && c != m && Under(F(), c, before)
      requires EntryKey(Slice(r), SLICE + 1) in views[m] && views[m][EntryKey(Slice(r), SLICE + 1)] == Link(c)
      modifies this, layers.Values
      ensures Valid() && Map() == old(Map()) && layers.Values <= old(layers.Values)
      ensures forall j :: EpochOf(j) >= old(EpochOf(j)) && EpochOf(j) in old(Epochs())
      ensures forall d :: Under(F(), d, before) ==> InUse(F(), d)
      ensures (gone <==> !InUse(old(F()), c)) && old(collectable) <= collectable
      ensures if gone then layers == old(layers) - {c}
          && Collects(old(F()), old(collectable), F(), collectable, m, Slice(r), c, old(LinkInFirst(m, Slice(r))))
        else F() == old(F()) && layers == old(layers) && collectable == old(collectable)
    {
      hide WF, Contents, Layer.Valid, Layer.Sound, Layer.View, Under, Unregistered, Flat, Collects, CanCollect;
      hide Trie.Valid, Trie.Epochs, Trie.EpochOf, Trie.LinkInFirst;
      Known(before);
      AllIn();
      ghost var f := F();
      var e;
      gone, e := ShrinkIn(c);
      if gone {
        Collectable(f, m, r, c, before);
        Drop(m, Slice(r), c, before[..|before| - |r|], e);
        NoneUnder(f, old(collectable), F(), collectable, m, Slice(r), c, old(LinkInFirst(m, Slice(r))), before);
      } else {
        OneInUse(f, c, before);
      }
    }

    /** Root internodes of layer `c` without separators go. `e` is the epoch of its last leaf. */
    method ShrinkIn(c: Ptr) returns (empty: bool, e: int)
      requires Valid() && c in layers && c in views
      modifies layers[c]
      ensures Valid() && (empty <==> views[c] == imap[])
      ensures empty ==> AllEpochs(c, e)
      ensures (forall j :: EpochOf(j) == old(EpochOf(j))) && Epochs() == old(Epochs())
      ensures forall m, x :: m in layers && m != c ==> LinkInFirst(m, x) == old(LinkInFirst(m, x))
    {
      hide WF, Layer.Valid, Layer.Sound, Layer.View, Layer.InFirst, SameEpochs, SameOwners, Reach;
      assert Holds(layers[c], views[c]);
      RootIn(F());
      ghost var t := layers[c].T();
      empty := layers[c].Shrink();
      OwnersEpochs(t, layers[c].T(), layers[c].epoch);
      e := layers[c].Epoch(0);
      forall n | n in layers ensures Holds(layers[n], views[n]) {
        if n != c { assert old(Holds(layers[n], views[n])); }
      }
      forall j ensures EpochOf(j) == old(EpochOf(j)) {
        var (n, r) := Reach(F(), root, j);
        assert old(Holds(layers[n], views[n])) && Holds(layers[n], views[n]);
        if n == c { SameEpochAt(t, layers[c].epoch, layers[c].T(), layers[c].epoch, Slice(r)); }
      }
      SameEpochSet();
    }

    twostate lemma SameEpochSet()
      requires old(Valid()) && Valid() && forall j :: EpochOf(j) == old(EpochOf(j))
      ensures Epochs() == old(Epochs())
    {
      hide Trie.Valid, Trie.EpochOf;
      forall v ensures v in Epochs() <==> v in old(Epochs()) {
        if v in Epochs() {
          var k :| EpochOf(k) == v;
          assert old(EpochOf(k)) == v;
        }
        if v in old(Epochs()) {
          var k :| old(EpochOf(k)) == v;
          assert EpochOf(k) == v;
        }
      }
    }

    /** Every leaf of layer `c` has epoch `e`. */
    ghost predicate AllEpochs(c: Ptr, e: int)
      requires Valid() && c in layers
      reads this, layers.Values
    {
      assert Holds(layers[c], views[c]);
      forall x: Ikey :: LayerEpoch(layers[c], x) == e
    }

    /** The end of `gc_layer`: the leaf entry's leaf takes over the epoch of the empty layer `c`, and the
        entry that leads there is removed. */
    method Drop(m: Ptr, x: Ikey, c: Ptr, above: Bytes, e: int)
      requires Valid() && m in layers && m in views && c in layers && CanCollect(F(), m, x, c) && AllEpochs(c, e)
      requires m in prefix && above == Flat(prefix[m])
      modifies this, layers[m]
      ensures Valid() && Map() == old(Map()) && layers == old(layers) - {c}
      ensures forall j :: EpochOf(j) >= old(EpochOf(j)) && EpochOf(j) in old(Epochs())
      ensures Collects(old(F()), old(collectable), F(), collectable, m, x, c, old(LinkInFirst(m, x)))
    {
      hide WF, Contents, Layer.Valid, Layer.Sound, Layer.View, NoLower, Reach, CanCollect, Collects;
      hide Trie.Epochs, Trie.EpochsIn, Trie.LinkInFirst;
      CollectKeeps(F(), m, x, c);
      ghost var f := F();
      EpochsHere(m);
      OneOfAll(c, e);
      DropStores(m, x, c, above, e);
      forall j ensures EpochOf(j) >= old(EpochOf(j)) && EpochOf(j) in old(Epochs()) {
        DropEpoch(m, x, c, e, f, j);
      }
    }

    lemma OneOfAll(c: Ptr, e: int)
      requires Valid() && c in layers && AllEpochs(c, e)
      ensures e in Epochs()
    {
      hide WF, Layer.Valid, Layer.Sound, Layer.View, Reach, EpochFor;
      EpochsHere(c);
      assert Holds(layers[c], views[c]);
      EpochWithin(layers[c], 0);
    }

    /** What dropping layer `c` does to the epoch of key `j`. */
    twostate lemma DropEpoch(new m: Ptr, new x: Ikey, new c: Ptr, new e: int, new f: Forest<V>, new j: Bytes)
      requires old(Valid()) && Valid() && f == old(F()) && CanCollect(f, m, x, c) && m in layers
      requires c in old(layers) && m in old(layers) && old(AllEpochs(c, e)) && e in old(Epochs())
      requires old(EpochsIn(m)) <= old(Epochs())
      requires F() == Collected(f, m, x, c) && layers == old(layers) - {c}
      requires forall n, y :: n in layers && n != m ==> EpochAt(n, y) == old(EpochAt(n, y))
      requires NotLowered(old(layers[m].T()), old(layers[m].epoch), layers[m]) && RaisedTo(m, x, e)
      requires EpochsIn(m) <= old(EpochsIn(m)) + iset{e}
      ensures EpochOf(j) >= old(EpochOf(j)) && EpochOf(j) in old(Epochs())
    {
      hide WF, Layer.Valid, Layer.Sound, Layer.View, NoLower, Reach, CanCollect, Layer.Epochs, EpochFor;
      CollectKeeps(f, m, x, c);
      CollectReach(f, m, x, c, f.root, j);
      var (n, r) := Reach(f, f.root, j);
      var (n', r') := Reach(F(), root, j);
      assert old(Holds(layers[n], views[n])) && Holds(layers[n'], views[n']);
      assert old(EpochOf(j)) in old(Epochs());
      if n' == m {
        assert old(Holds(layers[m], views[m]));
        NoLowerAt(old(layers[m].T()), old(layers[m].epoch), layers[m].T(), layers[m].epoch, Slice(r'));
        EpochWithin(layers[m], Slice(r'));
      } else {
        assert EpochAt(n', Slice(r')) == old(EpochAt(n', Slice(r')));
      }
    }

    /** The leaf for slice `x` of layer `m` has an epoch of at least `e`. */
    ghost predicate RaisedTo(m: Ptr, x: Ikey, e: int)
      requires Valid() && m in layers
      reads this, layers.Values
    {
      assert Holds(layers[m], views[m]);
      e <= LayerEpoch(layers[m], x)
    }

    method DropStores(m: Ptr, x: Ikey, c: Ptr, above: Bytes, e: int)
      requires Valid() && m in layers && m in views && c in layers && CanCollect(F(), m, x, c)
      requires WF(Collected(F(), m, x, c)) && m in prefix && above == Flat(prefix[m])
      modifies this, layers[m]
      ensures Valid() && F() == old(Collected(F(), m, x, c)) && layers == old(layers) - {c} && m in layers
      ensures NotLowered(old(layers[m].T()), old(layers[m].epoch), layers[m]) && RaisedTo(m, x, e)
      ensures EpochsIn(m) <= old(EpochsIn(m)) + iset{e}
      ensures Collects(old(F()), old(collectable), F(), collectable, m, x, c, old(LinkInFirst(m, x)))
    {
      hide WF, Contents, Layer.Valid, Layer.Sound, Layer.View, NoLower, Layer.Epochs, Layer.InFirst, Unregistered, Flat;
      hide Noted, NewlyMissed, EpochFor, Collects, CanCollect;
      ghost var f, g := F(), Collected(F(), m, x, c);
      RootPath(f, m);
      assert Holds(layers[m], views[m]);
      ghost var first := layers[m].InFirst(x);
      CollectsSo(f, collectable, m, x, c, first);
      var rest := layers - {c};
      CollectedViews(f, m, x, c);
      assert rest.Keys == g.vs.Keys;
      var lone := EraseLink(layers[m], x, e);
      forall n | n in rest ensures Holds(rest[n], g.vs[n]) {
        if n != m { assert old(Holds(layers[n], views[n])); }
      }
      NotedIs(g, m, first, lone, above);
      if lone && above != [] {
        collectable := collectable + {above};
      }
      assert collectable == old(collectable) + Noted(g, m, first);
      Install(rest, nextLayer, g);
    }

    static method EraseLink(l: Layer<Payload<V>>, x: Ikey, e: int) returns (lone: bool)
      requires l.Valid() && EntryKey(x, SLICE + 1) in l.View()
      modifies l
      ensures l.Valid() && l.View() == old(l.View()) - {EntryKey(x, SLICE + 1)}
      ensures lone <==> l.View() == imap[] && old(l.InFirst(x))
      ensures NotLowered(old(l.T()), old(l.epoch), l) && e <= LayerEpoch(l, x)
      ensures l.Epochs() <= old(l.Epochs()) + iset{e}
    {
      hide Layer.Valid, Layer.Sound, Layer.View, NoLower, Layer.Epochs;
      ghost var t, was := l.T(), l.epoch;
      l.RaiseEpoch(x, e);
      ghost var raised := l.epoch;
      lone := l.Remove(EntryKey(x, SLICE + 1));
      NoLowerTwice(t, was, t, raised, l.T(), l.epoch);
      NoLowerAt(t, raised, l.T(), l.epoch, x);
    }

    /** The layers of a twig, one for each slice that the rests `a0` and `b0` of two keys share and one
        where they part, and the forest they make (the loop of `make_new_layer`). */
    static method BuildTwig(first: Ptr, a0: Bytes, va: V, b0: Bytes, vb: V, e: int, ghost f: Forest<V>, ghost m: Ptr,
                            ghost x: Ikey, ghost k: Bytes)
      returns (made: map<Ptr, Layer<Payload<V>>>, last: Ptr, ghost g: Forest<V>)
      requires TwigRoom(f, m, x, first, k, a0, va, b0)
      ensures WF(g) && Grown(f, m, x, first, last, g) && Contents(g) == Contents(f)[k := vb]
      ensures MadeOk(made, g, first, last + 1) && fresh(made.Values) && AllAt(made, e)
    {
      hide TwigState, Grown, MadeOk, WF, Contents, EntryOf, Slice, Reach, CanPush, PushedDown;
      var a, b := a0, b0;
      made, last := map[], first;
      TwigStart(f, m, x, first, k, a, va, b);
      g := PushedDown(f, m, x, first);
      NoneMade(g, first);
      while EntryOf(a) == EntryOf(b)
        invariant TwigState(f, last, g, k, a, va, b) && Grown(f, m, x, first, last, g)
        invariant MadeOk(made, g, first, last) && fresh(made.Values) && AllAt(made, e)
        decreases |a|
      {
        made, g := TwigTurn(made, first, last, a, va, b, e, f, g, m, x, k);
        a, b, last := a[SLICE..], b[SLICE..], last + 1;
      }
      made, g := TwigLast(made, first, last, a, va, b, vb, e, f, g, m, x, k);
    }

    /** One turn of the loop: both keys go on below the same slice. */
    static method TwigTurn(made: map<Ptr, Layer<Payload<V>>>, ghost first: Ptr, last: Ptr, a: Bytes, va: V, b: Bytes,
                           e: int, ghost f: Forest<V>, ghost g: Forest<V>, ghost m: Ptr, ghost x: Ikey, ghost k: Bytes)
      returns (made': map<Ptr, Layer<Payload<V>>>, ghost g': Forest<V>)
      requires TwigState(f, last, g, k, a, va, b) && Grown(f, m, x, first, last, g) && EntryOf(a) == EntryOf(b)
      requires MadeOk(made, g, first, last) && AllAt(made, e)
      ensures |a| > SLICE && |b| > SLICE
      ensures TwigState(f, last + 1, g', k, a[SLICE..], va, b[SLICE..]) && Grown(f, m, x, first, last + 1, g')
      ensures MadeOk(made', g', first, last + 1) && fresh(made'.Values - made.Values) && AllAt(made', e)
    {
      hide MadeOk, Contents;
      TwigStep(f, last, g, k, a, va, b);
      GrownStep(f, m, x, first, last, g, a, va);
      g' := PushedDown(g, last, Slice(a), last + 1);
      hide TwigState, PushedDown;
      made' := AddTwig(made, g, g', first, last, EntryOf(a), Link(last + 1), e);
    }

    /** The end of the twig: the keys part, or one of them ends. */
    static method TwigLast(made: map<Ptr, Layer<Payload<V>>>, ghost first: Ptr, last: Ptr, a: Bytes, va: V, b: Bytes,
                           vb: V, e: int, ghost f: Forest<V>, ghost g: Forest<V>, ghost m: Ptr, ghost x: Ikey,
                             ghost k: Bytes)
      returns (made': map<Ptr, Layer<Payload<V>>>, ghost g': Forest<V>)
      requires TwigState(f, last, g, k, a, va, b) && Grown(f, m, x, first, last, g) && EntryOf(a) != EntryOf(b)
      requires MadeOk(made, g, first, last) && AllAt(made, e)
      ensures WF(g') && Contents(g') == Contents(f)[k := vb] && Grown(f, m, x, first, last, g')
      ensures MadeOk(made', g', first, last + 1) && fresh(made'.Values - made.Values) && AllAt(made', e)
    {
      hide MadeOk, Contents, WF;
      TwigEnd(f, last, g, k, a, va, b, vb);
      MoreThanNothing(g.vs[last], EntryOf(b), Pay(b, vb));
      GrownEnd(f, m, x, first, last, g, g.vs[last][EntryOf(b) := Pay(b, vb)]);
      g' := WithView(g, last, g.vs[last][EntryOf(b) := Pay(b, vb)]);
      made' := AddFork(made, g, g', first, last, EntryOf(a), Pay(a, va), EntryOf(b), Pay(b, vb), e);
    }

    static method AddTwig(made: map<Ptr, Layer<Payload<V>>>, ghost g: Forest<V>, ghost g': Forest<V>, ghost first: Ptr,
                          last: Ptr, y: EntryKey, p: Payload<V>, e: int)
      returns (made': map<Ptr, Layer<Payload<V>>>)
      requires MadeOk(made, g, first, last) && SameMade(g, g', first, last) && y.len <= SLICE + 1 && first <= last
      requires last in g'.vs && g'.vs[last] == imap[y := p] && AllAt(made, e)
      ensures MadeOk(made', g', first, last + 1) && fresh(made'.Values - made.Values) && AllAt(made', e)
    {
      var l := new Layer<Payload<V>>.Twig(y, p, e);
      made' := made[last := l];
      forall i | i in made' ensures i in g'.vs && Holds(made'[i], g'.vs[i]) {
        if i != last { assert Holds(made[i], g.vs[i]); }
      }
    }

    static method AddFork(made: map<Ptr, Layer<Payload<V>>>, ghost g: Forest<V>, ghost g': Forest<V>, ghost first: Ptr,
                          last: Ptr, y: EntryKey, p: Payload<V>, y': EntryKey, p': Payload<V>, e: int)
      returns (made': map<Ptr, Layer<Payload<V>>>)
      requires MadeOk(made, g, first, last) && SameMade(g, g', first, last) && first <= last
      requires y.len <= SLICE + 1 && y'.len <= SLICE + 1 && y != y'
      requires last in g'.vs && g'.vs[last] == imap[y := p][y' := p'] && AllAt(made, e)
      ensures MadeOk(made', g', first, last + 1) && fresh(made'.Values - made.Values) && AllAt(made', e)
    {
      var l := new Layer<Payload<V>>.Fork(y, p, y', p', e);
      made' := made[last := l];
      forall i | i in made' ensures i in g'.vs && Holds(made'[i], g'.vs[i]) {
        if i != last { assert Holds(made[i], g.vs[i]); }
      }
    }
  }

  /** Every leaf of the new layers has epoch `e`. */
  ghost predicate AllAt<V>(made: map<Ptr, Layer<Payload<V>>>, e: int)
    reads made.Values
  {
    forall i, p :: i in made ==> made[i].epoch(p) == e
  }

  /** The new layers `first` up to, not including, `end`: in order, distinct, and holding what `g` says. */
  ghost predicate MadeOk<V>(made: map<Ptr, Layer<Payload<V>>>, g: Forest<V>, first: Ptr, end: Ptr)
    reads made.Values
  {
    && (forall i :: i in made <==> first <= i < end)
    && (forall i {:trigger Holds(made[i], g.vs[i])} :: i in made ==> i in g.vs && Holds(made[i], g.vs[i]))
    && (forall i, j :: i in made && j in made && i != j ==> made[i] != made[j])
  }

  lemma NoneMade<V>(g: Forest<V>, first: Ptr)
    ensures MadeOk<V>(map[], g, first, first)
  {
  }

  ghost predicate SameMade<V>(g: Forest<V>, g': Forest<V>, first: Ptr, last: Ptr) {
    forall i :: first <= i < last ==> i in g.vs && i in g'.vs && g'.vs[i] == g.vs[i]
  }

  /** Forest `g` is `f` with new layers `first` to `last` under slice `x` of layer `m`. */
  ghost predicate Grown<V>(f: Forest<V>, m: Ptr, x: Ikey, first: Ptr, last: Ptr, g: Forest<V>) {
    && m in f.vs && m < first && g.root == f.root && first <= last && (forall i :: i in f.vs ==> i < first)
    && (forall i :: i in g.vs <==> i in f.vs || first <= i <= last)
    && (forall i :: i in f.vs ==> g.vs[i] == if i == m then f.vs[m][EntryKey(x, SLICE + 1) := Link(first)] else f.vs[i])
    && PushedReach(f, m, x, first, last, g) && Populated(f, first, last, g)
  }

  /** The new layers are not empty, and the old ones are where they were. */
  ghost predicate Populated<V>(f: Forest<V>, first: Ptr, last: Ptr, g: Forest<V>) {
    && (forall i :: first <= i <= last ==> i in g.vs && g.vs[i] != imap[])
    && (forall i :: i in f.prefix ==> i in g.prefix && g.prefix[i] == f.prefix[i])
  }

  lemma PopulatedStep<V>(f: Forest<V>, first: Ptr, last: Ptr, g: Forest<V>, x: Ikey)
    requires Populated(f, first, last, g) && CanPush(g, last, x, last + 1)
    ensures Populated(f, first, last + 1, PushedDown(g, last, x, last + 1))
  {
    PushedView(g, last, x, last + 1);
    MoreThanNothing(g.vs[last], EntryKey(x, SLICE + 1), Link(last + 1));
    hide WF;
  }

  /** Key `k` ends at a suffix entry that holds the rest `a` of another key. */
  ghost predicate TwigRoom<V>(f: Forest<V>, m: Ptr, x: Ikey, first: Ptr, k: Bytes, a: Bytes, va: V, b: Bytes) {
    && CanPush(f, m, x, first) && f.vs[m][EntryKey(x, SLICE + 1)] == Suffix(a, va) && a != b
    && Reach(f, f.root, k).0 == m && EntryOf(Reach(f, f.root, k).1) == EntryKey(x, SLICE + 1)
    && b == Reach(f, f.root, k).1[SLICE..] && forall i :: i in f.vs ==> i < first
  }

  /** Half way: layer `last` holds only the rest `a` of the other key, and `b` is left of `k` there. */
  ghost predicate TwigState<V>(f: Forest<V>, last: Ptr, g: Forest<V>, k: Bytes, a: Bytes, va: V, b: Bytes) {
    && WF(f) && WF(g) && Contents(g) == Contents(f) && last != g.root && last in g.vs
    && a != b && a != [] && g.vs[last] == imap[EntryOf(a) := Pay(a, va)] && Reach(g, g.root, k) == (last, b)
  }

  lemma TwigStart<V>(f: Forest<V>, m: Ptr, x: Ikey, first: Ptr, k: Bytes, a: Bytes, va: V, b: Bytes)
    requires TwigRoom(f, m, x, first, k, a, va, b)
    ensures TwigState(f, first, PushedDown(f, m, x, first), k, a, va, b)
    ensures Grown(f, m, x, first, first, PushedDown(f, m, x, first))
  {
    hide WF, Reach, Contents, EntryOf, Lookup, PushedReach;
    SuffixEntry(f, m, EntryKey(x, SLICE + 1));
    PushedView(f, m, x, first);
    PushKeeps(f, m, x, first, k, Reach(f, f.root, k).1);
  }

  lemma SuffixEntry<V>(f: Forest<V>, m: Ptr, e: EntryKey)
    requires WF(f) && m in f.vs && e in f.vs[m] && f.vs[m][e].Suffix?
    ensures f.root in f.vs && f.vs[m][e].rest != []
  {
    assert EntryOk(f, m, e);
  }

  lemma TwigStep<V>(f: Forest<V>, last: Ptr, g: Forest<V>, k: Bytes, a: Bytes, va: V, b: Bytes)
    requires TwigState(f, last, g, k, a, va, b) && EntryOf(a) == EntryOf(b) && last + 1 !in g.vs
    ensures |a| > SLICE && |b| > SLICE && CanPush(g, last, Slice(a), last + 1)
    ensures TwigState(f, last + 1, PushedDown(g, last, Slice(a), last + 1), k, a[SLICE..], va, b[SLICE..])
  {
    assert last + 1 != g.root;
    hide WF, Reach, Contents;
    SameEntry(a, b);
    PushKeeps(g, last, Slice(a), last + 1, k, b);
  }

  lemma GrownStep<V>(f: Forest<V>, m: Ptr, x: Ikey, first: Ptr, last: Ptr, g: Forest<V>, a: Bytes, va: V)
    requires Grown(f, m, x, first, last, g) && |a| > SLICE && CanPush(g, last, Slice(a), last + 1)
    requires g.vs[last] == imap[EntryOf(a) := Pay(a, va)]
    ensures var g' := PushedDown(g, last, Slice(a), last + 1);
      && Grown(f, m, x, first, last + 1, g')
      && (forall i :: first <= i < last ==> i in g.vs && i in g'.vs && g'.vs[i] == g.vs[i])
      && last in g'.vs && g'.vs[last] == imap[EntryOf(a) := Link(last + 1)]
  {
    hide WF, PushedReach, Slice, Reach, Populated;
    PopulatedStep(f, first, last, g, Slice(a));
    PushWF(g, last, Slice(a), last + 1);
    PushedOn(f, m, x, first, last, g, Slice(a));
    LongEntry(a);
  }

  lemma NotEmpty<V>(e: EntryKey, p: Payload<V>)
    ensures imap[e := p] != imap[]
  {
    assert e in imap[e := p];
  }

  lemma MoreThanNothing<V>(w: View<V>, e: EntryKey, p: Payload<V>)
    ensures w[e := p] != imap[]
  {
    assert e in w[e := p];
  }

  /** A layer that a suffix is pushed down into holds it. */
  lemma PushedView<V>(f: Forest<V>, n: Ptr, x: Ikey, c: Ptr)
    requires CanPush(f, n, x, c)
    ensures var g := PushedDown(f, n, x, c);
      && c in g.vs && g.vs[c] != imap[] && n in f.vs && n in g.vs
      && (forall i :: i in f.prefix ==> i in g.prefix && g.prefix[i] == f.prefix[i])
  {
    var s := f.vs[n][EntryKey(x, SLICE + 1)];
    NotEmpty<V>(EntryOf(s.rest), Pay(s.rest, s.v));
  }

  lemma TwigEnd<V>(f: Forest<V>, last: Ptr, g: Forest<V>, k: Bytes, a: Bytes, va: V, b: Bytes, vb: V)
    requires TwigState(f, last, g, k, a, va, b) && EntryOf(a) != EntryOf(b)
    ensures last in g.vs && g.vs[last] == imap[EntryOf(a) := Pay(a, va)]
    ensures var g' := WithView(g, last, g.vs[last][EntryOf(b) := Pay(b, vb)]);
      WF(g') && Contents(g') == Contents(f)[k := vb] && SameReach(g, g')
  {
    RestNotEmpty(g, g.root, k);
    hide WF, Reach, Contents;
    StoreKeeps(g, k, vb);
  }

  lemma GrownEnd<V>(f: Forest<V>, m: Ptr, x: Ikey, first: Ptr, last: Ptr, g: Forest<V>, w: View<V>)
    requires Grown(f, m, x, first, last, g) && SameReach(g, WithView(g, last, w)) && w != imap[]
    ensures Grown(f, m, x, first, last, WithView(g, last, w))
    ensures forall i :: first <= i < last ==> i in g.vs && WithView(g, last, w).vs[i] == g.vs[i]
  {
    PushedThenSame(f, m, x, first, last, g, WithView(g, last, w));
    hide WF, PushedReach;
  }

  /** The new layers are not empty. */
  lemma MissedGrown<V>(f: Forest<V>, m: Ptr, x: Ikey, first: Ptr, last: Ptr, g: Forest<V>, col: set<Bytes>)
    requires Grown(f, m, x, first, last, g) && WF(f) && f.vs[m] != imap[]
    ensures Unregistered(g, col) == Unregistered(f, col) - {m}
  {
    var e := EntryKey(x, SLICE + 1);
    assert e in f.vs[m][e := Link(first)];
    hide PushedReach;
  }

  lemma GrownAt<V>(f: Forest<V>, m: Ptr, x: Ikey, first: Ptr, last: Ptr, g: Forest<V>, j: Bytes)
    requires Grown(f, m, x, first, last, g)
    ensures WF(f) && WF(g) && g.root == f.root && f.root in f.vs && g.root in g.vs
    ensures var (n, r), (n', r') := Reach(f, f.root, j), Reach(g, g.root, j);
      (n' == n && r' == r) || (n == m && Slice(r) == x && first <= n' <= last)
  {
    hide Reach;
  }

  lemma SameReachAt<V>(f: Forest<V>, g: Forest<V>, j: Bytes)
    requires SameReach(f, g)
    ensures WF(f) && WF(g) && g.root == f.root && f.root in f.vs && g.root in g.vs
    ensures Reach(g, g.root, j) == Reach(f, f.root, j)
  {
  }

  lemma NotThere<V>(f: Forest<V>, k: Bytes)
    requires WF(f) && Lookup(f, f.root, k) == None
    ensures k !in Contents(f) && Contents(f) - {k} == Contents(f)
  {
  }

  lemma ThereIf<V>(f: Forest<V>, k: Bytes)
    requires WF(f)
    ensures k in Contents(f) <==> Lookup(f, f.root, k).Some?
  {
  }

  lemma TwigRoomHere<V>(f: Forest<V>, m: Ptr, x: Ikey, first: Ptr, k: Bytes, a: Bytes, va: V, b: Bytes)
    requires WF(f) && m in f.vs && f.root in f.vs && EntryKey(x, SLICE + 1) in f.vs[m]
    requires f.vs[m][EntryKey(x, SLICE + 1)] == Suffix(a, va)
    requires Reach(f, f.root, k).0 == m && EntryOf(Reach(f, f.root, k).1) == EntryKey(x, SLICE + 1)
    requires |Reach(f, f.root, k).1| >= SLICE && b == Reach(f, f.root, k).1[SLICE..] && a != b
    requires forall i :: i in f.vs ==> i < first
    ensures TwigRoom(f, m, x, first, k, a, va, b)
  {
    hide Reach, EntryOf;
  }

  lemma RootIn<V>(f: Forest<V>)
    requires WF(f)
    ensures f.root in f.vs
  {
  }

  lemma EntryOfSlice(r: Bytes)
    ensures EntryOf(r).ikey == Slice(r)
  {
  }

  lemma LongEntry(r: Bytes)
    requires |r| > SLICE
    ensures EntryOf(r) == EntryKey(Slice(r), SLICE + 1)
  {
  }

  lemma LinkOk<V>(f: Forest<V>, m: Ptr, e: EntryKey)
    requires WF(f) && m in f.vs && e in f.vs[m] && f.vs[m][e].Link?
    ensures var c := f.vs[m][e].layer; c in f.vs && c != f.root && c != m
  {
    assert EntryOk(f, m, e);
  }

  lemma CollectedViews<V>(f: Forest<V>, m: Ptr, x: Ikey, c: Ptr)
    requires CanCollect(f, m, x, c)
    ensures var g := Collected(f, m, x, c);
      && g.vs.Keys == f.vs.Keys - {c} && c != m && m in f.vs && m in g.vs && g.root == f.root
      && EntryKey(x, SLICE + 1) in f.vs[m] && g.vs[m] == f.vs[m] - {EntryKey(x, SLICE + 1)}
      && forall n :: n in g.vs && n != m ==> g.vs[n] == f.vs[n]
  {
  }

  /** The bytes of slice `x` in layer `m` end there. */
  lemma ReachSlice<V>(f: Forest<V>, m: Ptr, x: Ikey)
    requires WF(f) && m in f.vs
    ensures f.root in f.vs && m in f.prefix
    ensures var (n, r) := Reach(f, f.root, Flat(f.prefix[m]) + Eight(x)); n == m && Slice(r) == x
  {
    var r := Eight(x);
    ReachThrough(f, m, r);
    EightIs(x, []);
    assert r + [] == r;
    if EntryOf(r) in f.vs[m] { assert EntryOk(f, m, EntryOf(r)); }
  }

  lemma SomeEpoch<V>(l: Layer<V>, v: int) returns (x: Ikey)
    requires l.Valid() && v in l.Epochs()
    ensures LayerEpoch(l, x) == v
  {
    x :| EpochFor(l.T(), l.epoch, x) == v;
  }

  /** The bytes of the layer that a key ends in. */
  lemma BytesBefore<V>(f: Forest<V>, k: Bytes)
    requires WF(f)
    ensures f.root in f.vs
    ensures var (m, r) := Reach(f, f.root, k);
      |r| <= |k| && m in f.prefix && k[..|k| - |r|] == Flat(f.prefix[m])
  {
    ReachBytes(f, f.root, k);
    assert Flat(f.prefix[f.root]) + k == k;
  }

  lemma MergedValues<T>(a: map<Ptr, T>, b: map<Ptr, T>)
    ensures (a + b).Values <= a.Values + b.Values
  {
    forall v | v in (a + b).Values ensures v in a.Values + b.Values {
      var i :| i in a + b && (a + b)[i] == v;
      if i in b { assert b[i] in b.Values; } else { assert a[i] in a.Values; }
    }
  }

  lemma AllTheSame<V>(l: Layer<V>, x: Ikey, e: int)
    requires l.Valid() && forall p :: l.epoch(p) == e
    ensures LayerEpoch(l, x) == e
  {
  }

  lemma EpochWithin<V>(l: Layer<V>, x: Ikey)
    requires l.Valid()
    ensures LayerEpoch(l, x) in l.Epochs()
  {
  }

  /** The first layer alone is reached by no bytes. */
  lemma RootPath<V>(f: Forest<V>, m: Ptr)
    requires WF(f) && m in f.vs
    ensures m in f.prefix && (Flat(f.prefix[m]) == [] <==> m == f.root) && (m != f.root ==> Whole(Flat(f.prefix[m])))
  {
    if m != f.root { assert HasParent(f, m); }
  }

  lemma FlatNothing()
    ensures Flat([]) == []
  {
  }

  lemma LinkIsUnder<V>(f: Forest<V>, c: Ptr, b: Bytes, r: Bytes)
    requires |r| == SLICE && c in f.vs && c in f.prefix && c != f.root && Flat(f.prefix[c]) + r[SLICE..] == b
    ensures Under(f, c, b)
  {
    assert Flat(f.prefix[c]) + [] == Flat(f.prefix[c]);
  }
}
