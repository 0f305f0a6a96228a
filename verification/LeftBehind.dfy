/** An empty layer that nobody collects (masstree_remove.hh:178-187): `remove_leaf` asks for the collection
    of a layer only in the branch for its first leaf. If the first leaf loses its entries before another
    leaf does, the other one is unlinked when it is empty, and the first, alone and empty, stays. */
module LeftBehind {
  import opened NodeStore
  import opened LeafNode
  import opened LeafChain
  import opened LeafFill
  import opened LayerTree

  /** Some leaf, not the first, starts at or below slice `x`. */
  ghost predicate LaterLeaf<V>(t: Tree<V>, n: Ptr, x: Ikey)
    requires Domains(t)
  {
    n in t.nodes && t.nodes[n].body.Leaf? && 0 < t.lo[n] <= x
  }

  /** Then `x` is not in the first leaf. */
  lemma NotFirst<V>(t: Tree<V>, n: Ptr, x: Ikey)
    requires Inv(t, Done) && LeavesOk(t) && LaterLeaf(t, n, x)
    ensures t.nodes[LeafFor(t, x)].body.prev != NULL
  {
    var l := LeafFor(t, x);
    assert LeafAtOk(t, l) && NodeOk(t, n);
    if t.lo[l] == 0 {
      LeafForUnique(t, l, t.lo[n]);
      LeafForUnique(t, n, t.lo[n]);
    }
  }

  // ----- sixteen entries do not fit in one leaf -----

  lemma {:induction false} SetOfSeq<T>(s: seq<T>)
    ensures |set e | e in s| <= |s|
  {
    if s != [] {
      var n := |s| - 1;
      SetOfSeq(s[..n]);
      assert (set e | e in s) == (set e | e in s[..n]) + {s[n]};
    }
  }

  function UpTo(n: nat): (s: set<int>)
    ensures |s| == n && forall j :: j in s <==> 0 <= j < n
  {
    if n == 0 then {} else UpTo(n - 1) + {n - 1}
  }

  function At(j: nat): EntryKey
    requires j <= WIDTH
  {
    EntryKey(j, 8)
  }

  lemma TooMany(s: seq<int>)
    requires forall j :: 0 <= j <= WIDTH ==> j in s
    ensures |s| > WIDTH
  {
    SetOfSeq(s);
    SubsetSize(UpTo(WIDTH + 1), set e | e in s);
  }

  lemma {:induction false} SubsetSize<T>(a: set<T>, b: set<T>)
    requires a <= b
    ensures |a| <= |b|
    decreases |a|
  {
    if a != {} {
      var x :| x in a;
      SubsetSize(a - {x}, b - {x});
    }
  }

  lemma Divided<V>(t: Tree<V>) returns (n: Ptr)
    requires Inv(t, Done) && LeavesOk(t) && forall j: nat {:trigger At(j)} :: j <= WIDTH ==> At(j) in ViewOf(t)
    ensures LaterLeaf(t, n, WIDTH)
  {
    n := LeafFor(t, WIDTH);
    var b := t.nodes[n].body;
    assert LeafAtOk(t, n) && NodeOk(t, n);
    if t.lo[n] == 0 {
      var s := seq(|Entries(b)|, i requires 0 <= i < |Entries(b)| => Entries(b)[i].key.ikey);
      forall j: nat | j <= WIDTH ensures j in s {
        assert At(j) in ViewOf(t);
        HeldIf(t, At(j));
        LookupIn(t, n, At(j));
        var i := Position(Entries(b), At(j));
        assert s[i] == j;
      }
      TooMany(s);
    }
  }

  lemma Position<V>(s: seq<Slot<V>>, k: EntryKey) returns (i: nat)
    requires Get(s, k).Some?
    ensures i < |s| && s[i].key == k
  {
    if forall i :: 0 <= i < |s| ==> s[i].key != k { GetNone(s, k); }
    i :| i < |s| && s[i].key == k;
  }

  // ----- the run -----

  /** While the last entry is there, it is not in the first leaf. */
  lemma StaysLater(t: Tree<int>, t': Tree<int>, i: Ikey)
    requires Inv(t, Done) && LeavesOk(t) && Inv(t', Done) && LeavesOk(t') && i < WIDTH
    requires At(WIDTH) in ViewOf(t) && At(i) in ViewOf(t) && t.nodes[LeafFor(t, WIDTH)].body.prev != NULL
    requires BoundsKept(t, t') && StayBut(t, t', LeafFor(t, i))
    requires var l := LeafFor(t, i); l in t'.nodes <==> t.nodes[l].body.prev == NULL || 1 < t.nodes[l].body.size
    ensures t'.nodes[LeafFor(t', WIDTH)].body.prev != NULL
  {
    var m := LeafFor(t, WIDTH);
    assert LeafAtOk(t, m) && NodeOk(t, m);
    if LeafFor(t, i) == m { BothIn(t, m, i); }
    NotFirst(t', m, WIDTH);
  }

  lemma BothIn(t: Tree<int>, m: Ptr, i: Ikey)
    requires Inv(t, Done) && LeavesOk(t) && i < WIDTH && m == LeafFor(t, WIDTH) == LeafFor(t, i)
    requires At(WIDTH) in ViewOf(t) && At(i) in ViewOf(t)
    ensures 1 < t.nodes[m].body.size
  {
    var b := t.nodes[m].body;
    LookupIn(t, m, At(WIDTH));
    LookupIn(t, m, At(i));
    HeldIf(t, At(WIDTH));
    HeldIf(t, At(i));
    var p := Position(Entries(b), At(WIDTH));
    var q := Position(Entries(b), At(i));
  }

  /** The entries `At(a)` up to, not including, `At(b)`. */
  ghost predicate Range(v: imap<EntryKey, int>, a: int, b: int) {
    forall k :: k in v <==> k.len == 8 && a <= k.ikey < b
  }

  lemma RangeSteps(v: imap<EntryKey, int>, a: nat, b: nat)
    requires Range(v, a, b)
    ensures b <= WIDTH ==> At(b) !in v || a > b
    ensures a <= b <= WIDTH ==> Range(v[At(b) := 0], a, b + 1)
    ensures a < b && a <= WIDTH ==> At(a) in v && Range(v - {At(a)}, a + 1, b)
    ensures a < b <= WIDTH + 1 ==> At(b - 1) in v
    ensures a >= b ==> v == imap[]
  {
  }

  lemma NothingYet()
    ensures Range(imap[], 0, 0)
  {
  }

  lemma LastLater(l: Layer<int>)
    requires l.Valid() && Range(l.View(), 0, WIDTH + 1)
    ensures !l.InFirst(WIDTH)
  {
    forall j: nat | j <= WIDTH ensures At(j) in ViewOf(l.T()) {
      assert At(j) in l.View();
    }
    var n := Divided(l.T());
    NotFirst(l.T(), n, WIDTH);
  }

  method Filled() returns (l: Layer<int>)
    ensures fresh(l) && l.Valid() && Range(l.View(), 0, WIDTH + 1) && !l.InFirst(WIDTH)
  {
    hide Layer.Valid, Layer.Sound, Layer.View, Layer.InFirst, Range, At, BoundsKept;
    l := new Layer(0);
    NothingYet();
    for i := 0 to WIDTH + 1
      invariant fresh(l) && l.Valid() && Range(l.View(), 0, i)
    {
      RangeSteps(l.View(), 0, i);
      AtIs(i);
      l.Insert(At(i), 0);
    }
    LastLater(l);
  }

  lemma AtIs(j: nat)
    requires j <= WIDTH
    ensures At(j).ikey == j && At(j).len == 8
  {
  }

  /** One of the removals but the last. */
  method RemoveOne(l: Layer<int>, i: Ikey) returns (lone: bool)
    requires l.Valid() && i < WIDTH && At(WIDTH) in l.View() && At(i) in l.View() && !l.InFirst(WIDTH)
    modifies l
    ensures l.Valid() && l.View() == old(l.View()) - {At(i)} && !lone && !l.InFirst(WIDTH)
  {
    ghost var t := l.T();
    lone := l.Remove(At(i));
    assert At(WIDTH) in l.View();
    StaysLater(t, l.T(), i);
  }

  /** Sixteen puts and then sixteen removals, in key order: the layer ends empty, and no removal has said
      so. */
  method Unnoticed() returns (l: Layer<int>, lones: seq<bool>)
    ensures fresh(l) && l.Valid() && l.View() == imap[]
    ensures |lones| == WIDTH + 1 && forall i :: 0 <= i < |lones| ==> !lones[i]
  {
    hide Layer.Valid, Layer.Sound, Layer.View, Layer.InFirst, Range, At, BoundsKept, StayBut;
    l := Filled();
    lones := [];
    for i := 0 to WIDTH
      invariant fresh(l) && l.Valid() && !l.InFirst(WIDTH)
      invariant Range(l.View(), i, WIDTH + 1)
      invariant |lones| == i && forall j :: 0 <= j < i ==> !lones[j]
    {
      RangeSteps(l.View(), i, WIDTH + 1);
      var lone := RemoveOne(l, i);
      lones := lones + [lone];
    }
    RangeSteps(l.View(), WIDTH, WIDTH + 1);
    AtIs(WIDTH);
    var lone := l.Remove(At(WIDTH));
    RangeSteps(l.View(), WIDTH + 1, WIDTH + 1);
    lones := lones + [lone];
  }
}
