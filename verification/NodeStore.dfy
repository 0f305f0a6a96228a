/** The nodes of one trie layer (masstree_struct.hh): leaves and internodes in a store that plays
    the part of memory, and the invariants that make a descent reach the one leaf responsible for
    a key slice.

    Every node carries a ghost interval [lo, hi) of key slices. The invariants are local: each one
    relates a node to its parent or to its children, never to a whole subtree. */
module NodeStore {

  /** Entries per leaf and separators per internode (masstree.hh, `nodeparams`). */
  const WIDTH: nat := 15
  /** One more than the largest 64-bit key slice. */
  const TOP: int := 0x1_0000_0000_0000_0000
  /** The null pointer. */
  const NULL: Ptr := 0

  type Ptr = nat
  type Ikey = k: int | 0 <= k < TOP

  datatype Option<+T> = None | Some(value: T)

  /** What a leaf compares: a slice and a length class, 0..8 for a key that ends in this slice and
      9 for a key that goes on. */
  datatype EntryKey = EntryKey(ikey: Ikey, len: nat)

  predicate Less(a: EntryKey, b: EntryKey) {
    a.ikey < b.ikey || (a.ikey == b.ikey && a.len < b.len)
  }

  datatype Slot<+V> = Slot(key: EntryKey, val: Option<V>)

  datatype Body<+V> =
    | Leaf(slots: seq<Slot<V>>, perm: seq<nat>, size: nat, next: Ptr, prev: Ptr)
    | Inner(keys: seq<int>, child: seq<Ptr>, level: nat)
  {
    function Height(): nat { if Leaf? then 0 else level }
  }

  /** A node: its parent pointer, the root bit of its version word, and what it holds. */
  datatype Node<+V> = Node(parent: Ptr, root: bool, body: Body<V>)

  ghost predicate IsUpper(keys: seq<int>, k: int, i: nat) {
    i <= |keys| && (forall j :: 0 <= j < i ==> keys[j] <= k) && (i < |keys| ==> k < keys[i])
  }

  /** The position of the first separator above `k` (ksearch.hh, `key_upper_bound_by`). */
  ghost function Upper(keys: seq<int>, k: int): (i: nat)
    ensures IsUpper(keys, k, i)
  {
    UpperExists(keys, k);
    var i: nat :| IsUpper(keys, k, i);
    i
  }

  lemma UpperExists(keys: seq<int>, k: int)
    ensures exists i: nat :: IsUpper(keys, k, i)
  {
    var i := 0;
    while i < |keys| && keys[i] <= k
      invariant i <= |keys| && forall j :: 0 <= j < i ==> keys[j] <= k
    {
      i := i + 1;
    }
    assert IsUpper(keys, k, i);
  }

  ghost predicate Sorted(keys: seq<int>) {
    forall i, j :: 0 <= i < j < |keys| ==> keys[i] < keys[j]
  }

  lemma UpperIs(keys: seq<int>, k: int, i: nat)
    requires Sorted(keys) && i <= |keys|
    requires i > 0 ==> keys[i - 1] <= k
    requires i < |keys| ==> k < keys[i]
    ensures Upper(keys, k) == i
  {
  }

  // ----- the invariants of the tree -----

  datatype Tree<V> = Tree(nodes: map<Ptr, Node<V>>, lo: map<Ptr, int>, hi: map<Ptr, int>, root: Ptr)

  /** An operation half way up the tree. `Split(n, c)`: `c` holds the upper part of what its left
      sibling `n` held and no parent lists it yet. `Full(q)`: `q` may have one separator too many.
      `Hole(h)`: everything below `h` is gone. */
  datatype Pending = Done | Split(n: Ptr, c: Ptr) | Full(q: Ptr) | Hole(h: Ptr)

  ghost predicate Domains<V>(t: Tree<V>) {
    && t.lo.Keys == t.nodes.Keys && t.hi.Keys == t.nodes.Keys
    && NULL !in t.nodes && t.root in t.nodes
  }

  ghost predicate Contains<V>(t: Tree<V>, n: Ptr, k: int)
    requires Domains(t)
  {
    n in t.nodes && t.lo[n] <= k < t.hi[n]
  }

  /** The end of the interval that the parent of `n` gives to `n`. */
  ghost function ViewHi<V>(t: Tree<V>, p: Pending, n: Ptr): int
    requires Domains(t) && n in t.nodes && (p.Split? ==> p.c in t.nodes)
  {
    if p.Split? && n == p.n then t.hi[p.c] else t.hi[n]
  }

  ghost predicate PendOk<V>(t: Tree<V>, p: Pending)
    requires Domains(t)
  {
    match p
    case Done => true
    case Full(q) => q in t.nodes
    case Split(n, c) =>
      && n in t.nodes && c in t.nodes && n != c && c != t.root && t.nodes[c].parent == NULL
      && t.hi[n] == t.lo[c] && t.nodes[n].body.Height() == t.nodes[c].body.Height()
      && (t.nodes[c].body.Inner? ==> !t.nodes[c].root)
    case Hole(n) =>
      && n in t.nodes && n != t.root
      && (t.nodes[n].body.Inner?
         ==> t.nodes[n].body.keys == [] && t.nodes[n].body.child == [NULL] && 0 < t.nodes[n].body.level)
  }

  /** The parent of `n` lists it. */
  ghost predicate UpOk<V>(t: Tree<V>, p: Pending, n: Ptr)
    requires Domains(t) && PendOk(t, p) && n in t.nodes
  {
    if n == t.root then
      t.nodes[n].root && t.nodes[n].parent == NULL && t.lo[n] == 0 && ViewHi(t, p, n) == TOP
    else
      var q := t.nodes[n].parent;
      q in t.nodes && t.nodes[q].body.Inner? && n in t.nodes[q].body.child
  }

  ghost predicate ChildOk<V>(t: Tree<V>, p: Pending, q: Ptr, i: nat)
    requires Domains(t) && PendOk(t, p) && q in t.nodes && t.nodes[q].body.Inner?
    requires |t.nodes[q].body.child| == |t.nodes[q].body.keys| + 1 && i <= |t.nodes[q].body.keys|
  {
    var nd := t.nodes[q].body;
    var c := nd.child[i];
    && c in t.nodes && c != t.root && t.nodes[c].parent == q
    && t.lo[c] == (if i == 0 then t.lo[q] else nd.keys[i - 1])
    && ViewHi(t, p, c) == (if i == |nd.keys| then t.hi[q] else nd.keys[i])
    && t.nodes[c].body.Height() < nd.level
  }

  /** The separators of `q` cut its interval into the intervals of its children. The first child
      may be missing, and then its share of the interval is empty. */
  ghost predicate DownOk<V>(t: Tree<V>, p: Pending, q: Ptr)
    requires Domains(t) && PendOk(t, p) && q in t.nodes && t.nodes[q].body.Inner?
  {
    var nd := t.nodes[q].body;
    && |nd.child| == |nd.keys| + 1 && |nd.keys| <= (if p == Full(q) then WIDTH + 1 else WIDTH) && Sorted(nd.keys)
    && (t.nodes[q].root <==> q == t.root) && 0 < nd.level
    && (nd.child[0] == NULL ==> 0 < |nd.keys| && nd.keys[0] == t.lo[q] && 0 < t.lo[q])
    && forall i {:trigger ChildOk(t, p, q, i)} ::
        0 <= i <= |nd.keys| && (i == 0 ==> nd.child[0] != NULL) ==> ChildOk(t, p, q, i)
  }

  ghost predicate NodeOk<V>(t: Tree<V>, n: Ptr)
    requires Domains(t) && n in t.nodes
  {
    0 <= t.lo[n] < t.hi[n] <= TOP && t.nodes[n].body.Height() <= t.nodes[t.root].body.Height()
  }

  ghost predicate Inv<V>(t: Tree<V>, p: Pending) {
    && Domains(t) && PendOk(t, p)
    && (forall n {:trigger NodeOk(t, n)} :: n in t.nodes ==> NodeOk(t, n))
    && (forall n {:trigger UpOk(t, p, n)} :: n in t.nodes && (p.Split? ==> n != p.c) ==> UpOk(t, p, n))
    && (forall n {:trigger DownOk(t, p, n)} ::
        n in t.nodes && t.nodes[n].body.Inner? && p != Hole(n) ==> DownOk(t, p, n))
  }

  /** Separators lie inside their internode's interval. */
  lemma KeysInside<V>(t: Tree<V>, p: Pending, q: Ptr)
    requires Inv(t, p) && q in t.nodes && t.nodes[q].body.Inner? && p != Hole(q)
    ensures DownOk(t, p, q)
    ensures forall j :: 0 <= j < |t.nodes[q].body.keys| ==> t.lo[q] <= t.nodes[q].body.keys[j] < t.hi[q]
  {
    assert DownOk(t, p, q);
    var nd := t.nodes[q].body;
    if p.Split? { assert NodeOk(t, p.c); }
    if |nd.keys| > 0 {
      if nd.child[0] != NULL { assert ChildOk(t, p, q, 0) && NodeOk(t, nd.child[0]); }
      assert ChildOk(t, p, q, |nd.keys|) && NodeOk(t, nd.child[|nd.keys|]);
    }
  }

  /** Where a node's parent lists it. */
  lemma ChildIndex<V>(t: Tree<V>, p: Pending, n: Ptr) returns (i: nat)
    requires Inv(t, p) && n in t.nodes && n != t.root && (p.Split? ==> n != p.c)
    ensures var m := t.nodes[n].parent;
      && m in t.nodes && t.nodes[m].body.Inner? && p != Hole(m) && DownOk(t, p, m)
      && i < |t.nodes[m].body.child| && t.nodes[m].body.child[i] == n && ChildOk(t, p, m, i)
  {
    assert UpOk(t, p, n);
    var m := t.nodes[n].parent;
    assert DownOk(t, p, m);
    i :| 0 <= i < |t.nodes[m].body.child| && t.nodes[m].body.child[i] == n;
    assert ChildOk(t, p, m, i);
  }

  /** A node's parent has the larger interval and is higher up. */
  lemma ParentContains<V>(t: Tree<V>, p: Pending, n: Ptr)
    requires Inv(t, p) && !p.Split? && n in t.nodes && n != t.root
    ensures var m := t.nodes[n].parent;
      && m in t.nodes && t.nodes[m].body.Inner? && p != Hole(m)
      && t.lo[m] <= t.lo[n] && t.hi[n] <= t.hi[m] && t.nodes[n].body.Height() < t.nodes[m].body.Height()
  {
    var i := ChildIndex(t, p, n);
    KeysInside(t, p, t.nodes[n].parent);
  }

  // ----- descent -----

  /** The child of `q` that a descent for `k` takes (masstree_struct.hh, `reach_leaf`). */
  ghost function Step<V>(t: Tree<V>, p: Pending, q: Ptr, k: int): (c: Ptr)
    requires Inv(t, p) && !p.Split? && Contains(t, q, k) && t.nodes[q].body.Inner? && p != Hole(q)
    ensures Contains(t, c, k) && t.nodes[c].body.Height() < t.nodes[q].body.Height() && t.nodes[c].parent == q
    ensures c != t.root
    ensures t.lo[q] <= t.lo[c] && t.hi[c] <= t.hi[q]
  {
    KeysInside(t, p, q);
    var i := Upper(t.nodes[q].body.keys, k);
    assert ChildOk(t, p, q, i);
    t.nodes[q].body.child[i]
  }

  /** A descent for `k` from `q` passes `n`. */
  ghost predicate Below<V>(t: Tree<V>, p: Pending, q: Ptr, n: Ptr, k: int)
    requires Inv(t, p) && !p.Split? && Contains(t, q, k)
    decreases t.nodes[q].body.Height()
  {
    q == n || (t.nodes[q].body.Inner? && p != Hole(q) && Below(t, p, Step(t, p, q, k), n, k))
  }

  lemma {:induction false} BelowParent<V>(t: Tree<V>, p: Pending, q: Ptr, n: Ptr, k: int)
    requires Inv(t, p) && !p.Split? && Contains(t, q, k) && Contains(t, n, k) && n != t.root
    requires Below(t, p, q, t.nodes[n].parent, k)
    ensures Below(t, p, q, n, k)
    decreases t.nodes[q].body.Height()
  {
    var m := t.nodes[n].parent;
    assert UpOk(t, p, n);
    if q == m {
      var i := ChildIndex(t, p, n);
      UpperIs(t.nodes[m].body.keys, k, i);
    } else {
      BelowParent(t, p, Step(t, p, q, k), n, k);
    }
  }

  /** Every node whose interval holds `k` is on the descent for `k`. */
  lemma {:induction false} OnDescent<V>(t: Tree<V>, p: Pending, n: Ptr, k: int)
    requires Inv(t, p) && !p.Split? && Contains(t, n, k)
    ensures Contains(t, t.root, k) && Below(t, p, t.root, n, k)
    decreases t.nodes[t.root].body.Height() - t.nodes[n].body.Height()
  {
    if n != t.root {
      var m := t.nodes[n].parent;
      ParentContains(t, p, n);
      assert NodeOk(t, m);
      OnDescent(t, p, m, k);
      BelowParent(t, p, t.root, n, k);
    }
  }

  /** Of two nodes on one descent, one is below the other. */
  lemma {:induction false} Comparable<V>(t: Tree<V>, p: Pending, q: Ptr, m: Ptr, n: Ptr, k: int)
    requires Inv(t, p) && !p.Split? && Contains(t, q, k) && Contains(t, m, k) && Contains(t, n, k)
    requires Below(t, p, q, m, k) && Below(t, p, q, n, k)
    ensures Below(t, p, m, n, k) || Below(t, p, n, m, k)
    decreases t.nodes[q].body.Height()
  {
    if q != m && q != n { Comparable(t, p, Step(t, p, q, k), m, n, k); }
  }

  lemma {:induction false} BelowNested<V>(t: Tree<V>, p: Pending, q: Ptr, n: Ptr, k: int)
    requires Inv(t, p) && !p.Split? && Contains(t, q, k) && Contains(t, n, k) && Below(t, p, q, n, k)
    ensures t.lo[q] <= t.lo[n] && t.hi[n] <= t.hi[q] && t.nodes[n].body.Height() <= t.nodes[q].body.Height()
    ensures t.nodes[n].body.Height() == t.nodes[q].body.Height() ==> n == q
    decreases t.nodes[q].body.Height()
  {
    if q != n { BelowNested(t, p, Step(t, p, q, k), n, k); }
  }

  /** Nodes whose intervals share a slice are nested by height, and equal if their heights are. */
  lemma Nested<V>(t: Tree<V>, p: Pending, m: Ptr, n: Ptr, k: int)
    requires Inv(t, p) && !p.Split? && Contains(t, m, k) && Contains(t, n, k)
    requires t.nodes[n].body.Height() <= t.nodes[m].body.Height()
    ensures Below(t, p, m, n, k)
    ensures t.lo[m] <= t.lo[n] && t.hi[n] <= t.hi[m]
    ensures t.nodes[n].body.Height() == t.nodes[m].body.Height() ==> n == m
  {
    OnDescent(t, p, m, k);
    OnDescent(t, p, n, k);
    Comparable(t, p, t.root, m, n, k);
    if Below(t, p, n, m, k) { BelowNested(t, p, n, m, k); } else { BelowNested(t, p, m, n, k); }
  }

  /** The leaf that a descent for `k` from `q` ends in. */
  ghost function Descend<V>(t: Tree<V>, q: Ptr, k: int): (l: Ptr)
    requires Inv(t, Done) && Contains(t, q, k)
    ensures Contains(t, l, k) && t.nodes[l].body.Leaf?
    decreases t.nodes[q].body.Height()
  {
    if t.nodes[q].body.Leaf? then q else Descend(t, Step(t, Done, q, k), k)
  }

  ghost function LeafFor<V>(t: Tree<V>, k: Ikey): (l: Ptr)
    requires Inv(t, Done)
    ensures Contains(t, l, k) && t.nodes[l].body.Leaf?
  {
    assert UpOk(t, Done, t.root);
    Descend(t, t.root, k)
  }

  /** One leaf alone is responsible for a slice, and the descent finds it. */
  lemma LeafForUnique<V>(t: Tree<V>, l: Ptr, k: Ikey)
    requires Inv(t, Done) && Contains(t, l, k) && t.nodes[l].body.Leaf?
    ensures LeafFor(t, k) == l
  {
    Nested(t, Done, LeafFor(t, k), l, k);
  }
}
