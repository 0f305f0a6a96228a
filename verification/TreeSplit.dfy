/** Why one step of `make_split` (masstree_split.hh) keeps the tree invariants: the pending right
    sibling is listed by a new root, by a new internode, by its sibling's parent, or by one half of
    that parent, which leaves the other half pending. */
module TreeSplit {
  import opened NodeStore

  /** The two trees have the same leaves, with the same contents and intervals. */
  ghost predicate SameLeaves<V>(t: Tree<V>, t': Tree<V>)
    requires Domains(t) && Domains(t')
  {
    && (forall n :: n in t.nodes && t.nodes[n].body.Leaf? ==>
          n in t'.nodes && t'.nodes[n].body == t.nodes[n].body
          && t'.lo[n] == t.lo[n] && t'.hi[n] == t.hi[n])
    && (forall n :: n in t'.nodes && t'.nodes[n].body.Leaf? ==> n in t.nodes && t.nodes[n].body.Leaf?)
  }

  function InsertAt<T>(s: seq<T>, i: nat, x: T): (r: seq<T>)
    requires i <= |s|
    ensures |r| == |s| + 1
    ensures forall k :: 0 <= k < |r| ==> r[k] == if k < i then s[k] else if k == i then x else s[k - 1]
  {
    s[..i] + [x] + s[i..]
  }

  lemma SortedInsert(keys: seq<int>, i: nat, x: int)
    requires Sorted(keys) && i <= |keys|
    requires i > 0 ==> keys[i - 1] < x
    requires i < |keys| ==> x < keys[i]
    ensures Sorted(InsertAt(keys, i, x))
  {
  }

  function SetParents<V>(nodes: map<Ptr, Node<V>>, cs: seq<Ptr>, q: Ptr): map<Ptr, Node<V>> {
    map n | n in nodes :: if n in cs then nodes[n].(parent := q) else nodes[n]
  }

  /** The index of `n` among its parent's children. */
  lemma FindInParent<V>(t: Tree<V>, n: Ptr, c: Ptr) returns (i: nat)
    requires Inv(t, Split(n, c)) && n != t.root
    ensures var q := t.nodes[n].parent;
      && q in t.nodes && q != n && q != c && t.nodes[q].body.Inner? && DownOk(t, Split(n, c), q)
      && i == Upper(t.nodes[q].body.keys, t.lo[c]) && i < |t.nodes[q].body.child| && t.nodes[q].body.child[i] == n
      && ChildOk(t, Split(n, c), q, i)
      && t.lo[q] <= t.lo[n] < t.lo[c] < t.hi[c] <= t.hi[q]
  {
    i := ChildIndex(t, Split(n, c), n);
    KeysInside(t, Split(n, c), t.nodes[n].parent);
    assert NodeOk(t, n) && NodeOk(t, c);
    UpperIs(t.nodes[t.nodes[n].parent].body.keys, t.lo[c], i);
  }

  /** An internode whose own fields and whose children's fields a step leaves alone stays right. */
  lemma KeepDown<V>(t: Tree<V>, p: Pending, t': Tree<V>, p': Pending, m: Ptr)
    requires Inv(t, p) && Domains(t') && PendOk(t', p') && m in t.nodes && t.nodes[m].body.Inner? && p != Hole(m)
    requires p == Full(m) ==> p' == p
    requires m in t'.nodes && t'.nodes[m].body.Inner?
    requires t'.nodes[m].body.keys == t.nodes[m].body.keys && t'.nodes[m].body.child == t.nodes[m].body.child
    requires t'.nodes[m].body.level == t.nodes[m].body.level && t'.lo[m] == t.lo[m] && t'.hi[m] == t.hi[m]
    requires t'.nodes[m].root <==> m == t'.root
    requires forall c :: c in t.nodes && c != t.root && t.nodes[c].parent == m && c in t.nodes[m].body.child ==>
      && c in t'.nodes && c != t'.root && t'.nodes[c].parent == m && t'.lo[c] == t.lo[c]
      && ViewHi(t', p', c) == ViewHi(t, p, c) && t'.nodes[c].body.Height() == t.nodes[c].body.Height()
    ensures DownOk(t', p', m)
  {
    var nd := t.nodes[m].body;
    assert DownOk(t, p, m);
    forall i | 0 <= i <= |nd.keys| && (i == 0 ==> nd.child[0] != NULL) ensures ChildOk(t', p', m, i) {
      assert ChildOk(t, p, m, i);
    }
  }

  // ----- the pending child goes under a new root -----

  ghost function RootAdded<V>(t: Tree<V>, n: Ptr, c: Ptr, x: int, nn: Ptr): (r: Tree<V>)
    requires Domains(t) && n in t.nodes && c in t.nodes && nn != NULL
    ensures Domains(r) && r.nodes.Keys == t.nodes.Keys + {nn}
  {
    Tree(t.nodes[nn := Node(NULL, true, Inner([x], [n, c], t.nodes[n].body.Height() + 1))]
                [c := t.nodes[c].(parent := nn)][n := Node(nn, false, t.nodes[n].body)],
         t.lo[nn := 0], t.hi[nn := TOP], nn)
  }

  lemma AddRootDown<V>(t: Tree<V>, n: Ptr, c: Ptr, x: int, nn: Ptr, m: Ptr)
    requires Inv(t, Split(n, c)) && n == t.root && x == t.lo[c] && nn !in t.nodes && nn != NULL
    requires m == nn || (m in t.nodes && t.nodes[m].body.Inner?)
    ensures DownOk(RootAdded(t, n, c, x, nn), Done, m)
  {
    var p, t' := Split(n, c), RootAdded(t, n, c, x, nn);
    if m == nn {
      assert UpOk(t, p, n) && NodeOk(t, n) && NodeOk(t, c);
      assert ChildOk(t', Done, nn, 0) && ChildOk(t', Done, nn, 1);
    } else {
      assert DownOk(t, p, m);
      KeepDown(t, p, t', Done, m);
    }
  }

  lemma AddRootUp<V>(t: Tree<V>, n: Ptr, c: Ptr, x: int, nn: Ptr, m: Ptr)
    requires Inv(t, Split(n, c)) && n == t.root && x == t.lo[c] && nn !in t.nodes && nn != NULL
    requires m == nn || m in t.nodes
    ensures UpOk(RootAdded(t, n, c, x, nn), Done, m) && NodeOk(RootAdded(t, n, c, x, nn), m)
  {
    assert UpOk(t, Split(n, c), n) && NodeOk(t, n) && NodeOk(t, c);
    if m != n && m != c && m != nn {
      assert UpOk(t, Split(n, c), m) && NodeOk(t, m);
    }
  }

  lemma AddRoot<V>(t: Tree<V>, n: Ptr, c: Ptr, x: int, nn: Ptr)
    requires Inv(t, Split(n, c)) && n == t.root && x == t.lo[c] && nn !in t.nodes && nn != NULL
    ensures Inv(RootAdded(t, n, c, x, nn), Done)
  {
    hide NodeOk, UpOk, DownOk;
    var t' := RootAdded(t, n, c, x, nn);
    forall m | m in t'.nodes ensures UpOk(t', Done, m) && NodeOk(t', m) {
      AddRootUp(t, n, c, x, nn, m);
    }
    forall m | m in t'.nodes && t'.nodes[m].body.Inner? ensures DownOk(t', Done, m) {
      AddRootDown(t, n, c, x, nn, m);
    }
  }

  // ----- a parent more than one level up gets a new internode over `n` and `c` -----

  ghost function InnerAdded<V>(t: Tree<V>, n: Ptr, c: Ptr, x: int, nn: Ptr, q: Ptr, i: nat): (r: Tree<V>)
    requires Domains(t) && nn != NULL
    requires n in t.nodes && c in t.nodes && q in t.nodes && t.nodes[q].body.Inner? && i < |t.nodes[q].body.child|
    ensures Domains(r) && r.nodes.Keys == t.nodes.Keys + {nn}
  {
    var b := t.nodes[q].body;
    Tree(t.nodes[nn := Node(q, false, Inner([x], [n, c], t.nodes[n].body.Height() + 1))]
                [c := t.nodes[c].(parent := nn)]
                [q := t.nodes[q].(body := b.(child := b.child[i := nn]))]
                [n := t.nodes[n].(parent := nn)],
         t.lo[nn := t.lo[n]], t.hi[nn := t.hi[c]], t.root)
  }

  /** Where `make_split` goes on from `n`: its parent, and the position of the new separator. */
  ghost predicate AtParent<V>(t: Tree<V>, n: Ptr, c: Ptr, x: int, q: Ptr, i: nat) {
    && Inv(t, Split(n, c)) && n != t.root && x == t.lo[c]
    && q == t.nodes[n].parent && q in t.nodes && t.nodes[q].body.Inner? && q != n && q != c
    && i == Upper(t.nodes[q].body.keys, x) && i < |t.nodes[q].body.child|
  }

  ghost predicate RoomBetween<V>(t: Tree<V>, n: Ptr, c: Ptr, x: int, nn: Ptr, q: Ptr, i: nat) {
    AtParent(t, n, c, x, q, i) && nn !in t.nodes && nn != NULL && t.nodes[n].body.Height() + 1 < t.nodes[q].body.level
  }

  lemma InsertBetweenParent<V>(t: Tree<V>, n: Ptr, c: Ptr, x: int, nn: Ptr, q: Ptr, i: nat)
    requires RoomBetween(t, n, c, x, nn, q, i)
    ensures DownOk(InnerAdded(t, n, c, x, nn, q, i), Done, q)
  {
    var p, t' := Split(n, c), InnerAdded(t, n, c, x, nn, q, i);
    var j := FindInParent(t, n, c);
    var b := t.nodes[q].body;
    forall k | 0 <= k <= |b.keys| && (k == 0 ==> b.child[0] != NULL) ensures ChildOk(t', Done, q, k) {
      assert ChildOk(t, p, q, k);
    }
  }

  lemma InsertBetweenNew<V>(t: Tree<V>, n: Ptr, c: Ptr, x: int, nn: Ptr, q: Ptr, i: nat)
    requires RoomBetween(t, n, c, x, nn, q, i)
    ensures DownOk(InnerAdded(t, n, c, x, nn, q, i), Done, nn)
  {
    var t' := InnerAdded(t, n, c, x, nn, q, i);
    assert NodeOk(t, n) && NodeOk(t, c);
    assert ChildOk(t', Done, nn, 0) && ChildOk(t', Done, nn, 1);
  }

  lemma InsertBetweenDown<V>(t: Tree<V>, n: Ptr, c: Ptr, x: int, nn: Ptr, q: Ptr, i: nat, m: Ptr)
    requires RoomBetween(t, n, c, x, nn, q, i)
    requires m in t.nodes && t.nodes[m].body.Inner? && m != q
    ensures DownOk(InnerAdded(t, n, c, x, nn, q, i), Done, m)
  {
    assert DownOk(t, Split(n, c), m);
    KeepDown(t, Split(n, c), InnerAdded(t, n, c, x, nn, q, i), Done, m);
  }

  lemma InsertBetweenUp<V>(t: Tree<V>, n: Ptr, c: Ptr, x: int, nn: Ptr, q: Ptr, i: nat, m: Ptr)
    requires RoomBetween(t, n, c, x, nn, q, i)
    requires m == nn || m in t.nodes
    ensures UpOk(InnerAdded(t, n, c, x, nn, q, i), Done, m)
  {
    var j := FindInParent(t, n, c);
    var b := t.nodes[q].body.child;
    if m == nn {
      assert b[i := nn][i] == nn;
    } else if m != n && m != c {
      assert UpOk(t, Split(n, c), m);
      if m in b {
        var k :| 0 <= k < |b| && b[k] == m;
        assert b[i := nn][k] == m;
      }
    }
    hide DownOk, ChildOk, NodeOk, Inv;
  }

  lemma InsertBetweenNode<V>(t: Tree<V>, n: Ptr, c: Ptr, x: int, nn: Ptr, q: Ptr, i: nat, m: Ptr)
    requires RoomBetween(t, n, c, x, nn, q, i)
    requires m == nn || m in t.nodes
    ensures NodeOk(InnerAdded(t, n, c, x, nn, q, i), m)
  {
    assert NodeOk(t, n) && NodeOk(t, c) && NodeOk(t, q);
    if m != nn { assert NodeOk(t, m); }
    hide DownOk, ChildOk, UpOk;
  }

  lemma InsertBetween<V>(t: Tree<V>, n: Ptr, c: Ptr, x: int, nn: Ptr, q: Ptr, i: nat)
    requires RoomBetween(t, n, c, x, nn, q, i)
    ensures Inv(InnerAdded(t, n, c, x, nn, q, i), Done)
  {
    hide NodeOk, UpOk, DownOk;
    var t' := InnerAdded(t, n, c, x, nn, q, i);
    forall m | m in t'.nodes ensures UpOk(t', Done, m) && NodeOk(t', m) {
      InsertBetweenUp(t, n, c, x, nn, q, i, m);
      InsertBetweenNode(t, n, c, x, nn, q, i, m);
    }
    forall m | m in t'.nodes && t'.nodes[m].body.Inner? ensures DownOk(t', Done, m) {
      if m == nn {
        InsertBetweenNew(t, n, c, x, nn, q, i);
      } else if m == q {
        InsertBetweenParent(t, n, c, x, nn, q, i);
      } else {
        InsertBetweenDown(t, n, c, x, nn, q, i, m);
      }
    }
  }

  // ----- a parent with room lists `c` right after `n` -----

  ghost function Listed<V>(t: Tree<V>, c: Ptr, x: int, q: Ptr, i: nat): (r: Tree<V>)
    requires Domains(t) && c in t.nodes && q in t.nodes && t.nodes[q].body.Inner?
    ensures Domains(r) && r.nodes.Keys == t.nodes.Keys
    requires i <= |t.nodes[q].body.keys| && i < |t.nodes[q].body.child|
  {
    var b := t.nodes[q].body;
    t.(nodes := t.nodes[q := t.nodes[q].(body := Inner(InsertAt(b.keys, i, x), InsertAt(b.child, i + 1, c), b.level))]
                       [c := t.nodes[c].(parent := q)])
  }

  /** The parent has room for one more separator, or is about to be cut. */
  ghost predicate RoomInto<V>(t: Tree<V>, n: Ptr, c: Ptr, x: int, q: Ptr, i: nat, p': Pending) {
    AtParent(t, n, c, x, q, i) && if |t.nodes[q].body.keys| < WIDTH then p' == Done else p' == Full(q)
  }

  lemma InsertIntoParent<V>(t: Tree<V>, n: Ptr, c: Ptr, x: int, q: Ptr, i: nat, p': Pending)
    requires RoomInto(t, n, c, x, q, i, p')
    ensures DownOk(Listed(t, c, x, q, i), p', q)
  {
    var p, t' := Split(n, c), Listed(t, c, x, q, i);
    var j := FindInParent(t, n, c);
    var b, b' := t.nodes[q].body, t'.nodes[q].body;
    SortedInsert(b.keys, i, x);
    forall k | 0 <= k <= |b'.keys| && (k == 0 ==> b'.child[0] != NULL) ensures ChildOk(t', p', q, k) {
      if k == i || k == i + 1 {
        InsertIntoPair(t, n, c, x, q, i, p');
      } else {
        InsertIntoChild(t, n, c, x, q, i, p', if k < i then k else k - 1);
      }
    }
  }

  lemma InsertIntoPair<V>(t: Tree<V>, n: Ptr, c: Ptr, x: int, q: Ptr, i: nat, p': Pending)
    requires RoomInto(t, n, c, x, q, i, p') && |t.nodes[q].body.child| == |t.nodes[q].body.keys| + 1
    ensures ChildOk(Listed(t, c, x, q, i), p', q, i) && ChildOk(Listed(t, c, x, q, i), p', q, i + 1)
  {
    var t' := Listed(t, c, x, q, i);
    var j := FindInParent(t, n, c);
    var b, b' := t.nodes[q].body, t'.nodes[q].body;
    assert b'.child[i] == n && b'.child[i + 1] == c && b'.keys[i] == x;
    assert i > 0 ==> b'.keys[i - 1] == b.keys[i - 1];
    assert i < |b.keys| ==> b'.keys[i + 1] == b.keys[i];
  }

  lemma OtherChild<V>(t: Tree<V>, n: Ptr, c: Ptr, x: int, q: Ptr, i: nat, k: nat)
    requires AtParent(t, n, c, x, q, i) && |t.nodes[q].body.child| == |t.nodes[q].body.keys| + 1
    requires k <= |t.nodes[q].body.keys| && (k == 0 ==> t.nodes[q].body.child[0] != NULL) && k != i
    ensures ChildOk(t, Split(n, c), q, k)
    ensures var m := t.nodes[q].body.child[k]; m != n && m != c && m != q && ViewHi(t, Split(n, c), m) == t.hi[m]
  {
    var j := FindInParent(t, n, c);
    assert ChildOk(t, Split(n, c), q, k);
  }

  lemma InsertIntoChild<V>(t: Tree<V>, n: Ptr, c: Ptr, x: int, q: Ptr, i: nat, p': Pending, k: nat)
    requires RoomInto(t, n, c, x, q, i, p') && |t.nodes[q].body.child| == |t.nodes[q].body.keys| + 1
    requires k <= |t.nodes[q].body.keys| && (k == 0 ==> t.nodes[q].body.child[0] != NULL) && k != i
    ensures ChildOk(Listed(t, c, x, q, i), p', q, if k < i then k else k + 1)
  {
    var b, b' := t.nodes[q].body, Listed(t, c, x, q, i).nodes[q].body;
    OtherChild(t, n, c, x, q, i, k);
    var k' := if k < i then k else k + 1;
    assert b'.child[k'] == b.child[k];
    assert k > 0 ==> b'.keys[k' - 1] == b.keys[k - 1];
    assert k < |b.keys| ==> b'.keys[k'] == b.keys[k];
  }

  lemma InsertIntoDown<V>(t: Tree<V>, n: Ptr, c: Ptr, x: int, q: Ptr, i: nat, p': Pending, m: Ptr)
    requires RoomInto(t, n, c, x, q, i, p')
    requires m in t.nodes && t.nodes[m].body.Inner? && m != q
    ensures DownOk(Listed(t, c, x, q, i), p', m)
  {
    assert DownOk(t, Split(n, c), m);
    KeepDown(t, Split(n, c), Listed(t, c, x, q, i), p', m);
  }

  lemma InsertIntoUp<V>(t: Tree<V>, n: Ptr, c: Ptr, x: int, q: Ptr, i: nat, p': Pending, m: Ptr)
    requires RoomInto(t, n, c, x, q, i, p') && m in t.nodes
    ensures UpOk(Listed(t, c, x, q, i), p', m) && NodeOk(Listed(t, c, x, q, i), m)
  {
    var j := FindInParent(t, n, c);
    assert NodeOk(t, m);
    if m != c { assert UpOk(t, Split(n, c), m); }
  }

  lemma InsertInto<V>(t: Tree<V>, n: Ptr, c: Ptr, x: int, q: Ptr, i: nat, p': Pending)
    requires RoomInto(t, n, c, x, q, i, p')
    ensures Inv(Listed(t, c, x, q, i), p')
  {
    hide NodeOk, UpOk, DownOk;
    var t' := Listed(t, c, x, q, i);
    forall m | m in t'.nodes ensures UpOk(t', p', m) && NodeOk(t', m) {
      InsertIntoUp(t, n, c, x, q, i, p', m);
    }
    forall m | m in t'.nodes && t'.nodes[m].body.Inner? ensures DownOk(t', p', m) {
      if m == q {
        InsertIntoParent(t, n, c, x, q, i, p');
      } else {
        InsertIntoDown(t, n, c, x, q, i, p', m);
      }
    }
  }

  // ----- an internode with one separator too many is cut in two -----

  /** `q` keeps the first `mid` separators, separator `mid` goes up, and `r` gets the rest
      (masstree_split.hh, `internode::split_into`). */
  ghost function Cut<V>(t: Tree<V>, q: Ptr, mid: nat, r: Ptr): (t': Tree<V>)
    requires Domains(t) && q in t.nodes && t.nodes[q].body.Inner? && r != NULL
    requires mid < |t.nodes[q].body.keys| && |t.nodes[q].body.child| == |t.nodes[q].body.keys| + 1
    ensures Domains(t') && t'.nodes.Keys == t.nodes.Keys + {r}
  {
    var b := t.nodes[q].body;
    Tree(SetParents(t.nodes[q := t.nodes[q].(body := Inner(b.keys[..mid], b.child[..mid + 1], b.level))]
                           [r := Node(NULL, false, Inner(b.keys[mid + 1..], b.child[mid + 1..], b.level))],
                    b.child[mid + 1..], r),
         t.lo[r := b.keys[mid]], t.hi[r := t.hi[q]][q := b.keys[mid]], t.root)
  }

  ghost predicate CutReady<V>(t: Tree<V>, q: Ptr, mid: nat, r: Ptr) {
    && Inv(t, Full(q)) && t.nodes[q].body.Inner? && r !in t.nodes && r != NULL
    && 0 < mid < |t.nodes[q].body.keys| && mid <= WIDTH
  }

  /** What `internode::split_into` makes of the store: both halves, then the parents of the moved. */
  ghost function CutStored<V>(t: Tree<V>, c: Ptr, q: Ptr, r: Ptr, left: Body<V>, right: Body<V>, keep: bool)
      : map<Ptr, Node<V>>
    requires q in t.nodes && c in t.nodes && right.Inner?
  {
    var base := t.nodes[q := t.nodes[q].(body := left)][r := Node(NULL, false, right)];
    SetParents(if keep then base[c := base[c].(parent := q)] else base, right.child, r)
  }

  ghost predicate CutHalves<V>(b: Body<V>, mid: nat, left: Body<V>, right: Body<V>) {
    && b.Inner? && mid < |b.keys| && |b.child| == |b.keys| + 1
    && left == Inner(b.keys[..mid], b.child[..mid + 1], b.level)
    && right == Inner(b.keys[mid + 1..], b.child[mid + 1..], b.level)
  }

  lemma StoresCommute<X>(m: map<Ptr, X>, q: Ptr, c: Ptr, r: Ptr, x: X, y: X, z: X, w: X)
    requires q != c && c != r && q != r
    ensures m[q := x][c := y][q := z][r := w] == m[q := z][r := w][c := y]
  {
  }

  lemma SetParentsAgain<V>(nodes: map<Ptr, Node<V>>, cs: seq<Ptr>, c: Ptr, q: Ptr, r: Ptr)
    requires c in cs && c in nodes
    ensures SetParents(nodes[c := nodes[c].(parent := q)], cs, r) == SetParents(nodes, cs, r)
  {
  }

  /** The order of the stores does not matter: halving `q` and then setting parents gives `Cut`. */
  lemma CutStores<V>(t: Tree<V>, c: Ptr, x: int, q: Ptr, i: nat, mid: nat, r: Ptr, left: Body<V>, right: Body<V>)
    requires Domains(t) && c in t.nodes && q in t.nodes && c != q && t.nodes[q].body.Inner? && r !in t.nodes
    requires r != NULL
    requires i <= |t.nodes[q].body.keys| && |t.nodes[q].body.child| == |t.nodes[q].body.keys| + 1
    requires CutHalves(Listed(t, c, x, q, i).nodes[q].body, mid, left, right)
    ensures CutStored(t, c, q, r, left, right, i < mid) == Cut(Listed(t, c, x, q, i), q, mid, r).nodes
  {
    var f := Listed(t, c, x, q, i);
    var base := t.nodes[q := t.nodes[q].(body := left)][r := Node(NULL, false, right)];
    StoresCommute(t.nodes, q, c, r, f.nodes[q], f.nodes[c], t.nodes[q].(body := left), Node(NULL, false, right));
    if mid <= i {
      assert right.child[i - mid] == f.nodes[q].body.child[i + 1] == c;
      SetParentsAgain(base, right.child, c, q, r);
    }
    hide SetParents;
  }

  /** Which nodes are children of `q`, and at which index. */
  lemma ChildrenOf<V>(t: Tree<V>, q: Ptr, m: Ptr)
    requires Inv(t, Full(q)) && t.nodes[q].body.Inner?
    ensures var b := t.nodes[q].body;
      && |b.child| == |b.keys| + 1
      && (m in b.child && m != NULL ==> m in t.nodes && m != t.root && m != q && t.nodes[m].parent == q)
      && (m in t.nodes && m != t.root && t.nodes[m].parent == q ==> m in b.child)
      && (forall i :: 0 < i <= |b.keys| ==> b.child[i] != NULL)
  {
    var b := t.nodes[q].body;
    assert DownOk(t, Full(q), q);
    if m in b.child && m != NULL {
      var i :| 0 <= i < |b.child| && b.child[i] == m;
      assert ChildOk(t, Full(q), q, i);
    }
    if m in t.nodes && m != t.root && t.nodes[m].parent == q { assert UpOk(t, Full(q), m); }
    forall i | 0 < i <= |b.keys| ensures b.child[i] != NULL { assert ChildOk(t, Full(q), q, i); }
  }

  lemma CutLeft<V>(t: Tree<V>, q: Ptr, mid: nat, r: Ptr)
    requires CutReady(t, q, mid, r) && |t.nodes[q].body.child| == |t.nodes[q].body.keys| + 1
    requires PendOk(Cut(t, q, mid, r), Split(q, r))
    ensures DownOk(Cut(t, q, mid, r), Split(q, r), q)
  {
    var t', p := Cut(t, q, mid, r), Split(q, r);
    var b, b' := t.nodes[q].body, t'.nodes[q].body;
    assert DownOk(t, Full(q), q);
    ChildrenOf(t, q, q);
    assert t'.nodes[q].root == t.nodes[q].root && b'.keys == b.keys[..mid] && b'.child == b.child[..mid + 1];
    forall k | 0 <= k <= mid && (k == 0 ==> b.child[0] != NULL) ensures ChildOk(t', p, q, k) {
      assert ChildOk(t, Full(q), q, k);
      var m := b.child[k];
      ChildrenOf(t, q, m);
      DistinctChildren(t, q, m, k);
      assert m !in b.child[mid + 1..];
    }
  }

  lemma CutRight<V>(t: Tree<V>, q: Ptr, mid: nat, r: Ptr)
    requires CutReady(t, q, mid, r) && |t.nodes[q].body.child| == |t.nodes[q].body.keys| + 1
    requires PendOk(Cut(t, q, mid, r), Split(q, r))
    ensures DownOk(Cut(t, q, mid, r), Split(q, r), r)
  {
    var t', p := Cut(t, q, mid, r), Split(q, r);
    var b, b' := t.nodes[q].body, t'.nodes[r].body;
    assert DownOk(t, Full(q), q);
    assert r !in b.child by { ChildrenOf(t, q, r); }
    assert b'.keys == b.keys[mid + 1..] && b'.child == b.child[mid + 1..] && !t'.nodes[r].root && r != t.root;
    ChildrenOf(t, q, q);
    assert b'.child[0] == b.child[mid + 1] != NULL;
    forall k | 0 <= k <= |b'.keys| ensures ChildOk(t', p, r, k) {
      assert ChildOk(t, Full(q), q, mid + 1 + k);
      var m := b.child[mid + 1 + k];
      ChildrenOf(t, q, m);
      assert m == b'.child[k] && m in b'.child;
    }
  }

  lemma DistinctChildren<V>(t: Tree<V>, q: Ptr, m: Ptr, k: nat)
    requires Inv(t, Full(q)) && t.nodes[q].body.Inner? && k < |t.nodes[q].body.child| && t.nodes[q].body.child[k] == m
    requires m != NULL
    ensures forall j :: 0 <= j < |t.nodes[q].body.child| && j != k ==> t.nodes[q].body.child[j] != m
  {
    var b := t.nodes[q].body;
    KeysInside(t, Full(q), q);
    assert ChildOk(t, Full(q), q, k) && NodeOk(t, m);
    forall j | 0 <= j < |b.child| && j != k ensures b.child[j] != m {
      if b.child[j] != NULL { assert ChildOk(t, Full(q), q, j); }
    }
  }

  lemma CutDown<V>(t: Tree<V>, q: Ptr, mid: nat, r: Ptr, m: Ptr)
    requires CutReady(t, q, mid, r) && |t.nodes[q].body.child| == |t.nodes[q].body.keys| + 1
    requires PendOk(Cut(t, q, mid, r), Split(q, r)) && m in t.nodes && t.nodes[m].body.Inner? && m != q
    ensures DownOk(Cut(t, q, mid, r), Split(q, r), m)
  {
    var t' := Cut(t, q, mid, r);
    assert DownOk(t, Full(q), m);
    forall c | c in t.nodes && c != t.root && t.nodes[c].parent == m && c in t.nodes[m].body.child
      ensures t'.nodes[c].parent == m && ViewHi(t', Split(q, r), c) == ViewHi(t, Full(q), c)
    {
      ChildrenOf(t, q, c);
    }
    KeepDown(t, Full(q), t', Split(q, r), m);
  }

  lemma CutUp<V>(t: Tree<V>, q: Ptr, mid: nat, r: Ptr, m: Ptr)
    requires CutReady(t, q, mid, r) && |t.nodes[q].body.child| == |t.nodes[q].body.keys| + 1
    requires PendOk(Cut(t, q, mid, r), Split(q, r)) && m in t.nodes
    ensures UpOk(Cut(t, q, mid, r), Split(q, r), m)
  {
    var t' := Cut(t, q, mid, r);
    var b := t.nodes[q].body;
    ChildrenOf(t, q, m);
    assert UpOk(t, Full(q), m) && t'.nodes[r].body.child == b.child[mid + 1..]
      && t'.nodes[q].body.child == b.child[..mid + 1];
    assert b.child == b.child[..mid + 1] + b.child[mid + 1..];
  }

  lemma CutNode<V>(t: Tree<V>, q: Ptr, mid: nat, r: Ptr, m: Ptr)
    requires CutReady(t, q, mid, r) && |t.nodes[q].body.child| == |t.nodes[q].body.keys| + 1
    requires m in t.nodes || m == r
    ensures NodeOk(Cut(t, q, mid, r), m)
  {
    KeysInside(t, Full(q), q);
    assert t.nodes[q].body.keys[0] < t.nodes[q].body.keys[mid];
    assert NodeOk(t, q) && NodeOk(t, t.root);
    if m != r { assert NodeOk(t, m); }
  }

  lemma CutPend<V>(t: Tree<V>, q: Ptr, mid: nat, r: Ptr)
    requires CutReady(t, q, mid, r)
    ensures |t.nodes[q].body.child| == |t.nodes[q].body.keys| + 1
    ensures PendOk(Cut(t, q, mid, r), Split(q, r))
  {
    assert DownOk(t, Full(q), q);
    ChildrenOf(t, q, q);
    ChildrenOf(t, q, r);
  }

  lemma CutKeeps<V>(t: Tree<V>, q: Ptr, mid: nat, r: Ptr)
    requires CutReady(t, q, mid, r)
    ensures |t.nodes[q].body.child| == |t.nodes[q].body.keys| + 1
    ensures Inv(Cut(t, q, mid, r), Split(q, r))
  {
    CutPend(t, q, mid, r);
    var t' := Cut(t, q, mid, r);
    hide NodeOk, UpOk, DownOk;
    forall m | m in t'.nodes ensures NodeOk(t', m) {
      CutNode(t, q, mid, r, m);
    }
    forall m | m in t'.nodes && m != r ensures UpOk(t', Split(q, r), m) {
      CutUp(t, q, mid, r, m);
    }
    forall m | m in t'.nodes && t'.nodes[m].body.Inner? ensures DownOk(t', Split(q, r), m) {
      if m == q {
        CutLeft(t, q, mid, r);
      } else if m == r {
        CutRight(t, q, mid, r);
      } else {
        CutDown(t, q, mid, r, m);
      }
    }
  }

  // ----- none of these steps touches a leaf -----

  lemma AddRootLeaves<V>(t: Tree<V>, n: Ptr, c: Ptr, x: int, nn: Ptr)
    requires Domains(t) && n in t.nodes && c in t.nodes && nn !in t.nodes && nn != NULL
    ensures SameLeaves(t, RootAdded(t, n, c, x, nn))
  {
  }

  lemma InsertBetweenLeaves<V>(t: Tree<V>, n: Ptr, c: Ptr, x: int, nn: Ptr, q: Ptr, i: nat)
    requires Domains(t) && n in t.nodes && c in t.nodes && nn !in t.nodes && nn != NULL && q != n && q != c
    requires q in t.nodes && t.nodes[q].body.Inner? && i < |t.nodes[q].body.child|
    ensures SameLeaves(t, InnerAdded(t, n, c, x, nn, q, i))
  {
  }

  lemma InsertIntoLeaves<V>(t: Tree<V>, c: Ptr, x: int, q: Ptr, i: nat)
    requires Domains(t) && c in t.nodes && q in t.nodes && c != q && t.nodes[q].body.Inner?
    requires i <= |t.nodes[q].body.keys| && i < |t.nodes[q].body.child|
    ensures SameLeaves(t, Listed(t, c, x, q, i))
  {
  }

  lemma CutLeaves<V>(t: Tree<V>, q: Ptr, mid: nat, r: Ptr)
    requires Domains(t) && q in t.nodes && t.nodes[q].body.Inner? && r !in t.nodes && r != NULL
    requires mid < |t.nodes[q].body.keys| && |t.nodes[q].body.child| == |t.nodes[q].body.keys| + 1
    ensures SameLeaves(t, Cut(t, q, mid, r))
  {
  }
}
