/** One trie layer as a mutable B+tree: find, insert with splits up the tree, and removal
    (masstree_get.hh, masstree_insert.hh, masstree_split.hh, masstree_remove.hh), run by one thread
    and refining a map from entry keys to payloads. */
module LayerTree {
  import opened NodeStore
  import opened PermList
  import opened LeafNode
  import opened TreeSplit
  import opened LeafChain
  import opened TreeRemove
  import opened LeafRemove
  import opened LeafEpochs
  import opened LeafFill

  class Layer<V> {
    var nodes: map<Ptr, Node<V>>
    /** The root pointer kept outside the layer: `basic_table::root_`, or the entry above. It may
        still name a node that was the root before the last split. */
    var hint: Ptr
    /** The next address to allocate. */
    var nextFree: Ptr
    /** `phantom_epoch_` of the leaf at an address. */
    var epoch: Ptr -> int
    ghost var lo: map<Ptr, int>
    ghost var hi: map<Ptr, int>
    ghost var root: Ptr

    ghost function T(): Tree<V>
      reads this
    {
      Tree(nodes, lo, hi, root)
    }

    /** A stale root pointer is one step below the true root. */
    ghost predicate HintOk()
      reads this
    {
      hint in nodes && (hint == root || (nodes[hint].parent == root && !nodes[hint].root))
    }

    ghost predicate Allocated()
      reads this
    {
      0 < nextFree && forall n :: n in nodes ==> n < nextFree
    }

    /** What holds also in the middle of an operation. */
    ghost predicate Sound()
      reads this
    {
      Inv(T(), Done) && LeavesOk(T()) && HintOk() && Allocated()
    }

    /** Only the first leaf can be empty. */
    ghost predicate Valid(): (ok: bool)
      reads this
      ensures ok ==> Sound()
    {
      Sound() && AllFilled(T())
    }

    /** The layer's contents. */
    ghost function View(): imap<EntryKey, V>
      requires Sound()
      reads this
    {
      ViewOf(T())
    }

    /** Slice `x` belongs to the first leaf. */
    ghost predicate InFirst(x: Ikey)
      requires Sound()
      reads this
    {
      nodes[LeafFor(T(), x)].body.prev == NULL
    }

    /** The phantom epochs in use. */
    ghost function Epochs(): iset<int>
      requires Sound()
      reads this
    {
      EpochsOf(T(), epoch)
    }

    lemma RootIsRoot()
      requires Inv(T(), Done) && root in nodes
      ensures nodes[root].root && nodes[root].parent == NULL && lo[root] == 0 && hi[root] == TOP
    {
      assert UpOk(T(), Done, root);
    }

    /** An empty layer: one empty leaf (`leaf::make_root`). */
    constructor (e: int)
      ensures Valid() && View() == imap[] && forall p :: epoch(p) == e
    {
      var slots := seq(WIDTH, i => Slot(EntryKey(0, 0), None));
      var b := Leaf(slots, MakeSorted(WIDTH, 0), 0, NULL, NULL);
      MakeSortedPerm(WIDTH, 0);
      assert forall k :: Get(Entries(b), k) == None;
      OneLeafView(b, imap[]);
      nodes := map[1 := Node(NULL, true, b)];
      hint, nextFree, epoch := 1, 2, (_: Ptr) => e;
      lo, hi, root := map[1 := 0], map[1 := TOP], 1;
      new;
      hide Inv, LeavesOk;
      assert T() == OneLeaf(b);
    }

    /** A layer of a twig: its one entry leads to the next layer. */
    constructor Twig(k: EntryKey, v: V, e: int)
      requires k.len <= 9
      ensures Valid() && View() == imap[k := v] && forall p :: epoch(p) == e
    {
      var slots := seq(WIDTH, i => if i == 0 then Slot(k, Some(v)) else Slot(EntryKey(0, 0), None));
      var b := Leaf(slots, MakeSorted(WIDTH, 1), 1, NULL, NULL);
      MakeSortedPerm(WIDTH, 1);
      assert Entries(b) == [Slot(k, Some(v))];
      forall j ensures Ordered(Entries(b)) && Get(Entries(b), j) == if j == k then Some(v) else None {
        OneEntry(Slot(k, Some(v)), j);
      }
      OneLeafView(b, imap[k := v]);
      nodes := map[1 := Node(NULL, true, b)];
      hint, nextFree, epoch := 1, 2, (_: Ptr) => e;
      lo, hi, root := map[1 := 0], map[1 := TOP], 1;
      new;
      hide Inv, LeavesOk;
      assert T() == OneLeaf(b);
    }

    /** The layer at the end of a twig: the displaced entry `ok` and, published afterwards, the new
        entry `k`. Slot 0 takes the smaller key. */
    constructor Fork(ok: EntryKey, ov: V, k: EntryKey, v: V, e: int)
      requires ok.len <= 9 && k.len <= 9 && ok != k
      ensures Valid() && View() == imap[ok := ov][k := v] && forall p :: epoch(p) == e
    {
      hide Inv, LeavesOk, ForkLeaf, ViewOf;
      var b := ForkLeaf(ok, ov, k, v);
      ForkLeafView(ok, ov, k, v);
      nodes := map[1 := Node(NULL, true, b)];
      hint, nextFree, epoch := 1, 2, (_: Ptr) => e;
      lo, hi, root := map[1 := 0], map[1 := TOP], 1;
      new;
      hide Inv, LeavesOk;
      assert T() == OneLeaf(b);
    }

    /** `key_upper_bound_by`: binary search among the separators. */
    static method UpperBound(keys: seq<int>, k: int) returns (i: nat)
      requires Sorted(keys)
      ensures i == Upper(keys, k)
    {
      var l, r := 0, |keys|;
      while l < r
        invariant 0 <= l <= r <= |keys|
        invariant l > 0 ==> keys[l - 1] <= k
        invariant r < |keys| ==> k < keys[r]
      {
        var m := (l + r) / 2;
        if k < keys[m] {
          r := m;
        } else if k == keys[m] {
          UpperIs(keys, k, m + 1);
          return m + 1;
        } else {
          l := m + 1;
        }
      }
      UpperIs(keys, k, l);
      return l;
    }

    /** `basic_table::fix_root` and `find_locked`'s repair of a stale layer pointer. */
    method FixHint()
      requires Sound()
      modifies this`hint
      ensures Sound() && hint == root
    {
      RootIsRoot();
      if !nodes[hint].root {
        hint := nodes[hint].parent;
      }
    }

    /** The leaf responsible for `k`. No child pointer on the way down is null. */
    method ReachLeaf(k: Ikey) returns (l: Ptr)
      requires Sound()
      ensures l == LeafFor(T(), k)
    {
      RootIsRoot();
      var n := hint;
      while !nodes[n].root
        invariant n in nodes && (n == root || (nodes[n].parent == root && !nodes[n].root))
        decreases n != root
      {
        n := nodes[n].parent;
      }
      while nodes[n].body.Inner?
        invariant Contains(T(), n, k) && Descend(T(), n, k) == LeafFor(T(), k)
        decreases nodes[n].body.Height()
      {
        assert DownOk(T(), Done, n);
        var kp := UpperBound(nodes[n].body.keys, k);
        assert nodes[n].body.child[kp] == Step(T(), Done, n, k);
        n := nodes[n].body.child[kp];
      }
      l := n;
    }

    /** Where in its leaf an entry is, or would go (`find_unlocked`, `find_locked`). */
    method Find(k: EntryKey) returns (l: Ptr, i: nat, found: bool)
      requires Sound()
      ensures l == LeafFor(T(), k.ikey) && LeafAtOk(T(), l)
      ensures i == LowerPos(Entries(nodes[l].body), k)
      ensures found <==> k in View()
      ensures found ==> i < nodes[l].body.size && nodes[l].body.slots[nodes[l].body.perm[i]] == Slot(k, Some(View()[k]))
    {
      l := ReachLeaf(k.ikey);
      assert LeafAtOk(T(), l);
      LookupIn(T(), l, k);
      var b := nodes[l].body;
      i, found := LowerBound(b.slots, b.perm, b.size, k);
      assert i < b.size ==> Entries(b)[i] == b.slots[b.perm[i]];
    }

    method Read(k: EntryKey) returns (v: Option<V>)
      requires Valid()
      ensures v == if k in View() then Some(View()[k]) else None
    {
      var l, i, found := Find(k);
      if found {
        var b := nodes[l].body;
        return b.slots[b.perm[i]].val;
      }
      return None;
    }

    /** The entry for slice `x` of a key that goes on, found by way of the entry for a key that ends
        after eight bytes (`gc_layer`). */
    method ReadBeyond(x: Ikey) returns (v: Option<V>)
      requires Valid()
      ensures v == if EntryKey(x, 9) in View() then Some(View()[EntryKey(x, 9)]) else None
    {
      var l, i, found := Find(EntryKey(x, 8));
      var b := nodes[l].body;
      if found {
        i := i + 1;
      }
      LookupIn(T(), l, EntryKey(x, 9));
      Beyond(Entries(b), x, i);
      if i < b.size && b.slots[b.perm[i]].key == EntryKey(x, 9) {
        return b.slots[b.perm[i]].val;
      }
      return None;
    }

    /** Storing over the payload of an entry that is there. */
    method Replace(k: EntryKey, v: V)
      requires Valid() && k in View()
      modifies this`hint, this`nodes
      ensures Valid() && View() == old(View())[k := v] && hint == root
      ensures BoundsKept(old(T()), T()) && nodes.Keys == old(nodes).Keys && SameOwners(old(T()), T())
    {
      hide Inv, LeavesOk, LeafAtOk, BoundsKept, SameOwners, ViewOf;
      FixHint();
      var l, i, found := Find(k);
      InDomains(T());
      LeafShape(T(), l);
      var b := nodes[l].body;
      var b' := b.(slots := b.slots[b.perm[i] := Slot(k, Some(v))]);
      ghost var t' := WithBody(T(), l, b');
      StoreOver(T(), l, i, k, v, b');
      FilledAnd(T(), l);
      WithBodyFilled(T(), l, b');
      WithBodyOwners(T(), l, b');
      WithBodyBounds(T(), l, b');
      WithBodyRoot(T(), l, b');
      nodes := nodes[l := nodes[l].(body := b')];
      assert T() == t';
    }

    /** `finish_insert`: the entry goes into the slot at the back of the permutation, which is then
        moved to position `i`. */
    method Finish(l: Ptr, i: nat, k: EntryKey, v: V)
      requires Sound() && k !in View() && k.len <= 9
      requires Taker(T(), l, i, k) && FilledBut(T(), l)
      modifies this`nodes
      ensures Valid() && View() == old(View())[k := v]
      ensures BoundsKept(old(T()), T()) && nodes.Keys == old(nodes).Keys && SameOwners(old(T()), T())
    {
      var b := nodes[l].body;
      var p := b.perm[WIDTH - 1];
      var b' := Leaf(b.slots[p := Slot(k, Some(v))], InsertFromBack(b.perm, i), b.size + 1, b.next, b.prev);
      ghost var t' := WithBody(T(), l, b');
      StoreNew(T(), l, i, k, v, b');
      WithBodyOwners(T(), l, b');
      WithBodyFilled(T(), l, b');
      nodes := nodes[l := nodes[l].(body := b')];
      assert T() == t';
    }

    /** The three cases of `internode::split_into` for a full internode: where position `p` falls
        decides which separator goes up and which half gets the new pair. */
    static method CutInner(b: Body<V>, p: nat, x: int, child: Ptr, splitType: nat)
      returns (left: Body<V>, up: int, right: Body<V>, mid: nat)
      requires b.Inner? && |b.keys| == WIDTH && |b.child| == WIDTH + 1 && p <= WIDTH
      ensures 0 < mid <= WIDTH && |InsertAt(b.keys, p, x)| == WIDTH + 1
      ensures left == Inner(InsertAt(b.keys, p, x)[..mid], InsertAt(b.child, p + 1, child)[..mid + 1], b.level)
      ensures up == InsertAt(b.keys, p, x)[mid]
      ensures right == Inner(InsertAt(b.keys, p, x)[mid + 1..], InsertAt(b.child, p + 1, child)[mid + 1..], b.level)
      ensures if splitType == 2 then mid == WIDTH else WIDTH - mid <= mid <= WIDTH - mid + 1
    {
      mid := if splitType == 2 then WIDTH else (WIDTH + 1) / 2;
      if p < mid {
        right := Inner(b.keys[mid..], b.child[mid..], b.level);
        up := b.keys[mid - 1];
        left := Inner(b.keys[..p] + [x] + b.keys[p..mid - 1], b.child[..p + 1] + [child] + b.child[p + 1..mid],
            b.level);
      } else if p == mid {
        right := Inner(b.keys[mid..], [child] + b.child[mid + 1..], b.level);
        up := x;
        left := Inner(b.keys[..mid], b.child[..mid + 1], b.level);
      } else {
        right := Inner(b.keys[mid + 1..p] + [x] + b.keys[p..], b.child[mid + 1..p + 1] + [child] + b.child[p + 1..],
            b.level);
        up := b.keys[mid];
        left := Inner(b.keys[..mid], b.child[..mid + 1], b.level);
      }
      CutList(b.keys, p, x, mid);
      CutChildren(b.child, p + 1, child, mid);
    }

    method SetParentOfAll(cs: seq<Ptr>, r: Ptr)
      requires forall j :: 0 <= j < |cs| ==> cs[j] in nodes
      modifies this`nodes
      ensures nodes == SetParents(old(nodes), cs, r)
    {
      for i := 0 to |cs|
        invariant nodes == SetParents(old(nodes), cs[..i], r)
      {
        nodes := nodes[cs[i] := nodes[cs[i]].(parent := r)];
        assert cs[..i + 1] == cs[..i] + [cs[i]];
      }
      assert cs[..|cs|] == cs;
    }

    lemma NextIsNew()
      requires Allocated()
      ensures nextFree !in nodes && nextFree != NULL
    {
    }

    /** `internode::split_into` in the store: `q` keeps the left half, and the children of the new
        right internode get it as their parent. */
    method StoreHalves(q: Ptr, p: nat, x: int, child: Ptr, splitType: nat) returns (r: Ptr, up: int, ghost mid: nat)
      requires Domains(T()) && Allocated() && q in nodes && nodes[q].body.Inner? && child in nodes && child != q
      requires |nodes[q].body.keys| == WIDTH && |nodes[q].body.child| == WIDTH + 1 && p <= WIDTH
      requires forall j :: 0 < j <= WIDTH ==> nodes[q].body.child[j] in nodes
      modifies this`nodes, this`nextFree
      ensures 0 < mid <= WIDTH && r == old(nextFree) && nextFree == r + 1
      ensures var t := old(Listed(T(), child, x, q, p));
        up == t.nodes[q].body.keys[mid] && nodes == Cut(t, q, mid, r).nodes
    {
      hide Cut, Allocated, CutHalves, Listed, SetParents;
      NextIsNew();
      var left, right, m;
      left, up, right, m := CutInner(nodes[q].body, p, x, child, splitType);
      mid := m;
      r, nextFree := nextFree, nextFree + 1;
      HalvesCut(T(), q, p, x, child, m, left, right);
      CutStores(T(), child, x, q, p, m, r, left, right);
      ListedKey(T(), child, x, q, p, m);
      MovedLive(nodes, nodes[q].body.child, p + 1, child, m, right.child);
      var halves := nodes[q := nodes[q].(body := left)][r := Node(NULL, false, right)];
      if p < m {
        halves := halves[child := halves[child].(parent := q)];
      }
      nodes := halves;
      SetParentOfAll(right.child, r);
    }

    /** The same with the bounds of both halves. */
    method SplitInner(q: Ptr, p: nat, x: int, child: Ptr, splitType: nat) returns (r: Ptr, up: int, ghost mid: nat)
      requires Domains(T()) && Allocated() && q in nodes && nodes[q].body.Inner? && child in nodes && child != q
      requires |nodes[q].body.keys| == WIDTH && |nodes[q].body.child| == WIDTH + 1 && p <= WIDTH
      requires forall j :: 0 < j <= WIDTH ==> nodes[q].body.child[j] in nodes
      modifies this`nodes, this`nextFree, this`lo, this`hi
      ensures 0 < mid <= WIDTH && r == old(nextFree) && nextFree == r + 1
      ensures var t := old(Listed(T(), child, x, q, p));
        up == t.nodes[q].body.keys[mid] && T() == Cut(t, q, mid, r)
    {
      r, up, mid := StoreHalves(q, p, x, child, splitType);
      lo, hi := lo[r := up], hi[r := hi[q]][q := up];
    }

    /** No parent: a new root over `n` and `child`. */
    method PutRoot(n: Ptr, child: Ptr, x: int)
      requires Inv(T(), Split(n, child)) && Allocated() && x == lo[child] && n == root && hint == root
      modifies this`nodes, this`nextFree, this`lo, this`hi, this`root
      ensures Inv(T(), Done) && Allocated() && HintOk() && SameLeaves(old(T()), T())
    {
      hide NodeOk, DownOk, ChildOk, SameLeaves;
      ghost var t := T();
      var nn := nextFree;
      AddRoot(t, n, child, x, nn);
      AddRootLeaves(t, n, child, x, nn);
      nextFree := nn + 1;
      nodes := nodes[nn := Node(NULL, true, Inner([x], [n, child], nodes[n].body.Height() + 1))];
      nodes := nodes[child := nodes[child].(parent := nn)][n := Node(nn, false, nodes[n].body)];
      lo, hi, root := lo[nn := 0], hi[nn := TOP], nn;
      assert T() == RootAdded(t, n, child, x, nn);
    }

    /** A parent too far up: a new internode over `n` and `child` in the place of `n`. */
    method PutBetween(n: Ptr, child: Ptr, x: int, q: Ptr, kp: nat)
      requires RoomBetween(T(), n, child, x, nextFree, q, kp) && Allocated() && hint == root
      modifies this`nodes, this`nextFree, this`lo, this`hi, this`root
      ensures Inv(T(), Done) && Allocated() && HintOk() && SameLeaves(old(T()), T())
    {
      hide NodeOk, UpOk, DownOk, ChildOk, SameLeaves;
      ghost var t := T();
      var nn := nextFree;
      InsertBetween(t, n, child, x, nn, q, kp);
      InsertBetweenLeaves(t, n, child, x, nn, q, kp);
      nextFree := nn + 1;
      var b, m := nodes[q].body, nodes;
      m := m[nn := Node(q, false, Inner([x], [n, child], m[n].body.Height() + 1))];
      m := m[child := m[child].(parent := nn)];
      m := m[q := m[q].(body := b.(child := b.child[kp := nn]))];
      m := m[n := m[n].(parent := nn)];
      assert m == InnerAdded(t, n, child, x, nn, q, kp).nodes;
      hide Inv, SameLeaves;
      nodes := m;
      lo, hi := lo[nn := lo[n]], hi[nn := hi[child]];
      assert T() == InnerAdded(t, n, child, x, nn, q, kp);
    }

    /** A parent with room. */
    method PutInto(n: Ptr, child: Ptr, x: int, q: Ptr, kp: nat)
      requires RoomInto(T(), n, child, x, q, kp, Done) && Allocated() && hint == root
      modifies this`nodes, this`nextFree, this`lo, this`hi, this`root
      ensures Inv(T(), Done) && Allocated() && HintOk() && SameLeaves(old(T()), T())
    {
      ghost var t := T();
      InsertInto(t, n, child, x, q, kp, Done);
      InsertIntoLeaves(t, child, x, q, kp);
      var b := nodes[q].body;
      nodes := nodes[q := nodes[q].(body := Inner(InsertAt(b.keys, kp, x), InsertAt(b.child, kp + 1, child), b.level))];
      nodes := nodes[child := nodes[child].(parent := q)];
      assert T() == Listed(t, child, x, q, kp);
    }

    /** A full parent: it is split, and its right half is pending next. */
    method PutSplit(n: Ptr, child: Ptr, x: int, q: Ptr, kp: nat, splitType: nat) returns (r: Ptr, up: int)
      requires RoomInto(T(), n, child, x, q, kp, Full(q)) && |nodes[q].body.keys| == WIDTH && Allocated()
      modifies this`nodes, this`nextFree, this`lo, this`hi
      ensures Inv(T(), Split(q, r)) && Allocated() && up == lo[r] && SameLeaves(old(T()), T())
      ensures q in nodes && nodes[q].body.Inner? && nodes[q].body.level == old(nodes[q].body.level)
      ensures root in old(nodes) && nodes[root].body.Height() == old(nodes[root].body.Height())
    {
      hide Inv, AtParent, Cut, RoomInto, Listed, SameLeaves;
      ghost var t := T();
      FullParent(t, n, child, x, q, kp);
      ghost var f := Listed(t, child, x, q, kp);
      ghost var mid;
      r, up, mid := SplitInner(q, kp, x, child, splitType);
      FullCut(t, f, q, mid, r);
    }

    /** The loop of `make_split`: the pending right sibling `c0` of leaf `n0` is listed in the tree,
        and each full internode on the way up is split in turn. */
    method Attach(n0: Ptr, c0: Ptr, x0: int, splitType: nat)
      requires Inv(T(), Split(n0, c0)) && Allocated() && x0 == lo[c0] && nodes[n0].body.Leaf? && hint == root
      modifies this`nodes, this`nextFree, this`lo, this`hi, this`root
      ensures Inv(T(), Done) && Allocated() && HintOk() && SameLeaves(old(T()), T())
    {
      hide DownOk, UpOk, NodeOk, SameLeaves;
      SameLeavesSelf(T());
      var n, child, x, height := n0, c0, x0, 0;
      while true
        invariant Inv(T(), Split(n, child)) && Allocated() && x == lo[child] && nodes[n].body.Height() == height
        invariant hint == root && SameLeaves(old(T()), T())
        decreases nodes[root].body.Height() - height
      {
        var q := nodes[n].parent;
        ParentOrRoot(T(), n, child);
        ghost var t := T();
        if q == NULL {
          PutRoot(n, child, x);
          SameLeavesTwice(old(T()), t, T());
          break;
        }
        ghost var j := FindInParent(T(), n, child);
        var kp := UpperBound(nodes[q].body.keys, x);
        if height + 1 < nodes[q].body.level {
          PutBetween(n, child, x, q, kp);
          SameLeavesTwice(old(T()), t, T());
          break;
        }
        if |nodes[q].body.keys| < WIDTH {
          PutInto(n, child, x, q, kp);
          SameLeavesTwice(old(T()), t, T());
          break;
        }
        var r, up := PutSplit(n, child, x, q, kp, splitType);
        SameLeavesTwice(old(T()), t, T());
        n, child, x, height := q, r, up, height + 1;
      }
    }

    /** `link_split` and the new contents of both leaves: the right one is pending. */
    method LinkRight(l: Ptr, x: Ikey, bl: Body<V>, br: Body<V>) returns (c: Ptr)
      requires Sound() && SplitReady(T(), l, nextFree, x, bl, br) && bl.next == nodes[l].body.next
      modifies this`nodes, this`nextFree, this`lo, this`hi
      ensures c == old(nextFree) && T() == old(LeafSplit(T(), l, nextFree, x, bl, br))
      ensures Inv(T(), Split(l, c)) && LeavesOk(T()) && Allocated() && x == lo[c] && nodes[l].body.Leaf?
    {
      ghost var t := T();
      c, nextFree := nextFree, nextFree + 1;
      LeafSplitInv(t, l, c, x, bl, br);
      LeafSplitLeaves(t, l, c, x, bl, br);
      var nx, m := nodes[l].body.next, nodes;
      m := m[l := m[l].(body := bl.(next := c))][c := Node(NULL, m[l].root, br.(next := nx, prev := l))];
      if nx != NULL {
        m := m[nx := m[nx].(body := m[nx].body.(prev := c))];
      }
      assert m == LeafSplit(t, l, c, x, bl, br).nodes;
      hide Inv, LeavesOk;
      nodes := m;
      lo, hi := lo[c := x], hi[c := hi[l]][l := x];
    }

    /** The leaf part of `make_split`: leaf `l` gives the upper part of its entries to a new leaf,
        which is linked in the leaf list. */
    method Divide(l: Ptr, i: nat, k: EntryKey) returns (c: Ptr, x: Ikey, bl: Body<V>, br: Body<V>, splitType: nat)
      requires Sound() && hint == root && k.len <= 9 && k !in View()
      requires l == LeafFor(T(), k.ikey) && LeafAtOk(T(), l)
      requires var b := nodes[l].body;
        && WIDTH - 1 <= b.size && (b.size < WIDTH ==> b.perm[WIDTH - 1] == 0) && i == LowerPos(Entries(b), k)
      modifies this`nodes, this`nextFree, this`lo, this`hi
      ensures bl.Leaf? && br.Leaf? && SplitReady(old(T()), l, c, x, bl, br)
      ensures T() == LeafSplit(old(T()), l, c, x, bl, br)
      ensures Inv(T(), Split(l, c)) && LeavesOk(T()) && Allocated() && x == lo[c] && nodes[l].body.Leaf?
      ensures Halves(old(nodes[l].body), old(lo[l]), x, old(hi[l]), bl, br)
      ensures if splitType == 0 then LeftTakes(bl, old(lo[l]), x, i, k) else RightTakes(bl, br, x, i, k)
      ensures if splitType == 0 then 0 < br.size else 0 < bl.size
    {
      hide Inv, LeavesOk;
      MustSplit(T(), l, k);
      x, bl, br, splitType := SplitLeaf(nodes[l].body, i, k, lo[l], hi[l]);
      CanSplit(T(), l, nextFree, x, bl, br);
      hide LeafAtOk, LeftTakes, RightTakes, SplitReady, Halves;
      c := LinkRight(l, x, bl, br);
    }

    /** `make_split`: leaf `l` is split and its new right neighbour is listed in the tree. Nothing is
        found or lost, and one of the two leaves has a slot ready for the new entry. */
    method MakeSplit(l: Ptr, i: nat, k: EntryKey) returns (n: Ptr, p: nat)
      requires Valid() && hint == root && k.len <= 9 && k !in View()
      requires l == LeafFor(T(), k.ikey) && LeafAtOk(T(), l)
      requires var b := nodes[l].body;
        && WIDTH - 1 <= b.size && (b.size < WIDTH ==> b.perm[WIDTH - 1] == 0) && i == LowerPos(Entries(b), k)
      modifies this
      ensures Sound() && View() == old(View())
      ensures Taker(T(), n, p, k) && FilledBut(T(), n)
      ensures BoundsKept(old(T()), T()) && SameEpochs(old(T()), old(epoch), T(), epoch)
      ensures nodes.Keys != old(nodes).Keys
    {
      hide Inv, LeavesOk, Taker, LeafAtOk, SplitReady, SameLeaves, BoundsKept, LeafSplit, SameEpochs;
      hide Halves, Entries, Get, LowerPos, LeftTakes, RightTakes, AllFilled, FilledBut;
      ghost var t, e := T(), epoch;
      InDomains(t);
      var c, x, bl, br, splitType := Divide(l, i, k);
      epoch := Stored(epoch, c, epoch(l));
      ghost var t1 := T();
      Attach(l, c, x, splitType);
      var at := if splitType == 0 then i else i - bl.size;
      n := if splitType == 0 then l else c;
      SplitDone(t, l, c, x, bl, br, t1, T(), i, k, e, splitType, n, at);
      p := at;
    }

    /** `make_split`'s first try: another free slot changes places with slot 0 at the back. */
    method Rearrange(l: Ptr, perm: seq<nat>)
      requires Valid() && l in nodes && nodes[l].body.Leaf? && LeafAtOk(T(), l) && nodes[l].body.size < WIDTH
      requires perm == Exchange(nodes[l].body.perm, nodes[l].body.size, WIDTH - 1)
      modifies this`nodes
      ensures nodes == old(nodes)[l := old(nodes[l]).(body := old(nodes[l].body).(perm := perm))]
      ensures Valid() && View() == old(View()) && LeafAtOk(T(), l)
      ensures Entries(nodes[l].body) == old(Entries(nodes[l].body))
      ensures BoundsKept(old(T()), T()) && nodes.Keys == old(nodes).Keys && SameOwners(old(T()), T())
    {
      ghost var t := T();
      var b := nodes[l].body.(perm := perm);
      SwapFree(t, l, b);
      WithBodyOwners(t, l, b);
      FilledAnd(t, l);
      WithBodyFilled(t, l, b);
      assert b.prev != NULL ==> 0 < b.size;
      nodes := nodes[l := nodes[l].(body := b)];
      assert T() == WithBody(t, l, b);
    }

    /** `find_insert` and `finish_insert` for a key with no entry. The free slot at the back of the
        permutation takes it, unless that is slot 0 and holds the leaf's lower bound; then another
        free slot does, or the leaf is split. */
    method Insert(k: EntryKey, v: V)
      requires Valid() && k.len <= 9 && k !in View()
      modifies this
      ensures Valid() && View() == old(View())[k := v]
      ensures BoundsKept(old(T()), T()) && SameEpochs(old(T()), old(epoch), T(), epoch)
      ensures nodes.Keys == old(nodes).Keys <==> HasRoom(old(nodes[LeafFor(T(), k.ikey)].body), k.ikey)
    {
      hide Inv, LeavesOk, LeafAtOk, BoundsKept, SameEpochs, SameOwners, Taker, AllFilled, FilledBut, HasRoom;
      FixHint();
      var l, i, found := Find(k);
      ghost var t, e := T(), epoch;
      InDomains(t);
      LeafShape(t, l);
      RoomExactly(t, l, k.ikey);
      var b := nodes[l].body;
      if b.size < WIDTH {
        var p := b.perm[WIDTH - 1];
        FilledAnd(t, l);
        if p != 0 || b.prev == NULL || b.slots[0].key.ikey == k.ikey {
          TakesNow(t, l, i, k);
          Finish(l, i, k, v);
          OwnersEpochs(t, T(), epoch);
          return;
        }
        var perm := Exchange(b.perm, b.size, WIDTH - 1);
        if perm[WIDTH - 1] != 0 {
          FinishElsewhere(l, i, k, v, perm);
          OwnersEpochs(t, T(), epoch);
          return;
        }
      }
      l, i := MakeSplit(l, i, k);
      ghost var t1, e1 := T(), epoch;
      InDomains(t1);
      Finish(l, i, k, v);
      InDomains(T());
      BoundsKeptTwice(t, t1, T());
      EpochsThenOwners(t, e, t1, e1, T());
    }

    /** Slot 0 changes places with another free slot, which takes the entry. */
    method FinishElsewhere(l: Ptr, i: nat, k: EntryKey, v: V, perm: seq<nat>)
      requires Valid() && k.len <= 9 && k !in View() && l == LeafFor(T(), k.ikey) && LeafAtOk(T(), l)
      requires nodes[l].body.size < WIDTH && i == LowerPos(Entries(nodes[l].body), k)
      requires perm == Exchange(nodes[l].body.perm, nodes[l].body.size, WIDTH - 1) && perm[WIDTH - 1] != 0
      modifies this`nodes
      ensures Valid() && View() == old(View())[k := v] && nodes.Keys == old(nodes).Keys
      ensures BoundsKept(old(T()), T()) && SameOwners(old(T()), T())
    {
      hide Inv, LeavesOk, LeafAtOk, BoundsKept, SameOwners, Taker, LowerPos, ViewOf;
      ghost var t := T();
      InDomains(t);
      LeafShape(t, l);
      Rearrange(l, perm);
      ghost var t1 := T();
      InDomains(t1);
      SameOwner(t, t1, k.ikey);
      TakesNow(t1, l, i, k);
      Finish(l, i, k, v);
      InDomains(T());
      BoundsKeptTwice(t, t1, T());
      SameOwnersTwice(t, t1, T());
    }

    // ----- removal -----

    /** `redirect`: the separators above `n` that mark its start become `r`. The climb ends below
        the root, since `n` does not start at 0. */
    method Redirect(n0: Ptr, ikey: Ikey, r: int, ghost t: Tree<V>, ghost p: Pending)
      requires n0 in t.nodes && t.nodes[n0].body.Inner? && n0 in nodes
      requires MatchesAbove(t, p, nodes, t.nodes[n0].body.Height())
      requires Contains(t, n0, ikey) && 0 < t.lo[n0]
      modifies this`nodes
      ensures nodes == SwappedBetween(old(nodes), t.nodes[n0].body.Height(), t.nodes[t.root].body.Height(), t.lo[n0], r)
    {
      hide Inv, SwappedBetween, DownOk, UpOk, NodeOk;
      MatchesInv(t, p, nodes, t.nodes[n0].body.Height());
      var n, kp := n0, 0;
      ghost var h, a := t.nodes[n0].body.Height(), t.lo[n0];
      RedirectStart(t, p, nodes, n0, a, r);
      while true
        invariant n in t.nodes && n in nodes && t.nodes[n].body.Inner? && Contains(t, n, ikey) && t.lo[n] == a
        invariant h <= t.nodes[n].body.Height() && (n == n0 || h < t.nodes[n].body.Height())
        invariant nodes == SwappedBetween(old(nodes), h, t.nodes[n].body.Height(), a, r)
        decreases t.nodes[t.root].body.Height() - t.nodes[n].body.Height()
      {
        var q := nodes[n].parent;
        ghost var i := RedirectUp(t, p, n, ikey);
        RedirectStep(t, p, old(nodes), h, n, a, r, i);
        SwappedBetweenKeys(old(nodes), h, t.nodes[n].body.Height(), a, r);
        kp := UpperBound(nodes[q].body.keys, ikey);
        if kp > 0 {
          nodes := nodes[q := nodes[q].(body := nodes[q].body.(keys := nodes[q].body.keys[kp - 1 := r]))];
        }
        n := q;
        if !(kp == 0 || (kp == 1 && nodes[n].body.child[0] == NULL)) {
          RedirectStops(t, p, q, kp, a);
          RedirectEnd(t, p, old(nodes), h, q, a, r, t.nodes[t.root].body.Height());
          break;
        }
      }
    }

    /** One step of `remove_leaf` without a replacement: parent `q` loses the hole `n`, and the
        separators above are redirected if `q` now starts later. */
    method TakeOut(n: Ptr, q: Ptr, kp: nat, s: Ikey, ghost u: int, ghost t0: Tree<V>, ghost l: Ptr)
      requires Removing(t0, T(), l, n, NULL, s, u) && HoleAt(T(), n, s, u, q, kp) && Allocated() && hint == root
      modifies this`nodes, this`lo, this`hi
      ensures Stepped(t0, T(), l, q, s, u) && Allocated() && q in nodes && root in nodes
      ensures nodes[q].body.Height() == old(nodes[q].body.Height())
      ensures root in old(nodes) && nodes[root].body.Height() == old(nodes[root].body.Height())
      ensures NoneBaredBut(old(T()), T(), q) && n !in nodes && root == old(root)
    {
      hide Inv, Stepped, Removing, HoleAt, MatchesAbove, SwappedBetween, TakenOut, Dropped, NoneBaredBut;
      ghost var t, t' := T(), TakenOut(T(), n, s, u, q, kp);
      TakenOutStepped(t0, t, l, n, s, u, q, kp);
      TakenOutNodes(t, n, s, u, q, kp);
      TakenOutBare(t, n, s, u, q, kp);
      var b := nodes[q].body;
      if kp > 0 {
        b := Inner(RemoveIndex(b.keys, kp - 1), RemoveIndex(b.child, kp), b.level);
      } else {
        b := b.(child := b.child[0 := NULL]);
      }
      nodes := nodes[q := nodes[q].(body := b)] - {n};
      if kp <= 1 && |b.keys| > 0 && b.child[0] == NULL {
        Redirect(q, s, b.keys[0], t, Hole(n));
      }
      lo, hi := t'.lo, t'.hi;
      assert T() == t';
    }

    /** One step of `remove_leaf` with a replacement: internode `n` gives its place to `x`. */
    method Promote(n: Ptr, x: Ptr, q: Ptr, kp: nat, s: Ikey, ghost u: int, ghost t0: Tree<V>, ghost l: Ptr)
      requires x != NULL && Removing(t0, T(), l, n, x, s, u) && Collapsible(T(), n, x, q, kp) && Allocated()
      requires hint == root
      requires Contains(T(), q, s)
      modifies this`nodes, this`lo, this`hi
      ensures Stepped(t0, T(), l, q, s, u) && Allocated() && q in nodes && root in nodes
      ensures nodes[q].body.Height() == old(nodes[q].body.Height())
      ensures root in old(nodes) && nodes[root].body.Height() == old(nodes[root].body.Height())
      ensures NoneBaredBut(old(T()), T(), q) && n !in nodes && root == old(root)
    {
      hide Inv, Stepped, Removing, MatchesAbove, SwappedBetween, Collapsible, NoneBaredBut;
      ghost var t := T();
      CollapsedParent(t, n, x, q, kp, s);
      ghost var t' := Collapsed(t, n, x, q, kp);
      CollapsedStepped(t0, t, l, n, x, s, u, q, kp);
      CollapsedBare(t, n, x, q, kp);
      var b := nodes[q].body.(child := nodes[q].body.child[kp := x]);
      nodes := nodes[q := nodes[q].(body := b)][x := nodes[x].(parent := q)] - {n};
      lo, hi := lo - {n}, hi - {n};
      assert T() == t';
      if kp <= 1 && |b.keys| > 0 && b.child[0] == NULL {
        Redirect(q, s, b.keys[0], t', Done);
        RedirectNothing(t'.nodes, t'.nodes[q].body.Height(), t'.nodes[t'.root].body.Height(), b.keys[0]);
      }
      assert T() == t';
    }

    /** One turn of the loop of `remove_leaf`, at the parent of `n`. */
    method StepUp(n: Ptr, x: Ptr, s: Ikey, ghost u: int, ghost t0: Tree<V>, ghost l: Ptr) returns (q: Ptr)
      requires Removing(t0, T(), l, n, x, s, u) && Allocated() && hint == root
      modifies this`nodes, this`lo, this`hi
      ensures Stepped(t0, T(), l, q, s, u) && Allocated() && q in nodes && root in nodes
      ensures n in old(nodes) && root in old(nodes) && nodes[root].body.Height() == old(nodes[root].body.Height())
      ensures old(nodes[n].body.Height()) < nodes[q].body.Height() <= nodes[root].body.Height()
      ensures NoneBaredBut(old(T()), T(), q) && n !in nodes
    {
      RemovingParent(t0, T(), l, n, x, s, u);
      q := nodes[n].parent;
      if x == NULL {
        ghost var i := HoleParent(T(), n);
      } else {
        ghost var i := CollapseParent(T(), n, x, s);
      }
      hide Inv, Stepped, Removing, HoleAt;
      var kp := UpperBound(nodes[q].body.keys, s);
      if x == NULL {
        TakeOut(n, q, kp, s, u, t0, l);
      } else {
        Promote(n, x, q, kp, s, u, t0, l);
      }
    }

    /** The loop of `remove_leaf`: internodes left without a child go too, and an internode left with
        one child and no separator gives that child its place. */
    method Detach(l: Ptr, s: Ikey, ghost u: int, ghost t0: Tree<V>)
      requires Removing(t0, T(), l, l, NULL, s, u) && Allocated() && hint == root && root in nodes
      modifies this`nodes, this`lo, this`hi
      ensures Gone(t0, T(), l, s, u) && Allocated() && root in nodes && NoneBared(old(T()), T())
    {
      hide Inv, Gone, NoneBared, NoneBaredBut;
      var n, x := l, NULL;
      assert n in nodes;
      BareSelf(T(), n);
      while true
        invariant Removing(t0, T(), l, n, x, s, u) && Allocated() && hint == root && root in nodes && n in nodes
        invariant NoneBaredBut(old(T()), T(), n)
        decreases nodes[root].body.Height() - nodes[n].body.Height()
      {
        ghost var t, p := T(), n;
        n := StepUp(n, x, s, u, t0, l);
        BareUp(old(T()), t, T(), p, n);
        if |nodes[n].body.keys| > 0 || nodes[n].root {
          GoneRoot(t0, T(), l, s, u, n);
          BareEnds(old(T()), T(), n);
          break;
        }
        x := nodes[n].body.child[0];
      }
    }

    /** `unlink`: the neighbours of leaf `l` are linked to each other. */
    method Unlink(l: Ptr)
      requires Domains(T()) && l in nodes && nodes[l].body.Leaf? && Linked(T(), l)
      modifies this`nodes
      ensures T() == old(Unlinked(T(), l))
    {
      var next, prev := nodes[l].body.next, nodes[l].body.prev;
      if next != NULL {
        nodes := nodes[next := nodes[next].(body := nodes[next].body.(prev := prev))];
      }
      nodes := nodes[prev := nodes[prev].(body := nodes[prev].body.(next := next))];
    }

    /** Leaf `l` leaves the leaf list, and then the tree. */
    method CutOff(l: Ptr)
      requires Removable(T(), l) && hint == root && Allocated()
      modifies this`nodes, this`lo, this`hi
      ensures Gone(old(Unlinked(T(), l)), T(), l, old(lo[l]), old(hi[l])) && HintOk() && Allocated()
      ensures NoneBared(old(T()), T())
    {
      ghost var t := T();
      SlotOfLeaf(t, l);
      UnlinkedRemoving(t, l);
      UnlinkedBare(t, l);
      hide Inv, LeavesOk, LeafAtOk, Unlinked, Removing, Removable, Gone, NoneBared;
      var s := nodes[l].body.slots[0].key.ikey;
      ghost var u := hi[l];
      Unlink(l);
      Detach(l, s, u, Unlinked(t, l));
      BareTwice(t, Unlinked(t, l), T());
    }

    /** `remove_leaf`: an empty leaf with a predecessor leaves the leaf list and the tree. Nothing is
        found or lost. */
    method RemoveLeaf(l: Ptr)
      requires Sound() && hint == root && l in nodes && nodes[l].body.Leaf? && FilledBut(T(), l)
      requires nodes[l].body.size == 0 && nodes[l].body.prev != NULL
      modifies this
      ensures Valid() && View() == old(View()) && l !in nodes && StayBut(old(T()), T(), l) && NoneBared(old(T()), T())
      ensures BoundsKept(old(T()), T()) && NoLower(old(T()), old(epoch), T(), epoch) && Epochs() <= old(Epochs())
    {
      ghost var t, e := T(), epoch;
      CanRemove(t, l);
      hide Inv, LeavesOk, LeafAtOk, Unlinked, Removing, NoLower, BoundsKept, ViewOf, LeavesLeft, AllFilled, FilledBut,
        EpochsOf, StayBut, NoneBared;
      var pv := nodes[l].body.prev;
      epoch := Stored(epoch, pv, Max(epoch(pv), epoch(l)));
      CutOff(l);
      RemovedView(t, l, T());
      RemovedEpochs(t, l, T(), e);
      RemovedSet(t, l, T(), e);
      RemovedFilled(t, l, T());
      RemovedStay(t, l, T());
    }

    /** `finish_remove`'s store: the entry at position `i` leaves the permutation. */
    method Erase(l: Ptr, i: nat, k: EntryKey)
      requires Valid() && hint == root && l == LeafFor(T(), k.ikey) && LeafAtOk(T(), l)
      requires i < nodes[l].body.size && nodes[l].body.slots[nodes[l].body.perm[i]].key == k
      modifies this`nodes
      ensures Sound() && View() == old(View()) - {k} && l in nodes && FilledBut(T(), l) && StayBut(old(T()), T(), l)
      ensures var b := old(nodes[l].body); nodes[l].body == b.(perm := RemoveAt(b.perm, b.size, i), size := b.size - 1)
      ensures NoneBared(old(T()), T())
      ensures BoundsKept(old(T()), T()) && nodes.Keys == old(nodes).Keys && SameOwners(old(T()), T())
    {
      hide Inv, LeavesOk, ViewOf, LeafAtOk, BoundsKept, SameOwners, AllFilled, FilledBut, StayBut, NoneBared;
      InDomains(T());
      var b := nodes[l].body;
      LeafShape(T(), l);
      var b' := b.(perm := RemoveAt(b.perm, b.size, i), size := b.size - 1);
      ghost var t := T();
      EraseEntry(t, l, i, k, b');
      FilledAnd(t, l);
      WithBodyFilled(t, l, b');
      WithBodyStay(t, l, b');
      WithBodyBare(t, l, b');
      WithBodyBounds(t, l, b');
      WithBodyOwners(t, l, b');
      nodes := nodes[l := nodes[l].(body := b')];
      assert T() == WithBody(t, l, b');
    }

    /** `finish_remove`: the entry leaves the permutation; a leaf that is empty now is removed,
        unless it is the first. `lone` says that the entry was in the first leaf and the layer is down to
        one empty leaf. */
    method Remove(k: EntryKey) returns (lone: bool)
      requires Valid() && k in View()
      modifies this
      ensures Valid() && View() == old(View()) - {k}
      ensures lone <==> View() == imap[] && old(InFirst(k.ikey))
      ensures var l := old(LeafFor(T(), k.ikey)); l in nodes <==> old(InFirst(k.ikey) || 1 < nodes[l].body.size)
      ensures StayBut(old(T()), T(), old(LeafFor(T(), k.ikey))) && NoneBared(old(T()), T())
      ensures BoundsKept(old(T()), T()) && NoLower(old(T()), old(epoch), T(), epoch) && Epochs() <= old(Epochs())
    {
      hide Inv, LeavesOk, LeafAtOk, NoLower, SameOwners, BoundsKept, ViewOf, AllFilled, FilledBut, EpochsOf, StayBut,
        NoneBared;
      FixHint();
      var l, i, found := Find(k);
      ghost var t, e := T(), epoch;
      InDomains(t);
      Erase(l, i, k);
      ghost var t1 := T();
      InDomains(t1);
      OwnersNoLower(t, t1, e);
      OwnersEpochs(t, t1, e);
      SameEpochsSet(t, e, t1, e);
      lone := DropIfEmpty(l);
      InDomains(T());
      BoundsKeptTwice(t, t1, T());
      NoLowerTwice(t, e, t1, e, T(), epoch);
      StayTwice(t, t1, T(), l);
      BareTwice(t, t1, T());
    }

    /** An empty leaf is removed, unless it is the first. */
    method DropIfEmpty(l: Ptr) returns (lone: bool)
      requires Sound() && hint == root && l in nodes && nodes[l].body.Leaf? && FilledBut(T(), l)
      modifies this
      ensures Valid() && View() == old(View())
      ensures lone <==> View() == imap[] && old(nodes[l].body.prev == NULL)
      ensures l in nodes <==> old(nodes[l].body.prev == NULL || 0 < nodes[l].body.size)
      ensures StayBut(old(T()), T(), l) && NoneBared(old(T()), T())
      ensures BoundsKept(old(T()), T()) && NoLower(old(T()), old(epoch), T(), epoch) && Epochs() <= old(Epochs())
    {
      hide Inv, LeavesOk, LeafAtOk, NoLower, SameOwners, BoundsKept, ViewOf, AllFilled, FilledBut, EpochsOf;
      InDomains(T());
      NoLowerSelf(T(), epoch);
      FilledAnd(T(), l);
      var b := nodes[l].body;
      lone := false;
      if b.prev == NULL && View() == imap[] { FirstIsLast(T(), l); }
      if b.size == 0 {
        if b.prev == NULL {
          lone := b.next == NULL;
          if lone { OnlyLeaf(T(), l); }
        } else {
          RemoveLeaf(l);
        }
      }
    }

    /** `gc_layer`: the epoch of the leaf for slice `x` is raised to `v`. */
    method RaiseEpoch(x: Ikey, v: int)
      requires Valid()
      modifies this`epoch
      ensures Valid() && View() == old(View())
      ensures forall p :: epoch(p) == if p == LeafFor(T(), x) && old(epoch)(p) < v then v else old(epoch)(p)
      ensures NoLower(T(), old(epoch), T(), epoch) && v <= EpochFor(T(), epoch, x)
      ensures Epochs() <= old(Epochs()) + iset{v}
    {
      hide Inv, LeavesOk, NoLower, EpochsOf, AllFilled;
      var l := ReachLeaf(x);
      RaisedEpochs(T(), epoch, l, v);
      RaisedSet(T(), epoch, x, v);
      epoch := Stored(epoch, l, Max(epoch(l), v));
    }

    /** `apply_remove`: it is raised above timestamp `ts`. */
    method RaiseAbove(x: Ikey, ts: int)
      requires Valid()
      modifies this`epoch
      ensures Valid() && View() == old(View())
      ensures forall p :: epoch(p) == if p == LeafFor(T(), x) && old(epoch)(p) <= ts then ts + 2 else old(epoch)(p)
      ensures NoLower(T(), old(epoch), T(), epoch) && ts < EpochFor(T(), epoch, x)
      ensures Epochs() <= old(Epochs()) + iset{ts + 2}
    {
      hide Inv, LeavesOk, NoLower, EpochsOf, AllFilled;
      NoLowerSelf(T(), epoch);
      var l := ReachLeaf(x);
      if epoch(l) <= ts {
        RaisedEpochs(T(), epoch, l, ts + 2);
        StoredSet(T(), epoch, l, ts + 2);
        epoch := Stored(epoch, l, ts + 2);
      }
    }

    method Epoch(x: Ikey) returns (v: int)
      requires Valid()
      ensures v == EpochFor(T(), epoch, x)
    {
      var l := ReachLeaf(x);
      v := epoch(l);
    }

    /** A root internode without separators gives its place to its only child. */
    method LowerRoot()
      requires Valid() && hint == root && nodes[root].body.Inner? && nodes[root].body.keys == []
      modifies this`nodes, this`hint, this`lo, this`hi, this`root
      ensures Valid() && View() == old(View()) && hint == root
      ensures root in old(nodes) && nodes[root].body.Height() < old(nodes[root].body.Height())
      ensures BoundsKept(old(T()), T()) && nodes.Keys <= old(nodes).Keys
      ensures Domains(T()) && SameOwners(old(T()), T())
    {
      hide Inv, LeavesOk, RootDropped, ViewOf, BoundsKept, SameOwners, AllFilled;
      LowerRootKeeps(T());
      var c := nodes[hint].body.child[0];
      ghost var t' := RootDropped(T(), c);
      RootDroppedDomains(T(), c);
      DroppedBounds(T(), c);
      nodes := nodes[c := Node(NULL, true, nodes[c].body)] - {hint};
      hint := c;
      lo, hi, root := t'.lo, t'.hi, c;
      assert T() == t';
    }

    /** What `gc_layer` does inside the layer to be collected: root internodes without separators
        go, and the layer can be dropped if one empty leaf is left. */
    method Shrink() returns (empty: bool)
      requires Valid()
      modifies this`nodes, this`hint, this`lo, this`hi, this`root
      ensures Valid() && View() == old(View()) && hint == root
      ensures empty <==> View() == imap[]
      ensures root in nodes && (nodes[root].body.Inner? ==> nodes[root].body.keys != [])
      ensures empty ==> nodes.Keys == {root} && nodes[root].body.Leaf? && forall x: Ikey :: LeafFor(T(), x) == root
      ensures BoundsKept(old(T()), T()) && nodes.Keys <= old(nodes).Keys && SameOwners(old(T()), T())
    {
      hide Inv, LeavesOk, BoundsKept, SameOwners;
      InDomains(T());
      SameOwnersSelf(T());
      FixHint();
      while nodes[hint].body.Inner?
        invariant Valid() && View() == old(View()) && hint == root
        invariant SameOwners(old(T()), T())
        invariant Domains(T()) && Domains(old(T())) && BoundsKept(old(T()), T()) && nodes.Keys <= old(nodes).Keys
        decreases nodes[hint].body.Height()
      {
        if View() == imap[] { NoSeparators(T()); }
        if |nodes[hint].body.keys| > 0 {
          return false;
        }
        ghost var t := T();
        LowerRoot();
        BoundsKeptTwice(old(T()), t, T());
        SameOwnersTwice(old(T()), t, T());
      }
      empty := nodes[hint].body.size == 0;
      RootLeafAlone(T());
      if View() == imap[] { EmptyLeaf(T(), root); }
      if empty {
        OnlyLeaf(T(), root);
        RootOwns(T());
      }
    }
  }

  /** A slot is free for an entry with slice `x`. Slot 0 holds the leaf's lower bound if there is a leaf
      before it, and then it is free for that slice only. */
  ghost predicate HasRoom<V>(b: Body<V>, x: Ikey) {
    && b.Leaf? && |b.perm| == WIDTH && |b.slots| == WIDTH
    && exists j :: b.size <= j < WIDTH && (b.perm[j] != 0 || b.prev == NULL || b.slots[0].key.ikey == x)
  }

  lemma RoomExactly<V>(t: Tree<V>, l: Ptr, x: Ikey)
    requires Inv(t, Done) && l in t.nodes && t.nodes[l].body.Leaf? && LeafAtOk(t, l)
    ensures var b := t.nodes[l].body;
      && |b.perm| == WIDTH && |b.slots| == WIDTH && b.size <= WIDTH
      && var free := b.size < WIDTH
           && (b.perm[WIDTH - 1] != 0 || b.prev == NULL || b.slots[0].key.ikey == x || b.perm[b.size] != 0);
         HasRoom(b, x) <==> free
  {
    var b := t.nodes[l].body;
    if b.size < WIDTH && (b.perm[WIDTH - 1] != 0 || b.prev == NULL || b.slots[0].key.ikey == x || b.perm[b.size] != 0) {
      var j := if b.perm[b.size] != 0 then b.size else WIDTH - 1;
      assert HasRoom(b, x) by { assert b.perm[j] != 0 || b.prev == NULL || b.slots[0].key.ikey == x; }
    }
  }

  lemma HalvesCut<V>(t: Tree<V>, q: Ptr, p: nat, x: int, child: Ptr, mid: nat, left: Body<V>, right: Body<V>)
    requires Domains(t) && child in t.nodes && q in t.nodes && child != q && t.nodes[q].body.Inner? && p <= WIDTH
    requires |t.nodes[q].body.keys| == WIDTH && |t.nodes[q].body.child| == WIDTH + 1 && 0 < mid <= WIDTH
    requires var b := t.nodes[q].body;
      && left == Inner(InsertAt(b.keys, p, x)[..mid], InsertAt(b.child, p + 1, child)[..mid + 1], b.level)
      && right == Inner(InsertAt(b.keys, p, x)[mid + 1..], InsertAt(b.child, p + 1, child)[mid + 1..], b.level)
    ensures CutHalves(Listed(t, child, x, q, p).nodes[q].body, mid, left, right)
  {
  }

  lemma ListedKey<V>(t: Tree<V>, child: Ptr, x: int, q: Ptr, p: nat, mid: nat)
    requires Domains(t) && child in t.nodes && q in t.nodes && child != q && t.nodes[q].body.Inner? && p <= WIDTH
    requires |t.nodes[q].body.keys| == WIDTH && |t.nodes[q].body.child| == WIDTH + 1 && mid <= WIDTH
    ensures var f := Listed(t, child, x, q, p); f.nodes[q].body.Inner? && |f.nodes[q].body.keys| == WIDTH + 1
    ensures Listed(t, child, x, q, p).nodes[q].body.keys[mid] == InsertAt(t.nodes[q].body.keys, p, x)[mid]
  {
  }

  /** Listing `x` at position `p` first and cutting at `mid` after. */
  lemma CutList(s: seq<int>, p: nat, x: int, mid: nat)
    requires p <= |s| && 0 < mid <= |s|
    ensures p < mid ==>
        s[..p] + [x] + s[p..mid - 1] == InsertAt(s, p, x)[..mid] && s[mid..] == InsertAt(s, p, x)[mid + 1..]
    ensures p < mid ==> s[mid - 1] == InsertAt(s, p, x)[mid]
    ensures mid <= p ==> s[..mid] == InsertAt(s, p, x)[..mid]
    ensures mid == p ==> s[mid..] == InsertAt(s, p, x)[mid + 1..] && x == InsertAt(s, p, x)[mid]
    ensures mid < p ==> s[mid + 1..p] + [x] + s[p..] == InsertAt(s, p, x)[mid + 1..] && s[mid] == InsertAt(s, p, x)[mid]
  {
  }

  lemma CutChildren(s: seq<Ptr>, p: nat, x: Ptr, mid: nat)
    requires 0 < p < |s| + 1 && 0 < mid < |s|
    ensures p <= mid ==> s[..p] + [x] + s[p..mid] == InsertAt(s, p, x)[..mid + 1]
    ensures p <= mid ==> s[mid..] == InsertAt(s, p, x)[mid + 1..]
    ensures mid < p ==> s[..mid + 1] == InsertAt(s, p, x)[..mid + 1]
    ensures mid + 1 == p ==> [x] + s[mid + 1..] == InsertAt(s, p, x)[mid + 1..]
    ensures mid + 1 < p ==> s[mid + 1..p] + [x] + s[p..] == InsertAt(s, p, x)[mid + 1..]
  {
  }

  /** Lowering the root keeps the layer in order and finds what was there. */
  lemma LeafShape<V>(t: Tree<V>, l: Ptr)
    requires Domains(t) && l in t.nodes && t.nodes[l].body.Leaf? && LeafAtOk(t, l)
    ensures LeafWf(t.nodes[l].body) && |t.nodes[l].body.perm| == WIDTH && |t.nodes[l].body.slots| == WIDTH
  {
  }

  /** Listing one child more makes an internode over-full. */
  lemma FullParent<V>(t: Tree<V>, n: Ptr, child: Ptr, x: int, q: Ptr, kp: nat)
    requires RoomInto(t, n, child, x, q, kp, Full(q)) && |t.nodes[q].body.keys| == WIDTH
    ensures Domains(t) && q in t.nodes && t.nodes[q].body.Inner? && child in t.nodes && child != q && kp <= WIDTH
    ensures |t.nodes[q].body.child| == WIDTH + 1 && forall j :: 0 < j <= WIDTH ==> t.nodes[q].body.child[j] in t.nodes
    ensures var f := Listed(t, child, x, q, kp);
      && Inv(f, Full(q)) && q in f.nodes && f.nodes[q].body.Inner? && |f.nodes[q].body.keys| == WIDTH + 1
      && SameLeaves(t, f)
      && f.nodes[q].body.level == t.nodes[q].body.level && f.root == t.root && t.root in t.nodes
      && f.nodes.Keys == t.nodes.Keys
      && f.nodes[t.root].body.Height() == t.nodes[t.root].body.Height()
  {
    InsertInto(t, n, child, x, q, kp, Full(q));
    InsertIntoLeaves(t, child, x, q, kp);
    AllChildrenLive(t, n, child, q);
  }

  /** Cutting it in two leaves a right half to be listed above. */
  lemma FullShape<V>(f: Tree<V>, q: Ptr)
    requires Inv(f, Full(q)) && q in f.nodes && f.nodes[q].body.Inner?
    ensures Domains(f) && |f.nodes[q].body.child| == |f.nodes[q].body.keys| + 1 && f.root in f.nodes && NULL !in f.nodes
  {
    assert DownOk(f, Full(q), q);
  }

  lemma FullCut<V>(t: Tree<V>, f: Tree<V>, q: Ptr, mid: nat, r: Ptr)
    requires Domains(t) && Inv(f, Full(q)) && q in f.nodes && f.nodes[q].body.Inner?
    requires |f.nodes[q].body.keys| == WIDTH + 1
    requires SameLeaves(t, f) && 0 < mid <= WIDTH && r !in f.nodes && r != NULL
    ensures Domains(f) && |f.nodes[q].body.child| == |f.nodes[q].body.keys| + 1
    ensures var c := Cut(f, q, mid, r);
      && Domains(c) && Inv(c, Split(q, r)) && SameLeaves(t, c) && r in c.lo && c.lo[r] == f.nodes[q].body.keys[mid]
      && q in c.nodes && c.nodes[q].body.Inner? && c.nodes[q].body.level == f.nodes[q].body.level && c.root == f.root
      && c.nodes.Keys == f.nodes.Keys + {r} && f.root in f.nodes
      && c.nodes[f.root].body.Height() == f.nodes[f.root].body.Height()
  {
    FullShape(f, q);
    hide DownOk, UpOk, NodeOk, Inv;
    CutKeeps(f, q, mid, r);
    CutLeaves(f, q, mid, r);
  }

  lemma MatchesInv<V>(t: Tree<V>, p: Pending, nodes: map<Ptr, Node<V>>, h: nat)
    requires MatchesAbove(t, p, nodes, h)
    ensures Inv(t, p) && Domains(t) && !p.Split?
  {
  }

  lemma RootDroppedDomains<V>(t: Tree<V>, c: Ptr)
    requires Domains(t) && c in t.nodes && c != t.root && Inv(RootDropped(t, c), Done)
    ensures Domains(RootDropped(t, c))
  {
  }

  lemma DroppedBounds<V>(t: Tree<V>, c: Ptr)
    requires Domains(t) && c in t.nodes && c != t.root && Domains(RootDropped(t, c)) && t.nodes[t.root].body.Inner?
    ensures BoundsKept(t, RootDropped(t, c))
  {
  }

  lemma LowerRootKeeps<V>(t: Tree<V>)
    requires Inv(t, Done) && LeavesOk(t) && t.nodes[t.root].body.Inner? && t.nodes[t.root].body.keys == []
    ensures t.root in t.nodes && Domains(t) && |t.nodes[t.root].body.child| > 0
    ensures var c := t.nodes[t.root].body.child[0];
      && c in t.nodes && c != t.root && t.nodes[c].body.Height() < t.nodes[t.root].body.Height()
      && var t' := RootDropped(t, c);
      && t'.nodes == t.nodes[c := Node(NULL, true, t.nodes[c].body)] - {t.root} && t'.root == c
      && Inv(t', Done) && LeavesOk(t') && ViewOf(t') == ViewOf(t) && SameOwners(t, t')
      && (AllFilled(t) ==> AllFilled(t'))
  {
    RootHasChild(t);
    var c := t.nodes[t.root].body.child[0];
    DropRoot(t, c);
    SameLeavesOk(t, RootDropped(t, c));
    SameLeavesView(t, RootDropped(t, c));
    SameLeavesOwners(t, RootDropped(t, c));
    SameLeavesFilled(t, RootDropped(t, c), NULL);
  }

  /** The leaf of `make_new_layer`: both entries' slots are assigned in key order, the old entry is
      published at once, and the new one's slot is at the back for `finish_insert`. */
  function ForkLeaf<V>(ok: EntryKey, ov: V, k: EntryKey, v: V): Body<V> {
    var displaced, added := Slot(ok, Some(ov)), Slot(k, Some(v));
    var first, second := if Less(ok, k) then displaced else added, if Less(ok, k) then added else displaced;
    Leaf(seq(WIDTH, i => if i == 0 then first else if i == 1 then second else Slot(EntryKey(0, 0), None)),
         if Less(ok, k) then InsertFromBack(MakeSorted(WIDTH, 1), 1)
         else InsertFromBack(RemoveToBack(MakeSorted(WIDTH, 2), 0), 0),
         2, NULL, NULL)
  }

  lemma ForkPerm()
    ensures var p := InsertFromBack(MakeSorted(WIDTH, 1), 1);
      var r := InsertFromBack(RemoveToBack(MakeSorted(WIDTH, 2), 0), 0);
      IsPerm(p, WIDTH) && p[0] == 0 && p[1] == 1 && IsPerm(r, WIDTH) && r[0] == 0 && r[1] == 1
  {
    MakeSortedPerm(WIDTH, 1);
    MakeSortedPerm(WIDTH, 2);
    InsertFromBackPerm(MakeSorted(WIDTH, 1), WIDTH, 1);
    RemoveToBackPerm(MakeSorted(WIDTH, 2), WIDTH, 0);
    InsertFromBackPerm(RemoveToBack(MakeSorted(WIDTH, 2), 0), WIDTH, 0);
    hide IsPerm;
  }

  lemma ForkEntries<V>(ok: EntryKey, ov: V, k: EntryKey, v: V)
    requires ok.len <= 9 && k.len <= 9 && ok != k
    ensures var b, d, a := ForkLeaf(ok, ov, k, v), Slot(ok, Some(ov)), Slot(k, Some(v));
      && LeafWf(b) && b.size == 2 && b.next == NULL && b.prev == NULL
      && Entries(b) == if Less(ok, k) then [d, a] else [a, d]
  {
    var b := ForkLeaf(ok, ov, k, v);
    ForkPerm();
    hide IsPerm;
    assert Entries(b) == [b.slots[0], b.slots[1]];
  }

  lemma ForkLeafView<V>(ok: EntryKey, ov: V, k: EntryKey, v: V)
    requires ok.len <= 9 && k.len <= 9 && ok != k
    ensures var t := OneLeaf(ForkLeaf(ok, ov, k, v));
      Inv(t, Done) && LeavesOk(t) && ViewOf(t) == imap[ok := ov][k := v] && AllFilled(t)
  {
    var b, d, a := ForkLeaf(ok, ov, k, v), Slot(ok, Some(ov)), Slot(k, Some(v));
    ForkEntries(ok, ov, k, v);
    OneFilled(b);
    TwoKeys(ok, ov, k, v);
    hide ForkLeaf, LeafWf, Entries, Inv, LeavesOk, ViewOf, OneLeaf, AllFilled;
    assert Less(ok, k) || Less(k, ok);
    if Less(ok, k) { TwoSlotsView(b, d, a); } else { TwoSlotsView(b, a, d); }
  }

  lemma TwoKeys<K, V>(ok: K, ov: V, k: K, v: V)
    requires ok != k
    ensures imap[ok := ov][k := v] == imap[ok := ov, k := v] == imap[k := v, ok := ov]
  {
  }

  lemma OneFilled<V>(b: Body<V>)
    requires b.Leaf? && b.prev == NULL
    ensures AllFilled(OneLeaf(b))
  {
  }

  lemma TakesSide<V>(bl: Body<V>, br: Body<V>, lo: int, x: int, i: nat, k: EntryKey, splitType: nat)
    requires if splitType == 0 then LeftTakes(bl, lo, x, i, k) else RightTakes(bl, br, x, i, k)
    ensures (splitType == 0 <==> k.ikey < x) && (splitType != 0 ==> bl.Leaf? && bl.size <= i)
  {
  }

  lemma NewLeafStays<V>(t: Tree<V>, l: Ptr, c: Ptr, x: Ikey, bl: Body<V>, br: Body<V>, t1: Tree<V>, t': Tree<V>)
    requires SplitReady(t, l, c, x, bl, br) && t1 == LeafSplit(t, l, c, x, bl, br)
    requires Domains(t1) && Domains(t') && SameLeaves(t1, t')
    ensures c in t'.nodes && c !in t.nodes
  {
    assert c in t1.nodes && t1.nodes[c].body.Leaf?;
  }

  /** All that a split keeps, and where the new entry goes. */
  lemma SplitDone<V>(t: Tree<V>, l: Ptr, c: Ptr, x: Ikey, bl: Body<V>, br: Body<V>, t1: Tree<V>, t': Tree<V>, i: nat,
      k: EntryKey, e: Ptr -> int, splitType: nat, n: Ptr, p: int)
    requires SplitReady(t, l, c, x, bl, br) && Contains(t, l, k.ikey) && LeafAtOk(t, l) && AllFilled(t)
    requires bl.Leaf? && n == (if splitType == 0 then l else c) && p == if splitType == 0 then i else i - bl.size
    requires Halves(t.nodes[l].body, t.lo[l], x, t.hi[l], bl, br)
    requires if splitType == 0 then LeftTakes(bl, t.lo[l], x, i, k) else RightTakes(bl, br, x, i, k)
    requires if splitType == 0 then 0 < br.size else 0 < bl.size
    requires t1 == LeafSplit(t, l, c, x, bl, br) && LeavesOk(t1) && Inv(t', Done) && SameLeaves(t1, t')
    ensures LeavesOk(t') && ViewOf(t') == ViewOf(t) && BoundsKept(t, t') && SameEpochs(t, e, t', Stored(e, c, e(l)))
    ensures 0 <= p && Taker(t', n, p, k) && FilledBut(t', n) && c in t'.nodes && c !in t.nodes
  {
    TakesSide(bl, br, t.lo[l], x, i, k, splitType);
    SplitEpochs(t, l, c, x, bl, br, t', e);
    AfterSplit(t, l, c, x, bl, br, t1, t', i, k);
    AfterSplitFilled(t, l, c, x, bl, br, t', if splitType == 0 then l else c);
    NewLeafStays(t, l, c, x, bl, br, t1, t');
    hide Inv, LeavesOk, Taker, LeafAtOk, SplitReady, SameLeaves, BoundsKept, LeafSplit, SameEpochs;
    hide Entries, Get, LowerPos, LeftTakes, RightTakes, AllFilled, FilledBut;
  }

  lemma WithBodyRoot<V>(t: Tree<V>, l: Ptr, b: Body<V>)
    requires Domains(t) && l in t.nodes
    ensures WithBody(t, l, b).nodes == t.nodes[l := t.nodes[l].(body := b)] && WithBody(t, l, b).root == t.root
    ensures forall n :: n in t.nodes ==> WithBody(t, l, b).nodes[n].parent == t.nodes[n].parent
    ensures forall n :: n in t.nodes ==> WithBody(t, l, b).nodes[n].root == t.nodes[n].root
  {
  }

  lemma SameLeavesSelf<V>(t: Tree<V>)
    requires exists p :: Inv(t, p)
    ensures Domains(t) && SameLeaves(t, t)
  {
  }

  lemma SameLeavesTwice<V>(t: Tree<V>, t1: Tree<V>, t': Tree<V>)
    requires Domains(t) && Domains(t1) && SameLeaves(t, t1) && (exists p :: Inv(t', p)) && Domains(t')
    requires SameLeaves(t1, t')
    ensures SameLeaves(t, t')
  {
  }

  /** Slot 0 of a leaf to be removed holds its lower bound. */
  lemma SlotOfLeaf<V>(t: Tree<V>, l: Ptr)
    requires Removable(t, l)
    ensures Domains(t) && l in t.nodes && t.nodes[l].body.Leaf? && Linked(t, l) && l in t.lo && l in t.hi
    ensures |t.nodes[l].body.slots| == WIDTH && t.nodes[l].body.slots[0].key.ikey == t.lo[l]
  {
  }

  /** A layer of one leaf. */
  lemma RootOwns<V>(t: Tree<V>)
    requires Inv(t, Done) && t.root in t.nodes && t.nodes[t.root].body.Leaf?
    ensures forall x: Ikey :: LeafFor(t, x) == t.root
  {
    assert UpOk(t, Done, t.root);
  }

  lemma TakesNow<V>(t: Tree<V>, l: Ptr, i: nat, k: EntryKey)
    requires Inv(t, Done) && LeavesOk(t) && l == LeafFor(t, k.ikey) && LeafAtOk(t, l) && t.nodes[l].body.size < WIDTH
    requires i == LowerPos(Entries(t.nodes[l].body), k)
    requires |t.nodes[l].body.perm| == WIDTH && |t.nodes[l].body.slots| == WIDTH
    requires var b := t.nodes[l].body; b.perm[WIDTH - 1] == 0 ==> b.prev == NULL || b.slots[0].key.ikey == k.ikey
    ensures Taker(t, l, i, k)
  {
  }

  lemma InDomains<V>(t: Tree<V>)
    requires Inv(t, Done)
    ensures Domains(t) && BoundsKept(t, t)
  {
  }

  lemma InnerBelow<V>(t: Tree<V>, q: Ptr)
    requires Inv(t, Done) && q in t.nodes && t.nodes[q].body.Inner?
    ensures 0 < t.nodes[t.root].body.Height()
  {
    assert NodeOk(t, q) && DownOk(t, Done, q);
  }

  /** A root that is a leaf is the only node, without neighbours. */
  lemma RootLeafAlone<V>(t: Tree<V>)
    requires Inv(t, Done) && LeavesOk(t) && t.nodes[t.root].body.Leaf?
    ensures t.nodes[t.root].body.prev == NULL && t.nodes[t.root].body.next == NULL && t.nodes.Keys == {t.root}
  {
    assert UpOk(t, Done, t.root) && LeafAtOk(t, t.root);
    forall n | n in t.nodes ensures n == t.root {
      assert UpOk(t, Done, n);
      if n != t.root { InnerBelow(t, t.nodes[n].parent); }
    }
  }

  /** The children that move to a new internode exist. */
  lemma MovedLive<V>(nodes: map<Ptr, Node<V>>, cs: seq<Ptr>, i: nat, c: Ptr, m: nat, moved: seq<Ptr>)
    requires 0 < i <= |cs| && m < |cs| && c in nodes && moved == InsertAt(cs, i, c)[m + 1..]
    requires forall j :: 0 < j < |cs| ==> cs[j] in nodes
    ensures forall j :: 0 <= j < |moved| ==> moved[j] in nodes
  {
    forall j | 0 <= j < |moved| ensures moved[j] in nodes {
      assert moved[j] == InsertAt(cs, i, c)[m + 1 + j];
    }
  }

  /** Nothing lies between the entries for a slice that ends a key and for one that does not. */
  lemma Beyond<V>(s: seq<Slot<V>>, x: Ikey, i: nat)
    requires Ordered(s)
    requires var j := LowerPos(s, EntryKey(x, 8)); i == if j < |s| && s[j].key == EntryKey(x, 8) then j + 1 else j
    ensures Get(s, EntryKey(x, 9)) == if i < |s| && s[i].key == EntryKey(x, 9) then s[i].val else None
  {
    if i < |s| && s[i].key == EntryKey(x, 9) {
      GetAt(s, i);
    } else {
      forall m | 0 <= m < |s| ensures s[m].key != EntryKey(x, 9) {
        assert i < m ==> Less(s[i].key, s[m].key);
      }
    }
  }

  lemma ParentOrRoot<V>(t: Tree<V>, n: Ptr, c: Ptr)
    requires Inv(t, Split(n, c))
    ensures t.nodes[n].parent == NULL <==> n == t.root
    ensures n != t.root ==>
      && t.nodes[n].parent in t.nodes && t.nodes[t.nodes[n].parent].body.Inner?
      && t.nodes[n].body.Height() < t.nodes[t.nodes[n].parent].body.level <= t.nodes[t.root].body.Height()
      && |t.nodes[t.nodes[n].parent].body.keys| <= WIDTH
  {
    assert UpOk(t, Split(n, c), n);
    if n != t.root {
      var i := FindInParent(t, n, c);
      assert NodeOk(t, t.nodes[n].parent);
    }
  }

  lemma AllChildrenLive<V>(t: Tree<V>, n: Ptr, c: Ptr, q: Ptr)
    requires Inv(t, Split(n, c)) && q in t.nodes && t.nodes[q].body.Inner?
    ensures |t.nodes[q].body.child| == |t.nodes[q].body.keys| + 1
    ensures forall j :: 0 < j < |t.nodes[q].body.child| ==> t.nodes[q].body.child[j] in t.nodes
  {
    assert DownOk(t, Split(n, c), q);
    forall j | 0 < j < |t.nodes[q].body.child| ensures t.nodes[q].body.child[j] in t.nodes {
      assert ChildOk(t, Split(n, c), q, j);
    }
  }
}
